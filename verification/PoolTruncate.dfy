/** truncatePending: water-filling the pending lists of the biggest senders down to the global limit. */
module PoolTruncates {
  import opened Transactions
  import opened TxLists
  import opened KnownTxs
  import opened TxNoncers
  import opened PoolState
  import opened TxPools
  import opened PoolPromotes
  import opened PoolDemotes
  import opened PoolReorgs
  import opened Sums

  type Sizes = map<Address, nat>

  function SizesOf(lists: ListMap): Sizes {
    map a | a in lists :: |lists[a].items|
  }

  /** The number of transactions in all lists. */
  ghost function Total(lists: ListMap): nat {
    Sum(SizesOf(lists))
  }

  method CountAll(lists: ListMap) returns (n: nat)
    ensures n == Total(lists)
  {
    n := 0;
    var left := SizesOf(lists);
    while left != map[]
      invariant n + Sum(left) == Total(lists)
      decreases |left|
    {
      var a :| a in left;
      SumAt(left, a);
      n, left := n + left[a], left - {a};
    }
  }

  /** `part` holds the lowest nonces of `whole`. */
  ghost predicate LowerPart(part: Items, whole: Items) {
    && (forall n :: n in part ==> n in whole && part[n] == whole[n])
    && (forall m, n :: m in part && n in whole && n !in part ==> m < n)
  }

  /** Every list was cut from above, possibly by nothing. */
  ghost predicate Shrunk(before: ListMap, after: ListMap) {
    forall a :: (a in after <==> a in before) && (a in before ==> LowerPart(after[a].items, before[a].items))
  }

  lemma ShrunkFurther(before: ListMap, mid: ListMap, after: ListMap)
    requires Shrunk(before, mid) && Shrunk(mid, after)
    ensures Shrunk(before, after)
  {
    forall a | a in before ensures LowerPart(after[a].items, before[a].items) {
      assert LowerPart(mid[a].items, before[a].items) && LowerPart(after[a].items, mid[a].items);
    }
  }

  /** Being a lower part and having so many entries determines what is left. */
  lemma LowerPartIsCapped(part: Items, whole: Items)
    requires LowerPart(part, whole)
    ensures part == Capped(whole, |part|)
  {
    assert part.Keys <= whole.Keys && whole.Keys == part.Keys + (whole.Keys - part.Keys);
    assert AreLowest(part.Keys, whole.Keys, |part|);
    LowestUnique(part.Keys, Lowest(whole.Keys, |part|), whole.Keys, |part|);
  }

  /** Capping a list at one less than its size cuts off the highest nonce and nothing else. */
  method CapLast(l: ListV) returns (rest: ListV, n: nat)
    requires l.items != map[]
    ensures rest == Cut(l, |l.items| - 1) && |rest.items| == |l.items| - 1
    ensures n in l.items && rest.items == Below(l.items, n) && Splits(l.items, map[n := l.items[n]], rest.items)
  {
    rest := Cut(l, |l.items| - 1);
    ghost var low := Lowest(l.items.Keys, |l.items| - 1);
    assert rest.items.Keys == low && l.items.Keys != {};
    ghost var highest := OneLeft(l.items.Keys, low);
    assert highest in l.items && highest !in rest.items;
    n :| n in l.items && n !in rest.items;
    assert rest.items == Below(l.items, n);
  }

  lemma OneLeft(s: set<nat>, low: set<nat>) returns (n: nat)
    requires s != {} && AreLowest(low, s, |s| - 1)
    ensures n in s && n !in low && forall k :: k in s ==> k == n || (k in low && k < n)
  {
    assert s == low + (s - low) && |s - low| == 1;
    n :| n in s - low;
    assert s - low == {n} + (s - low - {n});
    assert |s - low - {n}| == 0;
  }

  /** What cutting pending lists keeps. */
  ghost predicate Keeps(p: Pool, r: Pool) {
    && r.Valid() && r.known.log == p.known.log && r.known.txs <= p.known.txs
    && r == p.(known := r.known, pending := r.pending, nonces := r.nonces)
    && (p.Gapfree() ==> r.Gapfree())
    && (AllLagging(p) ==> AllLagging(r))
    && Shrunk(p.pending, r.pending)
  }

  function Cut(l: ListV, k: nat): ListV {
    l.(items := Capped(l.items, k))
  }

  /** Drops the pending transaction of `a` with the highest nonce. */
  method DropLast(p: Pool, a: Address) returns (r: Pool)
    requires p.Valid() && a in p.pending && 1 < |p.pending[a].items|
    ensures Keeps(p, r) && SizesOf(r.pending) == SizesOf(p.pending)[a := |p.pending[a].items| - 1]
  {
    var list := p.pending[a];
    assert AccountOk(a, ListOf(p.pending, a, true), ListOf(p.queue, a, false), p.known.txs);
    var rest, n := CapLast(list);
    r := CutPending(p, a, rest, map[n := list.items[n]]);
    r := LowerNonce(p, r, a, n);
    PutShrunk(p.pending, a, rest);
  }

  method LowerNonce(p: Pool, q: Pool, a: Address, n: nat) returns (r: Pool)
    requires q.Valid() && OnlyAt(p.pending, q.pending, a) && n in ItemsOf(p.pending, a)
    requires ItemsOf(q.pending, a) == Below(ItemsOf(p.pending, a), n)
    requires q.state == p.state && q.maxGas == p.maxGas && q.nonces == p.nonces
    ensures r.Valid() && r == q.(nonces := r.nonces)
    ensures p.Gapfree() ==> r.Gapfree()
    ensures AllLagging(p) ==> AllLagging(r)
  {
    r := q.(nonces := Lowered(q.nonces, q.state, a, n));
    CutKeeps(p, r, a, n);
  }

  lemma PutShrunk(lists: ListMap, a: Address, l: ListV)
    requires a in lists && LowerPart(l.items, lists[a].items)
    ensures Shrunk(lists, lists[a := l]) && SizesOf(lists[a := l]) == SizesOf(lists)[a := |l.items|]
  {
  }

  method CutPending(p: Pool, a: Address, rest: ListV, caps: Items) returns (r: Pool)
    requires p.Valid() && a in p.pending && Splits(p.pending[a].items, caps, rest.items)
    requires rest.items != map[] && rest.WellFormed() && rest.strict
    ensures r.Valid() && r == p.(known := r.known, pending := p.pending[a := rest])
    ensures r.known.log == p.known.log && r.known.txs <= p.known.txs
    ensures OnlyAt(p.pending, r.pending, a) && ItemsOf(r.pending, a) == rest.items
    ensures ItemsOf(p.pending, a) == p.pending[a].items
  {
    assert ItemsOf(p.pending, a) == p.pending[a].items;
    ghost var q := ListOf(p.queue, a, false);
    assert AccountOk(a, ListOf(p.pending, a, true), q, p.known.txs);
    DropPending(a, p.pending[a], rest, q, caps, p.known.txs);
    ValuesFrom(caps, a);
    var known := Drop(p.known, caps);
    known := Count(known);
    r := StorePending(p, p.(known := known), a, rest);
  }

  lemma CutKeeps(p: Pool, r: Pool, a: Address, n: nat)
    requires OnlyAt(p.pending, r.pending, a) && n in ItemsOf(p.pending, a)
    requires ItemsOf(r.pending, a) == Below(ItemsOf(p.pending, a), n)
    requires r.state == p.state && r.maxGas == p.maxGas && r.nonces == Lowered(p.nonces, p.state, a, n)
    ensures p.Gapfree() ==> r.Gapfree()
    ensures AllLagging(p) ==> AllLagging(r)
  {
    if p.Gapfree() {
      CutKeepsGapless(p.pending, r.pending, p.state, p.nonces, a, n);
    }
    if AllLagging(p) {
      assert LaggingAt(p, a);
      CutLagging(ItemsOf(p.pending, a), NonceOf(p.state, a), Virtual(p.nonces, p.state, a), n);
      assert LaggingAt(r, a);
      forall b | b != a ensures LaggingAt(r, b) {
        assert LaggingAt(p, b);
        ElsewhereSame(p, r, a, b);
      }
    }
  }

  lemma CutLagging(items: Items, s: nat, virtual: nat, n: nat)
    requires Lagging(items, s, virtual) && n in items
    ensures Lagging(Below(items, n), s, if virtual <= n then virtual else n)
  {
    var end: nat :| Spans(items, s, end) && s <= virtual <= end;
    assert Spans(Below(items, n), s, n);
  }

  /** Accounts in `low` are at `t - 1`, those in `high` at `t`, and all others as before. */
  ghost predicate Levels(before: Sizes, after: Sizes, low: set<Address>, high: set<Address>, t: nat) {
    forall a :: (a in after <==> a in before) &&
      (a in before ==> after[a] == if a in low then t - 1 else if a in high then t else before[a])
  }

  lemma LevelsStep(before: Sizes, after: Sizes, offs: set<Address>, left: set<Address>, t: nat, a: Address)
    requires Levels(before, after, offs - left, left, t) && left <= offs && a in left && a in before && 0 < t
    ensures a in after && after[a] == t
    ensures Levels(before, after[a := t - 1], offs - (left - {a}), left - {a}, t)
  {
  }

  /** A round lowers the sum by one for each offender. */
  lemma {:induction false} SumLowered(sizes: Sizes, sizes': Sizes, offs: set<Address>)
    requires forall a ::
               (a in sizes <==> a in sizes')
                 && (a in sizes ==> sizes[a] == if a in offs then sizes'[a] + 1 else sizes'[a])
    requires offs <= sizes.Keys
    ensures Sum(sizes) == Sum(sizes') + |offs|
    decreases |sizes|
  {
    if sizes == map[] {
      assert sizes' == map[] && offs == {};
    } else {
      var a :| a in sizes;
      SumAt(sizes, a);
      SumAt(sizes', a);
      SumLowered(sizes - {a}, sizes' - {a}, offs - {a});
      assert a in offs ==> |offs| == |offs - {a}| + 1;
      assert a !in offs ==> offs - {a} == offs;
    }
  }

  /** One step of a round: the offender `a` gives up its last pending transaction. */
  method RoundStep(p: Pool, q: Pool, ghost offs: set<Address>, ghost left: set<Address>, a: Address, ghost t: nat)
    returns (r: Pool)
    requires Keeps(p, q) && Levels(SizesOf(p.pending), SizesOf(q.pending), offs - left, left, t) && 1 < t
    requires a in left && left <= offs && a in p.pending
    ensures Keeps(p, r) && Levels(SizesOf(p.pending), SizesOf(r.pending), offs - (left - {a}), left - {a}, t)
  {
    LevelsStep(SizesOf(p.pending), SizesOf(q.pending), offs, left, t, a);
    r := DropLast(q, a);
    ShrunkFurther(p.pending, q.pending, r.pending);
  }

  /** One round: every offender gives up its last pending transaction. */
  method Round(p: Pool, q: Pool, offs: set<Address>, ghost t: nat) returns (r: Pool)
    requires Keeps(p, q) && Levels(SizesOf(p.pending), SizesOf(q.pending), {}, offs, t) && 1 < t
    requires offs <= p.pending.Keys
    ensures Keeps(p, r) && Levels(SizesOf(p.pending), SizesOf(r.pending), {}, offs, t - 1)
    ensures Total(r.pending) == Total(q.pending) - |offs|
  {
    r := q;
    var left := offs;
    while left != {}
      invariant left <= offs && Keeps(p, r)
      invariant Levels(SizesOf(p.pending), SizesOf(r.pending), offs - left, left, t)
      decreases left
    {
      var a :| a in left;
      r := RoundStep(p, r, offs, left, a, t);
      left := left - {a};
    }
    RoundDone(SizesOf(p.pending), SizesOf(q.pending), SizesOf(r.pending), offs, t);
  }

  lemma RoundDone(before: Sizes, sizes: Sizes, sizes': Sizes, offs: set<Address>, t: nat)
    requires Levels(before, sizes, {}, offs, t) && Levels(before, sizes', offs - {}, {}, t) && 0 < t
    requires offs <= before.Keys
    ensures Levels(before, sizes', {}, offs, t - 1) && Sum(sizes) == Sum(sizes') + |offs|
  {
    SumLowered(sizes, sizes', offs);
  }

  /** The sizes when the accounts in `spam` are cut to at most `m`. */
  function LevelSizes(sizes: Sizes, spam: set<Address>, m: nat): Sizes {
    map a | a in sizes :: if a in spam && m < sizes[a] then m else sizes[a]
  }

  /**
   * The state of the filling: the offenders are cut to the level `t`, the other spammers are
   * untouched and no longer than that, and one level higher would still exceed the limit.
   */
  ghost predicate Filling(before: Sizes, sizes: Sizes, offs: set<Address>, left: set<Address>, t: nat, limit: nat) {
    && offs !! left && offs + left <= before.Keys
    && Levels(before, sizes, {}, offs, t)
    && (forall a :: a in left ==> before[a] <= t)
    && limit < Sum(LevelSizes(before, offs + left, t + 1))
  }

  /** The offenders have not been overtaken: each of them is exactly at the level. */
  ghost predicate Even(before: Sizes, offs: set<Address>, t: nat) {
    forall a :: a in offs ==> a in before && t <= before[a]
  }

  lemma FillingIsLevel(before: Sizes, sizes: Sizes, offs: set<Address>, left: set<Address>, t: nat, limit: nat)
    requires Filling(before, sizes, offs, left, t, limit)
    requires forall a :: a in offs ==> sizes[a] <= before[a]
    ensures sizes == LevelSizes(before, offs + left, t)
  {
  }

  /** A round from a state above the limit. */
  lemma FillingStep(before: Sizes, sizes: Sizes, sizes': Sizes, offs: set<Address>, left: set<Address>, t: nat,
                    limit: nat)
    requires Filling(before, sizes, offs, left, t, limit) && Even(before, offs, t) && limit < Sum(sizes) && 0 < t
    requires Levels(before, sizes', {}, offs, t - 1) && forall a :: a in left ==> before[a] <= t - 1
    ensures Filling(before, sizes', offs, left, t - 1, limit) && Even(before, offs, t - 1)
  {
    FillingIsLevel(before, sizes, offs, left, t, limit);
  }

  lemma FillingPop(before: Sizes, sizes: Sizes, offs: set<Address>, left: set<Address>, a: Address, t: nat, limit: nat)
    requires Filling(before, sizes, offs, left, t, limit) && a in left && before[a] == t
    ensures Filling(before, sizes, offs + {a}, left - {a}, t, limit)
    ensures Even(before, offs, t) ==> Even(before, offs + {a}, t)
  {
    assert offs + {a} + (left - {a}) == offs + left;
  }

  lemma {:induction false} SameSum(before: Sizes, spam: set<Address>, m: nat)
    requires forall a :: a in spam && a in before ==> before[a] <= m
    ensures LevelSizes(before, spam, m) == before
  {
  }

  /** Raising the level by one adds one for each account that is cut. */
  lemma LevelGap(before: Sizes, spam: set<Address>, m: nat)
    requires spam <= before.Keys
    ensures var cut := set a | a in spam && m < before[a];
            Sum(LevelSizes(before, spam, m + 1)) == Sum(LevelSizes(before, spam, m)) + |cut|
  {
    SumLowered(LevelSizes(before, spam, m + 1), LevelSizes(before, spam, m), set a | a in spam && m < before[a]);
  }

  /** Everything the filling relies on while it lowers the offenders from a pool `p`. */
  ghost predicate Lowering(p: Pool, r: Pool, offs: set<Address>, left: set<Address>, t: nat, limit: nat) {
    && Keeps(p, r) && Filling(SizesOf(p.pending), SizesOf(r.pending), offs, left, t, limit)
    && Even(SizesOf(p.pending), offs, t)
  }

  lemma OffenderSize(before: Sizes, lists: ListMap, offs: set<Address>, t: nat, a: Address)
    requires Levels(before, SizesOf(lists), {}, offs, t) && a in offs && a in before
    ensures a in lists && |lists[a].items| == t
  {
    assert SizesOf(lists)[a] == t;
  }

  method LowerStep(p: Pool, q: Pool, offs: set<Address>, ghost left: set<Address>, ghost t: nat, limit: nat)
    returns (r: Pool)
    requires Lowering(p, q, offs, left, t, limit) && limit < Total(q.pending) && 1 < t
    requires forall a :: a in left ==> SizesOf(p.pending)[a] < t
    ensures Lowering(p, r, offs, left, t - 1, limit) && Total(r.pending) == Total(q.pending) - |offs|
  {
    r := Round(p, q, offs, t);
    FillingStep(SizesOf(p.pending), SizesOf(q.pending), SizesOf(r.pending), offs, left, t, limit);
  }

  /** Rounds over the offenders until the limit is met or they are down to `floor`. */
  method Lower(p: Pool, q: Pool, offs: set<Address>, latest: Address, floor: nat, limit: nat, count: nat,
               ghost left: set<Address>, ghost t0: nat) returns (r: Pool, pending: nat, ghost t: nat)
    requires Lowering(p, q, offs, left, t0, limit) && count == Total(q.pending) && latest in offs && 1 <= floor <= t0
    requires forall a :: a in left ==> SizesOf(p.pending)[a] <= floor
    ensures Lowering(p, r, offs, left, t, limit) && pending == Total(r.pending) && floor <= t
    ensures pending <= limit || t == floor
  {
    r, pending, t := q, count, t0;
    OffenderSize(SizesOf(p.pending), r.pending, offs, t, latest);
    while limit < pending && floor < |r.pending[latest].items|
      invariant Lowering(p, r, offs, left, t, limit) && pending == Total(r.pending) && floor <= t
      invariant latest in r.pending && |r.pending[latest].items| == t
      decreases t
    {
      r := LowerStep(p, r, offs, left, t, limit);
      pending, t := pending - |offs|, t - 1;
      OffenderSize(SizesOf(p.pending), r.pending, offs, t, latest);
    }
  }

  /** The priority queue hands out the account with the longest list. */
  method Longest(sizes: Sizes, left: set<Address>) returns (a: Address)
    requires left != {} && left <= sizes.Keys
    ensures a in left && forall b :: b in left ==> sizes[b] <= sizes[a]
  {
    a :| a in left;
    var rest := left - {a};
    while rest != {}
      invariant rest <= left && a in left && forall b :: b in left - rest ==> sizes[b] <= sizes[a]
      decreases rest
    {
      var b :| b in rest;
      a, rest := if sizes[a] < sizes[b] then b else a, rest - {b};
    }
  }

  /** The accounts that may be cut: not local, and above the per-account allowance. */
  function Spammers(p: Pool): set<Address> {
    set a | a in p.pending && a !in p.locals && p.config.accountSlots < |p.pending[a].items|
  }

  /**
   * The result of truncation: every spammer is cut to one common level, nobody else is
   * touched, the level is the highest that meets the global limit, or the allowance if none
   * does, and the limit is undershot by less than the number of accounts cut.
   */
  ghost predicate Truncated(p: Pool, r: Pool, level: nat) {
    && p.config.accountSlots <= level
    && SizesOf(r.pending) == LevelSizes(SizesOf(p.pending), Spammers(p), level)
    && (Total(r.pending) <= p.config.globalSlots || level == p.config.accountSlots)
    && p.config.globalSlots < Sum(LevelSizes(SizesOf(p.pending), Spammers(p), level + 1))
    && p.config.globalSlots < Total(r.pending) + |set a | a in Spammers(p) && level < SizesOf(p.pending)[a]|
  }

  lemma TruncatedDone(p: Pool, r: Pool, offs: set<Address>, left: set<Address>, level: nat)
    requires Filling(SizesOf(p.pending), SizesOf(r.pending), offs, left, level, p.config.globalSlots)
    requires Even(SizesOf(p.pending), offs, level) && offs + left == Spammers(p)
    requires p.config.accountSlots <= level
    requires (Total(r.pending) <= p.config.globalSlots || level == p.config.accountSlots)
    ensures Truncated(p, r, level)
  {
    FillingIsLevel(SizesOf(p.pending), SizesOf(r.pending), offs, left, level, p.config.globalSlots);
    LevelGap(SizesOf(p.pending), offs + left, level);
  }

  lemma LoweringStart(p: Pool, m: nat, limit: nat)
    requires p.Valid() && limit < Total(p.pending)
    requires forall a :: a in Spammers(p) ==> |p.pending[a].items| <= m
    ensures Lowering(p, p, {}, Spammers(p), m, limit)
  {
    KeepsSelf(p);
    FillingStart(SizesOf(p.pending), Spammers(p), m, limit);
  }

  lemma KeepsSelf(p: Pool)
    requires p.Valid()
    ensures Keeps(p, p)
  {
    forall a | a in p.pending ensures LowerPart(p.pending[a].items, p.pending[a].items) {}
  }

  lemma FillingStart(sizes: Sizes, spam: set<Address>, m: nat, limit: nat)
    requires spam <= sizes.Keys && limit < Sum(sizes) && forall a :: a in spam ==> sizes[a] <= m
    ensures Filling(sizes, sizes, {}, spam, m, limit)
  {
    SameSum(sizes, {} + spam, m + 1);
  }

  lemma LoweringPop(p: Pool, r: Pool, offs: set<Address>, left: set<Address>, a: Address, t: nat, limit: nat)
    requires Lowering(p, r, offs, left, t, limit) && a in left && SizesOf(p.pending)[a] == t
    ensures Lowering(p, r, offs + {a}, left - {a}, t, limit) && offs + {a} + (left - {a}) == offs + left
  {
    FillingPop(SizesOf(p.pending), SizesOf(r.pending), offs, left, a, t, limit);
  }

  lemma FirstPop(p: Pool, a: Address, limit: nat)
    requires p.Valid() && limit < Total(p.pending) && a in Spammers(p)
    requires forall b :: b in Spammers(p) ==> SizesOf(p.pending)[b] <= SizesOf(p.pending)[a]
    ensures Lowering(p, p, {a}, Spammers(p) - {a}, SizesOf(p.pending)[a], limit)
    ensures {a} + (Spammers(p) - {a}) == Spammers(p)
  {
    LoweringStart(p, SizesOf(p.pending)[a], limit);
    LoweringPop(p, p, {}, Spammers(p), a, SizesOf(p.pending)[a], limit);
    assert {} + {a} == {a};
  }

  /** Equalises the spammers, longest first, until the limit is met or all of them are level. */
  method Equalise(p: Pool, count: nat)
    returns (r: Pool, pending: nat, offs: set<Address>, latest: Address, ghost left: set<Address>, ghost t: nat)
    requires p.Valid() && 1 <= p.config.accountSlots && Spammers(p) != {} && count == Total(p.pending)
    requires p.config.globalSlots < count
    ensures Lowering(p, r, offs, left, t, p.config.globalSlots) && offs + left == Spammers(p)
    ensures pending == Total(r.pending) && latest in offs && p.config.accountSlots <= t
    ensures pending <= p.config.globalSlots || left == {}
  {
    var sizes, limit, rest := SizesOf(p.pending), p.config.globalSlots, Spammers(p);
    latest := Longest(sizes, rest);
    t := sizes[latest];
    FirstPop(p, latest, limit);
    r, pending, offs, rest := p, count, {latest}, rest - {latest};
    while limit < pending && rest != {}
      invariant Lowering(p, r, offs, rest, t, limit) && offs + rest == Spammers(p) && latest in offs
      invariant pending == Total(r.pending) && p.config.accountSlots <= t
      decreases rest
    {
      var next := Longest(sizes, rest);
      r, pending, t := Lower(p, r, offs, latest, sizes[next], limit, pending, rest, t);
      if pending <= limit {
        break;
      }
      LoweringPop(p, r, offs, rest, next, t, limit);
      offs, rest, latest := offs + {next}, rest - {next}, next;
    }
    left := rest;
  }

  method TruncatePending(p: Pool) returns (r: Pool, dropped: nat, ghost level: nat)
    requires p.Valid() && 1 <= p.config.accountSlots
    ensures Keeps(p, r) && Total(r.pending) + dropped == Total(p.pending)
    ensures Total(p.pending) <= p.config.globalSlots ==> r == p
    ensures p.config.globalSlots < Total(p.pending) ==> Truncated(p, r, level)
  {
    var before := CountAll(p.pending);
    level := p.config.accountSlots;
    r, dropped := p, 0;
    if before <= p.config.globalSlots || Spammers(p) == {} {
      NothingToCut(p);
      return;
    }
    var pending, offs, latest;
    ghost var left;
    r, pending, offs, latest, left, level := Equalise(p, before);
    if p.config.globalSlots < pending {
      r, pending, level := Lower(p, r, offs, latest, p.config.accountSlots, p.config.globalSlots, pending, left, level);
    }
    TruncatedDone(p, r, offs, left, level);
    FewerLeft(SizesOf(p.pending), Spammers(p), level);
    dropped := before - pending;
  }

  lemma NothingToCut(p: Pool)
    requires p.Valid()
    ensures Keeps(p, p)
    ensures Spammers(p) == {} && p.config.globalSlots < Total(p.pending) ==> Truncated(p, p, p.config.accountSlots)
  {
    KeepsSelf(p);
    if Spammers(p) == {} && p.config.globalSlots < Total(p.pending) {
      LoweringStart(p, p.config.accountSlots, p.config.globalSlots);
      TruncatedDone(p, p, {}, Spammers(p), p.config.accountSlots);
    }
  }

  lemma FewerLeft(sizes: Sizes, spam: set<Address>, m: nat)
    ensures Sum(LevelSizes(sizes, spam, m)) <= Sum(sizes)
  {
    SumAtMost(sizes, LevelSizes(sizes, spam, m));
  }
}
