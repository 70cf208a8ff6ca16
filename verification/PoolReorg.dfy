/** The loops of a reorg run: promotion and demotion over all accounts concerned. */
module PoolReorgs {
  import opened Transactions
  import opened TxSortedMaps
  import opened TxLists
  import opened TxNoncers
  import opened PoolState
  import opened TxPools
  import opened PoolPromotes
  import opened PoolDemotes

  ghost predicate AllStart(p: Pool) {
    forall a {:trigger StartsAt(p, a)} :: StartsAt(p, a)
  }

  ghost predicate AllSettle(p: Pool) {
    forall a {:trigger SettlesAt(p, a)} :: SettlesAt(p, a)
  }

  ghost predicate AllDemotable(p: Pool) {
    forall a {:trigger DemotableAt(p, a)} :: DemotableAt(p, a)
  }

  ghost predicate AllLagging(p: Pool) {
    forall a {:trigger LaggingAt(p, a)} :: LaggingAt(p, a)
  }

  /** Only `a`'s pending list and virtual nonce differ; the chain state is the same. */
  ghost predicate Elsewhere(p: Pool, r: Pool, a: Address) {
    r.state == p.state && r.maxGas == p.maxGas && OnlyNonceAt(p.pending, p.nonces, r.pending, r.nonces, a)
  }

  lemma ElsewhereSame(p: Pool, r: Pool, a: Address, b: Address)
    requires Elsewhere(p, r, a) && b != a
    ensures ItemsOf(r.pending, b) == ItemsOf(p.pending, b)
    ensures Virtual(r.nonces, r.state, b) == Virtual(p.nonces, p.state, b)
    ensures LaggingAt(p, b) ==> LaggingAt(r, b)
  {
  }

  /** The lists and the virtual nonce of `a` are the same in both pools. */
  ghost predicate SameAt(p: Pool, r: Pool, a: Address) {
    && (a in p.pending <==> a in r.pending) && (a in p.pending ==> p.pending[a] == r.pending[a])
    && (a in p.queue <==> a in r.queue) && (a in p.queue ==> p.queue[a] == r.queue[a])
    && Virtual(p.nonces, p.state, a) == Virtual(r.nonces, p.state, a)
  }

  /** Promotion as one account sees it. */
  ghost predicate PromotedAt(p: Pool, r: Pool, a: Address) {
    var q := Eligible(ListOf(p.queue, a, false), LimitsOf(p, a));
    var start := Virtual(p.nonces, p.state, a);
    var lo, hi := ReadyStart(q.items, start), ReadyEnd(q.items, start);
    && Gained(ItemsOf(r.pending, a), ItemsOf(p.pending, a), Below(q.items, hi), {})
    && ItemsOf(r.queue, a) == Leftover(q, hi, a in p.locals, p.config.accountQueue).items
    && Virtual(r.nonces, p.state, a) == if lo == hi then start else hi
  }

  /** Every account in `accounts` with a queue was promoted, and no other account changed. */
  ghost predicate AllPromoted(p: Pool, r: Pool, accounts: set<Address>) {
    forall a {:trigger SameAt(p, r, a)} {:trigger PromotedAt(p, r, a)} ::
      if a in accounts && a in p.queue then PromotedAt(p, r, a) else SameAt(p, r, a)
  }

  lemma PromotedHere(p: Pool, q: Pool, r: Pool, a: Address)
    requires SameAt(p, q, a) && Promoted(q, r, a)
    requires q == p.(known := q.known, pending := q.pending, queue := q.queue, nonces := q.nonces, beats := q.beats)
    ensures PromotedAt(p, r, a)
  {
  }

  /** Only the lists and the virtual nonce of `a` differ. */
  ghost predicate ChangedAt(q: Pool, r: Pool, a: Address) {
    && OnlyAt(q.pending, r.pending, a) && OnlyAt(q.queue, r.queue, a)
    && forall b :: b != a ==> (b in q.nonces <==> b in r.nonces) && (b in q.nonces ==> q.nonces[b] == r.nonces[b])
  }

  lemma PromotedElsewhere(p: Pool, q: Pool, r: Pool, a: Address, b: Address)
    requires ChangedAt(q, r, a) && b != a
    ensures PromotedAt(p, q, b) ==> PromotedAt(p, r, b)
    ensures SameAt(p, q, b) ==> SameAt(p, r, b)
  {
  }

  lemma AllPromotedStep(p: Pool, q: Pool, r: Pool, done: set<Address>, a: Address)
    requires AllPromoted(p, q, done) && a !in done && r.state == q.state
    requires q == p.(known := q.known, pending := q.pending, queue := q.queue, nonces := q.nonces, beats := q.beats)
    requires if a in q.queue then Promoted(q, r, a) else r == q
    ensures AllPromoted(p, r, done + {a})
  {
    assert SameAt(p, q, a);
    if a in q.queue {
      PromotedHere(p, q, r, a);
      assert ChangedAt(q, r, a);
      forall b | b != a ensures if b in done && b in p.queue then PromotedAt(p, r, b) else SameAt(p, r, b) {
        assert PromotedAt(p, q, b) || SameAt(p, q, b);
        PromotedElsewhere(p, q, r, a, b);
      }
    }
  }

  function EventsOf(events: TxEvents, a: Address): Items {
    if a in events then events[a] else map[]
  }

  /** `promoted` is exactly what promotion of `accounts` takes from the queues. */
  ghost predicate Takes(p: Pool, accounts: set<Address>, promoted: TxEvents) {
    forall a {:trigger EventsOf(promoted, a)} ::
      EventsOf(promoted, a) == if a in accounts && a in p.queue then ReadyAt(p, a) else map[]
  }

  lemma TakesOne(p: Pool, done: set<Address>, promoted: TxEvents, a: Address, items: Items)
    requires Takes(p, done, promoted) && a !in done && items == if a in p.queue then ReadyAt(p, a) else map[]
    ensures Takes(p, done + {a}, promoted[a := items])
  {
    forall b ensures EventsOf(promoted[a := items], b) ==
                     if b in done + {a} && b in p.queue then ReadyAt(p, b) else map[] {
      if b != a {
        assert EventsOf(promoted[a := items], b) == EventsOf(promoted, b);
      }
    }
  }

  /** The queue does not hold the transaction that the account could send next. */
  ghost predicate NothingDueAt(p: Pool, a: Address) {
    Virtual(p.nonces, p.state, a) !in ItemsOf(p.queue, a)
  }

  /** What promotion leaves in a queue was eligible, and does not continue the run that was taken. */
  lemma PromotedQueue(p: Pool, r: Pool, a: Address)
    requires PromotedAt(p, r, a) && r.state == p.state
    ensures Within(ItemsOf(r.queue, a), Eligible(ListOf(p.queue, a, false), LimitsOf(p, a)).items) && NothingDueAt(r, a)
  {
    var q, start := Eligible(ListOf(p.queue, a, false), LimitsOf(p, a)), Virtual(p.nonces, p.state, a);
    ReadyIsRun(q.items, start);
    LeftoverWithin(q, ReadyEnd(q.items, start), a in p.locals, p.config.accountQueue);
  }

  lemma NothingExecutableLeft(p: Pool, r: Pool, accounts: set<Address>)
    requires AllPromoted(p, r, accounts) && r.state == p.state
    ensures NothingDue(r, accounts)
  {
    forall a | a in accounts ensures NothingDueAt(r, a) {
      if a in p.queue {
        assert PromotedAt(p, r, a);
        PromotedQueue(p, r, a);
      } else {
        assert SameAt(p, r, a);
      }
    }
  }

  ghost predicate NothingDue(p: Pool, accounts: set<Address>) {
    forall a {:trigger NothingDueAt(p, a)} :: a in accounts ==> NothingDueAt(p, a)
  }

  /** Promotion after the accounts in `done`; those in `left` are still to come. */
  ghost predicate PromotedSoFar(p: Pool, r: Pool, done: set<Address>, left: set<Address>) {
    && r.Valid() && r.known.log == p.known.log && r.known.txs <= p.known.txs
    && r == p.(known := r.known, pending := r.pending, queue := r.queue, nonces := r.nonces, beats := r.beats)
    && done !! left && AllPromoted(p, r, done)
    && (p.Gapfree() ==> r.Gapfree())
  }

  method PromoteOne(p: Pool, q: Pool, ghost done: set<Address>, left: set<Address>, a: Address)
    returns (r: Pool, promoted: Items)
    requires PromotedSoFar(p, q, done, left) && a in left
    ensures PromotedSoFar(p, r, done + {a}, left - {a})
    ensures promoted == if a in p.queue then ReadyAt(p, a) else map[]
  {
    r, promoted := PromoteAccount(q, a);
    assert SameAt(p, q, a);
    AllPromotedStep(p, q, r, done, a);
    assert InOrder(q, a);
    if p.Gapfree() && a in q.queue {
      PromotedGapfree(q, r, a);
    }
  }

  method PromoteExecutables(p: Pool, accounts: set<Address>) returns (r: Pool, promoted: TxEvents)
    requires p.Valid()
    ensures r.Valid() && r.known.log == p.known.log && r.known.txs <= p.known.txs
    ensures r == p.(known := r.known, pending := r.pending, queue := r.queue, nonces := r.nonces, beats := r.beats)
    ensures AllPromoted(p, r, accounts) && NothingDue(r, accounts)
    ensures p.Gapfree() ==> r.Gapfree()
    ensures Takes(p, accounts, promoted)
  {
    r, promoted := p, map[];
    var left := accounts;
    ghost var done: set<Address> := {};
    while left != {}
      invariant done + left == accounts && PromotedSoFar(p, r, done, left) && Takes(p, done, promoted)
      decreases left
    {
      var a :| a in left;
      var items;
      r, items := PromoteOne(p, r, done, left, a);
      TakesOne(p, done, promoted, a, items);
      left, done, promoted := left - {a}, done + {a}, promoted[a := items];
    }
    assert done == accounts;
    NothingExecutableLeft(p, r, accounts);
  }

  /** Demotion as one account sees it. */
  ghost predicate DemotedAt(p: Pool, r: Pool, a: Address) {
    var f := Refiltered(ListOf(p.pending, a, true), LimitsOf(p, a));
    var gapped := GapInFront(f.rest.items, NonceOf(p.state, a));
    && ItemsOf(r.pending, a) == (if gapped then map[] else f.rest.items)
    && Gained(ItemsOf(r.queue, a), ItemsOf(p.queue, a), if gapped then f.invalids + f.rest.items else f.invalids, {})
  }

  ghost predicate AllDemoted(p: Pool, r: Pool, accounts: set<Address>) {
    forall a {:trigger SameAt(p, r, a)} {:trigger DemotedAt(p, r, a)} ::
      if a in accounts then DemotedAt(p, r, a) else SameAt(p, r, a)
  }

  lemma DemotedHere(p: Pool, q: Pool, r: Pool, a: Address, gapped: bool)
    requires SameAt(p, q, a) && Demoted(q, r, a, gapped)
    requires q == p.(known := q.known, pending := q.pending, queue := q.queue, beats := q.beats)
    ensures DemotedAt(p, r, a)
  {
  }

  lemma DemotedElsewhere(p: Pool, q: Pool, r: Pool, a: Address, b: Address)
    requires ChangedAt(q, r, a) && b != a
    ensures DemotedAt(p, q, b) ==> DemotedAt(p, r, b)
    ensures SameAt(p, q, b) ==> SameAt(p, r, b)
  {
  }

  lemma AllDemotedStep(p: Pool, q: Pool, r: Pool, done: set<Address>, a: Address, gapped: bool)
    requires AllDemoted(p, q, done) && a !in done && r.nonces == q.nonces && Demoted(q, r, a, gapped)
    requires q == p.(known := q.known, pending := q.pending, queue := q.queue, beats := q.beats)
    ensures AllDemoted(p, r, done + {a})
  {
    assert SameAt(p, q, a);
    DemotedHere(p, q, r, a, gapped);
    assert ChangedAt(q, r, a);
    forall b | b != a ensures if b in done then DemotedAt(p, r, b) else SameAt(p, r, b) {
      assert DemotedAt(p, q, b) || SameAt(p, q, b);
      DemotedElsewhere(p, q, r, a, b);
    }
  }

  /** The accounts that demotion would find with a gap in front. */
  ghost function Alerted(p: Pool): set<Address> {
    set a | a in p.pending && GapInFront(RestAt(p, a), NonceOf(p.state, a))
  }

  /** Demotion of all but the accounts in `left`. */
  ghost predicate DemotedSoFar(p: Pool, r: Pool, left: set<Address>, alerts: nat) {
    && r.Valid() && r.known.log == p.known.log && r.known.txs <= p.known.txs
    && r == p.(known := r.known, pending := r.pending, queue := r.queue, beats := r.beats)
    && left <= p.pending.Keys && AllDemoted(p, r, p.pending.Keys - left)
    && alerts == |Alerted(p) - left|
  }

  lemma CountedOne(alerted: set<Address>, left: set<Address>, a: Address)
    requires a in left
    ensures |alerted - (left - {a})| == |alerted - left| + if a in alerted then 1 else 0
  {
    assert alerted - (left - {a}) == alerted - left + if a in alerted then {a} else {};
  }

  lemma NothingDemoted(p: Pool)
    requires p.Valid()
    ensures DemotedSoFar(p, p, p.pending.Keys, 0)
  {
    assert Alerted(p) - p.pending.Keys == {} && p.pending.Keys - p.pending.Keys == {};
  }

  lemma EverythingDemoted(p: Pool, r: Pool, alerts: nat)
    requires DemotedSoFar(p, r, {}, alerts)
    ensures AllDemoted(p, r, p.pending.Keys) && alerts == |Alerted(p)|
  {
    assert Alerted(p) - {} == Alerted(p) && p.pending.Keys - {} == p.pending.Keys;
  }

  lemma StillToDemote(p: Pool, q: Pool, r: Pool, left: set<Address>, a: Address, gapped: bool)
    requires AllDemoted(p, q, p.pending.Keys - left) && a in left && left <= p.pending.Keys && r.nonces == q.nonces
    requires Demoted(q, r, a, gapped)
    requires q == p.(known := q.known, pending := q.pending, queue := q.queue, beats := q.beats)
    ensures AllDemoted(p, r, p.pending.Keys - (left - {a}))
  {
    AllDemotedStep(p, q, r, p.pending.Keys - left, a, gapped);
    assert p.pending.Keys - left + {a} == p.pending.Keys - (left - {a});
  }

  lemma AlertedOne(p: Pool, q: Pool, r: Pool, left: set<Address>, a: Address, gapped: bool)
    requires AllDemoted(p, q, p.pending.Keys - left) && a in left && left <= p.pending.Keys
    requires Demoted(q, r, a, gapped) && q.state == p.state && q.maxGas == p.maxGas
    ensures |Alerted(p) - (left - {a})| == |Alerted(p) - left| + if gapped then 1 else 0
  {
    assert SameAt(p, q, a);
    CountedOne(Alerted(p), left, a);
  }

  method DemoteNext(p: Pool, q: Pool, left: set<Address>, alerts: nat, a: Address) returns (r: Pool, alerts': nat)
    requires DemotedSoFar(p, q, left, alerts) && a in left
    ensures DemotedSoFar(p, r, left - {a}, alerts')
  {
    var gapped;
    r, gapped := DemoteAccount(q, a);
    alerts' := if gapped then alerts + 1 else alerts;
    StillToDemote(p, q, r, left, a, gapped);
    AlertedOne(p, q, r, left, a, gapped);
  }

  /** `alerts` counts the accounts found with a gap in front. */
  method DemoteUnexecutables(p: Pool) returns (r: Pool, alerts: nat)
    requires p.Valid()
    ensures r.Valid() && r.known.log == p.known.log && r.known.txs <= p.known.txs
    ensures r == p.(known := r.known, pending := r.pending, queue := r.queue, beats := r.beats)
    ensures AllDemoted(p, r, p.pending.Keys)
    ensures alerts == |Alerted(p)|
  {
    r, alerts := p, 0;
    var left := p.pending.Keys;
    NothingDemoted(p);
    while left != {}
      invariant DemotedSoFar(p, r, left, alerts)
      decreases left
    {
      var a :| a in left;
      r, alerts := DemoteNext(p, r, left, alerts, a);
      left := left - {a};
    }
    EverythingDemoted(p, r, alerts);
  }

  /** What demotion leaves an account, also one that has nothing pending. */
  lemma DemotedTo(p: Pool, r: Pool, a: Address)
    requires AllDemoted(p, r, p.pending.Keys)
    ensures ItemsOf(r.pending, a) == if a in Alerted(p) then map[] else RestAt(p, a)
    ensures a in Alerted(p) <==> GapInFront(RestAt(p, a), NonceOf(p.state, a))
  {
    if a in p.pending {
      assert DemotedAt(p, r, a);
    } else {
      assert SameAt(p, r, a);
      assert AtLeast(map[], NonceOf(p.state, a)) == map[];
    }
  }

  /** Demotion leaves a pool that it can handle without a gap, and no alert is raised. */
  lemma DemotedLagging(p: Pool, r: Pool)
    requires p.Valid() && AllDemotable(p) && AllDemoted(p, r, p.pending.Keys) && r.state == p.state
    requires r.nonces == p.nonces
    ensures AllLagging(r) && Alerted(p) == {}
  {
    forall a ensures LaggingAt(r, a) && a !in Alerted(p) {
      assert DemotableAt(p, a) && InOrder(p, a);
      SameItems(p.pending, a, true);
      PrefixLagging(ListOf(p.pending, a, true), LimitsOf(p, a), Virtual(p.nonces, p.state, a));
      DemotedTo(p, r, a);
    }
  }

  /** If the pool could not follow the head, nothing needs to be dropped. */
  lemma PayableDemotable(p: Pool)
    requires p.Valid() && p.Gapfree() && p.AllPayable()
    ensures AllDemotable(p)
  {
    forall a ensures DemotableAt(p, a) {
      assert GaplessAt(p.pending, p.state, p.nonces, a);
      assert InOrder(p, a);
      var items, s := ItemsOf(p.pending, a), NonceOf(p.state, a);
      forall n | n in items ensures !Exceeds(items[n], BalanceOf(p.state, a), p.maxGas) {
        assert Stores(items, items[n]);
      }
      assert AtLeast(items, s) == items;
    }
  }

  /** After promotion of every queue, what is still queued is payable. */
  lemma QueuePayable(p: Pool, r: Pool, a: Address, n: nat)
    requires InOrder(p, a) && AllPromoted(p, r, p.queue.Keys) && r.state == p.state && n in ItemsOf(r.queue, a)
    ensures !Exceeds(ItemsOf(r.queue, a)[n], BalanceOf(p.state, a), p.maxGas)
  {
    PromotedAnyway(p, r, a);
    PromotedQueue(p, r, a);
    EligibleAre(ListOf(p.queue, a, false), LimitsOf(p, a), a);
  }

  lemma RefilteredPayable(l: ListV, lim: Limits)
    requires l.WellFormed() && l.strict
    ensures var f := Refiltered(l, lim);
            && (forall n :: n in f.rest.items ==> !Exceeds(f.rest.items[n], lim.balance, lim.maxGas))
            && (forall n :: n in f.invalids ==> !Exceeds(f.invalids[n], lim.balance, lim.maxGas))
  {
    FilterExact(l.(items := AtLeast(l.items, lim.nonce)), lim.balance, lim.maxGas);
  }

  /** Demotion drops what is not payable and moves only payable transactions. */
  lemma DemotedPayable(p: Pool, r: Pool, a: Address, n: nat)
    requires InOrder(p, a) && DemotedAt(p, r, a)
    ensures n in ItemsOf(r.pending, a) ==> !Exceeds(ItemsOf(r.pending, a)[n], BalanceOf(p.state, a), p.maxGas)
    ensures n in ItemsOf(r.queue, a) && n !in ItemsOf(p.queue, a) ==>
              !Exceeds(ItemsOf(r.queue, a)[n], BalanceOf(p.state, a), p.maxGas)
  {
    RefilteredPayable(ListOf(p.pending, a, true), LimitsOf(p, a));
  }

  /** So after a run that follows a head, whatever was in the pool before, every account can pay. */
  lemma RunMakesPayable(p: Pool, q: Pool, r: Pool)
    requires p.Valid() && q.Valid() && r.Valid() && AllPromoted(p, q, p.queue.Keys) && AllDemoted(q, r, q.pending.Keys)
    requires q.state == p.state && r.state == p.state && q.maxGas == p.maxGas && r.maxGas == p.maxGas
    ensures r.AllPayable()
  {
    forall tx | tx in r.known.txs ensures !Exceeds(tx, BalanceOf(r.state, tx.from), r.maxGas) {
      var a, n: nat := tx.from, tx.nonce;
      assert InOrder(p, a) && InOrder(q, a);
      Member(a, r.pending, r.queue, r.known.txs, tx);
      if n in ItemsOf(q.queue, a) {
        QueuePayable(p, q, a, n);
      }
      if a in q.pending {
        assert DemotedAt(q, r, a);
        DemotedPayable(q, r, a, n);
      } else {
        assert SameAt(q, r, a);
      }
    }
  }

  /** The nonces run from `s` on without a gap. */
  ghost predicate Whole(items: Items, s: nat) {
    exists end: nat :: Spans(items, s, end)
  }

  /** A run of payable transactions from `s` to `mid`, and a gap up to the pending ones from `lo` to `hi`. */
  ghost predicate Gapped(items: Items, s: nat, mid: nat, lo: nat, hi: nat) {
    s <= mid < lo < hi && forall n :: n in items <==> s <= n < mid || lo <= n < hi
  }

  /** Filtering closes the gap only by dropping everything above it. */
  lemma GapStays(l: ListV, lim: Limits, mid: nat, lo: nat, hi: nat)
    requires l.WellFormed() && l.strict && Gapped(l.items, lim.nonce, mid, lo, hi)
    requires forall n :: n in l.items && n < mid ==> !Exceeds(l.items[n], lim.balance, lim.maxGas)
    ensures var rest := Refiltered(l, lim).rest.items;
            if Exceeds(l.items[lo], lim.balance, lim.maxGas) then Spans(rest, lim.nonce, mid)
            else !Whole(rest, lim.nonce) && (GapInFront(rest, lim.nonce) <==> mid == lim.nonce)
  {
    var l1 := l.(items := AtLeast(l.items, lim.nonce));
    assert l1.items == l.items;
    FilterExact(l1, lim.balance, lim.maxGas);
    var offenders := Offenders(l1.items, lim.balance, lim.maxGas);
    var rest := Refiltered(l, lim).rest.items;
    if Exceeds(l.items[lo], lim.balance, lim.maxGas) {
      assert lo in offenders.Keys;
      assert Least(offenders.Keys) == lo;
    } else {
      assert lo !in offenders.Keys;
      assert offenders.Keys != {} ==> lo < Least(offenders.Keys);
      assert lo in rest && mid !in rest;
    }
  }

  /** The account ends up without a gap and without an alert. */
  ghost predicate Fits(rest: Items, s: nat) {
    Whole(rest, s) && !GapInFront(rest, s)
  }

  /**
   * One account under promotion and demotion: `before` is what was pending, `l` what is pending
   * once the run from the state nonce to `end` has joined it.
   */
  lemma RunDecides(l: ListV, lim: Limits, before: Items, eligible: Items, run: Items, end: nat)
    requires l.WellFormed() && l.strict && Gained(l.items, before, run, {}) && Unbroken(before)
    requires Spans(run, lim.nonce, end) && Maximal(eligible, run, end)
    requires forall n :: n in eligible ==> n !in before
    requires forall n :: n in run ==> !Exceeds(run[n], lim.balance, lim.maxGas)
    ensures var rest := Refiltered(l, lim).rest.items;
            && (Fits(rest, lim.nonce) <==> Settles(before, eligible, lim))
            && (Settles(before, eligible, lim) ==> Lagging(rest, lim.nonce, end))
            && (GapInFront(rest, lim.nonce) <==> !Settles(before, eligible, lim) && lim.nonce !in eligible)
  {
    var lo: nat, hi: nat :| Spans(before, lo, hi);
    var s := lim.nonce;
    FirstPending(before, lo, hi);
    if lo == hi || lo <= s {
      assert Spans(before, if lo == hi then 0 else lo, if lo == hi then 0 else hi);
      StaleFits(l, lim, before, eligible, run, end);
    } else if end < lo {
      GapStays(l, lim, end, lo, hi);
    } else {
      assert lo < end ==> lo in run;
      assert end == lo;
      RunBelow(before, l.items, run, s, end, lim.balance, lim.maxGas);
      PrefixLagging(l, lim, end);
    }
  }

  lemma StaleFits(l: ListV, lim: Limits, before: Items, eligible: Items, run: Items, end: nat)
    requires l.WellFormed() && l.strict && Gained(l.items, before, run, {}) && Stale(before, lim.nonce)
    requires Spans(run, lim.nonce, end) && Maximal(eligible, run, end)
    requires forall n :: n in eligible ==> n !in before
    requires forall n :: n in run ==> !Exceeds(run[n], lim.balance, lim.maxGas)
    ensures var rest := Refiltered(l, lim).rest.items;
            Settles(before, eligible, lim) && Lagging(rest, lim.nonce, end) && Fits(rest, lim.nonce)
  {
    var lo: nat, hi: nat :| lo <= lim.nonce && Spans(before, lo, hi);
    FirstPending(before, lo, hi);
    if lim.nonce in before {
      assert lim.nonce !in run;
      GainedNothing(l.items, before, run);
      StaleIsDemotable(before, lim.nonce, lim.balance, lim.maxGas);
    } else {
      RunOnTop(before, l.items, run, lim.nonce, end, lim.balance, lim.maxGas);
    }
    PrefixLagging(l, lim, end);
  }

  /** The run that promotion takes from the state nonce on, maybe an empty one. */
  lemma RunFromNonce(p: Pool, q: Pool, a: Address) returns (run: Items, end: nat)
    requires InOrder(p, a) && PromotedAt(p, q, a) && q.state == p.state
    requires Virtual(p.nonces, p.state, a) == NonceOf(p.state, a)
    ensures Gained(ItemsOf(q.pending, a), ItemsOf(p.pending, a), run, {})
    ensures Spans(run, NonceOf(p.state, a), end) && Maximal(EligibleAt(p, a), run, end)
    ensures forall n :: n in EligibleAt(p, a) ==> n !in ItemsOf(p.pending, a)
    ensures forall n :: n in run ==> !Exceeds(run[n], BalanceOf(p.state, a), p.maxGas)
    ensures Virtual(q.nonces, q.state, a) == end
  {
    var eligible, start := EligibleAt(p, a), NonceOf(p.state, a);
    var lo, hi := ReadyStart(eligible, start), ReadyEnd(eligible, start);
    EligibleHere(p, a);
    ReadyIsRun(eligible, start);
    run, end := Below(eligible, hi), if lo < hi then hi else start;
  }

  lemma EligibleHere(p: Pool, a: Address)
    requires InOrder(p, a)
    ensures forall n :: n in EligibleAt(p, a) ==>
              && n !in ItemsOf(p.pending, a) && NonceOf(p.state, a) <= n
              && !Exceeds(EligibleAt(p, a)[n], BalanceOf(p.state, a), p.maxGas)
  {
    SameItems(p.pending, a, true);
    EligibleAre(ListOf(p.queue, a, false), LimitsOf(p, a), a);
  }

  /**
   * After a head change, a run leaves an account without a gap and without an alert if and only
   * if the queue holds every transaction that is missing below its pending ones, or the first of
   * them is no longer payable. Otherwise an alert is raised exactly if even the first is missing.
   */
  lemma RefillDecides(p: Pool, q: Pool, a: Address)
    requires InOrder(p, a) && InOrder(q, a) && PromotedAt(p, q, a) && StartsAt(p, a)
    requires q.state == p.state && q.maxGas == p.maxGas
    ensures Fits(RestAt(q, a), NonceOf(p.state, a)) <==> SettlesAt(p, a)
    ensures SettlesAt(p, a) ==> Lagging(RestAt(q, a), NonceOf(p.state, a), Virtual(q.nonces, q.state, a))
    ensures GapInFront(RestAt(q, a), NonceOf(p.state, a)) <==>
              !SettlesAt(p, a) && NonceOf(p.state, a) !in EligibleAt(p, a)
  {
    var run, end := RunFromNonce(p, q, a);
    SameItems(q.pending, a, true);
    RunDecides(ListOf(q.pending, a, true), LimitsOf(p, a), ItemsOf(p.pending, a), EligibleAt(p, a), run, end);
  }

  ghost predicate WholeAt(p: Pool, a: Address) {
    Whole(ItemsOf(p.pending, a), NonceOf(p.state, a))
  }

  ghost predicate AllWhole(p: Pool) {
    forall a {:trigger WholeAt(p, a)} :: WholeAt(p, a)
  }

  /** Promotion of every queue from `p` to `q`, and then demotion from `q` to `r`. */
  ghost predicate Followed(p: Pool, q: Pool, r: Pool) {
    && p.Valid() && q.Valid() && AllPromoted(p, q, p.queue.Keys) && AllDemoted(q, r, q.pending.Keys)
    && q.state == p.state == r.state && q.maxGas == p.maxGas && r.nonces == q.nonces
  }

  /** An account without a queue was promoted trivially. */
  lemma PromotedAnyway(p: Pool, q: Pool, a: Address)
    requires AllPromoted(p, q, p.queue.Keys)
    ensures PromotedAt(p, q, a)
  {
    if a in p.queue {
      assert PromotedAt(p, q, a);
    } else {
      assert SameAt(p, q, a);
      NothingEligible(LimitsOf(p, a), Virtual(p.nonces, p.state, a), a in p.locals, p.config.accountQueue);
    }
  }

  lemma NothingEligible(lim: Limits, start: nat, local: bool, cap: nat)
    ensures var q := Eligible(EmptyList(false), lim);
            && q.items == map[] && ReadyEnd(q.items, start) == 0 && Below(q.items, 0) == map[]
            && Leftover(q, 0, local, cap).items == map[]
  {
    var q := Eligible(EmptyList(false), lim);
    assert AtLeast(map[], lim.nonce) == map[] && AtLeast(map[], 0) == map[];
    assert Leftover(q, 0, local, cap).items.Keys == {};
  }

  /** The account does not settle, and even the transaction at its state nonce is missing. */
  ghost predicate Stranded(p: Pool, a: Address) {
    !SettlesAt(p, a) && NonceOf(p.state, a) !in EligibleAt(p, a)
  }

  /** Alerts are raised for exactly these accounts. */
  ghost predicate AlertsWhere(p: Pool, alerted: set<Address>) {
    forall a {:trigger Stranded(p, a)} :: a in alerted <==> Stranded(p, a)
  }

  lemma AccountFollows(p: Pool, q: Pool, r: Pool, a: Address)
    requires Followed(p, q, r) && StartsAt(p, a)
    ensures a in Alerted(q) <==> Stranded(p, a)
    ensures WholeAt(r, a) && a !in Alerted(q) <==> SettlesAt(p, a)
    ensures SettlesAt(p, a) ==> LaggingAt(r, a)
  {
    assert InOrder(p, a) && InOrder(q, a);
    PromotedAnyway(p, q, a);
    RefillDecides(p, q, a);
    DemotedTo(q, r, a);
  }

  /** So for the whole pool: no gap and no alert if and only if that holds for every account. */
  lemma RunSettles(p: Pool, q: Pool, r: Pool)
    requires Followed(p, q, r) && AllStart(p)
    ensures AllWhole(r) && Alerted(q) == {} <==> AllSettle(p)
    ensures AllSettle(p) ==> AllLagging(r)
    ensures AlertsWhere(p, Alerted(q))
  {
    forall a
      ensures WholeAt(r, a) && a !in Alerted(q) <==> SettlesAt(p, a)
      ensures a in Alerted(q) <==> Stranded(p, a)
    {
      assert StartsAt(p, a);
      AccountFollows(p, q, r, a);
    }
    if AllSettle(p) {
      forall a ensures LaggingAt(r, a) {
        assert StartsAt(p, a) && SettlesAt(p, a);
        AccountFollows(p, q, r, a);
      }
    }
  }
}
