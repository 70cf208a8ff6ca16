/** demoteUnexecutables: dropping what a new head made stale and moving back what it cut off. */
module PoolDemotes {
  import opened Transactions
  import opened TxSortedMaps
  import opened TxLists
  import opened KnownTxs
  import opened TxNoncers
  import opened PoolState
  import opened TxPools
  import opened PoolPromotes

  /** An account's pending list without what is too old, filtered by what the account can pay. */
  function Refiltered(l: ListV, lim: Limits): Filtered {
    FilterV(l.(items := AtLeast(l.items, lim.nonce)), lim.balance, lim.maxGas)
  }

  /** What demotion would keep of an account's pending list. */
  function RestAt(p: Pool, a: Address): Items {
    Refiltered(ListOf(p.pending, a, true), LimitsOf(p, a)).rest.items
  }

  /** What is left after filtering does not start at the account's nonce. */
  predicate GapInFront(rest: Items, nonce: nat) {
    rest != map[] && nonce !in rest
  }

  /** The effect of demotion on one account. */
  ghost predicate Demoted(p: Pool, r: Pool, a: Address, gapped: bool) {
    var f := Refiltered(ListOf(p.pending, a, true), LimitsOf(p, a));
    && gapped == GapInFront(f.rest.items, NonceOf(p.state, a))
    && OnlyAt(p.pending, r.pending, a) && ItemsOf(r.pending, a) == (if gapped then map[] else f.rest.items)
    && OnlyAt(p.queue, r.queue, a)
    && Gained(ItemsOf(r.queue, a), ItemsOf(p.queue, a), if gapped then f.invalids + f.rest.items else f.invalids, {})
  }

  lemma GainedTwice(after: Items, mid: Items, before: Items, more: Items, extra: Items)
    requires Gained(after, mid, more, {}) && Gained(mid, before, extra, {}) && forall n :: n in extra ==> n !in more
    ensures Gained(after, before, extra + more, {})
  {
  }

  lemma StrictSplits(l: ListV, costLimit: nat, gasLimit: nat)
    requires l.WellFormed() && l.strict
    ensures var f := FilterV(l, costLimit, gasLimit);
            && f.rest.WellFormed() && f.rest.strict && Within(f.invalids, l.items)
            && exists mid: Items :: Splits(l.items, f.removed, mid) && Splits(mid, f.invalids, f.rest.items)
  {
    FilterExact(l, costLimit, gasLimit);
    var f := FilterV(l, costLimit, gasLimit);
    var mid := Minus(l.items, f.removed);
    assert Splits(l.items, f.removed, mid);
    assert Splits(mid, f.invalids, f.rest.items);
  }

  /** Drops what is too old or too costly from an account's pending list; what it cut off is still part of `l`. */
  method DropUnpayable(p: Pool, a: Address) returns (known: Known, f: Filtered, ghost l: ListV)
    requires p.Valid()
    ensures f == Refiltered(ListOf(p.pending, a, true), LimitsOf(p, a))
    ensures known.Valid() && known.Settled() && known.txs <= p.known.txs && known.log == p.known.log
    ensures AccountOk(a, l, ListOf(p.queue, a, false), known.txs)
    ensures Splits(l.items, f.invalids, f.rest.items) && f.rest.WellFormed() && f.rest.strict
    ensures forall tx: Tx :: tx.from != a ==> (tx in p.known.txs <==> tx in known.txs)
  {
    var l0, lim := ListOf(p.pending, a, true), LimitsOf(p, a);
    ghost var q := ListOf(p.queue, a, false);
    assert AccountOk(a, l0, q, p.known.txs);
    var l1 := l0.(items := AtLeast(l0.items, lim.nonce));
    var olds := Below(l0.items, lim.nonce);
    CutSplits(l0.items, lim.nonce);
    DropPending(a, l0, l1, q, olds, p.known.txs);
    known := Drop(p.known, olds);
    f := FilterV(l1, lim.balance, lim.maxGas);
    StrictSplits(l1, lim.balance, lim.maxGas);
    ghost var mid: Items :| Splits(l1.items, f.removed, mid) && Splits(mid, f.invalids, f.rest.items);
    l := l1.(items := mid);
    DropPending(a, l1, l, q, f.removed, known.txs);
    ValuesFrom(olds, a);
    ValuesFrom(f.removed, a);
    known := Drop(known, f.removed);
    known := Count(known);
  }

  /** Moves part of an account's pending list to its queue. */
  method MoveBack(p: Pool, a: Address, ghost l: ListV, rest: ListV, moved: Items) returns (r: Pool)
    requires p.known.Valid() && AccountOk(a, l, ListOf(p.queue, a, false), p.known.txs)
    requires Splits(l.items, moved, rest.items) && rest.WellFormed() && rest.strict
    ensures r == p.(queue := r.queue, beats := r.beats) && Grown(p.queue, r.queue, a, false, moved, {})
    ensures AccountOk(a, rest, ListOf(r.queue, a, false), p.known.txs)
    ensures moved == map[] ==> r == p
    ensures moved != map[] ==> r.beats == Noted(p.beats, a, p.clock)
  {
    SameItems(p.queue, a, false);
    Movable(a, l, ListOf(p.queue, a, false), moved, p.known.txs);
    r := Requeue(p, a, moved);
    SameItems(r.queue, a, false);
    MoveDown(a, l, rest, ListOf(p.queue, a, false), ListOf(r.queue, a, false), moved, p.known.txs);
  }

  /** If there is a gap in front, postpones everything that is left. */
  method Postpone(p: Pool, a: Address, l: ListV) returns (r: Pool, rest: ListV, gapped: bool)
    requires p.known.Valid() && AccountOk(a, l, ListOf(p.queue, a, false), p.known.txs)
    ensures gapped == GapInFront(l.items, NonceOf(p.state, a))
    ensures r == p.(queue := r.queue, beats := r.beats) && (!gapped ==> r == p)
    ensures OnlyAt(p.queue, r.queue, a) && (NoneEmpty(p.queue) ==> NoneEmpty(r.queue))
    ensures gapped ==>
              Gained(ItemsOf(r.queue, a), ItemsOf(p.queue, a), l.items, {}) && r.beats == Noted(p.beats, a, p.clock)
    ensures rest.items == (if gapped then map[] else l.items)
    ensures AccountOk(a, rest, ListOf(r.queue, a, false), p.known.txs)
  {
    r, rest, gapped := p, l, GapInFront(l.items, NonceOf(p.state, a));
    if gapped {
      rest := l.(items := map[]);
      r := MoveBack(p, a, l, rest, l.items);
    }
  }

  /** The heartbeat of an account goes with its last pending transaction, and is noted if one is queued again. */
  ghost predicate DemotedBeats(before: map<Address, nat>, after: map<Address, nat>, a: Address, clock: nat, cut: bool,
                               none: bool) {
    after == if none then before - {a} else if cut then Noted(before, a, clock) else before
  }

  lemma SettledBeats(before: map<Address, nat>, mid: map<Address, nat>, late: map<Address, nat>, a: Address, clock: nat,
                     cut: bool, gapped: bool, none: bool)
    requires mid == (if cut then Noted(before, a, clock) else before) && (gapped ==> none)
    requires late == (if gapped then Noted(mid, a, clock) else mid)
    ensures DemotedBeats(before, if none then late - {a} else late, a, clock, cut, none)
  {
    assert Noted(before, a, clock) - {a} == before - {a};
    assert Noted(mid, a, clock) - {a} == mid - {a};
  }

  method DemoteAccount(p: Pool, a: Address) returns (r: Pool, gapped: bool)
    requires p.Valid()
    ensures r.Valid() && r.known.log == p.known.log && r.known.txs <= p.known.txs
    ensures r == p.(known := r.known, pending := r.pending, queue := r.queue, beats := r.beats)
    ensures Demoted(p, r, a, gapped)
    ensures var f := Refiltered(ListOf(p.pending, a, true), LimitsOf(p, a));
            DemotedBeats(p.beats, r.beats, a, p.clock, f.invalids != map[], ItemsOf(r.pending, a) == map[])
  {
    var known, f, l := DropUnpayable(p, a);
    r := MoveBack(p.(known := known), a, l, f.rest, f.invalids);
    ghost var moved := r;
    var rest;
    r, rest, gapped := Postpone(r, a, f.rest);
    if gapped {
      GainedTwice(ItemsOf(r.queue, a), ItemsOf(moved.queue, a), ItemsOf(p.queue, a), f.rest.items, f.invalids);
    }
    SettledBeats(p.beats, moved.beats, r.beats, a, p.clock, f.invalids != map[], gapped, rest.items == map[]);
    assert OnlyAt(p.queue, r.queue, a) && NoneEmpty(r.queue);
    r := StorePending(p, r, a, rest);
  }

  /** Writes the shortened pending list back. */
  method StorePending(p: Pool, q: Pool, a: Address, rest: ListV) returns (r: Pool)
    requires p.Booked() && q == p.(known := q.known, queue := q.queue, beats := q.beats)
    requires OnlyAt(p.queue, q.queue, a) && NoneEmpty(q.queue)
    requires AccountOk(a, rest, ListOf(q.queue, a, false), q.known.txs)
    requires forall tx: Tx :: tx.from != a ==> (tx in p.known.txs <==> tx in q.known.txs)
    ensures r == q.(pending := r.pending, beats := r.beats) && r.Booked()
    ensures r.pending == Stored(p.pending, a, rest) && r.beats == if rest.items == map[] then q.beats - {a} else q.beats
    ensures OnlyAt(p.pending, r.pending, a) && ItemsOf(r.pending, a) == rest.items
  {
    r := q.(pending := Stored(p.pending, a, rest), beats := if rest.items == map[] then q.beats - {a} else q.beats);
    StoredList(p.pending, a, rest, true);
    EmptyKeeps(a, rest, ListOf(r.queue, a, false), q.known.txs);
    Local(a, p.pending, p.queue, p.known.txs, r.pending, r.queue, q.known.txs);
  }

  /**
   * Between demotion and the end of a reorg run: the pending nonces are an interval from the
   * state nonce on, and the virtual nonce is in it or at its end.
   */
  ghost predicate LaggingAt(p: Pool, a: Address) {
    Lagging(ItemsOf(p.pending, a), NonceOf(p.state, a), Virtual(p.nonces, p.state, a))
  }

  ghost predicate Lagging(items: Items, s: nat, virtual: nat) {
    exists end: nat :: Spans(items, s, end) && s <= virtual <= end
  }

  /** Demotion leaves an account that it can handle without a gap, and the alert is not raised. */
  lemma PrefixLagging(l: ListV, lim: Limits, virtual: nat)
    requires l.WellFormed() && l.strict
    requires Demotable(AtLeast(l.items, lim.nonce), lim.nonce, virtual, lim.balance, lim.maxGas)
    ensures var rest := Refiltered(l, lim).rest.items;
            Lagging(rest, lim.nonce, virtual) && !GapInFront(rest, lim.nonce)
  {
    var l1 := l.(items := AtLeast(l.items, lim.nonce));
    var hi: nat :| Spans(l1.items, lim.nonce, hi) && lim.nonce <= virtual <= hi &&
      forall n :: n in l1.items && n < virtual ==> !Exceeds(l1.items[n], lim.balance, lim.maxGas);
    var e := FilterKeepsPrefix(l1, lim.balance, lim.maxGas, lim.nonce, hi);
  }
}
