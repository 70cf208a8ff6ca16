/** promoteExecutables: moving transactions that became executable from the queue to the pending lists. */
module PoolPromotes {
  import opened Transactions
  import opened TxSortedMaps
  import opened TxLists
  import opened KnownTxs
  import opened TxNoncers
  import opened PoolState
  import opened TxPools

  method PromoteTx(p: Pool, tx: Tx) returns (r: Pool, inserted: bool)
    requires p.known.Valid()
    requires tx !in p.known.txs ==>
               p.known.Settled() && Accepts(ListOf(p.pending, tx.from, true), tx, p.config.priceBump)
    requires tx.nonce in ItemsOf(p.pending, tx.from) ==>
               p.known.Settled() && ItemsOf(p.pending, tx.from)[tx.nonce] in p.known.txs - {tx}
    ensures r == p.(known := r.known, pending := r.pending, nonces := r.nonces, beats := r.beats) && r.known.Valid()
    ensures inserted == Accepts(ListOf(p.pending, tx.from, true), tx, p.config.priceBump)
    ensures !inserted ==> r == p.(known := r.known) && r.known.txs == p.known.txs - {tx}
    ensures inserted ==>
              && r.pending == p.pending[tx.from := Added(ListOf(p.pending, tx.from, true), tx)]
              && r.nonces == p.nonces[tx.from := tx.nonce + 1] && r.beats == p.beats[tx.from := p.clock]
              && r.known.txs == p.known.txs - Ousted(ListOf(p.pending, tx.from, true), tx) + {tx}
    ensures tx in p.known.txs && tx.nonce !in ItemsOf(p.pending, tx.from) ==> inserted && r.known == p.known
  {
    var a := tx.from;
    var list := ListOf(p.pending, a, true);
    SameItems(p.pending, a, true);
    inserted := Accepts(list, tx, p.config.priceBump);
    var known := p.known;
    if !inserted {
      known := Forget(known, tx);
      return p.(known := known), inserted;
    }
    if tx.nonce in list.items {
      known := Forget(known, list.items[tx.nonce]);
    }
    if tx !in known.txs {
      known := Admit(known, tx);
    }
    r := p.(known := known, pending := p.pending[a := Added(list, tx)], nonces := p.nonces[a := tx.nonce + 1],
            beats := p.beats[a := p.clock]);
  }

  /** The overlay is unchanged except that `a` now has virtual nonce `v`. */
  ghost predicate NonceSet(nonces: map<Address, nat>, nonces': map<Address, nat>, a: Address, v: nat) {
    && a in nonces' && nonces'[a] == v
    && forall b :: b != a ==> (b in nonces <==> b in nonces') && (b in nonces ==> nonces[b] == nonces'[b])
  }

  ghost function Rest(items: Items, n: nat): set<nat> {
    set k | k in items && n <= k
  }

  lemma RestNext(items: Items, n: nat)
    ensures Rest(items, n + 1) == Rest(items, n) - {n}
  {
  }

  lemma RestNone(items: Items, hi: nat)
    requires forall n :: n in items ==> n < hi
    ensures Rest(items, hi) == {}
  {
  }

  /** The ready transactions below `n` are promoted. */
  ghost predicate PromotedTo(p: Pool, r: Pool, a: Address, ready: Items, lo: nat, n: nat) {
    && r == p.(pending := r.pending, nonces := r.nonces, beats := r.beats)
    && Grown(p.pending, r.pending, a, true, ready, Rest(ready, n))
    && (if n == lo then r == p else r.nonces == p.nonces[a := n] && r.beats == p.beats[a := p.clock])
  }

  /** A run of known transactions of `a` that are not pending yet. */
  ghost predicate Promotable(p: Pool, a: Address, ready: Items, lo: nat, hi: nat) {
    && p.known.Valid() && Spans(ready, lo, hi) && From(ready, a) && Values(ready) <= p.known.txs
    && forall n :: n in ready ==> n !in ItemsOf(p.pending, a)
  }

  method PromoteNext(p: Pool, q: Pool, a: Address, ready: Items, ghost lo: nat, ghost hi: nat, n: nat) returns (r: Pool)
    requires Promotable(p, a, ready, lo, hi) && lo <= n < hi && PromotedTo(p, q, a, ready, lo, n)
    ensures PromotedTo(p, r, a, ready, lo, n + 1)
  {
    var tx := ready[n];
    assert tx in Values(ready) && n in Rest(ready, n);
    GrownStep(p.pending, q.pending, a, true, ready, Rest(ready, n), n);
    RestNext(ready, n);
    PutTwice(p.nonces, a, n, n + 1);
    PutTwice(p.beats, a, p.clock, p.clock);
    var inserted;
    r, inserted := PromoteTx(q, tx);
    assert inserted;
  }

  lemma PutTwice(nonces: map<Address, nat>, a: Address, m: nat, n: nat)
    ensures nonces[a := m][a := n] == nonces[a := n]
  {
  }

  /** Promotes a run of ready transactions in nonce order; none of them meets an older one. */
  method PromoteAll(p: Pool, a: Address, ready: Items, lo: nat, hi: nat) returns (r: Pool)
    requires Promotable(p, a, ready, lo, hi) && ListOk(ListOf(p.pending, a, true), true, a)
    ensures PromotedTo(p, r, a, ready, lo, hi)
  {
    r := p;
    NonePromoted(p, a, ready, lo);
    for n := lo to hi
      invariant PromotedTo(p, r, a, ready, lo, n)
    {
      r := PromoteNext(p, r, a, ready, lo, hi, n);
    }
  }

  lemma NonePromoted(p: Pool, a: Address, ready: Items, lo: nat)
    requires ListOk(ListOf(p.pending, a, true), true, a) && forall n :: n in ready ==> lo <= n
    ensures PromotedTo(p, p, a, ready, lo, lo)
  {
    assert forall n :: n in ready ==> n in Rest(ready, lo);
  }

  lemma RunPromoted(p: Pool, r: Pool, a: Address, ready: Items, lo: nat, hi: nat)
    requires PromotedTo(p, r, a, ready, lo, hi) && forall n :: n in ready ==> n < hi
    ensures Grown(p.pending, r.pending, a, true, ready, {})
    ensures if lo == hi then r == p else NonceSet(p.nonces, r.nonces, a, hi) && r.beats == p.beats[a := p.clock]
  {
    RestNone(ready, hi);
  }

  /** The limits that apply to an account: its state nonce and balance, and the block gas limit. */
  datatype Limits = Limits(nonce: nat, balance: nat, maxGas: nat)

  function LimitsOf(p: Pool, a: Address): Limits {
    Limits(NonceOf(p.state, a), BalanceOf(p.state, a), p.maxGas)
  }

  /** A queued list without the transactions that are too old or too costly. */
  function Eligible(q: ListV, lim: Limits): ListV {
    FilterV(q.(items := AtLeast(q.items, lim.nonce)), lim.balance, lim.maxGas).rest
  }

  lemma EligibleAre(q: ListV, lim: Limits, a: Address)
    requires ListOk(q, false, a)
    ensures ListOk(Eligible(q, lim), false, a)
    ensures forall n :: n in Eligible(q, lim).items <==>
                        n in q.items && lim.nonce <= n && !Exceeds(q.items[n], lim.balance, lim.maxGas)
    ensures forall n :: n in Eligible(q, lim).items ==> Eligible(q, lim).items[n] == q.items[n]
  {
    FilterExact(q.(items := AtLeast(q.items, lim.nonce)), lim.balance, lim.maxGas);
  }

  /** The first nonce of the run that `Ready(start)` takes; meaningless when it takes nothing. */
  function ReadyStart(items: Items, start: nat): nat {
    if ReadyEnd(items, start) == 0 then 0 else Least(items.Keys)
  }

  lemma ReadyIsRun(items: Items, start: nat)
    ensures var lo, hi := ReadyStart(items, start), ReadyEnd(items, start);
            && Spans(Below(items, hi), lo, hi) && (lo < hi ==> lo <= start && lo in items)
            && (hi == 0 ==> forall n :: n in items ==> start < n)
            && Maximal(items, Below(items, hi), if lo < hi then hi else start)
  {
    if |items| == 0 {
      assert forall n :: n in items ==> n in items.Keys;
    }
  }

  /** What is left in the queue once the ready run is gone; only remote accounts are capped. */
  function Leftover(q: ListV, e: nat, local: bool, cap: nat): ListV {
    var rest := q.(items := AtLeast(q.items, e));
    if local then rest else rest.(items := Capped(rest.items, cap))
  }

  lemma LeftoverWithin(q: ListV, e: nat, local: bool, cap: nat)
    ensures Within(Leftover(q, e, local, cap).items, AtLeast(q.items, e))
  {
  }

  /** The run that promotion would take from an account's queue. */
  function ReadyAt(p: Pool, a: Address): Items {
    var q := Eligible(ListOf(p.queue, a, false), LimitsOf(p, a));
    Below(q.items, ReadyEnd(q.items, Virtual(p.nonces, p.state, a)))
  }

  /** What is eligible but not ready. */
  function Unready(p: Pool, a: Address): ListV {
    var q := Eligible(ListOf(p.queue, a, false), LimitsOf(p, a));
    q.(items := AtLeast(q.items, ReadyEnd(q.items, Virtual(p.nonces, p.state, a))))
  }

  /** The effect of promotion on the pending list and the virtual nonce of one account: the ready run joins them. */
  ghost predicate PendingPromoted(p: Pool, r: Pool, a: Address) {
    var q := Eligible(ListOf(p.queue, a, false), LimitsOf(p, a));
    var start := Virtual(p.nonces, p.state, a);
    var lo, hi := ReadyStart(q.items, start), ReadyEnd(q.items, start);
    && Grown(p.pending, r.pending, a, true, Below(q.items, hi), {})
    && (if lo == hi then r.nonces == p.nonces else NonceSet(p.nonces, r.nonces, a, hi))
    && r.beats == (if lo == hi then p.beats else p.beats[a := p.clock])
  }

  /** The effect of promotion on one account; what stays queued may be capped. */
  ghost predicate Promoted(p: Pool, r: Pool, a: Address) {
    var q := Eligible(ListOf(p.queue, a, false), LimitsOf(p, a));
    && PendingPromoted(p, r, a) && OnlyAt(p.queue, r.queue, a)
    && ItemsOf(r.queue, a) ==
       Leftover(q, ReadyEnd(q.items, Virtual(p.nonces, p.state, a)), a in p.locals, p.config.accountQueue).items
  }

  /** Drops what is too old or too costly from an account's queue. */
  method DropIneligible(p: Pool, a: Address) returns (known: Known, q: ListV, ghost live: set<Tx>)
    requires p.Valid()
    ensures q == Eligible(ListOf(p.queue, a, false), LimitsOf(p, a))
    ensures known.Valid() && known.unpriced == {} && known.txs == live && live <= p.known.txs
    ensures known.log == p.known.log
    ensures AccountOk(a, ListOf(p.pending, a, true), q, live)
    ensures forall tx: Tx :: tx.from != a ==> (tx in p.known.txs <==> tx in live)
  {
    var q0, lim := ListOf(p.queue, a, false), LimitsOf(p, a);
    ghost var pd := ListOf(p.pending, a, true);
    assert AccountOk(a, pd, q0, p.known.txs);
    var q1 := q0.(items := AtLeast(q0.items, lim.nonce));
    var forwards := Below(q0.items, lim.nonce);
    CutSplits(q0.items, lim.nonce);
    DropQueued(a, pd, q0, q1, forwards, p.known.txs);
    known := Drop(p.known, forwards);
    var f := FilterV(q1, lim.balance, lim.maxGas);
    FilterSplits(q1, lim.balance, lim.maxGas);
    DropQueued(a, pd, q1, f.rest, f.removed, known.txs);
    ValuesFrom(forwards, a);
    ValuesFrom(f.removed, a);
    known := Drop(known, f.removed);
    q, live := f.rest, known.txs;
  }

  lemma ValuesFrom(items: Items, a: Address)
    requires From(items, a)
    ensures forall tx :: tx in Values(items) ==> tx.from == a
  {
  }

  lemma FilterSplits(q: ListV, costLimit: nat, gasLimit: nat)
    requires q.WellFormed() && !q.strict
    ensures var f := FilterV(q, costLimit, gasLimit);
            f.rest.WellFormed() && !f.rest.strict && Splits(q.items, f.removed, f.rest.items)
  {
    FilterExact(q, costLimit, gasLimit);
  }

  /** Drops what exceeds the account's queue limit, unless the account is local. */
  method DropExcess(p: Pool, k: Known, a: Address, q: ListV, ghost pd: ListV) returns (known: Known, rest: ListV)
    requires k.Valid() && k.unpriced == {} && AccountOk(a, pd, q, k.txs)
    ensures rest == (if a in p.locals then q else q.(items := Capped(q.items, p.config.accountQueue)))
    ensures known.Valid() && known.unpriced == {} && known.txs <= k.txs && known.log == k.log
    ensures AccountOk(a, pd, rest, known.txs)
    ensures forall tx: Tx :: tx.from != a ==> (tx in k.txs <==> tx in known.txs)
  {
    known, rest := k, q;
    if a !in p.locals {
      rest := q.(items := Capped(q.items, p.config.accountQueue));
      var caps := Minus(q.items, rest.items);
      MinusSplits(q.items, rest.items);
      DropQueued(a, pd, q, rest, caps, k.txs);
      ValuesFrom(caps, a);
      known := Drop(k, caps);
    }
  }

  method PromoteAccount(p: Pool, a: Address) returns (r: Pool, promoted: Items)
    requires p.Valid()
    ensures r.Valid() && r.known.log == p.known.log && r.known.txs <= p.known.txs
    ensures r == p.(known := r.known, pending := r.pending, queue := r.queue, nonces := r.nonces, beats := r.beats)
    ensures if a in p.queue then Promoted(p, r, a) else r == p
    ensures promoted == if a in p.queue then ReadyAt(p, a) else map[]
  {
    r, promoted := p, map[];
    if a in p.queue {
      promoted := ReadyAt(p, a);
      r := PromoteQueued(p, a);
    }
  }

  method PromoteQueued(p: Pool, a: Address) returns (r: Pool)
    requires p.Valid() && a in p.queue
    ensures r.Valid() && r.known.log == p.known.log && r.known.txs <= p.known.txs
    ensures r == p.(known := r.known, pending := r.pending, queue := r.queue, nonces := r.nonces, beats := r.beats)
    ensures Promoted(p, r, a)
  {
    var known, rest;
    r, rest := TakeReady(p, a);
    known, rest := DropExcess(p, r.known, a, rest, ListOf(r.pending, a, true));
    known := Count(known);
    r := StoreQueue(p, r.(known := known), a, rest);
  }

  /** What is not eligible is dropped, and the ready run moves to the pending list; `rest` stays queued. */
  method TakeReady(p: Pool, a: Address) returns (r: Pool, rest: ListV)
    requires p.Valid()
    ensures r == p.(known := r.known, pending := r.pending, nonces := r.nonces, beats := r.beats)
    ensures PendingPromoted(p, r, a) && rest == Unready(p, a)
    ensures r.known.Valid() && r.known.unpriced == {} && r.known.txs <= p.known.txs && r.known.log == p.known.log
    ensures AccountOk(a, ListOf(r.pending, a, true), rest, r.known.txs)
    ensures forall tx: Tx :: tx.from != a ==> (tx in p.known.txs <==> tx in r.known.txs)
  {
    var known, q, live := DropIneligible(p, a);
    r := PromoteReady(p, p.(known := known), a, q);
    rest := Unready(p, a);
  }

  /** Moves the ready run of the filtered queue `q` to the pending list. */
  method PromoteReady(p: Pool, p': Pool, a: Address, q: ListV) returns (r: Pool)
    requires p' == p.(known := p'.known) && p'.known.Valid()
    requires AccountOk(a, ListOf(p.pending, a, true), q, p'.known.txs)
    requires q == Eligible(ListOf(p.queue, a, false), LimitsOf(p, a))
    ensures r == p'.(pending := r.pending, nonces := r.nonces, beats := r.beats) && PendingPromoted(p, r, a)
    ensures var hi := ReadyEnd(q.items, Virtual(p.nonces, p.state, a));
            AccountOk(a, ListOf(r.pending, a, true), q.(items := AtLeast(q.items, hi)), p'.known.txs)
  {
    var start := Virtual(p.nonces, p.state, a);
    var lo, hi := ReadyStart(q.items, start), ReadyEnd(q.items, start);
    ReadyMoves(a, p.pending, q, start, p'.known.txs);
    r := PromoteAll(p', a, Below(q.items, hi), lo, hi);
    RunPromoted(p', r, a, Below(q.items, hi), lo, hi);
    ReadyMoved(a, p.pending, r.pending, q, hi, p'.known.txs);
  }

  /** The ready run is known, consecutive, and free to land in the pending list. */
  lemma ReadyMoves(a: Address, pending: ListMap, q: ListV, start: nat, live: set<Tx>)
    requires AccountOk(a, ListOf(pending, a, true), q, live)
    ensures var lo, hi := ReadyStart(q.items, start), ReadyEnd(q.items, start);
            && Spans(Below(q.items, hi), lo, hi) && From(Below(q.items, hi), a) && Values(Below(q.items, hi)) <= live
            && forall n :: n in Below(q.items, hi) ==> n !in ItemsOf(pending, a)
  {
    ReadyIsRun(q.items, start);
    SameItems(pending, a, true);
    Movable(a, ListOf(pending, a, true), q, Below(q.items, ReadyEnd(q.items, start)), live);
  }

  lemma ReadyMoved(a: Address, pending: ListMap, pending': ListMap, q: ListV, hi: nat, live: set<Tx>)
    requires AccountOk(a, ListOf(pending, a, true), q, live)
    requires Grown(pending, pending', a, true, Below(q.items, hi), {})
    ensures AccountOk(a, ListOf(pending', a, true), q.(items := AtLeast(q.items, hi)), live)
  {
    CutSplits(q.items, hi);
    SameItems(pending, a, true);
    SameItems(pending', a, true);
    MoveUp(a, ListOf(pending, a, true), ListOf(pending', a, true), q, q.(items := AtLeast(q.items, hi)),
      Below(q.items, hi), live);
  }

  /** Writes the shortened queue back. */
  method StoreQueue(p: Pool, q: Pool, a: Address, rest: ListV) returns (r: Pool)
    requires p.Booked() && q == p.(known := q.known, pending := q.pending, nonces := q.nonces, beats := q.beats)
    requires OnlyAt(p.pending, q.pending, a) && NoneEmpty(q.pending)
    requires AccountOk(a, ListOf(q.pending, a, true), rest, q.known.txs)
    requires forall tx: Tx :: tx.from != a ==> (tx in p.known.txs <==> tx in q.known.txs)
    ensures r == q.(queue := r.queue) && r.Booked()
    ensures OnlyAt(p.queue, r.queue, a) && ItemsOf(r.queue, a) == rest.items
  {
    r := q.(queue := Stored(p.queue, a, rest));
    StoredList(p.queue, a, rest, false);
    EmptyKeeps(a, ListOf(r.pending, a, true), rest, q.known.txs);
    Local(a, p.pending, p.queue, p.known.txs, r.pending, r.queue, q.known.txs);
  }

  ghost predicate InOrder(p: Pool, a: Address) {
    AccountOk(a, ListOf(p.pending, a, true), ListOf(p.queue, a, false), p.known.txs)
  }

  /** The run is part of the queue, and the queue does not continue it at `next`. */
  ghost predicate Maximal(queued: Items, run: Items, next: nat) {
    next !in queued && forall n :: n in run ==> n in queued
  }

  /**
   * The run that promotion takes: consecutive, payable, not pending yet, and starting no later
   * than the virtual nonce.
   */
  lemma PromotedRun(p: Pool, r: Pool, a: Address) returns (run: Items, lo: nat, hi: nat)
    requires InOrder(p, a) && PendingPromoted(p, r, a)
    ensures lo <= hi && Spans(run, lo, hi) && Gained(ItemsOf(r.pending, a), ItemsOf(p.pending, a), run, {})
    ensures lo < hi ==> NonceOf(p.state, a) <= lo <= Virtual(p.nonces, p.state, a) && lo !in ItemsOf(p.pending, a)
    ensures forall n :: n in run ==> !Exceeds(run[n], BalanceOf(p.state, a), p.maxGas)
    ensures if lo < hi then NonceSet(p.nonces, r.nonces, a, hi) else r.nonces == p.nonces
    ensures lo == hi ==> ItemsOf(r.pending, a) == ItemsOf(p.pending, a)
    ensures OnlyAt(p.pending, r.pending, a)
    ensures Maximal(Eligible(ListOf(p.queue, a, false), LimitsOf(p, a)).items, run, if lo < hi then hi
              else Virtual(p.nonces, p.state, a))
    ensures forall n :: n in Eligible(ListOf(p.queue, a, false), LimitsOf(p, a)).items ==> n !in ItemsOf(p.pending, a)
  {
    var q := Eligible(ListOf(p.queue, a, false), LimitsOf(p, a));
    var start := Virtual(p.nonces, p.state, a);
    lo, hi := ReadyStart(q.items, start), ReadyEnd(q.items, start);
    run := Below(q.items, hi);
    SameItems(p.pending, a, true);
    EligibleAre(ListOf(p.queue, a, false), LimitsOf(p, a), a);
    ReadyIsRun(q.items, start);
    GainedNothing(ItemsOf(r.pending, a), ItemsOf(p.pending, a), run);
  }

  lemma GainedNothing(after: Items, before: Items, run: Items)
    requires Gained(after, before, run, {})
    ensures (forall n :: n !in run) ==> after == before
  {
  }

  /** Promotion extends a gap-free account by the run that continues it. */
  lemma PromotedGapfree(p: Pool, r: Pool, a: Address)
    requires InOrder(p, a) && p.Gapfree() && PendingPromoted(p, r, a) && r.state == p.state
    ensures r.Gapfree()
  {
    var run, lo, hi := PromotedRun(p, r, a);
    assert GaplessAt(p.pending, p.state, p.nonces, a);
    if lo < hi {
      RunContinues(ItemsOf(p.pending, a), ItemsOf(r.pending, a), run, NonceOf(p.state, a), lo, hi);
    }
    GaplessLocal(a, p.state, p.pending, p.nonces, r.pending, r.nonces);
  }

  lemma RunContinues(before: Items, after: Items, run: Items, lo: nat, mid: nat, hi: nat)
    requires Spans(before, lo, mid) && Spans(run, mid, hi) && Gained(after, before, run, {})
    ensures Spans(after, lo, hi)
  {
  }

  /**
   * After the state moved: the virtual nonce was reset to the state nonce, and the pending nonces
   * are still an interval.
   */
  ghost predicate StartsAt(p: Pool, a: Address) {
    Virtual(p.nonces, p.state, a) == NonceOf(p.state, a) && Unbroken(ItemsOf(p.pending, a))
  }

  ghost predicate Unbroken(items: Items) {
    exists lo: nat, hi: nat :: Spans(items, lo, hi)
  }

  /** The queue holds everything from the state nonce up to the first pending transaction, or that one is unpayable. */
  ghost predicate SettlesAt(p: Pool, a: Address) {
    Settles(ItemsOf(p.pending, a), EligibleAt(p, a), LimitsOf(p, a))
  }

  ghost function EligibleAt(p: Pool, a: Address): Items {
    Eligible(ListOf(p.queue, a, false), LimitsOf(p, a)).items
  }

  ghost predicate Settles(items: Items, eligible: Items, lim: Limits) {
    items.Keys != {} ==>
      var lo := Least(items.Keys);
      Refills(eligible, lim.nonce, lo) || Exceeds(items[lo], lim.balance, lim.maxGas)
  }

  ghost predicate Refills(queued: Items, s: nat, lo: nat) {
    forall n :: s <= n < lo ==> n in queued
  }

  lemma FirstPending(items: Items, lo: nat, hi: nat)
    requires Spans(items, lo, hi)
    ensures if lo == hi then items.Keys == {} else items.Keys != {} && Least(items.Keys) == lo
  {
    assert forall n :: n in items.Keys <==> lo <= n < hi;
    assert lo < hi ==> lo in items.Keys;
  }

  ghost predicate Stale(items: Items, s: nat) {
    exists lo: nat, hi: nat :: lo <= s && Spans(items, lo, hi)
  }

  /**
   * What demotion can turn into a gap-free account: above the state nonce the pending nonces
   * are an interval with the virtual nonce in it, and demotion would drop nothing below that.
   */
  ghost predicate DemotableAt(p: Pool, a: Address) {
    Demotable(AtLeast(ItemsOf(p.pending, a), NonceOf(p.state, a)), NonceOf(p.state, a),
              Virtual(p.nonces, p.state, a), BalanceOf(p.state, a), p.maxGas)
  }

  ghost predicate Demotable(items: Items, s: nat, virtual: nat, balance: nat, maxGas: nat) {
    exists hi: nat :: Spans(items, s, hi) && s <= virtual <= hi &&
      forall n :: n in items && n < virtual ==> !Exceeds(items[n], balance, maxGas)
  }

  lemma StaleIsDemotable(items: Items, s: nat, balance: nat, maxGas: nat)
    requires Stale(items, s)
    ensures Demotable(AtLeast(items, s), s, s, balance, maxGas)
  {
    var lo: nat, hi: nat :| lo <= s && Spans(items, lo, hi);
    assert Spans(AtLeast(items, s), s, if hi < s then s else hi);
  }

  lemma RunOnTop(before: Items, after: Items, run: Items, s: nat, end: nat, balance: nat, maxGas: nat)
    requires Stale(before, s) && s !in before && Spans(run, s, end) && Gained(after, before, run, {})
    requires forall n :: n in run ==> !Exceeds(run[n], balance, maxGas)
    ensures Demotable(AtLeast(after, s), s, end, balance, maxGas)
  {
    var lo: nat, hi: nat :| lo <= s && Spans(before, lo, hi);
    var items := AtLeast(after, s);
    assert forall n :: n in items ==> n in run && items[n] == run[n];
    assert Spans(items, s, end);
  }

  /** The run that promotion takes closes the gap below the pending transactions. */
  lemma RunBelow(before: Items, after: Items, run: Items, s: nat, mid: nat, balance: nat, maxGas: nat)
    requires Spans(run, s, mid) && Gained(after, before, run, {})
    requires (exists hi: nat :: mid < hi && Spans(before, mid, hi))
    requires forall n :: n in run ==> !Exceeds(run[n], balance, maxGas)
    ensures Demotable(AtLeast(after, s), s, mid, balance, maxGas)
  {
    var hi: nat :| mid < hi && Spans(before, mid, hi);
    var items := AtLeast(after, s);
    assert Spans(items, s, hi);
    assert forall n :: n in items && n < mid ==> n in run && items[n] == run[n];
  }
}
