/**
 * The transaction pool. A pool is a value; each method is a step that the source performs
 * with the pool lock held and hands back the pool after it. Lists are the values that the
 * class `TxList` computes.
 */
module TxPools {
  import opened Basics
  import opened Transactions
  import opened TxLists
  import opened TxLookups
  import opened TxPricedLists
  import opened KnownTxs
  import opened TxNoncers
  import opened PoolState

  datatype Config = Config(priceBump: nat, accountSlots: nat, globalSlots: nat, accountQueue: nat, globalQueue: nat)

  datatype TxError = KnownTx | OversizedData | NegativeValue | GasLimit | InvalidSender | NonceTooLow
                   | InsufficientFunds | IntrinsicGas | UnderpricedTx | ReplaceUnderpriced

  /**
   * What the transaction alone decides: whether its value is negative, whether it is signed, and
   * the gas it needs at least.
   */
  datatype Checks = Checks(negative: bool, signed: bool, intrinsic: Option<nat>)

  datatype AddResult = Accepted(replaced: bool) | Rejected(error: TxError)

  datatype Pool = Pool(config: Config, known: Known, state: State, nonces: map<Address, nat>,
                       maxGas: nat, locals: set<Address>, pending: ListMap, queue: ListMap,
                       beats: map<Address, nat>, clock: nat) {

    /**
     * The lookup is exactly the disjoint union of the two kinds of lists, no account has a
     * nonce in both, and no stored list is empty.
     */
    ghost predicate Valid() {
      known.Valid() && known.Settled() && Booked()
    }

    /** No account has a gap: its pending nonces run from its state nonce to its virtual nonce. */
    ghost predicate Gapfree() {
      Gapless(pending, state, nonces)
    }

    /** Every account could pay for each of its transactions, and each would fit into a block. */
    ghost predicate AllPayable() {
      forall tx :: tx in known.txs ==> !Exceeds(tx, BalanceOf(state, tx.from), maxGas)
    }

    ghost predicate Booked() {
      PoolOk(pending, queue, known.txs) && NoneEmpty(pending) && NoneEmpty(queue)
    }
  }

  /** Drops one known transaction and tells the price heap. */
  method Forget(k: Known, tx: Tx) returns (r: Known)
    requires k.Valid() && k.Settled() && tx in k.txs
    ensures r.Valid() && r.Settled() && r.txs == k.txs - {tx} && r.log == k.log
    ensures forall x :: r.Seen(x) ==> k.Seen(x) || x in k.txs
  {
    r := Remove(k, tx);
    r := Count(r);
  }

  /** Makes `tx` known in place of what the list held at its nonce, if anything. */
  method Swap(k: Known, list: ListV, tx: Tx) returns (r: Known)
    requires k.Valid() && k.Settled() && Ousted(list, tx) <= k.txs && tx !in k.txs
    ensures r.Valid() && r.Settled() && r.txs == k.txs - Ousted(list, tx) + {tx}
    ensures r.log.made == k.log.made + multiset{tx} && (k.log.clean && !k.Seen(tx) ==> r.log.clean)
  {
    r := k;
    if tx.nonce in list.items {
      assert list.items[tx.nonce] in Ousted(list, tx);
      r := Forget(r, list.items[tx.nonce]);
    }
    r := Admit(r, tx);
  }

  /** The heartbeats after a transaction of `a` was queued: recorded only if there was none. */
  function Noted(beats: map<Address, nat>, a: Address, clock: nat): map<Address, nat> {
    if a in beats then beats else beats[a := clock]
  }

  method EnqueueTx(p: Pool, tx: Tx) returns (r: Pool, replaced: bool, ok: bool)
    requires p.known.Valid()
    requires tx in p.known.txs ==> tx.nonce !in ItemsOf(p.queue, tx.from)
    requires tx !in p.known.txs ==> p.known.Settled() && Ousted(ListOf(p.queue, tx.from, false), tx) <= p.known.txs
    ensures r == p.(queue := r.queue, beats := r.beats, known := r.known) && r.known.Valid()
    ensures ok == Accepts(ListOf(p.queue, tx.from, false), tx, p.config.priceBump)
    ensures !ok ==> r == p && !replaced
    ensures ok ==> r.queue == p.queue[tx.from := Added(ListOf(p.queue, tx.from, false), tx)]
    ensures ok ==> replaced == (tx.nonce in ItemsOf(p.queue, tx.from))
    ensures ok ==> r.beats == Noted(p.beats, tx.from, p.clock)
    ensures tx in p.known.txs ==> ok && !replaced && r.known == p.known
    ensures ok && tx !in p.known.txs ==>
              && r.known.Settled() && r.known.txs == p.known.txs - Ousted(ListOf(p.queue, tx.from, false), tx) + {tx}
              && r.known.log.made == p.known.log.made + multiset{tx}
              && (p.known.log.clean && !p.known.Seen(tx) ==> r.known.log.clean)
  {
    r, replaced, ok := p, false, false;
    var a := tx.from;
    var list := ListOf(p.queue, a, false);
    if !Accepts(list, tx, p.config.priceBump) {
      return;
    }
    replaced, ok := tx.nonce in list.items, true;
    var known := p.known;
    if tx !in p.known.txs {
      known := Swap(p.known, list, tx);
    }
    r := p.(queue := p.queue[a := Added(list, tx)], known := known,
            beats := Noted(p.beats, a, p.clock));
  }

  /** Removes the transactions of `gone` from the lookup without telling the price heap yet. */
  method Drop(k: Known, gone: Items) returns (r: Known)
    requires k.Valid() && k.unpriced == {} && Keyed(gone) && Values(gone) <= k.txs
    ensures r.Valid() && r.unpriced == {} && r.txs == k.txs - Values(gone)
    ensures r.owed == k.owed + |gone| && r.heap == k.heap && r.log == k.log
  {
    r := k;
    var left := gone;
    while left != map[]
      invariant Keyed(left) && Values(left) <= r.txs && r.Valid() && r.unpriced == {}
      invariant r.txs - Values(left) == k.txs - Values(gone)
      invariant r.owed + |left| == k.owed + |gone| && r.heap == k.heap && r.log == k.log
      decreases |left|
    {
      var n :| n in left;
      ValuesLess(left, n);
      r := Remove(r, left[n]);
      left := Without(left, n);
    }
    assert Values(map[]) == {};
  }

  /** Moves floating transactions of one account into its queue. */
  method Requeue(p: Pool, a: Address, extra: Items) returns (r: Pool)
    requires p.known.Valid() && From(extra, a) && Values(extra) <= p.known.txs
    requires ListOk(ListOf(p.queue, a, false), false, a) && forall n :: n in extra ==> n !in ItemsOf(p.queue, a)
    ensures r == p.(queue := r.queue, beats := r.beats) && Grown(p.queue, r.queue, a, false, extra, {})
    ensures extra == map[] ==> r == p
    ensures extra != map[] ==> r.beats == Noted(p.beats, a, p.clock)
  {
    r := p;
    var left := extra.Keys;
    while left != {}
      invariant left <= extra.Keys && r == p.(queue := r.queue, beats := r.beats)
      invariant r.beats == if left == extra.Keys then p.beats else Noted(p.beats, a, p.clock)
      invariant Grown(p.queue, r.queue, a, false, extra, left)
      invariant extra == map[] ==> r == p
      decreases left
    {
      var n :| n in left;
      assert extra[n] in Values(extra);
      GrownStep(p.queue, r.queue, a, false, extra, left, n);
      var moved, replaced, ok := EnqueueTx(r, extra[n]);
      assert ok && !replaced;
      r, left := moved, left - {n};
    }
  }

  /** What removing one known transaction does to the lists and the virtual nonces. */
  ghost predicate Unlisted(p: Pool, r: Pool, tx: Tx) {
    var a, n: nat := tx.from, tx.nonce;
    if n in ItemsOf(p.pending, a) then
      && OnlyAt(p.pending, r.pending, a) && ItemsOf(r.pending, a) == Below(ItemsOf(p.pending, a), n)
      && Grown(p.queue, r.queue, a, false, Invalidated(ListOf(p.pending, a, true), n), {})
      && r.nonces == Lowered(p.nonces, p.state, a, n)
      && var kept := if Below(ItemsOf(p.pending, a), n) == map[] then p.beats - {a} else p.beats;
         r.beats == if Invalidated(ListOf(p.pending, a, true), n) == map[] then kept else Noted(kept, a, p.clock)
    else
      && r.pending == p.pending && r.nonces == p.nonces && r.beats == p.beats
      && OnlyAt(p.queue, r.queue, a) && ItemsOf(r.queue, a) == Without(ItemsOf(p.queue, a), n)
  }

  method RemoveTx(p: Pool, tx: Tx, outofbound: bool) returns (r: Pool)
    requires p.known.Valid() && p.Booked()
    requires p.known.owed == 0
    requires (if outofbound then p.known.unpriced == {} else tx in p.known.txs ==> tx in p.known.unpriced)
    ensures r.known.Valid() && r.Booked()
    ensures r == p.(known := r.known, pending := r.pending, queue := r.queue, nonces := r.nonces, beats := r.beats)
    ensures r.known.owed == 0 && r.known.unpriced == p.known.unpriced - {tx} && r.known.txs == p.known.txs - {tx}
    ensures r.known.log == p.known.log && (!outofbound ==> r.known.heap == p.known.heap)
    ensures if tx in p.known.txs then Unlisted(p, r, tx) else r == p
  {
    r := p;
    if tx !in p.known.txs {
      return;
    }
    var a := tx.from;
    Member(a, p.pending, p.queue, p.known.txs, tx);
    var known := Remove(p.known, tx);
    if outofbound {
      known := Count(known);
    }
    r := p.(known := known);
    if tx.nonce in ItemsOf(p.pending, a) {
      r := Unpend(p, r, tx);
    } else {
      r := Unqueue(p, r, tx);
    }
  }

  /** The tail of removeTx for a pending transaction. */
  method Unpend(p: Pool, q: Pool, tx: Tx) returns (r: Pool)
    requires p.Booked() && Stores(ItemsOf(p.pending, tx.from), tx)
    requires q == p.(known := q.known) && q.known.Valid() && q.known.txs == p.known.txs - {tx}
    ensures r == q.(pending := r.pending, queue := r.queue, nonces := r.nonces, beats := r.beats)
    ensures r.Booked() && Unlisted(p, r, tx)
  {
    var a, n: nat := tx.from, tx.nonce;
    ghost var live := p.known.txs;
    Member(a, p.pending, p.queue, live, tx);
    SameItems(p.queue, a, false);
    var list := ListOf(p.pending, a, true);
    var rest := list.(items := Below(list.items, n));
    InvalidsLive(a, list, ListOf(p.queue, a, false), live, tx);
    StoredList(p.pending, a, rest, true);
    r := q.(pending := Stored(q.pending, a, rest),
            beats := if rest.items == map[] then q.beats - {a} else q.beats);
    var invalids := Invalidated(list, n);
    r := Requeue(r, a, invalids);
    r := r.(nonces := Lowered(r.nonces, r.state, a, n));
    UnpendDone(p.pending, p.queue, live, r.pending, r.queue, tx);
  }

  lemma UnpendDone(pending: ListMap, queue: ListMap, live: set<Tx>, pending': ListMap, queue': ListMap, tx: Tx)
    requires PoolOk(pending, queue, live) && Stores(ItemsOf(pending, tx.from), tx)
    requires var l := ListOf(pending, tx.from, true);
             pending' == Stored(pending, tx.from, l.(items := Below(l.items, tx.nonce)))
    requires Grown(queue, queue', tx.from, false, Invalidated(ListOf(pending, tx.from, true), tx.nonce), {})
    ensures PoolOk(pending', queue', live - {tx})
  {
    var a := tx.from;
    Member(a, pending, queue, live, tx);
    SameItems(queue, a, false);
    SameItems(queue', a, false);
    var list := ListOf(pending, a, true);
    UnpendKeeps(a, list, ListOf(queue, a, false), ListOf(queue', a, false), live, tx);
    EmptyKeeps(a, list.(items := Below(list.items, tx.nonce)), ListOf(queue', a, false), live - {tx});
    Local(a, pending, queue, live, pending', queue', live - {tx});
  }

  lemma EmptyKeeps(a: Address, list: ListV, queued: ListV, live: set<Tx>)
    requires AccountOk(a, list, queued, live)
    ensures list.items == map[] ==> AccountOk(a, EmptyList(true), queued, live)
    ensures queued.items == map[] ==> AccountOk(a, list, EmptyList(false), live)
  {
  }

  lemma InvalidsLive(a: Address, list: ListV, queued: ListV, live: set<Tx>, tx: Tx)
    requires AccountOk(a, list, queued, live) && Stores(list.items, tx)
    ensures var extra := Invalidated(list, tx.nonce);
            From(extra, a) && Values(extra) <= live - {tx} && forall n :: n in extra ==> n !in queued.items
  {
    ValuesAre(AtLeast(list.items, tx.nonce + 1));
  }

  /** The tail of removeTx for a queued transaction. */
  method Unqueue(p: Pool, q: Pool, tx: Tx) returns (r: Pool)
    requires p.Booked() && Stores(ItemsOf(p.queue, tx.from), tx)
    requires q == p.(known := q.known) && q.known.txs == p.known.txs - {tx}
    ensures r == q.(queue := r.queue) && r.Booked()
    ensures OnlyAt(p.queue, r.queue, tx.from)
    ensures ItemsOf(r.queue, tx.from) == Without(ItemsOf(p.queue, tx.from), tx.nonce)
  {
    var a := tx.from;
    ghost var live := p.known.txs;
    Member(a, p.pending, p.queue, live, tx);
    var future := p.queue[a];
    var rest := future.(items := Without(future.items, tx.nonce));
    r := q.(queue := Stored(q.queue, a, rest));
    StoredList(p.queue, a, rest, false);
    UnqueueKeeps(a, ListOf(p.pending, a, true), future, live, tx);
    Local(a, p.pending, p.queue, live, r.pending, r.queue, live - {tx});
  }

  /** Removing a transaction keeps an account gap-free. */
  lemma UnlistedGapfree(p: Pool, r: Pool, tx: Tx)
    requires p.Gapfree() && r.state == p.state && Unlisted(p, r, tx)
    ensures r.Gapfree()
  {
    if tx.nonce in ItemsOf(p.pending, tx.from) {
      CutKeepsGapless(p.pending, r.pending, p.state, p.nonces, tx.from, tx.nonce);
    }
  }

  /** Removes what the price heap gave up to make room. */
  method RemoveDropped(p: Pool, drop: seq<Tx>) returns (r: Pool)
    requires p.known.Valid() && p.Booked() && p.known.owed == 0 && p.known.unpriced == Members(drop)
    ensures r.Valid() && r.known.txs == p.known.txs - Members(drop) && r.known.log == p.known.log
    ensures r == p.(known := r.known, pending := r.pending, queue := r.queue, nonces := r.nonces, beats := r.beats)
    ensures p.Gapfree() ==> r.Gapfree()
    ensures forall tx :: r.known.Seen(tx) ==> p.known.Seen(tx)
  {
    r := p;
    assert drop[..|drop|] == drop;
    for i := 0 to |drop|
      invariant Dropping(p, r, drop, i)
    {
      r := RemoveNext(p, r, drop, i);
    }
  }

  /** The first `i` of the transactions that the price heap gave up are removed. */
  ghost predicate Dropping(p: Pool, r: Pool, drop: seq<Tx>, i: nat)
    requires i <= |drop|
  {
    && r.known.Valid() && r.Booked() && r.known.owed == 0 && r.known.log == p.known.log && r.known.heap == p.known.heap
    && r.known.unpriced == Members(drop) - Members(drop[..i]) && r.known.txs == p.known.txs - Members(drop[..i])
    && r == p.(known := r.known, pending := r.pending, queue := r.queue, nonces := r.nonces, beats := r.beats)
    && (p.Gapfree() ==> r.Gapfree())
  }

  method RemoveNext(p: Pool, q: Pool, drop: seq<Tx>, i: nat) returns (r: Pool)
    requires i < |drop| && Dropping(p, q, drop, i)
    ensures Dropping(p, r, drop, i + 1)
  {
    MembersStep(drop, i);
    r := RemoveTx(q, drop[i], false);
    if p.Gapfree() && drop[i] in q.known.txs {
      UnlistedGapfree(q, r, drop[i]);
    }
  }

  lemma MembersStep(txs: seq<Tx>, i: nat)
    requires i < |txs|
    ensures Members(txs[..i + 1]) == Members(txs[..i]) + {txs[i]} && txs[i] in Members(txs)
  {
    assert txs[..i + 1] == txs[..i] + [txs[i]];
    assert txs[i] in txs;
  }

  /** Why a transaction cannot be admitted; `exactNonce` is the rule that it must carry the account's very nonce. */
  predicate Violates(p: Pool, tx: Tx, exactNonce: bool, checks: Checks, error: TxError) {
    match error
    case OversizedData => 65536 < tx.size
    case NegativeValue => checks.negative
    case GasLimit => p.maxGas < tx.gas
    case InvalidSender => !checks.signed
    case NonceTooLow => tx.nonce < NonceOf(p.state, tx.from) || (exactNonce && NonceOf(p.state, tx.from) < tx.nonce)
    case InsufficientFunds => BalanceOf(p.state, tx.from) < tx.cost
    case IntrinsicGas => checks.intrinsic.None? || tx.gas < checks.intrinsic.value
    case _ => false
  }

  /** The order of the checks. */
  function Precedence(error: TxError): nat {
    match error
    case OversizedData => 0
    case NegativeValue => 1
    case GasLimit => 2
    case InvalidSender => 3
    case NonceTooLow => 4
    case InsufficientFunds => 5
    case IntrinsicGas => 6
    case _ => 7
  }

  /** The admission checks name the first rule that is violated, and nothing exactly if none is. */
  function Validate(p: Pool, tx: Tx, exactNonce: bool, checks: Checks): (error: Option<TxError>)
    ensures error.None? ==> forall e :: !Violates(p, tx, exactNonce, checks, e)
    ensures error.Some? ==>
              && Violates(p, tx, exactNonce, checks, error.value)
              && forall e :: Violates(p, tx, exactNonce, checks, e) ==> Precedence(error.value) <= Precedence(e)
  {
    var nonce := NonceOf(p.state, tx.from);
    if 65536 < tx.size then Some(OversizedData)
    else if checks.negative then Some(NegativeValue)
    else if p.maxGas < tx.gas then Some(GasLimit)
    else if !checks.signed then Some(InvalidSender)
    else if exactNonce && nonce != tx.nonce then Some(NonceTooLow)
    else if !exactNonce && tx.nonce < nonce then Some(NonceTooLow)
    else if BalanceOf(p.state, tx.from) < tx.cost then Some(InsufficientFunds)
    else if checks.intrinsic.None? || tx.gas < checks.intrinsic.value then Some(IntrinsicGas)
    else None
  }

  function Capacity(p: Pool): nat {
    p.config.globalSlots + p.config.globalQueue
  }

  /** There is room for one more, or only local transactions are left. */
  ghost predicate HasRoom(p: Pool) {
    |p.known.txs| < Capacity(p) || forall x :: x in p.known.txs ==> IsLocal(p.locals, x)
  }

  /**
   * What is dropped to make room: nothing while there is room, else the cheapest remote
   * transactions, and just enough.
   */
  ghost predicate DropsFor(p: Pool, tx: Tx, drop: set<Tx>) {
    && drop <= p.known.txs && (|p.known.txs| < Capacity(p) ==> drop == {})
    && (p.known.log.clean && Capacity(p) <= |p.known.txs| ==>
          MadeRoom(p.known.txs, drop, p.locals, SlotSum(p.known.txs) - Capacity(p) + NumSlots(tx)))
  }

  /** A remote transaction that is no dearer than anything in the pool. */
  ghost predicate TooCheap(p: Pool, tx: Tx) {
    p.known.txs != {} && !IsLocal(p.locals, tx) && forall x :: x in p.known.txs ==> tx.price <= x.price
  }

  /** The part of add that makes room in a full pool. */
  method EnsureRoom(p: Pool, tx: Tx, local: bool) returns (r: Pool, under: bool, ghost drop: set<Tx>)
    requires p.Valid()
    ensures r.Valid() && r.known.log == p.known.log && r.known.txs == p.known.txs - drop
    ensures r == p.(known := r.known, pending := r.pending, queue := r.queue, nonces := r.nonces, beats := r.beats)
    ensures p.Gapfree() ==> r.Gapfree()
    ensures !p.known.Seen(tx) ==> !r.known.Seen(tx)
    ensures under ==> r == p.(known := r.known) && drop == {}
    ensures !under ==> DropsFor(p, tx, drop)
    ensures p.known.log.clean ==>
              (under <==> Capacity(p) <= |p.known.txs| && !local && TooCheap(p, tx))
    ensures p.known.log.clean && !under ==> HasRoom(r)
  {
    r, under, drop := p, false, {};
    if |p.known.txs| < Capacity(p) {
      return;
    }
    r, under := RefuseCheap(p, tx, local);
    if !under {
      r, drop := EvictFor(r, tx);
    }
  }

  method RefuseCheap(p: Pool, tx: Tx, local: bool) returns (r: Pool, under: bool)
    requires p.Valid()
    ensures r.Valid() && r == p.(known := r.known) && r.known.log == p.known.log && r.known.txs == p.known.txs
    ensures !p.known.Seen(tx) ==> !r.known.Seen(tx)
    ensures (under ==> !local) && (p.known.log.clean ==> (under <==> !local && TooCheap(p, tx)))
  {
    r, under := p, false;
    if !local {
      var known;
      known, under := IsUnderpriced(p.known, tx, p.locals);
      r := p.(known := known);
    }
  }

  method EvictFor(p: Pool, tx: Tx) returns (r: Pool, ghost gone: set<Tx>)
    requires p.Valid() && Capacity(p) <= |p.known.txs|
    ensures r.Valid() && r.known.log == p.known.log && r.known.txs == p.known.txs - gone && DropsFor(p, tx, gone)
    ensures r == p.(known := r.known, pending := r.pending, queue := r.queue, nonces := r.nonces, beats := r.beats)
    ensures p.Gapfree() ==> r.Gapfree()
    ensures !p.known.Seen(tx) ==> !r.known.Seen(tx)
    ensures p.known.log.clean ==> HasRoom(r)
  {
    var slots := p.known.slots - Capacity(p) + NumSlots(tx);
    var known, drop := MakeRoom(p.known, slots, p.locals);
    gone := Members(drop);
    r := RemoveDropped(p.(known := known), drop);
    if p.known.log.clean {
      RoomIsEnough(p.known.txs, Members(drop), p.locals, Capacity(p), NumSlots(tx));
    }
  }

  /** Freeing the slots asked for brings the count below the capacity. */
  lemma RoomIsEnough(txs: set<Tx>, drop: set<Tx>, locals: set<Address>, capacity: nat, needed: nat)
    requires drop <= txs && 0 < needed
    requires MadeRoom(txs, drop, locals, SlotSum(txs) - capacity + needed)
    ensures |txs - drop| < capacity || forall x :: x in txs - drop ==> IsLocal(locals, x)
  {
    SlotSumParts(txs, drop);
    SlotSumBound(txs - drop);
  }

  /** Known transactions of the same sender with the same nonce. */
  function Rivals(txs: set<Tx>, tx: Tx): set<Tx> {
    set x | x in txs && x.from == tx.from && x.nonce == tx.nonce
  }

  ghost predicate Outbidden(txs: set<Tx>, tx: Tx, priceBump: nat) {
    forall x :: x in Rivals(txs, tx) ==> Outbids(tx, x, priceBump)
  }

  /** There is at most one rival, in the pending list or else in the queue. */
  lemma RivalsAre(pending: ListMap, queue: ListMap, live: set<Tx>, tx: Tx)
    requires PoolOk(pending, queue, live)
    ensures tx.nonce in ItemsOf(pending, tx.from) ==> Rivals(live, tx) == Ousted(ListOf(pending, tx.from, true), tx)
    ensures tx.nonce !in ItemsOf(pending, tx.from) ==> Rivals(live, tx) == Ousted(ListOf(queue, tx.from, false), tx)
  {
    var p, q := ListOf(pending, tx.from, true), ListOf(queue, tx.from, false);
    assert AccountOk(tx.from, p, q, live);
    forall x | x in Rivals(live, tx) ensures x in Ousted(p, tx) || x in Ousted(q, tx) {
      assert Stores(p.items, x) || Stores(q.items, x);
    }
    forall x | x in Ousted(p, tx) || x in Ousted(q, tx) ensures x in Rivals(live, tx) {
      assert Stores(p.items, x) || Stores(q.items, x);
    }
  }

  /** The part of add that puts an admitted transaction in place of a pending one or into the queue. */
  method Place(p: Pool, tx: Tx, local: bool) returns (r: Pool, result: AddResult)
    requires p.Valid() && tx !in p.known.txs
    ensures r.Valid() && (p.Gapfree() ==> r.Gapfree())
    ensures r == p.(known := r.known, pending := r.pending, queue := r.queue, beats := r.beats, locals := r.locals)
    ensures p.known.log.clean && !p.known.Seen(tx) ==> r.known.log.clean
    ensures result.Rejected? ==> r == p && result.error == ReplaceUnderpriced
    ensures result.Accepted? <==> Outbidden(p.known.txs, tx, p.config.priceBump)
    ensures result.Accepted? ==>
              && r.known.txs == p.known.txs - Rivals(p.known.txs, tx) + {tx}
              && r.known.log.made == p.known.log.made + multiset{tx}
              && (result.replaced <==> Rivals(p.known.txs, tx) != {})
              && (Stores(ItemsOf(r.pending, tx.from), tx) <==> tx.nonce in ItemsOf(p.pending, tx.from))
              && r.locals == if local
              && !Stores(ItemsOf(r.pending, tx.from), tx) then p.locals + {tx.from} else p.locals
  {
    var a := tx.from;
    if tx.nonce in ItemsOf(p.pending, a) {
      r, result := ReplacePending(p, tx);
    } else {
      r, result := PlaceQueued(p, tx, local);
    }
  }

  method PlaceQueued(p: Pool, tx: Tx, local: bool) returns (r: Pool, result: AddResult)
    requires p.Valid() && tx !in p.known.txs && tx.nonce !in ItemsOf(p.pending, tx.from)
    ensures r.Valid() && r == p.(known := r.known, queue := r.queue, beats := r.beats, locals := r.locals)
    ensures p.known.log.clean && !p.known.Seen(tx) ==> r.known.log.clean
    ensures result.Rejected? ==> r == p && result.error == ReplaceUnderpriced
    ensures result.Accepted? <==> Outbidden(p.known.txs, tx, p.config.priceBump)
    ensures result.Accepted? ==>
              && r.known.txs == p.known.txs - Rivals(p.known.txs, tx) + {tx}
              && r.known.log.made == p.known.log.made + multiset{tx}
              && (result.replaced <==> Rivals(p.known.txs, tx) != {})
              && r.locals == if local then p.locals + {tx.from} else p.locals
  {
    var a := tx.from;
    RivalsAre(p.pending, p.queue, p.known.txs, tx);
    EnqueueKeeps(p.pending, p.queue, p.known.txs, tx);
    var replaced, ok;
    r, replaced, ok := EnqueueTx(p, tx);
    if !ok {
      return r, Rejected(ReplaceUnderpriced);
    }
    result := Accepted(replaced);
    assert r.Booked();
    if local {
      r := r.(locals := r.locals + {a});
    }
  }

  method ReplacePending(p: Pool, tx: Tx) returns (r: Pool, result: AddResult)
    requires p.Valid() && tx !in p.known.txs && tx.nonce in ItemsOf(p.pending, tx.from)
    ensures r.Valid() && (p.Gapfree() ==> r.Gapfree())
    ensures r == p.(known := r.known, pending := r.pending, beats := r.beats)
    ensures p.known.log.clean && !p.known.Seen(tx) ==> r.known.log.clean
    ensures result == if Accepts(ListOf(p.pending, tx.from, true), tx, p.config.priceBump) then Accepted(true)
              else Rejected(ReplaceUnderpriced)
    ensures result.Rejected? ==> r == p
    ensures result.Accepted? <==> Outbidden(p.known.txs, tx, p.config.priceBump)
    ensures result.Accepted? ==>
              && r.known.txs == p.known.txs - Rivals(p.known.txs, tx) + {tx}
              && r.known.log.made == p.known.log.made + multiset{tx}
              && Rivals(p.known.txs, tx) != {} && Stores(ItemsOf(r.pending, tx.from), tx)
              && r.beats == p.beats[tx.from := p.clock]
  {
    var a := tx.from;
    var list := ListOf(p.pending, a, true);
    RivalsAre(p.pending, p.queue, p.known.txs, tx);
    if !Accepts(list, tx, p.config.priceBump) {
      return p, Rejected(ReplaceUnderpriced);
    }
    ReplaceKeeps(p.pending, p.queue, p.known.txs, tx);
    var known := Swap(p.known, list, tx);
    r := p.(known := known, pending := p.pending[a := Added(list, tx)], beats := p.beats[a := p.clock]);
    result := Accepted(true);
    if p.Gapfree() {
      SameNoncesGapless(p.pending, r.pending, p.state, p.nonces, a);
    }
  }

  /**
   * What adding a transaction does. Known and inadmissible ones are turned away; a full pool
   * turns away a remote one that is no dearer than anything in it, and otherwise drops just
   * enough of the cheapest remote ones; and what is left must be outbidden at the same nonce.
   */
  ghost predicate AddOutcome(p: Pool, tx: Tx, local: bool, error: Option<TxError>, r: Pool, result: AddResult,
                             drop: set<Tx>) {
    var kept := p.known.txs - drop;
    && (result == Rejected(KnownTx) <==> tx in p.known.txs)
    && (tx in p.known.txs || error.Some? ==> r == p && result.Rejected? && drop == {})
    && (tx !in p.known.txs && error.Some? ==> result == Rejected(error.value))
    && (result == Rejected(UnderpricedTx) ==> drop == {} && r.known.txs == p.known.txs)
    && (tx !in p.known.txs && error.None? && result != Rejected(UnderpricedTx) ==>
          && DropsFor(p, tx, drop)
          && (result.Accepted? <==> Outbidden(kept, tx, p.config.priceBump))
          && (result.Rejected? ==> result.error == ReplaceUnderpriced && r.known.txs == kept))
    && (result.Accepted? ==>
          && r.known.txs == kept - Rivals(kept, tx) + {tx} && (result.replaced <==> Rivals(kept, tx) != {})
          && r.known.log.made == p.known.log.made + multiset{tx}
          && r.locals == if local && !Stores(ItemsOf(r.pending, tx.from), tx) then p.locals + {tx.from} else p.locals)
    && (result.Rejected? ==> r.known.log == p.known.log && r.locals == p.locals)
    && (p.known.log.clean && tx !in p.known.txs && error.None? ==>
          (result == Rejected(UnderpricedTx) <==> Capacity(p) <= |p.known.txs| && !local && TooCheap(p, tx)))
  }

  method Add(p: Pool, tx: Tx, local: bool, exactNonce: bool, checks: Checks)
    returns (r: Pool, result: AddResult, ghost drop: set<Tx>)
    requires p.Valid()
    ensures r.Valid() && (p.Gapfree() ==> r.Gapfree())
    ensures r == p.(known := r.known, pending := r.pending, queue := r.queue, nonces := r.nonces, beats := r.beats,
              locals := r.locals)
    ensures AddOutcome(p, tx, local, Validate(p, tx, exactNonce, checks), r, result, drop)
    ensures p.known.log.clean && !p.known.Seen(tx) ==> r.known.log.clean
    ensures p.known.log.clean && result.Accepted? ==>
              |r.known.txs| <= Capacity(p) || forall x :: x in r.known.txs - {tx} ==> IsLocal(p.locals, x)
  {
    r, drop := p, {};
    if tx in p.known.txs {
      return r, Rejected(KnownTx), drop;
    }
    var error := Validate(p, tx, exactNonce, checks);
    if error.Some? {
      return r, Rejected(error.value), drop;
    }
    var under;
    r, under, drop := EnsureRoom(p, tx, local);
    if under {
      return r, Rejected(UnderpricedTx), drop;
    }
    ghost var roomy := r;
    r, result := Place(r, tx, local);
    if p.known.log.clean && result.Accepted? {
      StillFits(roomy.known.txs, r.known.txs, tx, Capacity(p), p.locals);
    }
  }

  lemma StillFits(before: set<Tx>, after: set<Tx>, tx: Tx, capacity: nat, locals: set<Address>)
    requires after <= before + {tx}
    requires |before| < capacity || forall x :: x in before ==> IsLocal(locals, x)
    ensures |after| <= capacity || forall x :: x in after - {tx} ==> IsLocal(locals, x)
  {
    var most := before + {tx};
    assert |most| <= |before| + 1;
    assert |most| == |after| + |most - after|;
  }
}
