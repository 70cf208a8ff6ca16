/** truncateQueue and the eviction of idle accounts: dropping queued transactions. */
module PoolQueues {
  import opened Transactions
  import opened PoolState
  import opened TxPools
  import opened PoolTruncates
  import opened Sums

  /** `after` is `before` without the nonces in `gone`. */
  ghost predicate Lacks(after: Items, before: Items, gone: set<nat>) {
    && (forall n :: n in after <==> n in before && n !in gone)
    && (forall n :: n in after ==> after[n] == before[n])
  }

  /** Only queued transactions of `a` were dropped. */
  ghost predicate Unqueued(p: Pool, r: Pool, a: Address, gone: set<nat>) {
    && r.Valid() && r == p.(known := r.known, queue := r.queue)
    && r.known.log == p.known.log && r.known.txs <= p.known.txs
    && OnlyAt(p.queue, r.queue, a) && Lacks(ItemsOf(r.queue, a), ItemsOf(p.queue, a), gone)
  }

  method UnqueueOne(p: Pool, q: Pool, a: Address, ghost gone: set<nat>, n: nat) returns (r: Pool)
    requires Unqueued(p, q, a, gone) && n in ItemsOf(q.queue, a)
    ensures Unqueued(p, r, a, gone + {n})
  {
    var tx := ItemsOf(q.queue, a)[n];
    assert AccountOk(a, ListOf(q.pending, a, true), ListOf(q.queue, a, false), q.known.txs);
    Member(a, q.pending, q.queue, q.known.txs, tx);
    LacksOne(ItemsOf(q.queue, a), ItemsOf(p.queue, a), gone, n);
    r := RemoveTx(q, tx, true);
    OnlyAtTwice(p.queue, q.queue, r.queue, a);
  }

  lemma LacksOne(after: Items, before: Items, gone: set<nat>, n: nat)
    requires Lacks(after, before, gone)
    ensures Lacks(Without(after, n), before, gone + {n})
  {
  }

  lemma OnlyAtTwice(before: ListMap, mid: ListMap, after: ListMap, a: Address)
    requires OnlyAt(before, mid, a) && OnlyAt(mid, after, a)
    ensures OnlyAt(before, after, a)
  {
  }

  method RemoveQueued(p: Pool, a: Address, gone: set<nat>) returns (r: Pool)
    requires p.Valid() && gone <= ItemsOf(p.queue, a).Keys
    ensures Unqueued(p, r, a, gone)
  {
    r := p;
    var left := gone;
    while left != {}
      invariant left <= gone && Unqueued(p, r, a, gone - left)
      decreases left
    {
      var n :| n in left;
      r := UnqueueOne(p, r, a, gone - left, n);
      assert gone - left + {n} == gone - (left - {n});
      left := left - {n};
    }
    assert gone - {} == gone;
  }

  lemma TotalLocal(lists: ListMap, lists': ListMap, a: Address)
    requires OnlyAt(lists, lists', a)
    ensures Total(lists) + |ItemsOf(lists', a)| == Total(lists') + |ItemsOf(lists, a)|
  {
    SumWithout(SizesOf(lists), a);
    SumWithout(SizesOf(lists'), a);
    SizesLocal(lists, lists', a);
    assert a in SizesOf(lists) <==> a in lists;
    assert a in SizesOf(lists') <==> a in lists';
  }

  lemma SizesLocal(lists: ListMap, lists': ListMap, a: Address)
    requires OnlyAt(lists, lists', a)
    ensures SizesOf(lists) - {a} == SizesOf(lists') - {a}
  {
    var sizes, sizes' := SizesOf(lists), SizesOf(lists');
    assert forall b :: b != a ==> (b in sizes <==> b in sizes') && (b in sizes ==> sizes[b] == sizes'[b]);
  }

  /** The accounts whose queues may be truncated. */
  function Remotes(p: Pool): set<Address> {
    set a | a in p.queue && a !in p.locals
  }

  /** Truncation so far: the accounts in `left` and the local ones are untouched, the others are gone. */
  ghost predicate Draining(p: Pool, r: Pool, left: set<Address>) {
    && r.Valid() && r == p.(known := r.known, queue := r.queue)
    && r.known.log == p.known.log && r.known.txs <= p.known.txs
    && Untouched(p, r.queue, left)
  }

  ghost predicate Untouched(p: Pool, queue: ListMap, left: set<Address>) {
    && (forall a :: a in queue ==> a in p.queue && (a in left || a in p.locals))
    && (forall a :: a in left || a in p.locals ==>
         (a in queue <==> a in p.queue) && (a in p.queue ==> queue[a] == p.queue[a]))
  }

  lemma NothingLeft(after: Items, before: Items, gone: set<nat>)
    requires Lacks(after, before, gone) && gone == before.Keys
    ensures after == map[]
  {
  }

  method DrainOne(p: Pool, q: Pool, left: set<Address>, a: Address) returns (r: Pool)
    requires Draining(p, q, left) && a in left && left <= Remotes(p)
    ensures Draining(p, r, left - {a}) && Total(r.queue) == Total(q.queue) - |q.queue[a].items|
  {
    r := RemoveQueued(q, a, q.queue[a].items.Keys);
    NothingLeft(ItemsOf(r.queue, a), ItemsOf(q.queue, a), q.queue[a].items.Keys);
    assert a !in r.queue;
    TotalLocal(q.queue, r.queue, a);
    DrainedOne(p, q.queue, r.queue, left, a);
  }

  lemma DrainedOne(p: Pool, queue: ListMap, queue': ListMap, left: set<Address>, a: Address)
    requires Untouched(p, queue, left) && OnlyAt(queue, queue', a) && a in left && a !in queue' && a !in p.locals
    ensures Untouched(p, queue', left - {a})
  {
  }

  /** The last account loses only its highest nonces. */
  ghost predicate PartlyDrained(p: Pool, q: Pool, r: Pool, a: Address) {
    && r.Valid() && r == p.(known := r.known, queue := r.queue)
    && r.known.log == p.known.log && r.known.txs <= p.known.txs
    && OnlyAt(q.queue, r.queue, a) && LowerPart(ItemsOf(r.queue, a), ItemsOf(q.queue, a))
  }

  method DrainPart(p: Pool, q: Pool, left: set<Address>, a: Address, drop: nat) returns (r: Pool)
    requires Draining(p, q, left) && a in left && left <= Remotes(p) && drop <= |q.queue[a].items|
    ensures PartlyDrained(p, q, r, a) && Total(r.queue) == Total(q.queue) - drop
  {
    var keys := q.queue[a].items.Keys;
    var low := Lowest(keys, |keys| - drop);
    r := RemoveQueued(q, a, keys - low);
    assert ItemsOf(r.queue, a).Keys == low;
    TotalLocal(q.queue, r.queue, a);
  }

  /** When an account was last heard from; one without a heartbeat comes before all others. */
  function BeatOf(p: Pool, a: Address): int {
    if a in p.beats then p.beats[a] else -1
  }

  /**
   * The result of truncation: local queues are untouched, every queue keeps its lowest
   * nonces, an account loses something only when every account heard from more recently has
   * lost everything, and the total is exactly the limit unless only local accounts are left.
   */
  ghost predicate QueueTruncated(p: Pool, r: Pool) {
    && (forall a :: a in p.locals ==> (a in r.queue <==> a in p.queue) && (a in p.queue ==> r.queue[a] == p.queue[a]))
    && (forall a :: LowerPart(ItemsOf(r.queue, a), ItemsOf(p.queue, a)))
    && (forall a, b ::
         a in Remotes(p) && b in Remotes(p) && BeatOf(p, a) < BeatOf(p, b)
           && ItemsOf(r.queue, a) != ItemsOf(p.queue, a) ==>
          b !in r.queue)
    && p.config.globalQueue <= Total(r.queue)
    && (Total(r.queue) == p.config.globalQueue || forall a :: a in r.queue ==> a in p.locals)
  }

  method Latest(p: Pool, left: set<Address>) returns (a: Address)
    requires left != {}
    ensures a in left && forall b :: b in left ==> BeatOf(p, b) <= BeatOf(p, a)
  {
    a :| a in left;
    var rest := left - {a};
    while rest != {}
      invariant rest <= left && a in left && forall b :: b in left - rest ==> BeatOf(p, b) <= BeatOf(p, a)
      decreases rest
    {
      var b :| b in rest;
      a, rest := if BeatOf(p, a) < BeatOf(p, b) then b else a, rest - {b};
    }
  }

  /** Every account already drained was heard from no earlier than those left. */
  ghost predicate LatestFirst(p: Pool, left: set<Address>) {
    forall a, b :: a in left && b in Remotes(p) && b !in left ==> BeatOf(p, a) <= BeatOf(p, b)
  }

  /** Truncation so far, with `drop` transactions still to go. */
  ghost predicate Dropping(p: Pool, r: Pool, left: set<Address>, drop: nat) {
    && Draining(p, r, left) && LatestFirst(p, left) && left <= Remotes(p)
    && drop + p.config.globalQueue == Total(r.queue)
  }

  lemma FullyDrained(p: Pool, r: Pool, left: set<Address>, drop: nat)
    requires p.Valid() && Dropping(p, r, left, drop) && (left == {} || drop == 0)
    ensures QueueTruncated(p, r)
  {
    forall a ensures LowerPart(ItemsOf(r.queue, a), ItemsOf(p.queue, a)) {}
  }

  lemma LastDrained(p: Pool, q: Pool, r: Pool, left: set<Address>, a: Address)
    requires p.Valid() && Draining(p, q, left) && LatestFirst(p, left) && left <= Remotes(p) && a in left
    requires forall b :: b in left ==> BeatOf(p, b) <= BeatOf(p, a)
    requires PartlyDrained(p, q, r, a) && Total(r.queue) == p.config.globalQueue
    ensures QueueTruncated(p, r)
  {
    forall b ensures LowerPart(ItemsOf(r.queue, b), ItemsOf(p.queue, b)) {
      if b == a {
        assert ItemsOf(q.queue, a) == ItemsOf(p.queue, a);
      }
    }
  }

  /** One account, the one heard from most recently, gives up what is still to go. */
  method TruncateNext(p: Pool, q: Pool, left: set<Address>, drop: nat)
    returns (r: Pool, left': set<Address>, drop': nat, done: bool)
    requires p.Valid() && Dropping(p, q, left, drop) && left != {} && 0 < drop
    ensures r.Valid() && r.known.log == p.known.log && r.known.txs <= p.known.txs
    ensures r == p.(known := r.known, queue := r.queue)
    ensures if done then QueueTruncated(p, r) else left' < left && Dropping(p, r, left', drop')
  {
    var a := Latest(p, left);
    var size := |q.queue[a].items|;
    left', drop', done := left - {a}, 0, drop < size;
    if done {
      r := DrainPart(p, q, left, a, drop);
      LastDrained(p, q, r, left, a);
    } else {
      r := DrainOne(p, q, left, a);
      drop' := drop - size;
    }
  }

  method TruncateQueue(p: Pool) returns (r: Pool)
    requires p.Valid()
    ensures r.Valid() && r.known.log == p.known.log && r.known.txs <= p.known.txs
    ensures r == p.(known := r.known, queue := r.queue)
    ensures Total(p.queue) <= p.config.globalQueue ==> r == p
    ensures p.config.globalQueue < Total(p.queue) ==> QueueTruncated(p, r)
  {
    r := p;
    var queued := CountAll(p.queue);
    if queued <= p.config.globalQueue {
      return;
    }
    var drop: nat, left, done := queued - p.config.globalQueue, Remotes(p), false;
    while 0 < drop && left != {}
      invariant Dropping(p, r, left, drop)
      decreases left
    {
      r, left, drop, done := TruncateNext(p, r, left, drop);
      if done {
        return;
      }
    }
    FullyDrained(p, r, left, drop);
  }
}
