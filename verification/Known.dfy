/**
 * The lookup and the price heap kept in step. The last three fields record how far the two
 * have drifted apart: removals that are not counted yet, known transactions whose heap entry
 * is already gone, and whether a transaction was ever made known while a stale entry of it
 * was still in the heap.
 */
module KnownTxs {
  import opened Basics
  import opened Transactions
  import opened TxLookups
  import opened TxPricedLists

  /** How often each transaction was made known, and whether none was while a stale entry of it lingered in the heap. */
  datatype Log = Log(made: multiset<Tx>, clean: bool)

  ghost predicate Once(txs: multiset<Tx>) {
    forall tx :: txs[tx] <= 1
  }

  datatype Known = Known(txs: set<Tx>, slots: int, heap: PriceHeap, owed: nat, unpriced: set<Tx>, log: Log) {

    ghost predicate Valid() {
      && slots == SlotSum(txs) && heap.Valid() && unpriced <= txs
      && (log.clean ==> Sound(heap.items, heap.stales + owed, txs - unpriced))
      && (forall tx :: tx in txs || Seen(tx) ==> tx in log.made)
      && (Once(log.made) ==> log.clean)
    }

    predicate Settled() {
      owed == 0 && unpriced == {}
    }

    /** `tx` has an entry in the price heap, perhaps a stale one. */
    predicate Seen(tx: Tx) {
      tx in multiset(heap.items)
    }
  }

  method Admit(k: Known, tx: Tx) returns (r: Known)
    requires k.Valid() && k.Settled() && tx !in k.txs
    ensures multiset(r.heap.items) == multiset(k.heap.items) + multiset{tx} && r.heap.stales == k.heap.stales
    ensures r.Valid() && r.Settled() && r.txs == k.txs + {tx}
    ensures r.log == Log(k.log.made + multiset{tx}, k.log.clean && !k.Seen(tx))
  {
    SlotSumSplit(k.txs + {tx}, tx);
    assert k.txs + {tx} - {tx} == k.txs;
    var heap := Put(k.heap, tx);
    r := Known(k.txs + {tx}, k.slots + NumSlots(tx), heap, 0, {},
      Log(k.log.made + multiset{tx}, k.log.clean && !k.Seen(tx)));
    OnceBefore(k.log.made, tx);
    if k.log.clean {
      assert k.txs - {} == k.txs && r.txs - {} == r.txs;
      SoundPut(k.heap.items, heap.items, heap.stales, k.txs, tx);
    }
  }

  lemma OnceBefore(made: multiset<Tx>, tx: Tx)
    ensures Once(made + multiset{tx}) <==> Once(made) && tx !in made
  {
    assert forall x :: (made + multiset{tx})[x] == made[x] + if x == tx then 1 else 0;
  }

  /** Removing a transaction that is not known would dereference nil. */
  method Remove(k: Known, tx: Tx) returns (r: Known)
    requires k.Valid() && tx in k.txs
    ensures r.Valid() && r.txs == k.txs - {tx} && r.log == k.log && r.heap == k.heap
    ensures r.unpriced == k.unpriced - {tx} && r.owed == if tx in k.unpriced then k.owed else k.owed + 1
  {
    SlotSumSplit(k.txs, tx);
    var owed := if tx in k.unpriced then k.owed else k.owed + 1;
    r := k.(txs := k.txs - {tx}, slots := k.slots - NumSlots(tx), owed := owed, unpriced := k.unpriced - {tx});
    if k.log.clean {
      if tx in k.unpriced {
        assert r.txs - r.unpriced == k.txs - k.unpriced;
      } else {
        assert r.txs - r.unpriced == k.txs - k.unpriced - {tx};
        SoundLess(k.heap.items, k.heap.stales + k.owed, k.txs - k.unpriced, {tx});
      }
    }
  }

  /** Tells the price heap about every removal it does not know of. */
  method Count(k: Known) returns (r: Known)
    requires k.Valid() && k.unpriced == {}
    ensures r.Valid() && r.Settled() && r.txs == k.txs && r.log == k.log
    ensures forall tx :: r.Seen(tx) ==> k.Seen(tx) || tx in k.txs
    ensures k.heap.stales + k.owed <= |k.heap.items| / 4 ==> r.heap == PriceHeap(k.heap.items, k.heap.stales + k.owed)
  {
    var heap := Removed(k.heap, k.txs, k.owed);
    r := k.(heap := heap, owed := 0);
    assert k.txs - {} == k.txs;
    if k.log.clean {
      SoundRemoved(k.heap.items, heap.items, k.heap.stales + k.owed, heap.stales, k.txs);
    }
  }

  lemma {:induction false} SlotsAdd(txs: seq<Tx>)
    requires forall tx :: multiset(txs)[tx] <= 1
    ensures SlotsOf(txs, |txs|) == SlotSum(Members(txs))
  {
    if txs == [] {
      assert Members(txs) == {};
    } else {
      var front, last := txs[..|txs| - 1], txs[|txs| - 1];
      assert txs == front + [last];
      assert forall tx :: multiset(front)[tx] <= multiset(txs)[tx];
      SlotsAdd(front);
      SlotsOfFront(front, last, |front|);
      assert multiset(txs)[last] == multiset(front)[last] + 1;
      assert Members(txs) - {last} == Members(front);
      SlotSumSplit(Members(txs), last);
    }
  }

  /**
   * Whether a remote transaction is no dearer than anything in the pool. With a clean heap the
   * answer is exact: it compares with the cheapest live transaction.
   */
  method IsUnderpriced(k: Known, tx: Tx, locals: set<Address>) returns (r: Known, under: bool)
    requires k.Valid() && k.Settled()
    ensures r.Valid() && r.Settled() && r.txs == k.txs && r.log == k.log
    ensures IsLocal(locals, tx) ==> !under
    ensures k.log.clean && !IsLocal(locals, tx) ==>
              (under <==> k.txs != {} && forall x :: x in k.txs ==> tx.price <= x.price)
    ensures r.Seen(tx) ==> k.Seen(tx)
  {
    var heap, answer, stale := Underpriced(k.heap, k.txs, tx, locals);
    r, under := k.(heap := heap), answer;
    if k.log.clean {
      assert k.txs - {} == k.txs;
      SoundPurged(k.heap.items, heap.items, [], stale, k.heap.stales, k.txs);
      assert (set x: Tx | x in multiset([])) == {};
      if !IsLocal(locals, tx) {
        ExactlyUnderpriced(heap, k.txs, tx);
      }
    }
  }

  lemma ExactlyUnderpriced(heap: PriceHeap, live: set<Tx>, tx: Tx)
    requires heap.Valid() && Sound(heap.items, heap.stales, live)
    requires |heap.items| == 0 || heap.items[0] in live
    ensures (0 < |heap.items| && tx.price <= heap.items[0].price) <==>
              live != {} && forall x :: x in live ==> tx.price <= x.price
  {
    forall x | x in live ensures 0 < |heap.items| && heap.items[0].price <= x.price {
      HeadIsCheapest(heap.items, heap.stales, live, x);
    }
  }

  /** The dropped set is remote, cheapest first, just large enough, or everything remote there is. */
  ghost predicate MadeRoom(txs: set<Tx>, drop: set<Tx>, locals: set<Address>, slots: int) {
    && (forall d, x :: d in drop && x in txs - drop && !IsLocal(locals, x) ==> PriceRank(d) <= PriceRank(x))
    && (slots <= SlotSum(drop) || forall x :: x in txs - drop ==> IsLocal(locals, x))
    && (drop != {} ==> exists last :: last in drop && SlotSum(drop - {last}) < slots)
  }

  method MakeRoom(k: Known, slots: int, locals: set<Address>) returns (r: Known, drop: seq<Tx>)
    requires k.Valid() && k.Settled()
    ensures r.Valid() && r.owed == 0 && r.unpriced == Members(drop) && r.txs == k.txs && r.log == k.log
    ensures r.slots == k.slots
    ensures forall i :: 0 <= i < |drop| ==> !IsLocal(locals, drop[i])
    ensures k.log.clean ==> MadeRoom(k.txs, Members(drop), locals, slots)
    ensures forall tx :: r.Seen(tx) ==> k.Seen(tx)
  {
    var heap, taken, stale := Discard(k.heap, k.txs, slots, locals);
    drop := taken;
    r := k.(heap := heap, unpriced := Members(drop));
    PurgedValid(k, heap, drop, stale);
    if k.log.clean {
      SettledSound(k);
      RoomMade(k, heap.items, drop, stale, locals, slots);
    }
  }

  lemma SettledSound(k: Known)
    requires k.Valid() && k.Settled() && k.log.clean
    ensures Sound(k.heap.items, k.heap.stales, k.txs)
  {
    assert k.txs - {} == k.txs;
  }

  /** After a query only what it took out is missing from the heap. */
  lemma PurgedValid(k: Known, heap: PriceHeap, taken: seq<Tx>, stale: seq<Tx>)
    requires k.Valid() && k.Settled() && heap.Valid() && Purged(k.heap.items, heap.items, taken, stale, k.txs)
    requires heap.stales == k.heap.stales - |stale|
    ensures var r := k.(heap := heap, unpriced := Members(taken)); r.Valid() && forall tx :: r.Seen(tx) ==> k.Seen(tx)
  {
    PurgedSeen(k.heap.items, heap.items, taken, stale, k.txs);
    if k.log.clean {
      SettledSound(k);
      SoundPurged(k.heap.items, heap.items, taken, stale, k.heap.stales, k.txs);
    }
  }

  lemma PurgedSeen(before: seq<Tx>, after: seq<Tx>, taken: seq<Tx>, stale: seq<Tx>, live: set<Tx>)
    requires Purged(before, after, taken, stale, live)
    ensures multiset(after) <= multiset(before) && Members(taken) <= live
  {
    forall tx | tx in Members(taken) ensures tx in live {
      assert tx in taken;
    }
  }

  lemma RoomMade(k: Known, items: seq<Tx>, drop: seq<Tx>, stale: seq<Tx>, locals: set<Address>, slots: int)
    requires Sound(k.heap.items, k.heap.stales, k.txs)
    requires Purged(k.heap.items, items, drop, stale, k.txs) && Discarded(drop, items, locals, slots)
    ensures MadeRoom(k.txs, Members(drop), locals, slots)
  {
    SoundPurged(k.heap.items, items, drop, stale, k.heap.stales, k.txs);
    assert forall tx :: multiset(drop)[tx] <= multiset(k.heap.items)[tx];
    SlotsAdd(drop);
    var gone := Members(drop);
    forall x | x in k.txs - gone ensures x in multiset(items) {}
    forall d, x | d in gone && x in k.txs - gone && !IsLocal(locals, x) ensures PriceRank(d) <= PriceRank(x) {
      assert d in multiset(drop) && x in multiset(items);
      var i :| 0 <= i < |drop| && drop[i] == d;
    }
    if drop != [] {
      SlotsWithoutLast(drop);
      assert drop[|drop| - 1] in gone;
    }
  }

  lemma SlotsWithoutLast(drop: seq<Tx>)
    requires drop != [] && forall tx :: multiset(drop)[tx] <= 1
    ensures SlotSum(Members(drop) - {drop[|drop| - 1]}) == SlotsOf(drop, |drop| - 1)
  {
    var front, last := drop[..|drop| - 1], drop[|drop| - 1];
    assert drop == front + [last];
    assert multiset(drop)[last] == multiset(front)[last] + 1;
    assert Members(drop) - {last} == Members(front);
    assert forall tx :: multiset(front)[tx] <= multiset(drop)[tx];
    SlotsAdd(front);
    SlotsOfFront(front, last, |front|);
  }

  /** Takes the remote transactions below a price threshold out of the heap. */
  method DropCheap(k: Known, threshold: nat, locals: set<Address>) returns (r: Known, drop: seq<Tx>)
    requires k.Valid() && k.Settled()
    ensures r.Valid() && r.owed == 0 && r.unpriced == Members(drop) && r.txs == k.txs && r.log == k.log
    ensures k.log.clean ==> Members(drop) == set tx | tx in k.txs && !IsLocal(locals, tx) && tx.price < threshold
  {
    var heap, taken, stale := CapPrice(k.heap, k.txs, threshold, locals);
    drop := taken;
    r := k.(heap := heap, unpriced := Members(drop));
    PurgedValid(k, heap, drop, stale);
    if k.log.clean {
      SettledSound(k);
      CheapDropped(k, heap.items, drop, stale, threshold, locals);
    }
  }

  lemma CheapDropped(k: Known, items: seq<Tx>, drop: seq<Tx>, stale: seq<Tx>, threshold: nat, locals: set<Address>)
    requires Sound(k.heap.items, k.heap.stales, k.txs)
    requires Purged(k.heap.items, items, drop, stale, k.txs) && PriceCapped(drop, items, locals, threshold)
    ensures Members(drop) == set tx | tx in k.txs && !IsLocal(locals, tx) && tx.price < threshold
  {
    SoundPurged(k.heap.items, items, drop, stale, k.heap.stales, k.txs);
    forall tx | tx in k.txs && tx !in Members(drop) ensures IsLocal(locals, tx) || threshold <= tx.price {
      assert tx in multiset(items);
    }
    assert forall tx :: tx in multiset(drop) ==> tx in drop;
  }

  function Cheap(nonce: Uint64): Tx {
    Tx(Address(1), nonce, 1, 21000, 21000, 100, 0)
  }

  /**
   * A transaction leaves and comes back while there are enough others for its stale entry not to
   * be cleaned up in between: it is in the heap twice.
   */
  method BackAgain(k: Known, tx: Tx) returns (r: Known)
    requires k.Valid() && k.Settled() && k.log.clean && tx in k.txs && k.heap.stales + 1 <= |k.heap.items| / 4
    ensures r.Valid() && r.Settled() && !r.log.clean && !Sound(r.heap.items, r.heap.stales, r.txs)
  {
    assert k.Seen(tx) by { assert k.txs - {} == k.txs; }
    r := Remove(k, tx);
    r := Count(r);
    r := Admit(r, tx);
    assert multiset(r.heap.items)[tx] >= 2;
  }

  /** Exactly the given transactions are known, and nothing else ever was. */
  ghost predicate Holds(k: Known, txs: seq<Tx>) {
    && k.Valid() && k.Settled() && k.txs == Members(txs) && k.heap.stales == 0
    && k.log.made == multiset(txs) && |k.heap.items| == |txs|
  }

  method AdmitOne(k: Known, txs: seq<Tx>, tx: Tx) returns (r: Known)
    requires Holds(k, txs) && tx !in multiset(txs)
    ensures Holds(r, txs + [tx])
  {
    r := Admit(k, tx);
    assert |r.heap.items| == |multiset(r.heap.items)| == |multiset(k.heap.items)| + 1;
    assert multiset(txs + [tx]) == multiset(txs) + multiset{tx};
  }

  method NothingKnown() returns (k: Known)
    ensures Holds(k, [])
  {
    k := Known({}, 0, PriceHeap([], 0), 0, {}, Log(multiset{}, true));
    assert Members<Tx>([]) == {};
  }

  /** Four transactions become known, then one of them leaves and comes back. */
  method FourAndBackAgain(a: Tx, b: Tx, c: Tx, d: Tx) returns (k: Known)
    requires a != b && a != c && a != d && b != c && b != d && c != d
    ensures k.Valid() && k.Settled() && !k.log.clean && !Sound(k.heap.items, k.heap.stales, k.txs)
  {
    k := NothingKnown();
    k := AdmitOne(k, [], a);
    k := AdmitOne(k, [] + [a], b);
    k := AdmitOne(k, [] + [a] + [b], c);
    k := AdmitOne(k, [] + [a] + [b] + [c], d);
    FourOnce(a, b, c, d);
    k := BackAgain(k, a);
  }

  lemma FourOnce(a: Tx, b: Tx, c: Tx, d: Tx)
    requires a != b && a != c && a != d && b != c && b != d && c != d
    ensures var txs := [] + [a] + [b] + [c] + [d]; Once(multiset(txs)) && a in Members(txs)
  {
    assert multiset([] + [a] + [b] + [c] + [d]) == multiset{a, b, c, d};
  }

  /** There are such transactions. */
  method BackAgainExample() returns (k: Known)
    ensures k.Valid() && k.Settled() && !k.log.clean && !Sound(k.heap.items, k.heap.stales, k.txs)
  {
    k := FourAndBackAgain(Cheap(0), Cheap(1), Cheap(2), Cheap(3));
  }
}
