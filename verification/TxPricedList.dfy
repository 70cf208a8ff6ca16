/**
 * The price heap over the pool's transactions. Removals are only counted; entries that
 * left the lookup stay in the heap as stale until a query pops them or enough pile up to
 * rebuild the heap.
 */
module TxPricedLists {
  import opened Transactions
  import opened TxLookups
  import Heap = BinaryHeap

  /** Cheaper first; at equal prices the higher nonce first. */
  predicate PriceLess(a: Tx, b: Tx) {
    a.price < b.price || (a.price == b.price && a.nonce > b.nonce)
  }

  function PriceRank(tx: Tx): int {
    tx.price * 0x1_0000_0000_0000_0000 + (0xFFFF_FFFF_FFFF_FFFF - tx.nonce)
  }

  lemma PriceRankIsOrder(a: Tx, b: Tx)
    ensures PriceRank(a) < PriceRank(b) <==> PriceLess(a, b)
    ensures PriceRank(a) <= PriceRank(b) ==> a.price <= b.price
  {
  }

  /**
   * Every live transaction is in the heap once, nothing is in it twice, and the counter
   * is the number of entries that are no longer live.
   */
  ghost predicate Sound(items: seq<Tx>, stales: int, live: set<Tx>) {
    && (forall tx :: multiset(items)[tx] <= 1)
    && (forall tx :: tx in live ==> tx in multiset(items))
    && stales == |items| - |live|
  }

  /** What a query does to the heap: it drops stale entries and takes out `taken`, in any order. */
  ghost predicate Purged(before: seq<Tx>, after: seq<Tx>, taken: seq<Tx>, stale: seq<Tx>, live: set<Tx>) {
    && multiset(before) == multiset(after) + multiset(taken) + multiset(stale)
    && (forall i :: 0 <= i < |stale| ==> stale[i] !in live)
    && (forall i :: 0 <= i < |taken| ==> taken[i] in live)
  }

  lemma Move<T>(before: multiset<T>, items: multiset<T>, items': multiset<T>,
                drop: multiset<T>, save: multiset<T>, stale: multiset<T>, x: T)
    requires before == items + drop + save + stale
    requires x in items && items' == items - multiset{x}
    ensures before == items' + drop + save + (stale + multiset{x})
    ensures before == items' + (drop + multiset{x}) + save + stale
    ensures before == items' + drop + (save + multiset{x}) + stale
  {
  }

  lemma PutBackSaved<T>(before: multiset<T>, items: multiset<T>, items': multiset<T>,
                        drop: multiset<T>, save: multiset<T>, stale: multiset<T>)
    requires before == items + drop + save + stale && items' == items + save
    ensures before == items' + drop + stale
  {
  }

  lemma PurgeHead(before: seq<Tx>, items: seq<Tx>, rest: seq<Tx>, stale: seq<Tx>, live: set<Tx>, head: Tx)
    requires Purged(before, items, [], stale, live) && head !in live
    requires head in items && multiset(rest) == multiset(items) - multiset{head}
    ensures Purged(before, rest, [], stale + [head], live) && |rest| < |items|
  {
    Move(multiset(before), multiset(items), multiset(rest), multiset{}, multiset{}, multiset(stale), head);
    assert |items| == |multiset(items)| && |rest| == |multiset(rest)|;
  }

  /** Popped entries, by what became of them: returned, saved to be put back, or found stale. */
  datatype Scan = Scan(drop: seq<Tx>, save: seq<Tx>, stale: seq<Tx>)

  ghost predicate Contents(s: Scan, before: seq<Tx>, items: seq<Tx>, live: set<Tx>) {
    && multiset(before) == multiset(items) + multiset(s.drop) + multiset(s.save) + multiset(s.stale)
    && (forall i :: 0 <= i < |s.stale| ==> s.stale[i] !in live)
    && (forall i :: 0 <= i < |s.drop| ==> s.drop[i] in live)
  }

  lemma ContentsStep(s: Scan, before: seq<Tx>, items: seq<Tx>, items': seq<Tx>, live: set<Tx>, tx: Tx)
    requires Contents(s, before, items, live)
    requires tx in multiset(items) && multiset(items') == multiset(items) - multiset{tx}
    ensures tx !in live ==> Contents(s.(stale := s.stale + [tx]), before, items', live)
    ensures tx in live ==> Contents(s.(drop := s.drop + [tx]), before, items', live)
    ensures Contents(s.(save := s.save + [tx]), before, items', live)
  {
    Move(multiset(before), multiset(items), multiset(items'), multiset(s.drop), multiset(s.save),
      multiset(s.stale), tx);
  }

  lemma ContentsDone(s: Scan, before: seq<Tx>, items: seq<Tx>, items': seq<Tx>, live: set<Tx>)
    requires Contents(s, before, items, live) && multiset(items') == multiset(items) + multiset(s.save)
    ensures Purged(before, items', s.drop, s.stale, live)
  {
    PutBackSaved(multiset(before), multiset(items), multiset(items'), multiset(s.drop), multiset(s.save),
      multiset(s.stale));
  }

  /** The slots filled by the first `n` of `txs`. */
  function SlotsOf(txs: seq<Tx>, n: nat): nat
    requires n <= |txs|
  {
    if n == 0 then 0 else SlotsOf(txs, n - 1) + NumSlots(txs[n - 1])
  }

  lemma {:induction false} SlotsOfFront(txs: seq<Tx>, tx: Tx, n: nat)
    requires n <= |txs|
    ensures SlotsOf(txs + [tx], n) == SlotsOf(txs, n)
  {
    if 0 < n { SlotsOfFront(txs, tx, n - 1); }
  }

  /** A discard that still needs `needed` slots: the last drop was made because some were still needed. */
  ghost predicate Freed(drop: seq<Tx>, slots: int, needed: int) {
    && needed == slots - SlotsOf(drop, |drop|)
    && (0 < |drop| ==> SlotsOf(drop, |drop| - 1) < slots)
  }

  lemma FreedStep(drop: seq<Tx>, slots: int, needed: int, tx: Tx)
    requires Freed(drop, slots, needed) && 0 < needed
    ensures Freed(drop + [tx], slots, needed - NumSlots(tx))
  {
    SlotsOfFront(drop, tx, |drop|);
  }

  /** Dropped entries are remote and no dearer than `floor`, which nothing left undercuts. */
  ghost predicate Cheapest(s: Scan, items: seq<Tx>, locals: set<Address>, floor: int) {
    && (forall i :: 0 <= i < |s.drop| ==> !IsLocal(locals, s.drop[i]) && PriceRank(s.drop[i]) <= floor)
    && (forall i :: 0 <= i < |s.save| ==> IsLocal(locals, s.save[i]))
    && (forall x :: x in multiset(items) ==> floor <= PriceRank(x))
  }

  lemma CheapestStep(s: Scan, items: seq<Tx>, items': seq<Tx>, locals: set<Address>, floor: int, tx: Tx)
    requires Cheapest(s, items, locals, floor)
    requires tx in multiset(items) && multiset(items') == multiset(items) - multiset{tx}
    requires forall x :: x in multiset(items) ==> PriceRank(tx) <= PriceRank(x)
    ensures Cheapest(s.(stale := s.stale + [tx]), items', locals, PriceRank(tx))
    ensures IsLocal(locals, tx) ==> Cheapest(s.(save := s.save + [tx]), items', locals, PriceRank(tx))
    ensures !IsLocal(locals, tx) ==> Cheapest(s.(drop := s.drop + [tx]), items', locals, PriceRank(tx))
  {
    assert forall x :: x in multiset(items') ==> x in multiset(items);
  }

  /**
   * What discarding leaves: only remote transactions were dropped, and the cheapest ones;
   * they free enough slots unless only locals are left, and no fewer would have done.
   */
  ghost predicate Discarded(drop: seq<Tx>, items: seq<Tx>, locals: set<Address>, slots: int) {
    && (forall i :: 0 <= i < |drop| ==> !IsLocal(locals, drop[i]))
    && (forall i, x :: 0 <= i < |drop| && x in multiset(items) && !IsLocal(locals, x) ==>
          PriceRank(drop[i]) <= PriceRank(x))
    && (slots <= SlotsOf(drop, |drop|) || forall x :: x in multiset(items) ==> IsLocal(locals, x))
    && (0 < |drop| ==> SlotsOf(drop, |drop| - 1) < slots)
  }

  lemma DiscardDone(s: Scan, items: seq<Tx>, items': seq<Tx>, locals: set<Address>, floor: int, slots: int, needed: int)
    requires Cheapest(s, items, locals, floor) && multiset(items') == multiset(items) + multiset(s.save)
    requires Freed(s.drop, slots, needed) && (|items| == 0 || needed <= 0)
    ensures Discarded(s.drop, items', locals, slots)
  {
    CheapestDone(s, items, items', locals, floor);
  }

  /** Once the saved locals are back, every remote entry left is no cheaper than any dropped one. */
  lemma CheapestDone(s: Scan, items: seq<Tx>, items': seq<Tx>, locals: set<Address>, floor: int)
    requires Cheapest(s, items, locals, floor) && multiset(items') == multiset(items) + multiset(s.save)
    ensures forall i, x :: 0 <= i < |s.drop| && x in multiset(items') && !IsLocal(locals, x) ==>
                           PriceRank(s.drop[i]) <= PriceRank(x)
    ensures |items| == 0 ==> forall x :: x in multiset(items') ==> IsLocal(locals, x)
  {
    forall x | x in multiset(items') ensures x in multiset(items) || IsLocal(locals, x) {
      if x in multiset(s.save) { assert x in s.save; }
    }
  }

  /** Dropped entries are remote and below the threshold, saved ones are local or not below it. */
  ghost predicate Split(s: Scan, locals: set<Address>, threshold: nat) {
    && (forall i :: 0 <= i < |s.drop| ==> !IsLocal(locals, s.drop[i]) && s.drop[i].price < threshold)
    && (forall i :: 0 <= i < |s.save| ==> IsLocal(locals, s.save[i]) || threshold <= s.save[i].price)
  }

  lemma SplitStep(s: Scan, locals: set<Address>, threshold: nat, tx: Tx)
    requires Split(s, locals, threshold)
    ensures Split(s.(stale := s.stale + [tx]), locals, threshold)
    ensures IsLocal(locals, tx) || threshold <= tx.price ==> Split(s.(save := s.save + [tx]), locals, threshold)
    ensures !IsLocal(locals, tx) && tx.price < threshold ==> Split(s.(drop := s.drop + [tx]), locals, threshold)
  {
  }

  ghost predicate AllDear(items: seq<Tx>, threshold: nat) {
    forall x :: x in multiset(items) ==> threshold <= x.price
  }

  /** What a price threshold leaves: remote transactions below it were dropped, and no others. */
  ghost predicate PriceCapped(drop: seq<Tx>, items: seq<Tx>, locals: set<Address>, threshold: nat) {
    && (forall i :: 0 <= i < |drop| ==> !IsLocal(locals, drop[i]) && drop[i].price < threshold)
    && (forall x :: x in multiset(items) ==> IsLocal(locals, x) || threshold <= x.price)
  }

  lemma SplitDone(s: Scan, items: seq<Tx>, items': seq<Tx>, locals: set<Address>, threshold: nat)
    requires Split(s, locals, threshold) && multiset(items') == multiset(items) + multiset(s.save)
    requires |items| == 0 || AllDear(items, threshold)
    ensures PriceCapped(s.drop, items', locals, threshold)
  {
    forall x | x in multiset(items') ensures IsLocal(locals, x) || threshold <= x.price {
      if x in multiset(s.save) { assert x in s.save; }
    }
  }

  predicate IsLocal(locals: set<Address>, tx: Tx) {
    tx.from in locals
  }

  /** The heap slice and the counter of the priced list. */
  datatype PriceHeap = PriceHeap(items: seq<Tx>, stales: int) {
    ghost predicate Valid() {
      Heap.IsHeap(items, PriceRank)
    }
  }

  method Put(h: PriceHeap, tx: Tx) returns (r: PriceHeap)
    requires h.Valid()
    ensures r.Valid() && multiset(r.items) == multiset(h.items) + multiset{tx} && r.stales == h.stales
  {
    var items := Heap.Push(h.items, PriceRank, tx);
    r := PriceHeap(items, h.stales);
  }

  method Removed(h: PriceHeap, live: set<Tx>, count: nat) returns (r: PriceHeap)
    requires h.Valid()
    ensures r.Valid()
    ensures if h.stales + count <= |h.items| / 4 then r == PriceHeap(h.items, h.stales + count)
            else multiset(r.items) == multiset(live) && r.stales == 0
  {
    r := h.(stales := h.stales + count);
    if r.stales <= |r.items| / 4 {
      return;
    }
    var reheap, left := [], live;
    while left != {}
      invariant left <= live && multiset(reheap) == multiset(live - left)
      decreases |left|
    {
      var tx :| tx in left;
      assert live - (left - {tx}) == live - left + {tx};
      reheap, left := reheap + [tx], left - {tx};
    }
    assert live - {} == live;
    var items := Heap.Init(reheap, PriceRank);
    r := PriceHeap(items, 0);
  }

  method PopCheapest(items: seq<Tx>) returns (tx: Tx, rest: seq<Tx>)
    requires Heap.IsHeap(items, PriceRank) && 0 < |items|
    ensures Heap.IsHeap(rest, PriceRank) && tx in multiset(items)
    ensures forall other :: other in multiset(items) ==> PriceRank(tx) <= PriceRank(other)
    ensures multiset(rest) == multiset(items) - multiset{tx} && |rest| == |items| - 1
  {
    tx, rest := Heap.Pop(items, PriceRank);
    assert |multiset(rest)| == |multiset(items)| - 1;
  }

  method PutBack(items: seq<Tx>, save: seq<Tx>) returns (r: seq<Tx>)
    requires Heap.IsHeap(items, PriceRank)
    ensures Heap.IsHeap(r, PriceRank) && multiset(r) == multiset(items) + multiset(save)
  {
    r := items;
    for i := 0 to |save|
      invariant Heap.IsHeap(r, PriceRank) && multiset(r) == multiset(items) + multiset(save[..i])
    {
      r := Heap.Push(r, PriceRank, save[i]);
      assert save[..i + 1] == save[..i] + [save[i]];
    }
    assert save[..|save|] == save;
  }

  method Underpriced(h: PriceHeap, live: set<Tx>, tx: Tx, locals: set<Address>)
    returns (r: PriceHeap, under: bool, stale: seq<Tx>)
    requires h.Valid()
    ensures r.Valid() && Purged(h.items, r.items, [], stale, live) && r.stales == h.stales - |stale|
    ensures IsLocal(locals, tx) ==> !under && r == h
    ensures !IsLocal(locals, tx) ==> (|r.items| == 0 || r.items[0] in live)
    ensures !IsLocal(locals, tx) ==> under == (0 < |r.items| && tx.price <= r.items[0].price)
  {
    r, under, stale := h, false, [];
    if IsLocal(locals, tx) {
      return;
    }
    while 0 < |r.items| && r.items[0] !in live
      invariant r.Valid() && Purged(h.items, r.items, [], stale, live)
      invariant r.stales == h.stales - |stale|
      decreases |r.items|
    {
      var popped, rest := Heap.Pop(r.items, PriceRank);
      PurgeHead(h.items, r.items, rest, stale, live, popped);
      r, stale := PriceHeap(rest, r.stales - 1), stale + [popped];
    }
    under := 0 < |r.items| && tx.price <= r.items[0].price;
  }

  method Discard(h: PriceHeap, live: set<Tx>, slots: int, locals: set<Address>)
    returns (r: PriceHeap, drop: seq<Tx>, stale: seq<Tx>)
    requires h.Valid()
    ensures r.Valid() && Purged(h.items, r.items, drop, stale, live) && r.stales == h.stales - |stale|
    ensures Discarded(drop, r.items, locals, slots)
  {
    var items, scan, needed := h.items, Scan([], [], []), slots;
    ghost var floor := -1;
    while 0 < |items| && 0 < needed
      invariant Heap.IsHeap(items, PriceRank)
      invariant Contents(scan, h.items, items, live)
      invariant Cheapest(scan, items, locals, floor)
      invariant Freed(scan.drop, slots, needed)
      decreases |items|
    {
      var tx, rest := PopCheapest(items);
      ContentsStep(scan, h.items, items, rest, live, tx);
      CheapestStep(scan, items, rest, locals, floor, tx);
      items, floor := rest, PriceRank(tx);
      if tx !in live {
        scan := scan.(stale := scan.stale + [tx]);
      } else if IsLocal(locals, tx) {
        scan := scan.(save := scan.save + [tx]);
      } else {
        FreedStep(scan.drop, slots, needed, tx);
        scan, needed := scan.(drop := scan.drop + [tx]), needed - NumSlots(tx);
      }
    }
    var restored := PutBack(items, scan.save);
    ContentsDone(scan, h.items, items, restored, live);
    DiscardDone(scan, items, restored, locals, floor, slots, needed);
    r, drop, stale := PriceHeap(restored, h.stales - |scan.stale|), scan.drop, scan.stale;
  }

  method CapPrice(h: PriceHeap, live: set<Tx>, threshold: nat, locals: set<Address>)
    returns (r: PriceHeap, drop: seq<Tx>, stale: seq<Tx>)
    requires h.Valid()
    ensures r.Valid() && Purged(h.items, r.items, drop, stale, live) && r.stales == h.stales - |stale|
    ensures PriceCapped(drop, r.items, locals, threshold)
  {
    var items, scan, reached := h.items, Scan([], [], []), false;
    while 0 < |items| && !reached
      invariant Heap.IsHeap(items, PriceRank)
      invariant Contents(scan, h.items, items, live) && Split(scan, locals, threshold)
      invariant reached ==> AllDear(items, threshold)
      decreases |items|
    {
      var tx, rest := PopCheapest(items);
      ContentsStep(scan, h.items, items, rest, live, tx);
      SplitStep(scan, locals, threshold, tx);
      items := rest;
      if tx !in live {
        scan := scan.(stale := scan.stale + [tx]);
      } else if threshold <= tx.price {
        AllAsDear(items, tx, threshold);
        scan, reached := scan.(save := scan.save + [tx]), true;
      } else if IsLocal(locals, tx) {
        scan := scan.(save := scan.save + [tx]);
      } else {
        scan := scan.(drop := scan.drop + [tx]);
      }
    }
    var restored := PutBack(items, scan.save);
    ContentsDone(scan, h.items, items, restored, live);
    SplitDone(scan, items, restored, locals, threshold);
    r, drop, stale := PriceHeap(restored, h.stales - |scan.stale|), scan.drop, scan.stale;
  }

  lemma AllAsDear(items: seq<Tx>, tx: Tx, threshold: nat)
    requires threshold <= tx.price && forall x :: x in multiset(items) ==> PriceRank(tx) <= PriceRank(x)
    ensures AllDear(items, threshold)
  {
    forall x | x in multiset(items) ensures threshold <= x.price {
      PriceRankIsOrder(tx, x);
    }
  }

  lemma {:induction false} OnceEachCount(txs: seq<Tx>)
    requires forall tx :: multiset(txs)[tx] <= 1
    ensures |set tx | tx in multiset(txs)| == |txs|
  {
    if txs == [] {
      assert (set tx | tx in multiset(txs)) == {};
    } else {
      var front, last := txs[..|txs| - 1], txs[|txs| - 1];
      assert txs == front + [last];
      assert forall tx :: multiset(front)[tx] <= multiset(txs)[tx];
      OnceEachCount(front);
      assert multiset(txs)[last] == multiset(front)[last] + 1;
      assert (set tx | tx in multiset(txs)) == (set tx | tx in multiset(front)) + {last};
    }
  }

  /** In a sound heap the counter is the number of entries missing from the live set. */
  lemma StalesCount(items: seq<Tx>, stales: int, live: set<Tx>)
    requires Sound(items, stales, live)
    ensures stales == |set tx | tx in multiset(items) && tx !in live|
  {
    OnceEachCount(items);
    var entries := set tx | tx in multiset(items);
    var missing := set tx | tx in multiset(items) && tx !in live;
    assert entries == live + missing;
  }

  /** A query keeps soundness with respect to what is live once its result is removed. */
  lemma SoundPurged(before: seq<Tx>, after: seq<Tx>, taken: seq<Tx>, stale: seq<Tx>, stales: int, live: set<Tx>)
    requires Sound(before, stales, live) && Purged(before, after, taken, stale, live)
    ensures var gone := set tx | tx in multiset(taken);
            && gone <= live && |gone| == |taken| && Sound(after, stales - |stale|, live - gone)
  {
    var gone := set tx | tx in multiset(taken);
    assert |before| == |multiset(before)| == |after| + |taken| + |stale|;
    assert forall tx :: multiset(taken)[tx] + multiset(after)[tx] <= multiset(before)[tx];
    OnceEachCount(taken);
    assert gone <= live;
    assert |live - gone| == |live| - |gone|;
    forall tx | tx in live - gone ensures tx in multiset(after) {
      assert tx in multiset(before) && tx !in multiset(taken) && tx !in multiset(stale);
    }
  }

  /** Counting removals, whether or not it rebuilds the heap, restores soundness. */
  lemma SoundRemoved(before: seq<Tx>, after: seq<Tx>, stales: int, stales': int, live: set<Tx>)
    requires Sound(before, stales, live)
    requires (after == before && stales' == stales) || (multiset(after) == multiset(live) && stales' == 0)
    ensures Sound(after, stales', live)
  {
    assert |after| == |multiset(after)|;
  }

  /** Transactions that stop being live turn their entries stale. */
  lemma SoundLess(items: seq<Tx>, stales: int, live: set<Tx>, gone: set<Tx>)
    requires Sound(items, stales, live) && gone <= live
    ensures Sound(items, stales + |gone|, live - gone)
  {
    assert |live - gone| == |live| - |gone|;
  }

  /** Putting a new live transaction keeps soundness exactly when no stale entry of it lingers. */
  lemma SoundPut(before: seq<Tx>, after: seq<Tx>, stales: int, live: set<Tx>, tx: Tx)
    requires Sound(before, stales, live) && tx !in live
    requires multiset(after) == multiset(before) + multiset{tx}
    ensures Sound(after, stales, live + {tx}) <==> tx !in multiset(before)
  {
    assert |after| == |multiset(after)| == |before| + 1;
    assert |live + {tx}| == |live| + 1;
    if tx in multiset(before) {
      assert multiset(after)[tx] == 2;
    }
  }

  /** The head of a sound heap, once live, is a cheapest live transaction. */
  lemma HeadIsCheapest(items: seq<Tx>, stales: int, live: set<Tx>, tx: Tx)
    requires Sound(items, stales, live) && Heap.IsHeap(items, PriceRank) && tx in live
    ensures 0 < |items| && PriceRank(items[0]) <= PriceRank(tx) && items[0].price <= tx.price
  {
    assert tx in multiset(items);
    var i :| 0 <= i < |items| && items[i] == tx;
    Heap.RootIsLeast(items, PriceRank, i);
    PriceRankIsOrder(items[0], tx);
  }
}
