/**
 * The nonce-to-transaction map with a heap of its nonces and a cache of its sorted
 * contents. Every operation is specified on the plain map alone.
 */
module TxSortedMaps {
  import opened Transactions
  import Heap = BinaryHeap
  import Sorting

  datatype Cache = Nothing | Cached(txs: seq<Tx>)

  function NonceRank(n: nat): int {
    n
  }

  function TxRank(tx: Tx): int {
    tx.nonce
  }

  /** The index is a heap of exactly the stored nonces, each once. */
  ghost predicate Indexes(index: seq<nat>, items: Items) {
    Keyed(items) && Heap.IsHeap(index, NonceRank) && multiset(index) == multiset(items.Keys)
  }

  lemma IndexMembers(index: seq<nat>, items: Items)
    requires multiset(index) == multiset(items.Keys)
    ensures forall n :: n in items ==> n in index
    ensures forall i :: 0 <= i < |index| ==> index[i] in items
    ensures |index| == |items|
  {
    assert forall n :: n in index <==> n in multiset(index);
    assert forall i :: 0 <= i < |index| ==> index[i] in multiset(index);
    assert |multiset(index)| == |multiset(items.Keys)|;
  }

  lemma HeadIsLeast(index: seq<nat>, items: Items)
    requires Indexes(index, items)
    ensures |index| == |items|
    ensures 0 < |index| ==> index[0] in items && forall n :: n in items ==> index[0] <= n
  {
    IndexMembers(index, items);
    forall n | n in items ensures 0 < |index| && index[0] <= n {
      var i :| 0 <= i < |index| && index[i] == n;
      Heap.RootIsLeast(index, NonceRank, i);
    }
  }

  /** The entries of `a` whose nonces `b` no longer has. */
  function Minus(a: Items, b: Items): Items {
    map n | n in a && n !in b :: a[n]
  }

  ghost predicate Within(b: Items, a: Items) {
    forall n :: n in b ==> n in a && b[n] == a[n]
  }

  lemma KeysPut(items: Items, tx: Tx)
    ensures multiset(items[tx.nonce := tx].Keys) ==
            if tx.nonce in items then multiset(items.Keys) else multiset(items.Keys) + multiset{tx.nonce as nat}
  {
    assert items[tx.nonce := tx].Keys == items.Keys + {tx.nonce as nat};
    if tx.nonce in items {
      assert items.Keys + {tx.nonce as nat} == items.Keys;
    }
  }

  lemma KeysWithout(items: Items, n: nat)
    requires n in items
    ensures multiset(Without(items, n).Keys) == multiset(items.Keys) - multiset{n}
    ensures |Without(items, n)| == |items| - 1
  {
    assert Without(items, n).Keys == items.Keys - {n};
  }

  /** `taken` lists what left `a` to give `b`, and everything left is above it. */
  ghost predicate Taken(taken: seq<Tx>, a: Items, b: Items) {
    && Within(b, a) && Lists(taken, Minus(a, b))
    && forall i, n :: 0 <= i < |taken| && n in b ==> taken[i].nonce < n
  }

  lemma TakeLeast(taken: seq<Tx>, a: Items, b: Items, n: nat)
    requires Keyed(a) && Taken(taken, a, b) && n in b && forall k :: k in b ==> n <= k
    ensures Taken(taken + [b[n]], a, Without(b, n))
  {
    assert Minus(a, Without(b, n)) == Minus(a, b)[n := a[n]];
    assert Minus(a, Without(b, n)).Keys == Minus(a, b).Keys + {n};
  }

  /** heap.Pop together with the deletion of the popped nonce from the map. */
  method PopHead(items: Items, index: seq<nat>) returns (tx: Tx, items': Items, index': seq<nat>)
    requires Indexes(index, items) && 0 < |index|
    ensures Indexes(index', items') && |index'| == |index| - 1
    ensures index[0] in items && tx == items[index[0]] && items' == Without(items, index[0])
  {
    HeadIsLeast(index, items);
    var n;
    n, index' := Heap.Pop(index, NonceRank);
    KeysWithout(items, n);
    tx, items' := items[n], Without(items, n);
    IndexMembers(index', items');
  }

  /** Collects the nonces of a map in any order and heapifies them. */
  method Reindex(items: Items) returns (index: seq<nat>)
    requires Keyed(items)
    ensures Indexes(index, items)
  {
    var nonces, left := [], items.Keys;
    while left != {}
      invariant left <= items.Keys && multiset(nonces) == multiset(items.Keys - left)
      decreases |left|
    {
      var n :| n in left;
      assert items.Keys - (left - {n}) == items.Keys - left + {n};
      nonces, left := nonces + [n], left - {n};
    }
    assert items.Keys - {} == items.Keys;
    index := Heap.Init(nonces, NonceRank);
  }

  /** Takes the run of consecutive nonces that starts with the lowest one. */
  method TakeRun(items0: Items, index0: seq<nat>, ghost start: nat)
    returns (items: Items, index: seq<nat>, ready: seq<Tx>)
    requires Indexes(index0, items0) && 0 < |index0| && index0[0] <= start
    ensures Indexes(index, items) && items == AtLeast(items0, ReadyEnd(items0, start))
    ensures Lists(ready, Below(items0, ReadyEnd(items0, start)))
  {
    items, index, ready := items0, index0, [];
    HeadIsLeast(index, items);
    ghost var least := index[0];
    var next: nat := index[0];
    while 0 < |index| && index[0] == next
      invariant Indexes(index, items) && Taken(ready, items0, items)
      invariant least <= next && items == AtLeast(items0, next)
      invariant forall n :: least <= n < next ==> n in items0
      decreases |index|
    {
      HeadIsLeast(index, items);
      TakeLeast(ready, items0, items, next);
      AtLeastNext(items0, next);
      var tx;
      tx, items, index := PopHead(items, index);
      ready, next := ready + [tx], next + 1;
    }
    HeadIsLeast(index, items);
    assert next !in items.Keys;
    LeadingRun(items0, start, least, next);
    assert Minus(items0, AtLeast(items0, next)) == Below(items0, next);
  }

  class TxSortedMap {
    var items: Items
    var index: seq<nat>
    var cache: Cache

    ghost predicate Valid()
      reads this
    {
      Indexes(index, items) && (cache.Cached? ==> Lists(cache.txs, items))
    }

    constructor ()
      ensures Valid() && items == map[]
    {
      items, index, cache := map[], [], Nothing;
    }

    method Put(tx: Tx)
      requires Valid()
      modifies this
      ensures Valid() && items == old(items)[tx.nonce := tx]
    {
      KeysPut(items, tx);
      if tx.nonce !in items {
        index := Heap.Push(index, NonceRank, tx.nonce);
      }
      items, cache := items[tx.nonce := tx], Nothing;
    }

    method Forward(threshold: nat) returns (removed: seq<Tx>)
      requires Valid()
      modifies this
      ensures Valid() && items == AtLeast(old(items), threshold)
      ensures Lists(removed, Below(old(items), threshold))
    {
      removed := [];
      ghost var before := items;
      while 0 < |index| && index[0] < threshold
        invariant Indexes(index, items) && cache == old(cache) && Taken(removed, before, items)
        invariant forall n :: n in before && threshold <= n ==> n in items
        decreases |index|
      {
        HeadIsLeast(index, items);
        TakeLeast(removed, before, items, index[0]);
        var tx;
        tx, items, index := PopHead(items, index);
        removed := removed + [tx];
      }
      HeadIsLeast(index, items);
      ForwardDone(before, items, threshold);
      if cache.Cached? {
        ListsSuffix(removed, cache.txs, before, threshold);
        cache := Cached(cache.txs[|removed|..]);
      }
    }

    method Ready(start: nat) returns (ready: seq<Tx>)
      requires Valid()
      modifies this
      ensures Valid() && items == AtLeast(old(items), ReadyEnd(old(items), start))
      ensures Lists(ready, Below(old(items), ReadyEnd(old(items), start)))
    {
      ready := [];
      HeadIsLeast(index, items);
      if |index| == 0 || start < index[0] {
        assert AtLeast(items, 0) == items;
        return;
      }
      items, index, ready := TakeRun(items, index, start);
      cache := Nothing;
    }

    method Remove(nonce: nat) returns (found: bool)
      requires Valid()
      modifies this
      ensures Valid() && found == (nonce in old(items))
      ensures items == Without(old(items), nonce)
    {
      if nonce !in items {
        assert items == Without(items, nonce);
        return false;
      }
      IndexMembers(index, items);
      var i := 0;
      while index[i] != nonce
        invariant 0 <= i < |index| && exists k :: i <= k < |index| && index[k] == nonce
        decreases |index| - i
      {
        i := i + 1;
      }
      KeysWithout(items, nonce);
      var _, rest := Heap.RemoveAt(index, NonceRank, i);
      index, items, cache := rest, Without(items, nonce), Nothing;
      found := true;
    }

    method Filter(filter: Tx -> bool) returns (removed: seq<Tx>)
      requires Valid()
      modifies this
      ensures Valid() && items == Rejecting(old(items), filter) && |removed| == |Matching(old(items), filter)|
      ensures multiset(removed) == multiset(Matching(old(items), filter))
    {
      ghost var before := items;
      removed := Extract(filter);
      if 0 < |removed| {
        index := Reindex(items);
        cache := Nothing;
      } else {
        NothingMatches(before, filter);
      }
    }

    /** The map iteration of Filter: moves every match out of the map, in any order. */
    method Extract(filter: Tx -> bool) returns (removed: seq<Tx>)
      requires Keyed(items)
      modifies this`items
      ensures items == Rejecting(old(items), filter) && |removed| == |Matching(old(items), filter)|
      ensures multiset(removed) == multiset(Matching(old(items), filter))
    {
      removed := [];
      var left := items.Keys;
      ghost var before: Items, gone: set<Tx> := items, {};
      while left != {}
        invariant left <= items.Keys && Within(items, before)
        invariant forall n :: n in before && n !in left ==> (n in items <==> !filter(before[n]))
        invariant multiset(removed) == multiset(gone)
        invariant forall tx :: tx in gone <==> Stores(before, tx) && tx.nonce !in left && filter(tx)
        decreases |left|
      {
        var n :| n in left;
        var tx := items[n];
        left := left - {n};
        if filter(tx) {
          removed, items, gone := removed + [tx], Without(items, n), gone + {tx};
        }
      }
      assert items == Rejecting(before, filter);
      assert gone == Matching(before, filter);
      assert |multiset(removed)| == |multiset(gone)|;
    }

    method Flatten() returns (txs: seq<Tx>)
      requires Valid()
      modifies this`cache
      ensures Valid() && cache == Cached(txs) && Lists(txs, items)
    {
      if cache.Nothing? {
        var collected, left := [], items.Keys;
        ghost var seen: set<Tx> := {};
        while left != {}
          invariant left <= items.Keys && |collected| + |left| == |items|
          invariant multiset(collected) == multiset(seen)
          invariant forall tx :: tx in seen ==> Stores(items, tx) && tx.nonce !in left
          decreases |left|
        {
          var n :| n in left;
          collected, left, seen := collected + [items[n]], left - {n}, seen + {items[n]};
        }
        var sorted := Sorting.Sort(collected, TxRank);
        assert |multiset(sorted)| == |multiset(collected)|;
        SortedLists(sorted, seen, items);
        cache := Cached(sorted);
      }
      txs := cache.txs;
    }

    method Cap(threshold: nat) returns (drops: seq<Tx>)
      requires Valid()
      modifies this
      ensures Valid() && items == Capped(old(items), threshold)
      ensures Lists(Reversed(drops), Minus(old(items), items))
    {
      drops := [];
      if |items| <= threshold {
        CappedAll(items, threshold);
        return;
      }
      ghost var before := items;
      var sorted := Sorting.Sort(index, NonceRank);
      ghost var listed := ListOfSorted(sorted, items);
      drops := DropTop(sorted, listed, threshold);
      CapLeaves(listed, before, items, drops, threshold);
      PrefixKeys(sorted, before, listed, threshold);
      index := Heap.Init(sorted[..threshold], NonceRank);
      if cache.Cached? {
        ListsCapped(cache.txs, before, threshold);
        assert |drops| == |before| - threshold;
        cache := Cached(cache.txs[..|cache.txs| - |drops|]);
      }
    }

    /** The deletion loop of Cap, from the highest nonce down to the threshold. */
    method DropTop(sorted: seq<nat>, ghost listed: seq<Tx>, threshold: nat) returns (drops: seq<Tx>)
      requires threshold <= |sorted| == |listed| && Keyed(items) && Lists(listed, items)
      requires forall i :: 0 <= i < |sorted| ==> sorted[i] in items && listed[i] == items[sorted[i]]
      modifies this`items
      ensures Within(items, old(items))
      ensures forall i :: 0 <= i < |listed| ==> (listed[i].nonce in items <==> i < threshold)
      ensures |drops| == |listed| - threshold
      ensures forall i :: 0 <= i < |drops| ==> drops[i] == listed[|listed| - 1 - i]
    {
      drops := [];
      var size := |sorted|;
      ghost var before := items;
      while threshold < size
        invariant threshold <= size <= |listed| && Within(items, before)
        invariant forall i :: 0 <= i < |listed| ==> (listed[i].nonce in items <==> i < size)
        invariant |drops| == |listed| - size
        invariant forall i :: 0 <= i < |drops| ==> drops[i] == listed[|listed| - 1 - i]
        decreases size
      {
        var n := sorted[size - 1];
        assert listed[size - 1].nonce == n;
        drops := drops + [items[n]];
        items := Without(items, n);
        size := size - 1;
      }
    }
  }

  function Rejecting(items: Items, filter: Tx -> bool): Items {
    map n | n in items && !filter(items[n]) :: items[n]
  }

  function Matching(items: Items, filter: Tx -> bool): set<Tx> {
    set n | n in items && filter(items[n]) :: items[n]
  }

  lemma NothingMatches(items: Items, filter: Tx -> bool)
    requires |Matching(items, filter)| == 0
    ensures Rejecting(items, filter) == items
  {
    assert forall n :: n in items && filter(items[n]) ==> items[n] in Matching(items, filter);
  }

  function Reversed<T>(s: seq<T>): (r: seq<T>)
    ensures |r| == |s| && forall i :: 0 <= i < |s| ==> r[i] == s[|s| - 1 - i]
  {
    seq(|s|, i requires 0 <= i < |s| => s[|s| - 1 - i])
  }

  lemma ForwardDone(before: Items, after: Items, t: nat)
    requires Within(after, before) && (forall n :: n in before && t <= n ==> n in after)
    requires forall n :: n in after ==> t <= n
    ensures after == AtLeast(before, t) && Minus(before, after) == Below(before, t)
  {
  }

  lemma AtLeastNext(items: Items, n: nat)
    ensures AtLeast(items, n + 1) == Without(AtLeast(items, n), n)
  {
  }

  lemma LeadingRun(items: Items, start: nat, least: nat, next: nat)
    requires least in items && (forall n :: n in items ==> least <= n) && least <= start
    requires least <= next && next !in items && forall n :: least <= n < next ==> n in items
    ensures next == ReadyEnd(items, start)
  {
    var e := RunEnd(items.Keys, least);
    assert e !in items;
    assert next < e ==> next in items.Keys;
  }

  lemma CappedAll(items: Items, k: nat)
    requires |items| <= k
    ensures Capped(items, k) == items && Lists(Reversed([]), Minus(items, items))
  {
    assert AreLowest(items.Keys, items.Keys, k);
    LowestUnique(items.Keys, Lowest(items.Keys, k), items.Keys, k);
  }

  lemma TwiceCounts<T>(s: seq<T>, i: nat, j: nat)
    requires i < j < |s| && s[i] == s[j]
    ensures 2 <= multiset(s)[s[i]]
  {
    assert s == s[..i] + [s[i]] + s[i + 1..j] + [s[j]] + s[j + 1..];
  }

  lemma SortedStrictly(sorted: seq<nat>, keys: set<nat>)
    requires multiset(sorted) == multiset(keys) && Sorting.SortedBy(sorted, NonceRank)
    ensures |sorted| == |keys|
    ensures forall i, j :: 0 <= i < j < |sorted| ==> sorted[i] < sorted[j]
    ensures forall i :: 0 <= i < |sorted| ==> sorted[i] in keys
  {
    assert |multiset(sorted)| == |multiset(keys)|;
    forall i | 0 <= i < |sorted| ensures sorted[i] in keys {
      assert sorted[i] in multiset(sorted);
    }
    forall i, j | 0 <= i < j < |sorted| ensures sorted[i] < sorted[j] {
      assert NonceRank(sorted[i]) <= NonceRank(sorted[j]);
      if sorted[i] == sorted[j] {
        TwiceCounts(sorted, i, j);
        assert false;
      }
    }
  }

  lemma ListOfSorted(sorted: seq<nat>, items: Items) returns (listed: seq<Tx>)
    requires Keyed(items) && multiset(sorted) == multiset(items.Keys) && Sorting.SortedBy(sorted, NonceRank)
    ensures Lists(listed, items)
    ensures |listed| == |sorted| && forall i :: 0 <= i < |sorted| ==>
              sorted[i] in items && listed[i] == items[sorted[i]]
  {
    SortedStrictly(sorted, items.Keys);
    listed := seq(|sorted|, i requires 0 <= i < |sorted| => items[sorted[i]]);
  }

  lemma CapLeaves(listed: seq<Tx>, before: Items, after: Items, drops: seq<Tx>, k: nat)
    requires Keyed(before) && Lists(listed, before) && k <= |before| && Within(after, before)
    requires forall i :: 0 <= i < |listed| ==> (listed[i].nonce in after <==> i < k)
    requires |drops| == |listed| - k && forall i :: 0 <= i < |drops| ==> drops[i] == listed[|listed| - 1 - i]
    ensures after == Capped(before, k) && Lists(Reversed(drops), Minus(before, after))
  {
    CappedFromList(listed, before, after, k);
    ListsCapped(listed, before, k);
    UpperLists(listed, before, after, Reversed(drops), k);
  }

  lemma UpperLists(listed: seq<Tx>, before: Items, after: Items, up: seq<Tx>, k: nat)
    requires Lists(listed, before) && Within(after, before) && |after| == k && |up| == |listed| - k
    requires forall i :: k <= i < |listed| ==> listed[i].nonce !in after
    requires forall i :: 0 <= i < |up| ==> up[i] == listed[k + i]
    ensures Lists(up, Minus(before, after))
  {
    assert before.Keys == after.Keys + Minus(before, after).Keys;
  }

  lemma CappedFromList(listed: seq<Tx>, before: Items, after: Items, k: nat)
    requires Keyed(before) && Lists(listed, before) && k <= |before| && Within(after, before)
    requires forall i :: 0 <= i < |listed| ==> (listed[i].nonce in after <==> i < k)
    ensures after == Capped(before, k)
  {
    ListsCapped(listed, before, k);
    forall n | n in before ensures n in after <==> n in Capped(before, k) {
      var i := Find(listed, before, n);
      if i < k { assert Stores(Capped(before, k), listed[..k][i]); }
    }
  }

  lemma PrefixKeys(sorted: seq<nat>, items: Items, listed: seq<Tx>, k: nat)
    requires Keyed(items) && Lists(listed, items) && k <= |items|
    requires |listed| == |sorted| && forall i :: 0 <= i < |sorted| ==>
               sorted[i] in items && listed[i] == items[sorted[i]]
    ensures multiset(sorted[..k]) == multiset(Capped(items, k).Keys)
  {
    ListsCapped(listed, items, k);
    var front := sorted[..k];
    assert forall i :: 0 <= i < |front| ==> front[i] == listed[i].nonce;
    AscendingAsSet(front);
    var low := set i | 0 <= i < |front| :: front[i];
    forall n | n in low ensures n in Capped(items, k) {
      var i :| 0 <= i < k && front[i] == n;
      assert Stores(Capped(items, k), listed[..k][i]);
    }
    forall n | n in Capped(items, k) ensures n in low {
      var i := Find(listed[..k], Capped(items, k), n);
      assert front[i] == n;
    }
    assert low == Capped(items, k).Keys;
  }

  lemma {:induction false} AscendingAsSet(s: seq<nat>)
    requires forall i, j :: 0 <= i < j < |s| ==> s[i] < s[j]
    ensures multiset(s) == multiset(set i | 0 <= i < |s| :: s[i])
  {
    if |s| != 0 {
      var front, last := s[..|s| - 1], s[|s| - 1];
      AscendingAsSet(front);
      var before := set i | 0 <= i < |front| :: front[i];
      assert s == front + [last];
      assert (set i | 0 <= i < |s| :: s[i]) == before + {last} by {
        assert forall i :: 0 <= i < |front| ==> front[i] == s[i];
      }
      assert last !in before;
    }
  }

  lemma SortedLists(sorted: seq<Tx>, seen: set<Tx>, items: Items)
    requires |sorted| == |items| && multiset(sorted) == multiset(seen) && Sorting.SortedBy(sorted, TxRank)
    requires forall tx :: tx in seen ==> Stores(items, tx)
    ensures Lists(sorted, items)
  {
    forall i | 0 <= i < |sorted| ensures Stores(items, sorted[i]) {
      assert sorted[i] in multiset(sorted);
    }
    forall i, j | 0 <= i < j < |sorted| ensures sorted[i].nonce < sorted[j].nonce {
      assert TxRank(sorted[i]) <= TxRank(sorted[j]);
      if sorted[i] == sorted[j] {
        TwiceCounts(sorted, i, j);
        assert false;
      }
    }
  }
}
