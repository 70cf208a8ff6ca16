/**
 * Transactions and the plain nonce-to-transaction maps that the pool's lists implement.
 *
 * A transaction hash is modelled as injective: a transaction stands for its own hash, so a
 * hash lookup is a set of transactions. The sender is recovered from the signature by a
 * pure function and is carried as a field.
 */
module Transactions {

  type Uint64 = n: nat | n < 0x1_0000_0000_0000_0000

  /** The encoded size of a transaction, never zero. */
  type Size = n: nat | 0 < n witness 1

  datatype Address = Address(bits: nat)

  /** `cost` is value + price * gas, the most the transaction can take from its sender. */
  datatype Tx = Tx(from: Address, nonce: Uint64, price: nat, gas: nat, cost: nat, size: Size, payload: nat)

  type Items = map<nat, Tx>

  /** Transactions to be announced, by sender and nonce. */
  type TxEvents = map<Address, Items>

  ghost predicate Keyed(items: Items) {
    forall n :: n in items ==> items[n].nonce == n
  }

  /** `tx` itself, not merely something with its nonce, is stored. */
  predicate Stores(items: Items, tx: Tx) {
    tx.nonce in items && items[tx.nonce] == tx
  }

  function Below(items: Items, t: nat): Items {
    map n | n in items && n < t :: items[n]
  }

  function AtLeast(items: Items, t: nat): Items {
    map n | n in items && t <= n :: items[n]
  }

  function Without(items: Items, n: nat): Items {
    map k | k in items && k != n :: items[k]
  }

  /** The entries whose nonce is in `keys`. */
  function Only(items: Items, keys: set<nat>): Items {
    map n | n in items && n in keys :: items[n]
  }

  /** `r` lists the stored transactions by strictly increasing nonce. */
  ghost predicate Lists(r: seq<Tx>, items: Items) {
    && (forall i, j :: 0 <= i < j < |r| ==> r[i].nonce < r[j].nonce)
    && (forall i :: 0 <= i < |r| ==> Stores(items, r[i]))
    && |r| == |items|
  }

  lemma {:induction false} DistinctNonces(r: seq<Tx>)
    requires forall i, j :: 0 <= i < j < |r| ==> r[i].nonce < r[j].nonce
    ensures |set i | 0 <= i < |r| :: r[i].nonce as nat| == |r|
  {
    var nonces := set i | 0 <= i < |r| :: r[i].nonce as nat;
    if |r| == 0 {
      assert nonces == {};
    } else {
      var front := r[..|r| - 1];
      DistinctNonces(front);
      var before := set i | 0 <= i < |front| :: front[i].nonce as nat;
      assert forall i :: 0 <= i < |front| ==> front[i] == r[i];
      assert nonces == before + {r[|r| - 1].nonce as nat};
    }
  }

  /** A list of as many distinct stored transactions as there are holds each of them. */
  lemma Find(r: seq<Tx>, items: Items, n: nat) returns (i: nat)
    requires Lists(r, items) && n in items
    ensures i < |r| && r[i] == items[n]
  {
    DistinctNonces(r);
    var nonces := set i | 0 <= i < |r| :: r[i].nonce as nat;
    assert nonces <= items.Keys;
    assert items.Keys == nonces + (items.Keys - nonces);
    assert n in nonces;
    i :| 0 <= i < |r| && r[i].nonce == n;
  }

  /** The list of a lower part is a prefix of the list of the whole. */
  lemma {:induction false} ListsPrefix(low: seq<Tx>, all: seq<Tx>, items: Items, t: nat, i: nat)
    requires Keyed(items) && Lists(low, Below(items, t)) && Lists(all, items) && i <= |low|
    ensures i <= |all| && forall k :: 0 <= k < i ==> low[k] == all[k]
  {
    if 0 < i {
      var k := i - 1;
      ListsPrefix(low, all, items, t, k);
      var tx := low[k];
      assert Stores(items, tx);
      var j := Find(all, items, tx.nonce);
      assert k <= j;
      var m := Find(low, Below(items, t), all[k].nonce);
      assert k <= m;
      assert tx.nonce <= all[k].nonce <= tx.nonce;
    }
  }

  /** Dropping the listed lower part from the front lists the upper part. */
  lemma ListsSuffix(low: seq<Tx>, all: seq<Tx>, items: Items, t: nat)
    requires Keyed(items) && Lists(low, Below(items, t)) && Lists(all, items)
    ensures |low| <= |all| && Lists(all[|low|..], AtLeast(items, t))
  {
    ListsPrefix(low, all, items, t, |low|);
    var high := all[|low|..];
    forall i | 0 <= i < |high| ensures Stores(AtLeast(items, t), high[i]) {
      NotInPrefix(low, all, items, t, |low| + i);
    }
    CutSizes(items, t);
  }

  lemma CutSizes(items: Items, t: nat)
    ensures |items| == |Below(items, t)| + |AtLeast(items, t)|
  {
    assert items.Keys == Below(items, t).Keys + AtLeast(items, t).Keys;
  }

  lemma NotInPrefix(low: seq<Tx>, all: seq<Tx>, items: Items, t: nat, i: nat)
    requires Lists(low, Below(items, t)) && Lists(all, items) && |low| <= i < |all|
    requires forall k :: 0 <= k < |low| ==> low[k] == all[k]
    ensures t <= all[i].nonce
  {
    assert Stores(items, all[i]);
    if all[i].nonce < t {
      var m := Find(low, Below(items, t), all[i].nonce);
      assert false;
    }
  }

  function Least(s: set<nat>): (m: nat)
    requires s != {}
    ensures m in s && forall x :: x in s ==> m <= x
  {
    LeastExists(s);
    var m :| m in s && forall x :: x in s ==> m <= x;
    m
  }

  lemma {:induction false} LeastExists(s: set<nat>)
    requires s != {}
    ensures exists m :: m in s && forall x :: x in s ==> m <= x
  {
    var m := FindLeast(s);
  }

  lemma {:induction false} FindLeast(s: set<nat>) returns (m: nat)
    requires s != {}
    ensures m in s && forall x :: x in s ==> m <= x
  {
    m :| m in s;
    var rest := s - {m};
    assert forall x :: x in s ==> x == m || x in rest;
    if rest != {} {
      var other := FindLeast(rest);
      m := if m < other then m else other;
    }
  }

  /** `r` holds the `k` smallest elements of `s`, or all of them if there are fewer. */
  ghost predicate AreLowest(r: set<nat>, s: set<nat>, k: nat) {
    && r <= s && |r| == (if |s| <= k then |s| else k)
    && forall a, b :: a in r && b in s && b !in r ==> a < b
  }

  function Lowest(s: set<nat>, k: nat): (r: set<nat>)
    ensures AreLowest(r, s, k)
  {
    if k == 0 || s == {} then {} else
      var m := Least(s);
      var rest := s - {m};
      var low := Lowest(rest, k - 1);
      assert |s| == |rest| + 1 && m !in low && |{m} + low| == 1 + |low|;
      assert forall b :: b in s ==> b == m || (b in rest && m < b);
      {m} + low
  }

  lemma LowestUnique(r: set<nat>, r': set<nat>, s: set<nat>, k: nat)
    requires AreLowest(r, s, k) && AreLowest(r', s, k)
    ensures r == r'
  {
    var common := r * r';
    assert r == common + (r - r') && r' == common + (r' - r);
    assert |r - r'| == |r' - r|;
    if x, y :| x in r - r' && y in r' - r {
      assert false;
    }
  }

  /** The `k` entries with the lowest nonces. */
  function Capped(items: Items, k: nat): Items {
    Only(items, Lowest(items.Keys, k))
  }

  /** The nonces of the first `k` listed transactions are the `k` lowest. */
  lemma LowestListed(all: seq<Tx>, items: Items, k: nat)
    requires Keyed(items) && Lists(all, items) && k <= |items|
    ensures (set i | 0 <= i < k :: all[i].nonce as nat) == Lowest(items.Keys, k)
  {
    var front := all[..k];
    DistinctNonces(front);
    var low := set i | 0 <= i < k :: all[i].nonce as nat;
    assert low == set i | 0 <= i < |front| :: front[i].nonce as nat;
    assert forall i :: 0 <= i < k ==> all[i].nonce in low;
    forall a, b | a in low && b in items && b !in low ensures a < b {
      var i :| 0 <= i < k && all[i].nonce == a;
      var j := Find(all, items, b);
      assert k <= j;
    }
    LowestUnique(low, Lowest(items.Keys, k), items.Keys, k);
  }

  lemma ListsCapped(all: seq<Tx>, items: Items, k: nat)
    requires Keyed(items) && Lists(all, items) && k <= |items|
    ensures Lists(all[..k], Capped(items, k))
    ensures forall i :: k <= i < |all| ==> all[i].nonce !in Capped(items, k)
    ensures |Capped(items, k)| == k
  {
    LowestListed(all, items, k);
    assert Capped(items, k).Keys == Lowest(items.Keys, k);
    forall i | 0 <= i < k ensures Stores(Capped(items, k), all[i]) {
      assert all[i].nonce in (set i | 0 <= i < k :: all[i].nonce as nat);
    }
  }

  /** One past the end of the run of consecutive nonces that starts at `n`. */
  function RunEnd(keys: set<nat>, n: nat): (e: nat)
    ensures n <= e && e !in keys && forall k :: n <= k < e ==> k in keys
    decreases |keys|
  {
    if n in keys then
      var rest := keys - {n};
      assert |rest| < |keys| && forall k :: k in rest ==> k in keys;
      RunEnd(rest, n + 1)
    else n
  }

  /** The nonce up to which `Ready(start)` empties the map: the end of its leading run, or nothing. */
  function ReadyEnd(items: Items, start: nat): nat {
    if |items| == 0 || start < Least(items.Keys) then 0 else RunEnd(items.Keys, Least(items.Keys))
  }
}
