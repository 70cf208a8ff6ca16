/**
 * An account's transaction list: a sorted map with upper bounds on cost and gas that let
 * Filter return at once when nothing can exceed the limits. `ListV` is the list as a value
 * and the functions on it specify the operations; the class `TxList` implements them on the
 * sorted map.
 */
module TxLists {
  import opened Transactions
  import opened TxSortedMaps

  datatype ListV = ListV(strict: bool, items: Items, costcap: nat, gascap: nat) {
    /** The caps bound every stored transaction. */
    ghost predicate WellFormed() {
      && Keyed(items)
      && forall n :: n in items ==> items[n].cost <= costcap && items[n].gas <= gascap
    }
  }

  /** What Filter leaves, what it removes, and what it removes only to keep a strict list gap-free. */
  datatype Filtered = Filtered(rest: ListV, removed: Items, invalids: Items)

  function EmptyList(strict: bool): ListV {
    ListV(strict, map[], 0, 0)
  }

  function Values(items: Items): set<Tx> {
    set n | n in items :: items[n]
  }

  /** A replacement must pay more, and at least the price bump in percent more. */
  predicate Outbids(tx: Tx, stored: Tx, priceBump: nat) {
    stored.price < tx.price && stored.price * (100 + priceBump) / 100 <= tx.price
  }

  /**
   * A replacement pays strictly more, and the bump in percent up to rounding; who pays strictly
   * more and the full bump is accepted.
   */
  lemma ReplacementPays(tx: Tx, stored: Tx, priceBump: nat)
    ensures Outbids(tx, stored, priceBump) ==>
              stored.price < tx.price && stored.price * (100 + priceBump) < 100 * tx.price + 100
    ensures stored.price < tx.price && stored.price * (100 + priceBump) <= 100 * tx.price ==>
              Outbids(tx, stored, priceBump)
  {
    var asked := stored.price * (100 + priceBump);
    assert asked == 100 * (asked / 100) + asked % 100;
  }

  predicate Accepts(l: ListV, tx: Tx, priceBump: nat) {
    tx.nonce in l.items ==> Outbids(tx, l.items[tx.nonce], priceBump)
  }

  function Added(l: ListV, tx: Tx): ListV {
    l.(items := l.items[tx.nonce := tx],
       costcap := if l.costcap < tx.cost then tx.cost else l.costcap,
       gascap := if l.gascap < tx.gas then tx.gas else l.gascap)
  }

  predicate Exceeds(tx: Tx, costLimit: nat, gasLimit: nat) {
    costLimit < tx.cost || gasLimit < tx.gas
  }

  function Offenders(items: Items, costLimit: nat, gasLimit: nat): Items {
    map n | n in items && Exceeds(items[n], costLimit, gasLimit) :: items[n]
  }

  function Payable(items: Items, costLimit: nat, gasLimit: nat): Items {
    map n | n in items && !Exceeds(items[n], costLimit, gasLimit) :: items[n]
  }

  /** The operation as the source performs it, early exit included. */
  function FilterV(l: ListV, costLimit: nat, gasLimit: nat): Filtered {
    if l.costcap <= costLimit && l.gascap <= gasLimit then Filtered(l, map[], map[]) else
      var removed := Offenders(l.items, costLimit, gasLimit);
      var kept := Payable(l.items, costLimit, gasLimit);
      var lowered := l.(costcap := costLimit, gascap := gasLimit);
      if l.strict && removed.Keys != {} then
        var lowest := Least(removed.Keys);
        Filtered(lowered.(items := Below(kept, lowest + 1)), removed, AtLeast(kept, lowest + 1))
      else
        Filtered(lowered.(items := kept), removed, map[])
  }

  /** What is left when everything from the first offender on is cut off. */
  function CutAtOffender(items: Items, costLimit: nat, gasLimit: nat): Items {
    var removed := Offenders(items, costLimit, gasLimit);
    if removed.Keys == {} then items else Below(items, Least(removed.Keys))
  }

  /** The nonces are the interval from `lo` up to but not including `hi`. */
  ghost predicate Spans(items: Items, lo: nat, hi: nat) {
    lo <= hi && forall n :: n in items <==> lo <= n < hi
  }

  /** The early exit loses nothing: with or without it, all offenders and only they are removed. */
  lemma FilterExact(l: ListV, costLimit: nat, gasLimit: nat)
    requires l.WellFormed()
    ensures var f := FilterV(l, costLimit, gasLimit);
            && f.rest.WellFormed() && f.rest.strict == l.strict
            && f.removed == Offenders(l.items, costLimit, gasLimit)
            && f.rest.items == (if l.strict then CutAtOffender(l.items, costLimit, gasLimit)
                                else Payable(l.items, costLimit, gasLimit))
            && f.invalids == Minus(Minus(l.items, f.removed), f.rest.items)
            && (!l.strict ==> f.invalids == map[])
  {
    var f, removed := FilterV(l, costLimit, gasLimit), Offenders(l.items, costLimit, gasLimit);
    if l.costcap <= costLimit && l.gascap <= gasLimit {
      assert removed == map[];
      assert Payable(l.items, costLimit, gasLimit) == l.items;
    } else if removed.Keys == {} {
      assert removed == map[];
      assert forall n :: n in l.items ==> n !in removed.Keys;
      assert f.rest.items == l.items;
    } else if l.strict {
      var lowest := Least(removed.Keys);
      assert lowest !in Payable(l.items, costLimit, gasLimit);
      assert forall n :: n in l.items && n < lowest ==> n !in removed.Keys;
      assert f.rest.items == Below(l.items, lowest);
    }
  }

  lemma FilterWellFormed(l: ListV, costLimit: nat, gasLimit: nat)
    requires l.WellFormed()
    ensures FilterV(l, costLimit, gasLimit).rest.WellFormed()
  {
  }

  /** A gap-free strict list stays a gap-free prefix of itself under Filter. */
  lemma FilterKeepsPrefix(l: ListV, costLimit: nat, gasLimit: nat, lo: nat, hi: nat) returns (e: nat)
    requires l.WellFormed() && l.strict && Spans(l.items, lo, hi)
    ensures lo <= e <= hi && Spans(FilterV(l, costLimit, gasLimit).rest.items, lo, e)
    ensures e == hi <==> Offenders(l.items, costLimit, gasLimit) == map[]
    ensures e < hi ==> Exceeds(l.items[e], costLimit, gasLimit)
  {
    FilterExact(l, costLimit, gasLimit);
    var removed := Offenders(l.items, costLimit, gasLimit);
    e := if removed.Keys == {} then hi else Least(removed.Keys);
  }

  class TxList {
    const strict: bool
    const txs: TxSortedMap
    var costcap: nat
    var gascap: nat

    ghost predicate Valid()
      reads this, txs
    {
      txs.Valid() && Value().WellFormed()
    }

    ghost function Value(): ListV
      reads this, txs
    {
      ListV(strict, txs.items, costcap, gascap)
    }

    constructor (strict: bool)
      ensures Valid() && Value() == EmptyList(strict) && fresh(txs)
    {
      this.strict, costcap, gascap := strict, 0, 0;
      txs := new TxSortedMap();
    }

    method Add(tx: Tx, priceBump: nat) returns (inserted: bool, replaced: set<Tx>)
      requires Valid()
      modifies this, txs
      ensures Valid() && inserted == Accepts(old(Value()), tx, priceBump)
      ensures Value() == if inserted then Added(old(Value()), tx) else old(Value())
      ensures replaced == if inserted && tx.nonce in old(txs.items) then {old(txs.items)[tx.nonce]} else {}
    {
      replaced := {};
      if tx.nonce in txs.items {
        var stored := txs.items[tx.nonce];
        var threshold := stored.price * (100 + priceBump) / 100;
        if tx.price <= stored.price || tx.price < threshold {
          return false, {};
        }
        replaced := {stored};
      }
      txs.Put(tx);
      if costcap < tx.cost {
        costcap := tx.cost;
      }
      if gascap < tx.gas {
        gascap := tx.gas;
      }
      inserted := true;
    }

    method Forward(threshold: nat) returns (removed: seq<Tx>)
      requires Valid()
      modifies this, txs
      ensures Valid() && Value() == old(Value()).(items := AtLeast(old(txs.items), threshold))
      ensures Lists(removed, Below(old(txs.items), threshold))
    {
      removed := txs.Forward(threshold);
    }

    method Filter(costLimit: nat, gasLimit: nat) returns (removed: seq<Tx>, invalids: seq<Tx>)
      requires Valid()
      modifies this, txs
      ensures Valid() && Value() == FilterV(old(Value()), costLimit, gasLimit).rest
      ensures multiset(removed) == multiset(Values(FilterV(old(Value()), costLimit, gasLimit).removed))
      ensures multiset(invalids) == multiset(Values(FilterV(old(Value()), costLimit, gasLimit).invalids))
    {
      removed, invalids := [], [];
      if costcap <= costLimit && gascap <= gasLimit {
        return;
      }
      FilterWellFormed(Value(), costLimit, gasLimit);
      costcap, gascap := costLimit, gasLimit;
      removed, invalids := FilterAll(costLimit, gasLimit);
    }

    /** The part of Filter behind the early exit. */
    method FilterAll(costLimit: nat, gasLimit: nat) returns (removed: seq<Tx>, invalids: seq<Tx>)
      requires txs.Valid()
      modifies txs
      ensures txs.Valid() && multiset(removed) == multiset(Values(Offenders(old(txs.items), costLimit, gasLimit)))
      ensures var kept, offending := Payable(old(txs.items), costLimit, gasLimit),
                Offenders(old(txs.items), costLimit, gasLimit).Keys;
              if strict && offending != {}
              then txs.items == Below(kept, Least(offending) + 1)
                && multiset(invalids) == multiset(Values(AtLeast(kept, Least(offending) + 1)))
              else txs.items == kept && invalids == []
    {
      ghost var offenders := Offenders(txs.items, costLimit, gasLimit);
      NoValues(offenders);
      invalids := [];
      removed := DropExceeding(costLimit, gasLimit);
      if strict && 0 < |removed| {
        var lowest: nat := LowestOf(removed, offenders);
        invalids := DropAbove(lowest);
      }
    }

    method DropExceeding(costLimit: nat, gasLimit: nat) returns (removed: seq<Tx>)
      requires txs.Valid()
      modifies txs
      ensures txs.Valid() && txs.items == Payable(old(txs.items), costLimit, gasLimit)
      ensures multiset(removed) == multiset(Values(Offenders(old(txs.items), costLimit, gasLimit)))
      ensures |removed| == |Values(Offenders(old(txs.items), costLimit, gasLimit))|
    {
      MatchOver(txs.items, costLimit, gasLimit);
      removed := txs.Filter(Over(costLimit, gasLimit));
    }

    method DropAbove(nonce: nat) returns (removed: seq<Tx>)
      requires txs.Valid()
      modifies txs
      ensures txs.Valid() && txs.items == Below(old(txs.items), nonce + 1)
      ensures multiset(removed) == multiset(Values(AtLeast(old(txs.items), nonce + 1)))
    {
      MatchAbove(txs.items, nonce);
      removed := txs.Filter(Above(nonce));
    }

    method Cap(threshold: nat) returns (drops: seq<Tx>)
      requires Valid()
      modifies this, txs
      ensures Valid() && Value() == old(Value()).(items := Capped(old(txs.items), threshold))
      ensures Lists(Reversed(drops), Minus(old(txs.items), txs.items))
    {
      drops := txs.Cap(threshold);
    }

    method Remove(tx: Tx) returns (found: bool, invalids: seq<Tx>)
      requires Valid()
      modifies this, txs
      ensures Valid() && found == (tx.nonce in old(txs.items))
      ensures Value() == old(Value()).(items := RemovedV(old(Value()), tx.nonce))
      ensures multiset(invalids) == multiset(Values(Invalidated(old(Value()), tx.nonce)))
    {
      invalids := [];
      found := txs.Remove(tx.nonce);
      if !found {
        assert RemovedV(old(Value()), tx.nonce) == old(txs.items);
        return;
      }
      if strict {
        invalids := DropAbove(tx.nonce);
        assert txs.items == Below(old(txs.items), tx.nonce);
        assert AtLeast(Without(old(txs.items), tx.nonce), tx.nonce + 1) == AtLeast(old(txs.items), tx.nonce + 1);
      }
    }

    method Ready(start: nat) returns (ready: seq<Tx>)
      requires Valid()
      modifies this, txs
      ensures Valid() && Value() == old(Value()).(items := AtLeast(old(txs.items), ReadyEnd(old(txs.items), start)))
      ensures Lists(ready, Below(old(txs.items), ReadyEnd(old(txs.items), start)))
    {
      ready := txs.Ready(start);
    }

    method Flatten() returns (listed: seq<Tx>)
      requires Valid()
      modifies txs
      ensures Valid() && Value() == old(Value()) && Lists(listed, txs.items)
    {
      listed := txs.Flatten();
    }
  }

  function Over(costLimit: nat, gasLimit: nat): Tx -> bool {
    (tx: Tx) => Exceeds(tx, costLimit, gasLimit)
  }

  function Above(nonce: nat): Tx -> bool {
    (tx: Tx) => nonce < tx.nonce
  }

  lemma MatchOver(items: Items, costLimit: nat, gasLimit: nat)
    requires Keyed(items)
    ensures Matching(items, Over(costLimit, gasLimit)) == Values(Offenders(items, costLimit, gasLimit))
    ensures Rejecting(items, Over(costLimit, gasLimit)) == Payable(items, costLimit, gasLimit)
  {
    ValuesAre(Offenders(items, costLimit, gasLimit));
    assert forall n :: n in items ==> items[n].nonce == n;
  }

  lemma MatchAbove(items: Items, nonce: nat)
    requires Keyed(items)
    ensures Matching(items, Above(nonce)) == Values(AtLeast(items, nonce + 1))
    ensures Rejecting(items, Above(nonce)) == Below(items, nonce + 1)
  {
    var high := AtLeast(items, nonce + 1);
    forall tx ensures tx in Matching(items, Above(nonce)) <==> tx in Values(high) {
      if tx in Matching(items, Above(nonce)) {
        assert high[tx.nonce] == tx;
      }
    }
  }

  /** What is left after removing one nonce; a strict list also loses everything above it. */
  function RemovedV(l: ListV, nonce: nat): Items {
    if nonce !in l.items then l.items
    else if l.strict then Below(l.items, nonce)
    else Without(l.items, nonce)
  }

  function Invalidated(l: ListV, nonce: nat): Items {
    if nonce in l.items && l.strict then AtLeast(l.items, nonce + 1) else map[]
  }

  lemma ValuesAre(items: Items)
    requires Keyed(items)
    ensures forall tx :: tx in Values(items) <==> Stores(items, tx)
  {
  }

  lemma NoValues(items: Items)
    ensures Values(items) == {} <==> items.Keys == {}
  {
    assert forall n :: n in items ==> items[n] in Values(items);
  }

  /** The loop that looks for the lowest removed nonce, starting from the largest one. */
  method LowestOf(removed: seq<Tx>, ghost offenders: Items) returns (lowest: nat)
    requires Keyed(offenders) && 0 < |removed| && multiset(removed) == multiset(Values(offenders))
    ensures offenders.Keys != {} && lowest == Least(offenders.Keys)
  {
    lowest := 0xFFFF_FFFF_FFFF_FFFF;
    ValuesAre(offenders);
    assert forall i :: 0 <= i < |removed| ==> removed[i] in multiset(removed);
    for i := 0 to |removed|
      invariant forall k :: 0 <= k < i ==> lowest <= removed[k].nonce
      invariant if i == 0 then lowest == 0xFFFF_FFFF_FFFF_FFFF else exists k :: 0 <= k < i && removed[k].nonce == lowest
    {
      if removed[i].nonce < lowest {
        lowest := removed[i].nonce;
      }
    }
    forall n | n in offenders ensures lowest <= n {
      assert offenders[n] in multiset(removed);
      var k :| 0 <= k < |removed| && removed[k] == offenders[n];
    }
  }
}
