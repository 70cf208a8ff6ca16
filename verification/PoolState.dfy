/**
 * What the pool's collections must satisfy, stated on values: the pending and queued lists
 * per account, and the set of live transactions they have to add up to.
 */
module PoolState {
  import opened Transactions
  import opened TxLists
  import opened TxSortedMaps
  import opened TxNoncers

  type ListMap = map<Address, ListV>

  /** The account's list, or the empty list the pool would create for it. */
  function ListOf(lists: ListMap, a: Address, strict: bool): ListV {
    if a in lists then lists[a] else EmptyList(strict)
  }

  function ItemsOf(lists: ListMap, a: Address): Items {
    if a in lists then lists[a].items else map[]
  }

  lemma SameItems(lists: ListMap, a: Address, strict: bool)
    ensures ListOf(lists, a, strict).items == ItemsOf(lists, a)
  {
  }

  ghost predicate ListOk(l: ListV, strict: bool, a: Address) {
    && l.strict == strict && l.WellFormed()
    && forall n :: n in l.items ==> l.items[n].from == a
  }

  /**
   * One account is in order: both lists are well formed, they share no nonce, and together
   * they hold exactly the account's live transactions.
   */
  ghost predicate AccountOk(a: Address, p: ListV, q: ListV, live: set<Tx>) {
    && ListOk(p, true, a) && ListOk(q, false, a)
    && (forall n :: n in p.items ==> n !in q.items)
    && (forall tx: Tx :: tx.from == a ==> (tx in live <==> Stores(p.items, tx) || Stores(q.items, tx)))
  }

  ghost predicate PoolOk(pending: ListMap, queue: ListMap, live: set<Tx>) {
    forall a {:trigger AccountOk(a, ListOf(pending, a, true), ListOf(queue, a, false), live)} ::
      AccountOk(a, ListOf(pending, a, true), ListOf(queue, a, false), live)
  }

  ghost predicate NoneEmpty(lists: ListMap) {
    forall a :: a in lists ==> lists[a].items != map[]
  }

  /** Apart from the lists of `a`, nothing changed. */
  ghost predicate OnlyAt(before: ListMap, after: ListMap, a: Address) {
    forall b :: b != a ==> (b in before <==> b in after) && (b in before ==> before[b] == after[b])
  }

  /** Changing one account's lists and live transactions keeps the pool in order if it keeps that account in order. */
  lemma Local(a: Address, pending: ListMap, queue: ListMap, live: set<Tx>, pending': ListMap, queue': ListMap,
              live': set<Tx>)
    requires PoolOk(pending, queue, live)
    requires OnlyAt(pending, pending', a) && OnlyAt(queue, queue', a)
    requires forall tx: Tx :: tx.from != a ==> (tx in live <==> tx in live')
    requires AccountOk(a, ListOf(pending', a, true), ListOf(queue', a, false), live')
    ensures PoolOk(pending', queue', live')
  {
    forall b ensures AccountOk(b, ListOf(pending', b, true), ListOf(queue', b, false), live') {
      if b != a {
        assert AccountOk(b, ListOf(pending, b, true), ListOf(queue, b, false), live);
      }
    }
  }

  /** Writes a list back, or drops the entry when the list is empty. */
  function Stored(lists: ListMap, a: Address, l: ListV): ListMap {
    if l.items == map[] then lists - {a} else lists[a := l]
  }

  lemma Member(a: Address, pending: ListMap, queue: ListMap, live: set<Tx>, tx: Tx)
    requires PoolOk(pending, queue, live) && tx.from == a
    ensures tx in live <==> Stores(ItemsOf(pending, a), tx) || Stores(ItemsOf(queue, a), tx)
    ensures AccountOk(a, ListOf(pending, a, true), ListOf(queue, a, false), live)
  {
    assert AccountOk(a, ListOf(pending, a, true), ListOf(queue, a, false), live);
  }

  /** The transactions a list gives up when `tx` is added to it. */
  function Ousted(l: ListV, tx: Tx): set<Tx> {
    if tx.nonce in l.items then {l.items[tx.nonce]} else {}
  }

  lemma AddedOk(l: ListV, strict: bool, a: Address, tx: Tx)
    requires ListOk(l, strict, a) && tx.from == a
    ensures ListOk(Added(l, tx), strict, a)
    ensures forall x: Tx :: Stores(Added(l, tx).items, x) <==> x == tx || (Stores(l.items, x) && x.nonce != tx.nonce)
  {
  }

  lemma EnqueueKeeps(pending: ListMap, queue: ListMap, live: set<Tx>, tx: Tx)
    requires PoolOk(pending, queue, live) && tx !in live && tx.nonce !in ItemsOf(pending, tx.from)
    ensures var q := ListOf(queue, tx.from, false);
            && Ousted(q, tx) <= live
            && PoolOk(pending, queue[tx.from := Added(q, tx)], live - Ousted(q, tx) + {tx})
            && (NoneEmpty(queue) ==> NoneEmpty(queue[tx.from := Added(q, tx)]))
  {
    var a := tx.from;
    var p, q := ListOf(pending, a, true), ListOf(queue, a, false);
    assert AccountOk(a, p, q, live);
    AddedOk(q, false, a, tx);
    var live' := live - Ousted(q, tx) + {tx};
    assert AccountOk(a, p, Added(q, tx), live');
    Local(a, pending, queue, live, pending, queue[a := Added(q, tx)], live');
  }

  /** Every transaction of `items` is from `a`. */
  ghost predicate From(items: Items, a: Address) {
    Keyed(items) && forall n :: n in items ==> items[n].from == a
  }

  lemma ValuesLess(items: Items, n: nat)
    requires Keyed(items) && n in items
    ensures Values(Without(items, n)) == Values(items) - {items[n]}
    ensures |Without(items, n)| == |items| - 1 && items[n] in Values(items)
  {
    ValuesAre(items);
    ValuesAre(Without(items, n));
    assert Without(items, n).Keys == items.Keys - {n};
  }

  /** Removing a pending transaction and moving those above it to the queue keeps the account in order. */
  lemma UnpendKeeps(a: Address, p: ListV, q: ListV, q': ListV, live: set<Tx>, tx: Tx)
    requires AccountOk(a, p, q, live) && tx.from == a && Stores(p.items, tx)
    requires ListOk(q', false, a) && Gained(q'.items, q.items, AtLeast(p.items, tx.nonce + 1), {})
    ensures AccountOk(a, p.(items := Below(p.items, tx.nonce)), q', live - {tx})
  {
  }

  lemma UnqueueKeeps(a: Address, p: ListV, q: ListV, live: set<Tx>, tx: Tx)
    requires AccountOk(a, p, q, live) && tx.from == a && Stores(q.items, tx)
    ensures AccountOk(a, p, q.(items := Without(q.items, tx.nonce)), live - {tx})
  {
  }

  lemma StoredList(lists: ListMap, a: Address, l: ListV, strict: bool)
    requires ListOk(l, strict, a) && NoneEmpty(lists)
    ensures OnlyAt(lists, Stored(lists, a, l), a) && NoneEmpty(Stored(lists, a, l))
    ensures ItemsOf(Stored(lists, a, l), a) == l.items
    ensures ListOf(Stored(lists, a, l), a, strict) == if l.items == map[] then EmptyList(strict) else l
  {
  }

  /** `after` holds what `before` held and, besides, the entries of `extra` outside `left`. */
  ghost predicate Gained(after: Items, before: Items, extra: Items, left: set<nat>) {
    && (forall n :: n in after <==> n in before || (n in extra && n !in left))
    && (forall n :: n in before ==> n in after && after[n] == before[n])
    && (forall n :: n in extra && n !in left ==> n in after && after[n] == extra[n])
  }

  lemma GainedOne(after: Items, before: Items, extra: Items, left: set<nat>, n: nat)
    requires Gained(after, before, extra, left) && n in left && n in extra && n !in before
    ensures n !in after && Gained(after[n := extra[n]], before, extra, left - {n})
  {
  }

  /** The list of `a` gained the entries of `extra` outside `left`; nothing else changed. */
  ghost predicate Grown(lists: ListMap, lists': ListMap, a: Address, strict: bool, extra: Items, left: set<nat>) {
    && OnlyAt(lists, lists', a) && ListOk(ListOf(lists', a, strict), strict, a)
    && Gained(ItemsOf(lists', a), ItemsOf(lists, a), extra, left)
    && (NoneEmpty(lists) ==> NoneEmpty(lists'))
  }

  lemma GrownStep(lists: ListMap, lists': ListMap, a: Address, strict: bool, extra: Items, left: set<nat>, n: nat)
    requires Grown(lists, lists', a, strict, extra, left) && From(extra, a)
    requires n in left && n in extra && n !in ItemsOf(lists, a)
    ensures n !in ItemsOf(lists', a)
    ensures Grown(lists, lists'[a := Added(ListOf(lists', a, strict), extra[n])], a, strict, extra, left - {n})
  {
    AddedOk(ListOf(lists', a, strict), strict, a, extra[n]);
    GainedOne(ItemsOf(lists', a), ItemsOf(lists, a), extra, left, n);
  }

  /** The pending nonces of `a` are exactly those from its state nonce up to its virtual nonce. */
  ghost predicate GaplessAt(pending: ListMap, state: State, nonces: map<Address, nat>, a: Address) {
    Spans(ItemsOf(pending, a), NonceOf(state, a), Virtual(nonces, state, a))
  }

  ghost predicate Gapless(pending: ListMap, state: State, nonces: map<Address, nat>) {
    forall a {:trigger GaplessAt(pending, state, nonces, a)} :: GaplessAt(pending, state, nonces, a)
  }

  /** Account `a` is the only one whose pending list or virtual nonce changed. */
  ghost predicate OnlyNonceAt(pending: ListMap, nonces: map<Address, nat>, pending': ListMap,
                              nonces': map<Address, nat>, a: Address) {
    OnlyAt(pending, pending', a) && forall b :: b != a ==>
      (b in nonces <==> b in nonces') && (b in nonces ==> nonces[b] == nonces'[b])
  }

  lemma GaplessLocal(a: Address, state: State, pending: ListMap, nonces: map<Address, nat>, pending': ListMap,
                     nonces': map<Address, nat>)
    requires Gapless(pending, state, nonces) && OnlyNonceAt(pending, nonces, pending', nonces', a)
    requires GaplessAt(pending', state, nonces', a)
    ensures Gapless(pending', state, nonces')
  {
    forall b ensures GaplessAt(pending', state, nonces', b) {
      if b != a { assert GaplessAt(pending, state, nonces, b); }
    }
  }

  /** Cutting a gap-free list at a nonce and lowering the virtual nonce to it keeps it gap-free. */
  lemma CutKeepsGapless(pending: ListMap, pending': ListMap, state: State, nonces: map<Address, nat>, a: Address,
                        n: nat)
    requires Gapless(pending, state, nonces) && n in ItemsOf(pending, a)
    requires OnlyAt(pending, pending', a) && ItemsOf(pending', a) == Below(ItemsOf(pending, a), n)
    ensures Gapless(pending', state, Lowered(nonces, state, a, n))
  {
    assert GaplessAt(pending, state, nonces, a);
    GaplessLocal(a, state, pending, nonces, pending', Lowered(nonces, state, a, n));
  }

  /** Replacing a pending transaction keeps the pool in order, and the pending nonces as they are. */
  lemma ReplaceKeeps(pending: ListMap, queue: ListMap, live: set<Tx>, tx: Tx)
    requires PoolOk(pending, queue, live) && tx !in live && tx.nonce in ItemsOf(pending, tx.from)
    ensures var p := ListOf(pending, tx.from, true);
            && Ousted(p, tx) <= live && Ousted(p, tx) != {}
            && PoolOk(pending[tx.from := Added(p, tx)], queue, live - Ousted(p, tx) + {tx})
            && (NoneEmpty(pending) ==> NoneEmpty(pending[tx.from := Added(p, tx)]))
  {
    var a := tx.from;
    var p, q := ListOf(pending, a, true), ListOf(queue, a, false);
    assert AccountOk(a, p, q, live);
    AddedOk(p, true, a, tx);
    var live' := live - Ousted(p, tx) + {tx};
    assert AccountOk(a, Added(p, tx), q, live');
    Local(a, pending, queue, live, pending[a := Added(p, tx)], queue, live');
  }

  lemma SameNoncesGapless(pending: ListMap, pending': ListMap, state: State, nonces: map<Address, nat>, a: Address)
    requires Gapless(pending, state, nonces) && OnlyAt(pending, pending', a)
    requires forall n :: n in ItemsOf(pending, a) <==> n in ItemsOf(pending', a)
    ensures Gapless(pending', state, nonces)
  {
    assert GaplessAt(pending, state, nonces, a);
    GaplessLocal(a, state, pending, nonces, pending', nonces);
  }

  /** `whole` splits into `part` and `rest`. */
  ghost predicate Splits(whole: Items, part: Items, rest: Items) {
    && (forall n :: n in whole <==> n in part || n in rest)
    && (forall n :: n in part ==> n !in rest && whole[n] == part[n])
    && (forall n :: n in rest ==> n in whole && whole[n] == rest[n])
  }

  lemma CutSplits(items: Items, t: nat)
    ensures Splits(items, Below(items, t), AtLeast(items, t))
    ensures Splits(items, AtLeast(items, t), Below(items, t))
  {
  }

  lemma MinusSplits(items: Items, rest: Items)
    requires Within(rest, items)
    ensures Splits(items, Minus(items, rest), rest)
  {
  }

  /** Part of an account's queue leaves the pool. */
  lemma DropQueued(a: Address, p: ListV, q: ListV, q': ListV, gone: Items, live: set<Tx>)
    requires AccountOk(a, p, q, live) && Splits(q.items, gone, q'.items) && q'.WellFormed() && !q'.strict
    ensures From(gone, a) && Values(gone) <= live && AccountOk(a, p, q', live - Values(gone))
  {
    assert From(gone, a);
    ValuesAre(gone);
  }

  /** Part of an account's pending list leaves the pool. */
  lemma DropPending(a: Address, p: ListV, p': ListV, q: ListV, gone: Items, live: set<Tx>)
    requires AccountOk(a, p, q, live) && Splits(p.items, gone, p'.items) && p'.WellFormed() && p'.strict
    ensures From(gone, a) && Values(gone) <= live && AccountOk(a, p', q, live - Values(gone))
  {
    assert From(gone, a);
    ValuesAre(gone);
  }

  /** Part of an account's queue moves to its pending list. */
  lemma MoveUp(a: Address, p: ListV, p': ListV, q: ListV, q': ListV, moved: Items, live: set<Tx>)
    requires AccountOk(a, p, q, live) && Splits(q.items, moved, q'.items) && q'.WellFormed() && !q'.strict
    requires ListOk(p', true, a) && Gained(p'.items, p.items, moved, {})
    ensures AccountOk(a, p', q', live)
  {
    assert forall tx :: Stores(p'.items, tx) <==> Stores(p.items, tx) || Stores(moved, tx);
  }

  /** Part of an account's pending list moves to its queue. */
  lemma MoveDown(a: Address, p: ListV, p': ListV, q: ListV, q': ListV, moved: Items, live: set<Tx>)
    requires AccountOk(a, p, q, live) && Splits(p.items, moved, p'.items) && p'.WellFormed() && p'.strict
    requires ListOk(q', false, a) && Gained(q'.items, q.items, moved, {})
    ensures AccountOk(a, p', q', live)
  {
    assert forall tx :: Stores(q'.items, tx) <==> Stores(q.items, tx) || Stores(moved, tx);
  }

  /** What is about to move between lists is known, the account's own, and free to land. */
  lemma Movable(a: Address, p: ListV, q: ListV, moved: Items, live: set<Tx>)
    requires AccountOk(a, p, q, live)
    requires Within(moved, q.items) || Within(moved, p.items)
    ensures From(moved, a) && Values(moved) <= live
    ensures Within(moved, q.items) ==> forall n :: n in moved ==> n !in p.items
    ensures Within(moved, p.items) ==> forall n :: n in moved ==> n !in q.items
  {
    assert From(moved, a);
    ValuesAre(moved);
  }
}
