/** Looking up ancestors through the canonical index, and the header queries built on it. */
module Ancestors {
  import opened Basics
  import opened Blocks
  import opened HeaderChains
  import Reorgs

  ghost predicate IsCanonical(db: Db, b: Block) {
    ReadCanonical(db.canon, b.number) == HashOf(b)
  }

  /** The number of parent steps from `b` to the first block on the index. */
  ghost function Distance(db: Db, b: Block): nat {
    if IsCanonical(db, b) || b.parent.Zero? then 0 else 1 + Distance(db, b.parent.block)
  }

  /**
   * What is answered for the `n`-th ancestor of the stored block `b`, whatever the index holds: its
   * own ancestor as far as the walk goes by itself, and beyond that the entry of the index.
   */
  ghost function Answer(db: Db, b: Block, n: nat): Hash
    requires n <= b.number
  {
    if n == 1 || n <= Distance(db, b) then Ancestor(b, b.number - n) else ReadCanonical(db.canon, b.number - n)
  }

  datatype Found = Found(hash: Hash, number: nat, budget: nat)

  /** The answer with its price: one unit of budget for each step of the walk, nothing for the parent. */
  ghost function Expected(db: Db, b: Block, n: nat, budget: nat): Found {
    if b.number < n then Found(Zero, 0, budget)
    else if n == 1 then Found(Answer(db, b, n), b.number - n, budget)
    else
      var steps := Min(n, Distance(db, b));
      if steps <= budget then Found(Answer(db, b, n), b.number - n, budget - steps) else Found(Zero, 0, 0)
  }

  lemma {:induction false} AncestorStored(db: Db, g: Block, b: Block, n: nat)
    requires db.Stored(g) && b in db.headers && n <= b.number
    ensures db.Header(Ancestor(b, n)).Some? && Ancestor(b, n).block.number == n
  {
    assert Linked(b, g, db.headers);
    if n < b.number {
      AncestorStored(db, g, b.parent.block, n);
    }
  }

  /** The walk meets the index at an ancestor, unless it goes all the way to genesis. */
  lemma {:induction false} Meets(db: Db, g: Block, b: Block)
    requires db.Stored(g) && b in db.headers
    ensures var d := Distance(db, b);
            && d <= b.number && db.Header(Ancestor(b, b.number - d)).Some?
            && (IsCanonical(db, Ancestor(b, b.number - d).block) || d == b.number)
    decreases b.number
  {
    assert Linked(b, g, db.headers);
    if !IsCanonical(db, b) && b.parent.HashOf? {
      Meets(db, g, b.parent.block);
      AncestorStored(db, g, b, b.number - Distance(db, b));
    }
  }

  /** The walk from `b` meets the index no higher than `head`. */
  ghost predicate MeetsBelow(db: Db, b: Block, head: Block) {
    b.number <= head.number + Distance(db, b)
  }

  /** If the index holds the chain of `head` and the walk meets it no higher than that, the answer is the ancestor. */
  lemma AnswerRight(db: Db, g: Block, head: Block, b: Block, n: nat)
    requires db.Stored(g) && b in db.headers && head in db.headers && IndexedUpTo(db.canon, head) && n <= b.number
    requires MeetsBelow(db, b, head)
    ensures Answer(db, b, n) == Ancestor(b, b.number - n)
  {
    if n != 1 && Distance(db, b) < n {
      Meets(db, g, b);
      AncestorStored(db, g, b, b.number - Distance(db, b));
      HeldAbove(db, db.canon, g, head, b, Ancestor(b, b.number - Distance(db, b)).block, b.number - n);
    }
  }

  /** With an index that ends at its head, every walk does. */
  lemma ExactMeetsBelow(db: Db, g: Block, head: Block, b: Block)
    requires db.Stored(g) && b in db.headers && Indexes(db.canon, head)
    ensures MeetsBelow(db, b, head)
  {
    Meets(db, g, b);
    AncestorStored(db, g, b, b.number - Distance(db, b));
  }

  /** An index that holds a block no higher than its head holds the block's ancestors. */
  lemma HeldAbove(db: Db, canon: map<nat, Hash>, g: Block, head: Block, b: Block, b': Block, n: nat)
    requires db.Stored(g) && head in db.headers && IndexedUpTo(canon, head) && b in db.headers && b' in db.headers
    requires n <= b'.number <= b.number && b'.number <= head.number
    requires Ancestor(b, b'.number) == HashOf(b') == ReadCanonical(canon, b'.number)
    ensures ReadCanonical(canon, n) == Ancestor(b, n)
  {
    assert Linked(b, g, db.headers) && Linked(b', g, db.headers) && Linked(head, g, db.headers);
    AncestorTwice(b, g, n, b'.number);
    AgreeBelow(b', head, g, n, b'.number);
  }

  /** Where the walk stands: at an ancestor of `b`, with no block on the index passed on the way. */
  ghost predicate Walking(db: Db, b: Block, b': Block, left: nat, n: nat, budget': nat, budget: nat) {
    Descending(db, b, b', left, n, budget', budget) && Distance(db, b) == n - left + Distance(db, b')
  }

  /** Where the walk stands, however the index changes: at an ancestor of `b`. */
  ghost predicate Descending(db: Db, b: Block, b': Block, left: nat, n: nat, budget': nat, budget: nat) {
    && b' in db.headers && left <= n <= b.number && b'.number == b.number - (n - left)
    && Ancestor(b, b'.number) == HashOf(b') && budget' + (n - left) == budget
  }

  lemma DescendOn(db: Db, g: Block, b: Block, b': Block, left: nat, n: nat, budget': nat, budget: nat)
    requires db.Stored(g) && b in db.headers && Descending(db, b, b', left, n, budget', budget)
    requires 0 < left && 0 < budget'
    ensures b'.parent.HashOf? && Descending(db, b, b'.parent.block, left - 1, n, budget' - 1, budget)
    ensures !IsCanonical(db, b') && Walking(db, b, b', left, n, budget', budget) ==>
              Walking(db, b, b'.parent.block, left - 1, n, budget' - 1, budget)
  {
    assert Linked(b, g, db.headers) && Linked(b', g, db.headers);
    AncestorTwice(b, g, b'.number - 1, b'.number);
  }

  lemma WalkDone(db: Db, g: Block, b: Block, b': Block, left: nat, n: nat, budget': nat, budget: nat)
    requires db.Stored(g) && b in db.headers && Walking(db, b, b', left, n, budget', budget) && n != 1
    ensures left == 0 ==> Expected(db, b, n, budget) == Found(HashOf(b'), b'.number, budget')
    ensures 0 < left && IsCanonical(db, b') ==>
              Expected(db, b, n, budget) == Found(ReadCanonical(db.canon, b.number - n), b.number - n, budget')
    ensures 0 < left && !IsCanonical(db, b') && budget' == 0 ==> Expected(db, b, n, budget) == Found(Zero, 0, 0)
  {
    assert Linked(b', g, db.headers);
  }

  /** The index does not change; `views(t)` is the index as read number `t` finds it. */
  ghost predicate Fixed(db: Db, views: nat -> map<nat, Hash>) {
    forall t: nat {:trigger views(t)} :: views(t) == db.canon
  }

  /** The block at which a lookup found the index, at read number `t` and again two reads later. */
  datatype Meeting = Meeting(t: nat, block: Block)

  ghost predicate MetAt(views: nat -> map<nat, Hash>, met: Meeting) {
    ReadCanonical(views(met.t), met.block.number) == HashOf(met.block) ==
    ReadCanonical(views(met.t + 2), met.block.number)
  }

  /**
   * What a lookup promises, however the index changes: without meeting the index the answer is the
   * ancestor, or there is none within reach; otherwise it is the entry that the index had in between.
   */
  ghost predicate Answers(db: Db, views: nat -> map<nat, Hash>, b: Block, n: nat, budget: nat, f: Found,
                          met: Option<Meeting>) {
    match met
    case None =>
      if f.hash == Zero then b.number < n || (f.budget == 0 && budget < n)
      else n <= b.number && f.number == b.number - n && f.hash == Ancestor(b, f.number)
    case Some(m) =>
      && n <= b.number && b.number - n < m.block.number <= b.number && m.block in db.headers
      && Ancestor(b, m.block.number) == HashOf(m.block) && MetAt(views, m)
      && f.number == b.number - n && f.hash == ReadCanonical(views(m.t + 1), f.number)
  }

  /**
   * The entry in between is the ancestor as well, if the index then held the chain of some head
   * and, no higher than that, the block itself.
   */
  lemma MeetingRight(db: Db, views: nat -> map<nat, Hash>, g: Block, head: Block, b: Block, n: nat, budget: nat,
                     f: Found, met: Meeting)
    requires db.Stored(g) && b in db.headers && head in db.headers && Answers(db, views, b, n, budget, f, Some(met))
    requires IndexedUpTo(views(met.t + 1), head) && met.block.number <= head.number
    requires ReadCanonical(views(met.t + 1), met.block.number) == HashOf(met.block)
    ensures f.hash == Ancestor(b, b.number - n)
  {
    HeldAbove(db, views(met.t + 1), g, head, b, met.block, b.number - n);
  }

  ghost predicate Standing(db: Db, views: nat -> map<nat, Hash>, b: Block, b': Block, left: nat, n: nat, budget': nat,
                           budget: nat) {
    && Descending(db, b, b', left, n, budget', budget)
    && (Fixed(db, views) ==> Walking(db, b, b', left, n, budget', budget))
  }

  /** Reads the ancestor from the index if the block is on it, and checks that it still is. */
  method CheckedRead(views: nat -> map<nat, Hash>, t: nat, hash: Hash, number: nat, ancestor: nat)
    returns (found: Option<Hash>, t': nat)
    requires ancestor <= number
    ensures found.Some? <==> ReadCanonical(views(t), number) == hash == ReadCanonical(views(t + 2), number)
    ensures found.Some? ==> found.value == ReadCanonical(views(t + 1), number - ancestor)
    ensures t < t'
  {
    found, t' := None, t + 1;
    if ReadCanonical(views(t), number) == hash {
      var ancestorHash := ReadCanonical(views(t + 1), number - ancestor);
      t' := t + 3;
      if ReadCanonical(views(t + 2), number) == hash {
        found := Some(ancestorHash);
      }
    }
  }

  /** The block was on the index at the first and at the third read. */
  ghost predicate SeenTwice(views: nat -> map<nat, Hash>, hash: Hash, number: nat) {
    ReadCanonical(views(0), number) == hash == ReadCanonical(views(2), number)
  }

  lemma AnswerParent(db: Db, views: nat -> map<nat, Hash>, g: Block, b: Block, budget: nat)
    requires db.Stored(g) && b in db.headers && 1 <= b.number
    ensures Answers(db, views, b, 1, budget, Found(b.parent, b.number - 1, budget), None)
    ensures Expected(db, b, 1, budget) == Found(b.parent, b.number - 1, budget)
  {
    assert Linked(b, g, db.headers) && b != g;
    assert Ancestor(b.parent.block, b.number - 1) == b.parent;
  }

  /**
   * The lookup. With an index that stays as it is, it answers what `Expected` says, whatever the
   * index holds. With one that changes it keeps what `Answers` says. An unknown block has no
   * ancestors but itself, if only stored blocks are on the index.
   */
  method GetAncestor(db: Db, views: nat -> map<nat, Hash>, hash0: Hash, number0: nat, ancestor0: nat, budget0: nat,
                     ghost g: Block)
    returns (hash: Hash, number: nat, budget: nat, ghost met: Option<Meeting>)
    requires db.Stored(g) && (db.Header(hash0).Some? ==> hash0.block.number == number0)
    ensures db.Header(hash0).Some? && Fixed(db, views) ==>
              Found(hash, number, budget) == Expected(db, hash0.block, ancestor0, budget0)
    ensures db.Header(hash0).Some? ==>
              Answers(db, views, hash0.block, ancestor0, budget0, Found(hash, number, budget), met)
    ensures db.Header(hash0).None? && hash0 != Zero && Names(views(0), db.headers) ==>
              hash == if ancestor0 == 0 then hash0 else Zero
    ensures 1 < ancestor0 <= number0 && SeenTwice(views, hash0, number0) ==>
              hash == ReadCanonical(views(1), number0 - ancestor0)
  {
    hash, number, budget, met := hash0, number0, budget0, None;
    var ancestor: nat, t: nat := ancestor0, 0;
    if number < ancestor {
      return Zero, 0, budget, None;
    }
    if ancestor == 1 {
      var header := db.Header(hash);
      if header.None? {
        return Zero, 0, budget, None;
      }
      AnswerParent(db, views, g, header.value, budget);
      return header.value.parent, number - 1, budget, None;
    }
    ghost var b := db.Header(hash0);
    while ancestor != 0
      invariant b.Some? ==> db.Header(hash).Some? && number == hash.block.number &&
                            Standing(db, views, b.value, hash.block, ancestor, ancestor0, budget, budget0)
      invariant ancestor <= number && (t == 0 ==> hash == hash0 && number == number0 && ancestor == ancestor0)
      invariant 0 < t ==> b.Some? && !SeenTwice(views, hash0, number0)
      decreases ancestor
    {
      if b.Some? && Fixed(db, views) {
        assert views(t) == db.canon && views(t + 1) == db.canon && views(t + 2) == db.canon;
        WalkDone(db, g, b.value, hash.block, ancestor, ancestor0, budget, budget0);
      }
      var found, t' := CheckedRead(views, t, hash, number, ancestor);
      if found.Some? {
        return found.value, number - ancestor, budget, if b.Some? then Some(Meeting(t, hash.block)) else None;
      }
      t := t';
      if budget == 0 {
        return Zero, 0, budget, None;
      }
      if b.Some? {
        DescendOn(db, g, b.value, hash.block, ancestor, ancestor0, budget, budget0);
      }
      budget, ancestor := budget - 1, ancestor - 1;
      var header := db.Header(hash);
      if header.None? {
        return Zero, 0, budget, None;
      }
      hash, number := header.value.parent, number - 1;
    }
    if b.Some? && Fixed(db, views) {
      WalkDone(db, g, b.value, hash.block, 0, ancestor0, budget, budget0);
    }
  }

  /**
   * The index follows a head on another branch for the second read and a descendant of the first
   * head for the third: the check does not notice, and the answer is on the wrong branch.
   */
  method FlippedBack(db: Db, a: Block, b: Block, c: Block, n: nat, forA: map<nat, Hash>, forB: map<nat, Hash>,
                     forC: map<nat, Hash>, ghost g: Block)
    returns (hash: Hash)
    requires db.Stored(g) && a in db.headers && Indexes(forA, a) && Indexes(forB, b) && Indexes(forC, c)
    requires a.number <= c.number && Ancestor(c, a.number) == HashOf(a)
    requires 1 < n <= a.number <= b.number + n && Ancestor(a, a.number - n) != Ancestor(b, a.number - n)
    ensures hash == Ancestor(b, a.number - n) != Ancestor(a, a.number - n)
  {
    var number, budget;
    ghost var met;
    var views: nat -> map<nat, Hash> := t => if t == 0 then forA else if t == 1 then forB else forC;
    hash, number, budget, met := GetAncestor(db, views, HashOf(a), a.number, n, 100, g);
  }

  /** A request for headers: from a hash, or from a number if the hash is zero. All numbers are 64 bit. */
  datatype Query = Query(hash: Hash, number: nat, amount: nat, skip: nat, reverse: bool) {
    predicate Wide() {
      && number < 0x1_0000_0000_0000_0000 && amount < 0x1_0000_0000_0000_0000
      && skip < 0x1_0000_0000_0000_0000
    }

    /** The reply's length limit: the amount read as a signed integer, and at most 192. */
    function Limit(): nat {
      if 0x8000_0000_0000_0000 <= amount then 0 else if 192 < amount then 192 else amount
    }
  }

  /** Block numbers are 64 bit. */
  ghost predicate Narrow(db: Db) {
    forall b :: b in db.headers ==> b.number < 0x1_0000_0000_0000_0000
  }

  /** A database that can be asked for headers; its index may hold any stored headers. */
  ghost predicate Askable(db: Db, g: Block) {
    db.Stored(g) && Names(db.canon, db.headers) && Narrow(db)
  }

  /** `b` is the ancestor of `a` that lies `skip + 1` blocks below it. */
  ghost predicate Below(a: Block, b: Block, skip: nat) {
    a.number == b.number + skip + 1 && Ancestor(a, b.number) == HashOf(b)
  }

  /** What a step towards genesis costs. */
  ghost function Cost(db: Db, q: Query, b: Block): nat {
    if q.skip == 0 then 0 else Min(q.skip + 1, Distance(db, b))
  }

  /** The hash that follows `b` in a reply by hash, zero if there is none. */
  ghost function Following(db: Db, q: Query, b: Block): Hash {
    if q.reverse then
      if q.skip + 1 <= b.number then Answer(db, b, q.skip + 1) else Zero
    else
      var h := ReadCanonical(db.canon, b.number + q.skip + 1);
      if h.HashOf? && (if q.skip == 0 then h.block.parent == HashOf(b) else IsCanonical(db, b)) then h else Zero
  }

  /** Where a query goes from the header `b`, if anywhere. */
  datatype Next = Stop | At(hash: Hash, number: nat)

  /** One step of a query by hash towards genesis. */
  method StepBack(db: Db, q: Query, b: Block, budget0: nat, ghost g: Block) returns (next: Next, budget: nat)
    requires Askable(db, g) && q.Wide() && q.reverse && b in db.headers
    ensures next.At? <==> Following(db, q, b) != Zero && Cost(db, q, b) <= budget0
    ensures next.At? ==> next.hash == Following(db, q, b) && budget == budget0 - Cost(db, q, b)
    ensures next.At? ==> db.Header(next.hash).Some? && next.number == next.hash.block.number
    ensures next.At? ==> b.number == next.number + q.skip + 1
  {
    var ancestor := Wrap(q.skip + 1);
    next, budget := Stop, budget0;
    if ancestor != 0 {
      var hash, number;
      ghost var met;
      hash, number, budget, met := GetAncestor(db, _ => db.canon, HashOf(b), b.number, ancestor, budget0, g);
      if ancestor <= b.number {
        AncestorStored(db, g, b, b.number - ancestor);
      }
      if hash != Zero {
        next := At(hash, number);
      }
    }
  }

  /** One step of a query by hash away from genesis. */
  method StepForth(db: Db, q: Query, b: Block, budget0: nat, ghost g: Block) returns (next: Next, budget: nat)
    requires Askable(db, g) && q.Wide() && !q.reverse && b in db.headers
    ensures budget == budget0
    ensures next.At? <==> Following(db, q, b) != Zero
    ensures next.At? ==> next.hash == Following(db, q, b)
    ensures next.At? ==> db.Header(next.hash).Some? && next.number == next.hash.block.number
    ensures next.At? ==> next.number == b.number + q.skip + 1
  {
    var current := b.number;
    var number := Wrap(current + q.skip + 1);
    next, budget := Stop, budget0;
    if current < number {
      var header := db.Header(ReadCanonical(db.canon, number));
      if header.Some? {
        var ancestor := Wrap(q.skip + 1);
        var expected, n;
        ghost var met;
        assert IsCanonical(db, header.value) && Distance(db, header.value) == 0;
        assert Linked(header.value, g, db.headers);
        expected, n, budget, met :=
          GetAncestor(db, _ => db.canon, HashOf(header.value), number, ancestor, budget0, g);
        if ancestor == 1 {
          assert Ancestor(header.value.parent.block, current) == header.value.parent;
        }
        if expected == HashOf(b) {
          next := At(HashOf(header.value), number);
        }
      }
    }
  }

  /** One step of a query by number; the arithmetic wraps around. */
  function StepNumber(q: Query, number: nat): (next: Next)
    ensures !q.reverse ==>
              next.At? && (next.number == number + q.skip + 1 <==> number + q.skip + 1 < 0x1_0000_0000_0000_0000)
    ensures q.Wide() && q.reverse && q.skip + 1 < 0x1_0000_0000_0000_0000 ==>
              next == if q.skip + 1 <= number then At(Zero, number - (q.skip + 1)) else Stop
    ensures q.reverse && q.skip + 1 == 0x1_0000_0000_0000_0000 ==> next == At(Zero, number)
  {
    if q.reverse then
      if Wrap(q.skip + 1) <= number then At(Zero, number - Wrap(q.skip + 1)) else Stop
    else
      At(Zero, Wrap(number + q.skip + 1))
  }

  ghost predicate Adjacent(q: Query, a: Block, b: Block) {
    if q.reverse then Below(a, b, q.skip) else Below(b, a, q.skip)
  }

  /** Each header is exactly `skip + 1` blocks from the one before, on one chain. */
  ghost predicate Spaced(q: Query, headers: seq<Block>) {
    forall i :: 0 < i < |headers| ==> Adjacent(q, headers[i - 1], headers[i])
  }

  /** One step of any query. */
  method Advance(db: Db, q: Query, b: Block, budget0: nat, ghost g: Block) returns (next: Next, budget: nat)
    requires Askable(db, g) && q.Wide() && b in db.headers
    ensures q.hash != Zero ==> (next.At? <==> Following(db, q, b) != Zero && (q.reverse ==> Cost(db, q, b) <= budget0))
    ensures q.hash != Zero && next.At? ==>
              && next.hash == Following(db, q, b) && db.Header(next.hash).Some? && next.number == next.hash.block.number
              && (if q.reverse then b.number == next.number + q.skip + 1 else next.number == b.number + q.skip + 1)
              && budget == if q.reverse then budget0 - Cost(db, q, b) else budget0
    ensures q.hash == Zero ==> next == StepNumber(q, b.number)
  {
    budget := budget0;
    if q.hash != Zero && q.reverse {
      next, budget := StepBack(db, q, b, budget0, g);
    } else if q.hash != Zero {
      next, budget := StepForth(db, q, b, budget0, g);
    } else {
      next := StepNumber(q, b.number);
    }
  }

  /**
   * A step by hash keeps to one chain if and only if the entry it takes from the index, if it takes
   * one, is an ancestor of the block it starts from or, going the other way, a descendant.
   */
  lemma StepRight(db: Db, q: Query, g: Block, b: Block)
    requires Askable(db, g) && b in db.headers && Following(db, q, b) != Zero
    ensures Following(db, q, b).HashOf?
    ensures q.reverse ==>
              (Adjacent(q, b, Following(db, q, b).block) <==>
                || q.skip == 0 || q.skip + 1 <= Distance(db, b)
                || ReadCanonical(db.canon, b.number - (q.skip + 1)) == Ancestor(b, b.number - (q.skip + 1)))
    ensures !q.reverse ==>
              (Adjacent(q, b, Following(db, q, b).block) <==>
                q.skip == 0 || Ancestor(ReadCanonical(db.canon, b.number + q.skip + 1).block, b.number) == HashOf(b))
  {
    if q.reverse {
      AncestorStored(db, g, b, b.number - (q.skip + 1));
    } else {
      var h := ReadCanonical(db.canon, b.number + q.skip + 1).block;
      assert Ancestor(h, b.number + q.skip + 1) == HashOf(h);
      if q.skip == 0 {
        assert Ancestor(h, b.number) == Ancestor(h.parent.block, b.number);
      }
    }
  }

  /** It does if it stays no higher than a head whose chain the index holds. */
  lemma StepBelowHead(db: Db, q: Query, g: Block, head: Block, b: Block)
    requires Askable(db, g) && b in db.headers && Following(db, q, b) != Zero
    requires head in db.headers && IndexedUpTo(db.canon, head)
    requires if q.reverse then MeetsBelow(db, b, head) else b.number + q.skip + 1 <= head.number
    ensures Following(db, q, b).HashOf? && Adjacent(q, b, Following(db, q, b).block)
  {
    StepRight(db, q, g, b);
    if q.reverse {
      AnswerRight(db, g, head, b, q.skip + 1);
    } else if q.skip != 0 {
      var h := ReadCanonical(db.canon, b.number + q.skip + 1).block;
      HeldAbove(db, db.canon, g, head, h, h, b.number);
    }
  }

  /** Each step down brings a block one closer to the index, until it is on it. */
  lemma {:induction false} DistanceBelow(db: Db, g: Block, b: Block, n: nat)
    requires db.Stored(g) && b in db.headers && n <= Distance(db, b)
    ensures n <= b.number && Ancestor(b, b.number - n).HashOf?
    ensures Distance(db, Ancestor(b, b.number - n).block) == Distance(db, b) - n
    decreases n
  {
    Meets(db, g, b);
    assert Linked(b, g, db.headers);
    if n != 0 {
      DistanceBelow(db, g, b.parent.block, n - 1);
      AncestorStored(db, g, b.parent.block, b.number - n);
    }
  }

  /** Each step towards genesis brings a reply closer to the index by its length, until it is on it. */
  lemma FollowingDistance(db: Db, q: Query, g: Block, b: Block)
    requires Askable(db, g) && b in db.headers && q.reverse && 0 < q.skip && Following(db, q, b) != Zero
    ensures Following(db, q, b).HashOf?
    ensures Distance(db, Following(db, q, b).block) == Distance(db, b) - Cost(db, q, b)
  {
    if q.skip + 1 <= Distance(db, b) {
      DistanceBelow(db, g, b, q.skip + 1);
    } else {
      assert IsCanonical(db, Following(db, q, b).block);
    }
  }

  /** What the first `k` steps towards genesis from `first` cost altogether. */
  ghost function Paid(db: Db, q: Query, first: Block, k: nat): nat {
    if q.skip == 0 then 0 else Min(k * (q.skip + 1), Distance(db, first))
  }

  /** What is left of the way to the index after `k` steps. */
  ghost predicate Closer(db: Db, q: Query, first: Block, b: Block, k: nat) {
    0 < q.skip ==> Distance(db, b) == Distance(db, first) - Paid(db, q, first, k)
  }

  lemma PaidNext(db: Db, q: Query, g: Block, first: Block, b: Block, k: nat)
    requires Closer(db, q, first, b, k)
    ensures Paid(db, q, first, k + 1) == Paid(db, q, first, k) + Cost(db, q, b)
  {
    assert (k + 1) * (q.skip + 1) == k * (q.skip + 1) + q.skip + 1;
  }

  /** Each header is the one that follows the one before. */
  ghost predicate Chained(db: Db, q: Query, headers: seq<Block>) {
    forall i :: 0 < i < |headers| ==> Following(db, q, headers[i - 1]) == HashOf(headers[i])
  }

  /** Where a query by number looks for its header number `i`. */
  function Position(q: Query, i: nat): Next {
    if i == 0 then At(q.hash, q.number) else
      match Position(q, i - 1)
      case Stop => Stop
      case At(_, number) => StepNumber(q, number)
  }

  /** A reply by number: each header is the one on the index at its position. */
  ghost predicate AtPositions(db: Db, q: Query, headers: seq<Block>) {
    forall i: nat {:trigger Position(q, i)} :: i < |headers| ==>
      Position(q, i).At? && ReadCanonical(db.canon, Position(q, i).number) == HashOf(headers[i])
  }

  /** The reply so far: `next` is where the following header is to be looked up. */
  ghost predicate Replying(db: Db, q: Query, headers: seq<Block>, next: Next, budget: nat) {
    && (forall i :: 0 <= i < |headers| ==> headers[i] in db.headers)
    && (headers == [] ==> next == At(q.hash, q.number) && budget == 100)
    && (q.hash == Zero ==> next == Position(q, |headers|) && AtPositions(db, q, headers))
    && (q.hash != Zero ==> Chained(db, q, headers))
    && (q.hash != Zero && headers != [] ==>
         Follows(db, q, headers[0], headers[|headers| - 1], |headers| - 1, next, budget))
  }

  ghost predicate Follows(db: Db, q: Query, first: Block, last: Block, k: nat, next: Next, budget: nat) {
    && HashOf(first) == q.hash
    && (next.At? ==>
         next.hash == Following(db, q, last) && db.Header(next.hash).Some? && next.number == next.hash.block.number)
    && (q.reverse ==> Closer(db, q, first, last, k) && Paid(db, q, first, k) <= 100)
    && (next.At? ==> budget == if q.reverse then 100 - Paid(db, q, first, k + 1) else 100)
    && (q.reverse && next.At? ==> Paid(db, q, first, k + 1) <= 100)
    && (next.Stop? ==> Following(db, q, last) == Zero || (q.reverse && 100 < Paid(db, q, first, k + 1)))
  }

  /** The header at a position: by hash, or by number through the index. */
  function Origin(db: Db, q: Query, next: Next): Option<Block> {
    if next.Stop? then None
    else if q.hash != Zero then db.Header(next.hash)
    else db.Header(ReadCanonical(db.canon, next.number))
  }

  method ReplyNext(db: Db, q: Query, headers0: seq<Block>, next0: Next, budget0: nat, b: Block, ghost g: Block)
    returns (headers: seq<Block>, next: Next, budget: nat)
    requires Askable(db, g) && q.Wide() && Replying(db, q, headers0, next0, budget0)
    requires Origin(db, q, next0) == Some(b)
    ensures headers == headers0 + [b] && Replying(db, q, headers, next, budget)
  {
    headers := headers0 + [b];
    next, budget := Advance(db, q, b, budget0, g);
    if q.hash != Zero && q.reverse {
      ghost var first, k := headers[0], |headers| - 1;
      if headers0 != [] {
        PaidNext(db, q, g, first, headers0[k - 1], k - 1);
        if 0 < q.skip {
          FollowingDistance(db, q, g, headers0[k - 1]);
        }
      }
      assert Closer(db, q, first, b, k);
      PaidNext(db, q, g, first, b, k);
    }
    assert headers[|headers| - 1] == b;
  }

  /**
   * The loop that answers a request for headers, whatever is on the index. By hash, each header is
   * the one that follows the one before, and a reply that is shorter than the limit goes as far as
   * one follows or, towards genesis, as far as the budget of 100 blocks off the index. By number,
   * each header is the one on the index at its position.
   */
  method GetBlockHeaders(db: Db, q: Query, ghost g: Block) returns (headers: seq<Block>)
    requires Askable(db, g) && q.Wide()
    ensures |headers| <= q.Limit() && forall i :: 0 <= i < |headers| ==> headers[i] in db.headers
    ensures q.hash != Zero ==> (headers == [] <==> q.Limit() == 0 || db.Header(q.hash).None?)
    ensures q.hash != Zero && headers != [] ==> HashOf(headers[0]) == q.hash && Chained(db, q, headers)
    ensures q.hash != Zero && 0 < |headers| < q.Limit() ==>
              || Following(db, q, headers[|headers| - 1]) == Zero
              || (q.reverse && 100 < Paid(db, q, headers[0], |headers|))
    ensures q.hash != Zero && q.reverse && headers != [] ==> Paid(db, q, headers[0], |headers| - 1) <= 100
    ensures q.hash == Zero ==> AtPositions(db, q, headers)
    ensures q.hash == Zero && |headers| < q.Limit() && Position(q, |headers|).At? ==>
              ReadCanonical(db.canon, Position(q, |headers|).number) == Zero
  {
    headers := [];
    var next, budget, bytes := At(q.hash, q.number), 100, 0;
    while next.At? && |headers| < q.Limit() && bytes < 2 * 1024 * 1024
      invariant |headers| <= q.Limit() && bytes == 500 * |headers| && Replying(db, q, headers, next, budget)
      decreases q.Limit() - |headers|
    {
      var origin := Origin(db, q, next);
      if origin.None? {
        break;
      }
      headers, next, budget := ReplyNext(db, q, headers, next, budget, origin.value, g);
      bytes := bytes + 500;
    }
  }

  /** What keeps a reply on one chain, if the index holds the chain of `head`. */
  ghost predicate StaysBelow(db: Db, q: Query, headers: seq<Block>, head: Block) {
    if q.hash == Zero then
      forall i :: 0 <= i < |headers| ==>
        headers[i].number <= head.number && headers[i].number + q.skip + 1 < 0x1_0000_0000_0000_0000
    else if q.reverse then headers != [] ==> MeetsBelow(db, headers[0], head)
    else forall i :: 0 <= i < |headers| ==> headers[i].number <= head.number
  }

  /** Such a reply is evenly spaced. */
  lemma ReplySpaced(db: Db, q: Query, g: Block, head: Block, headers: seq<Block>)
    requires Askable(db, g) && q.Wide() && head in db.headers && IndexedUpTo(db.canon, head)
    requires forall i :: 0 <= i < |headers| ==> headers[i] in db.headers
    requires if q.hash == Zero then AtPositions(db, q, headers) else Chained(db, q, headers)
    requires StaysBelow(db, q, headers, head)
    ensures Spaced(q, headers)
  {
    forall i | 0 < i < |headers| ensures Adjacent(q, headers[i - 1], headers[i]) {
      if q.hash == Zero {
        NumberAdjacent(db, q, g, head, headers, i);
      } else {
        assert Following(db, q, headers[i - 1]) == HashOf(headers[i]);
        if q.reverse {
          StillMeetsBelow(db, q, g, head, headers, i - 1);
        }
        StepBelowHead(db, q, g, head, headers[i - 1]);
      }
    }
  }

  lemma {:induction false} StillMeetsBelow(db: Db, q: Query, g: Block, head: Block, headers: seq<Block>, i: nat)
    requires Askable(db, g) && q.reverse && Chained(db, q, headers) && i < |headers| && MeetsBelow(db, headers[0], head)
    requires forall i :: 0 <= i < |headers| ==> headers[i] in db.headers
    ensures MeetsBelow(db, headers[i], head)
  {
    if i != 0 {
      StillMeetsBelow(db, q, g, head, headers, i - 1);
      var b := headers[i - 1];
      assert Following(db, q, b) == HashOf(headers[i]);
      AncestorStored(db, g, b, b.number - (q.skip + 1));
      if q.skip == 0 {
        if Distance(db, b) != 0 {
          DistanceBelow(db, g, b, 1);
        }
      } else {
        FollowingDistance(db, q, g, b);
      }
    }
  }

  lemma NumberAdjacent(db: Db, q: Query, g: Block, head: Block, headers: seq<Block>, i: nat)
    requires Askable(db, g) && q.Wide() && head in db.headers && IndexedUpTo(db.canon, head)
    requires q.hash == Zero && AtPositions(db, q, headers) && StaysBelow(db, q, headers, head) && 0 < i < |headers|
    ensures Adjacent(q, headers[i - 1], headers[i])
  {
    assert Position(q, i) == StepNumber(q, Position(q, i - 1).number);
    var a, b := headers[i - 1], headers[i];
    if q.reverse {
      HeldAbove(db, db.canon, g, head, a, a, b.number);
    } else {
      HeldAbove(db, db.canon, g, head, b, b, a.number);
    }
  }

  /** With an index that ends at its head, a reply goes on exactly as long as there is something to give. */
  lemma ExactFollowing(db: Db, q: Query, g: Block, head: Block, b: Block)
    requires Askable(db, g) && b in db.headers && head in db.headers && Indexes(db.canon, head)
    ensures q.reverse ==> (Following(db, q, b) == Zero <==> b.number < q.skip + 1)
    ensures !q.reverse ==>
              (Following(db, q, b) == Zero <==> !IsCanonical(db, b) || head.number < b.number + q.skip + 1)
  {
    assert Linked(head, g, db.headers);
    if q.reverse {
      if q.skip + 1 <= b.number {
        ExactMeetsBelow(db, g, head, b);
        AnswerRight(db, g, head, b, q.skip + 1);
        AncestorStored(db, g, b, b.number - (q.skip + 1));
      }
    } else if b.number + q.skip + 1 <= head.number {
      AncestorStored(db, g, head, b.number + q.skip + 1);
      var h := ReadCanonical(db.canon, b.number + q.skip + 1).block;
      HeldAbove(db, db.canon, g, head, h, h, b.number);
      if q.skip == 0 {
        assert Linked(h, g, db.headers);
        assert Ancestor(h, b.number) == Ancestor(h.parent.block, b.number) == h.parent;
      }
    }
  }

  /** A query by number for two headers, as far apart as can be asked for: the same header comes twice. */
  method WrappedExample() returns (headers: seq<Block>)
    ensures |headers| == 2 && headers[0] == headers[1]
  {
    var g := Block(0, Zero, 1, [], 0);
    var db := Db({g}, map[HashOf(g) := 1], map[0 := HashOf(g)]);
    var q := Query(Zero, 0, 2, 0xFFFF_FFFF_FFFF_FFFF, false);
    assert Linked(g, g, db.headers);
    assert Position(q, 0) == Position(q, 1) == At(Zero, 0);
    headers := GetBlockHeaders(db, q, g);
    assert q.Limit() == 2;
  }

  /** The index that is left behind when the block `b` takes over from a chain of three. */
  ghost predicate LeftBehind(canon: map<nat, Hash>, g: Block, a1: Block, a2: Block, a3: Block, b: Block) {
    && Reorgs.ThreeAndOne(g, a1, a2, a3, b)
    && forall n: nat :: ReadCanonical(canon, n) == ReadCanonical(Reorgs.IndexOfFour(g, b, a2, a3), n)
  }

  /** It is also what the index holds while a longer branch on `b` is put on it, after its first block. */
  lemma HalfWritten(m: Reorgs.Markers, g: Block, a1: Block, a2: Block, a3: Block, b: Block)
    requires Reorgs.ThreeAndOne(g, a1, a2, a3, b) && m.canon == Reorgs.IndexOfFour(g, a1, a2, a3)
    ensures LeftBehind(Reorgs.WriteHeadBlock(m, b).canon, g, a1, a2, a3, b)
  {
  }

  function FiveStored(canon: map<nat, Hash>, g: Block, a1: Block, a2: Block, a3: Block, b: Block): Db {
    var td1, td2 := a1.difficulty + g.difficulty, a2.difficulty + a1.difficulty + g.difficulty;
    Db({g, a1, a2, a3, b},
       map[HashOf(g) := g.difficulty, HashOf(a1) := td1, HashOf(a2) := td2, HashOf(a3) := a3.difficulty + td2,
           HashOf(b) := b.difficulty + g.difficulty], canon)
  }

  lemma FiveAskable(canon: map<nat, Hash>, g: Block, a1: Block, a2: Block, a3: Block, b: Block)
    requires LeftBehind(canon, g, a1, a2, a3, b)
    ensures Askable(FiveStored(canon, g, a1, a2, a3, b), g) && Ancestor(a3, 1) == HashOf(a1)
  {
    var db := FiveStored(canon, g, a1, a2, a3, b);
    Reorgs.FourStored(g, a1, a2, a3, b);
    Reorgs.FourAncestors(g, a1, a2, a3, 1);
    assert TotalDifficulty(a1) == a1.difficulty + TotalDifficulty(g);
    assert TotalDifficulty(a2) == a2.difficulty + TotalDifficulty(a1);
    forall x | x in db.headers ensures Linked(x, g, db.headers) {}
  }

  /**
   * With such an index the second ancestor of the old head is answered by a block of the other
   * branch, and replies pass from one branch to the other, in either direction.
   */
  method CrossedOver(canon: map<nat, Hash>, g: Block, a1: Block, a2: Block, a3: Block, b: Block)
    returns (second: Hash, back: seq<Block>, forth: seq<Block>)
    requires LeftBehind(canon, g, a1, a2, a3, b)
    ensures second == HashOf(b) != Ancestor(a3, 1)
    ensures back == [a3, b] && forth == [b, a3]
  {
    var db := FiveStored(canon, g, a1, a2, a3, b);
    FiveAskable(canon, g, a1, a2, a3, b);
    assert IsCanonical(db, a3) && IsCanonical(db, b) && ReadCanonical(canon, 1) == HashOf(b);
    var number, budget;
    ghost var met;
    second, number, budget, met := GetAncestor(db, _ => db.canon, HashOf(a3), 3, 2, 100, g);
    var q := Query(HashOf(a3), 0, 2, 1, true);
    assert Following(db, q, a3) == HashOf(b);
    back := GetBlockHeaders(db, q, g);
    q := Query(HashOf(b), 0, 2, 1, false);
    assert Following(db, q, b) == HashOf(a3);
    forth := GetBlockHeaders(db, q, g);
  }

  /** The takeover that `Reorgs.LeftBehindExample` shows leaves such an index. */
  method CrossedOverExample() returns (second: Hash, back: seq<Block>, forth: seq<Block>)
    ensures second == HashOf(Reorgs.SHORT) != Ancestor(Reorgs.LONG3, 1)
    ensures back == [Reorgs.LONG3, Reorgs.SHORT] && forth == [Reorgs.SHORT, Reorgs.LONG3]
  {
    var m := Reorgs.LeftBehindExample();
    assert ReadCanonical(m.canon, 1) == Ancestor(Reorgs.SHORT, 1) == HashOf(Reorgs.SHORT);
    assert ReadCanonical(m.canon, 0) == Ancestor(Reorgs.SHORT, 0) == Ancestor(Reorgs.GENESIS, 0);
    second, back, forth :=
      CrossedOver(m.canon, Reorgs.GENESIS, Reorgs.LONG1, Reorgs.LONG2, Reorgs.LONG3, Reorgs.SHORT);
  }
}
