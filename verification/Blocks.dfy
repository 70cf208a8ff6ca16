/**
 * Blocks and their hashes. A hash is a constructor applied to the block, so that equal
 * hashes mean equal blocks; the zero hash is the hash of none.
 */
module Blocks {

  datatype Hash = Zero | HashOf(block: Block)

  datatype Block = Block(number: nat, parent: Hash, difficulty: nat, txs: seq<nat>, extra: nat)

  /** The sum of the difficulties along the ancestor chain. */
  ghost function TotalDifficulty(b: Block): nat {
    b.difficulty + if b.parent.Zero? then 0 else TotalDifficulty(b.parent.block)
  }

  /** `b` descends from `g`, each block numbered one more than its parent. */
  ghost predicate Rooted(b: Block, g: Block) {
    || b == g
    || (b.parent.HashOf? && b.number == b.parent.block.number + 1 && Rooted(b.parent.block, g))
  }

  ghost predicate IsGenesis(g: Block) {
    g.number == 0 && g.parent.Zero?
  }

  /** The hash of the ancestor of `b` with number `n`, or of `b` itself. */
  ghost function Ancestor(b: Block, n: nat): Hash {
    if n == b.number then HashOf(b) else if b.parent.Zero? then Zero else Ancestor(b.parent.block, n)
  }

  /** Below a block that descends from genesis there is one ancestor for each number. */
  lemma {:induction false} AncestorExists(b: Block, g: Block, n: nat)
    requires IsGenesis(g) && Rooted(b, g) && n <= b.number
    ensures var h := Ancestor(b, n); h.HashOf? && h.block.number == n && Rooted(h.block, g)
    ensures n == 0 ==> Ancestor(b, n) == HashOf(g)
  {
    if b != g && n < b.number {
      AncestorExists(b.parent.block, g, n);
    }
  }

  /** An ancestor of an ancestor is an ancestor. */
  lemma {:induction false} AncestorTwice(b: Block, g: Block, m: nat, n: nat)
    requires IsGenesis(g) && Rooted(b, g) && m <= n <= b.number
    ensures Ancestor(b, n).HashOf? && Ancestor(Ancestor(b, n).block, m) == Ancestor(b, m)
  {
    if b != g && n < b.number {
      AncestorTwice(b.parent.block, g, m, n);
    }
  }

  /** Two chains that agree at one height agree at every height below. */
  lemma AgreeBelow(a: Block, b: Block, g: Block, m: nat, n: nat)
    requires IsGenesis(g) && Rooted(a, g) && Rooted(b, g) && m <= n <= a.number && n <= b.number
    requires Ancestor(a, n) == Ancestor(b, n)
    ensures Ancestor(a, m) == Ancestor(b, m)
  {
    AncestorTwice(a, g, m, n);
    AncestorTwice(b, g, m, n);
  }

  /** The number→hash index is exactly the ancestor chain of `head`, with nothing above. */
  ghost predicate Indexes(canon: map<nat, Hash>, head: Block) {
    forall n: nat :: ReadCanonical(canon, n) == if n <= head.number then Ancestor(head, n) else Zero
  }

  /** The index holds the chain of `b` at every height up to it. */
  ghost predicate IndexedUpTo(canon: map<nat, Hash>, b: Block) {
    forall n: nat :: n <= b.number ==> ReadCanonical(canon, n) == Ancestor(b, n)
  }

  /** The index holds the chain of `head`, and goes on above it, without a hole, up to the number `top`. */
  ghost predicate Reaches(canon: map<nat, Hash>, head: Block, top: nat) {
    && IndexedUpTo(canon, head) && head.number <= top
    && forall n: nat :: ReadCanonical(canon, n) != Zero <==> n <= top
  }

  /** Every entry of the index names one of the given blocks, under its own number. */
  ghost predicate Names(canon: map<nat, Hash>, blocks: set<Block>) {
    forall n: nat {:trigger ReadCanonical(canon, n)} :: ReadCanonical(canon, n) != Zero ==>
      var h := ReadCanonical(canon, n); h.block in blocks && h.block.number == n
  }

  lemma ReachesHead(canon: map<nat, Hash>, head: Block, top: nat)
    requires Reaches(canon, head, top)
    ensures Indexes(canon, head) <==> top == head.number
  {
    if top != head.number {
      assert ReadCanonical(canon, top) != Zero;
    }
  }

  lemma ExactReaches(canon: map<nat, Hash>, head: Block, g: Block)
    requires IsGenesis(g) && Rooted(head, g) && Indexes(canon, head)
    ensures Reaches(canon, head, head.number)
  {
    forall n: nat | n <= head.number ensures ReadCanonical(canon, n) != Zero {
      AncestorExists(head, g, n);
    }
  }

  /** What reading the index answers: the zero hash where there is no entry. */
  function ReadCanonical(canon: map<nat, Hash>, n: nat): Hash {
    if n in canon then canon[n] else Zero
  }

  /** Pending writes to the index; the zero hash stands for a deletion. */
  type Batch = map<nat, Hash>

  function Written(canon: map<nat, Hash>, batch: Batch): map<nat, Hash> {
    map n | n in canon.Keys + batch.Keys && (n in batch ==> batch[n] != Zero) ::
      if n in batch then batch[n] else canon[n]
  }

  lemma ReadWritten(canon: map<nat, Hash>, batch: Batch, n: nat)
    ensures ReadCanonical(Written(canon, batch), n) == if n in batch then batch[n] else ReadCanonical(canon, n)
  {
  }

  lemma {:induction false} Bounded(keys: set<nat>) returns (top: nat)
    ensures forall n :: n in keys ==> n < top
  {
    if keys == {} {
      top := 0;
    } else {
      var n :| n in keys;
      top := Bounded(keys - {n});
      assert forall k :: k in keys ==> k == n || k in keys - {n};
      top := if top <= n then n + 1 else top;
    }
  }

  /** Marks the index entries above `number` for deletion, up to the first that is missing. */
  method DeleteAbove(canon: map<nat, Hash>, number: nat) returns (batch: Batch, ghost stop: nat)
    ensures number < stop && ReadCanonical(canon, stop) == Zero && forall n :: number < n < stop ==>
              ReadCanonical(canon, n) != Zero
    ensures forall n: nat :: n in batch <==> number < n < stop
    ensures forall n :: n in batch ==> batch[n] == Zero
  {
    batch := map[];
    var i := number + 1;
    ghost var top := Bounded(canon.Keys);
    while ReadCanonical(canon, i) != Zero
      invariant number < i && (i == number + 1 || i <= top) && forall n :: number < n < i ==>
                  ReadCanonical(canon, n) != Zero
      invariant forall n: nat :: n in batch <==> number < n < i
      invariant forall n :: n in batch ==> batch[n] == Zero
      decreases top - i
    {
      batch, i := batch[i := Zero], i + 1;
    }
    stop := i;
  }
}
