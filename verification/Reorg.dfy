/** Switching the chain of full blocks to another branch. */
module Reorgs {
  import opened Basics
  import opened Blocks

  /** Blocks are stored by hash and number. */
  function GetBlock(blocks: set<Block>, hash: Hash, number: int): Option<Block> {
    if hash.HashOf? && hash.block in blocks && hash.block.number == number then Some(hash.block) else None
  }

  /** `chain` runs from `b` down to, but not including, its ancestor `end`. */
  ghost predicate Branch(chain: seq<Block>, b: Block, end: Block) {
    if chain == [] then b == end else
      chain[0] == b && b.parent.HashOf? && b.number == b.parent.block.number + 1
        && Branch(chain[1..], b.parent.block, end)
  }

  lemma {:induction false} BranchOn(chain: seq<Block>, b: Block, end: Block)
    requires Branch(chain, b, end) && end.parent.HashOf? && end.number == end.parent.block.number + 1
    ensures Branch(chain + [end], b, end.parent.block)
  {
    if chain == [] {
      assert [end][1..] == [];
    } else {
      BranchOn(chain[1..], b.parent.block, end);
      assert (chain + [end])[1..] == chain[1..] + [end];
    }
  }

  /** Walks from `b` down to the given number. */
  method Descend(blocks: set<Block>, b: Block, number: nat) returns (end: Option<Block>, chain: seq<Block>)
    requires number <= b.number
    ensures end.Some? ==> end.value.number == number && Branch(chain, b, end.value)
    ensures end.None? ==> !Complete(blocks, b)
  {
    end, chain := Some(b), [];
    while end.Some? && end.value.number != number
      invariant end.Some? ==>
                  number <= end.value.number && Branch(chain, b, end.value)
                    && (Complete(blocks, b) ==> Complete(blocks, end.value))
      invariant end.None? ==> !Complete(blocks, b)
      decreases end.Some?, if end.Some? then end.value.number else 0
    {
      var next := GetBlock(blocks, end.value.parent, end.value.number - 1);
      if next.Some? {
        BranchOn(chain, b, end.value);
      }
      end, chain := next, chain + [end.value];
    }
  }

  /** All ancestors of `b` are stored and numbered down to zero. */
  ghost predicate Complete(blocks: set<Block>, b: Block) {
    if b.number == 0 then b.parent.Zero? else
      b.parent.HashOf? && b.parent.block in blocks && b.number == b.parent.block.number + 1
        && Complete(blocks, b.parent.block)
  }

  datatype Branches = Branches(common: Block, oldChain: seq<Block>, newChain: seq<Block>)

  /** Both branches end in `common`, and they meet nowhere above it. */
  ghost predicate Forks(f: Branches, a: Block, b: Block) {
    && Branch(f.oldChain, a, f.common) && Branch(f.newChain, b, f.common)
    && (f.oldChain != [] && f.newChain != [] ==> f.oldChain[|f.oldChain| - 1] != f.newChain[|f.newChain| - 1])
  }

  lemma {:induction false} CompleteTo(blocks: set<Block>, b: Block, chain: seq<Block>, end: Block)
    requires Complete(blocks, b) && Branch(chain, b, end)
    ensures Complete(blocks, end) && Ancestor(end, 0) == Ancestor(b, 0)
  {
    if chain != [] {
      CompleteTo(blocks, b.parent.block, chain[1..], end);
    }
  }

  /** Collects the blocks of both branches above the common ancestor. */
  method Collect(blocks: set<Block>, a: Block, b: Block) returns (f: Option<Branches>)
    ensures f.Some? ==> Forks(f.value, a, b)
    ensures Complete(blocks, a) && Complete(blocks, b) && Ancestor(a, 0) == Ancestor(b, 0) ==> f.Some?
  {
    var x, oldChain := Some(a), [];
    var y, newChain := Some(b), [];
    if b.number < a.number {
      x, oldChain := Descend(blocks, a, b.number);
    } else {
      y, newChain := Descend(blocks, b, a.number);
    }
    if x.None? || y.None? {
      return None;
    }
    var old', new' := x.value, y.value;
    while old' != new'
      invariant old'.number == new'.number
      invariant Branch(oldChain, a, old') && Branch(newChain, b, new')
      invariant oldChain == [] || newChain == [] || oldChain[|oldChain| - 1] != newChain[|newChain| - 1]
      decreases old'.number
    {
      x := GetBlock(blocks, old'.parent, old'.number - 1);
      y := GetBlock(blocks, new'.parent, new'.number - 1);
      if x.None? || y.None? {
        if Complete(blocks, a) && Complete(blocks, b) && Ancestor(a, 0) == Ancestor(b, 0) {
          CompleteTo(blocks, a, oldChain, old');
          CompleteTo(blocks, b, newChain, new');
          assert false;
        }
        return None;
      }
      BranchOn(oldChain, a, old');
      BranchOn(newChain, b, new');
      oldChain, newChain := oldChain + [old'], newChain + [new'];
      old', new' := x.value, y.value;
    }
    f := Some(Branches(old', oldChain, newChain));
  }

  /** Above the common ancestor the two chains have no block in common. */
  lemma CommonIsHighest(f: Branches, a: Block, b: Block, g: Block, n: nat)
    requires IsGenesis(g) && Rooted(a, g) && Rooted(b, g) && Forks(f, a, b)
    requires f.common.number < n <= a.number && n <= b.number
    ensures Ancestor(a, f.common.number) == HashOf(f.common) == Ancestor(b, f.common.number)
    ensures Ancestor(a, n) != Ancestor(b, n)
  {
    BranchAt(f.oldChain, a, f.common);
    BranchAt(f.newChain, b, f.common);
    DifferAbove(a, b, g, f.common.number + 1, n);
  }

  lemma DifferAbove(a: Block, b: Block, g: Block, m: nat, n: nat)
    requires IsGenesis(g) && Rooted(a, g) && Rooted(b, g) && m <= n <= a.number && n <= b.number
    requires Ancestor(a, m) != Ancestor(b, m)
    ensures Ancestor(a, n) != Ancestor(b, n)
  {
    if Ancestor(a, n) == Ancestor(b, n) {
      AgreeBelow(a, b, g, m, n);
    }
  }

  lemma {:induction false} BranchAt(chain: seq<Block>, b: Block, end: Block)
    requires Branch(chain, b, end)
    ensures |chain| == b.number - end.number && Ancestor(b, end.number) == HashOf(end)
    ensures chain != [] ==> Ancestor(b, end.number + 1) == HashOf(chain[|chain| - 1])
  {
    if chain != [] {
      BranchAt(chain[1..], b.parent.block, end);
    }
  }

  /** The index, the transaction lookup and the heads of the chain. */
  datatype Markers = Markers(canon: map<nat, Hash>, lookup: map<nat, nat>, currentBlock: Block, currentHeader: Block,
                             currentFastBlock: Block)

  function ReadLookup(lookup: map<nat, nat>, tx: nat): Option<nat> {
    if tx in lookup then Some(lookup[tx]) else None
  }

  /** Records the block's transactions in the lookup. */
  function WithTxs(lookup: map<nat, nat>, b: Block): map<nat, nat> {
    map tx | tx in lookup.Keys + (set t | t in b.txs) :: if tx in b.txs then b.number else lookup[tx]
  }

  /** Puts `b` on the index and in the lookup and makes it the head; other heads follow if `b` was not canonical. */
  function WriteHeadBlock(m: Markers, b: Block): Markers {
    var updateHeads := ReadCanonical(m.canon, b.number) != HashOf(b);
    Markers(m.canon[b.number := HashOf(b)], WithTxs(m.lookup, b), b,
            if updateHeads then b else m.currentHeader, if updateHeads then b else m.currentFastBlock)
  }

  /** The number of the highest block of `b`'s chain that includes the transaction. */
  ghost function Find(b: Block, tx: nat): Option<nat> {
    if tx in b.txs then Some(b.number) else if b.parent.Zero? then None else Find(b.parent.block, tx)
  }

  ghost function FindIn(chain: seq<Block>, tx: nat): Option<nat> {
    if chain == [] then None else if tx in chain[0].txs then Some(chain[0].number) else FindIn(chain[1..], tx)
  }

  lemma {:induction false} FindBranch(chain: seq<Block>, b: Block, end: Block, tx: nat)
    requires Branch(chain, b, end)
    ensures Find(b, tx) == if FindIn(chain, tx).Some? then FindIn(chain, tx) else Find(end, tx)
  {
    if chain != [] {
      FindBranch(chain[1..], b.parent.block, end, tx);
    }
  }

  /** The lookup names exactly the transactions of `b`'s chain, each with its block. */
  ghost predicate Located(lookup: map<nat, nat>, b: Block) {
    forall tx :: ReadLookup(lookup, tx) == Find(b, tx)
  }

  /** The lookup after the blocks of `chain` were written over `before`. */
  ghost predicate LookupOver(lookup: map<nat, nat>, before: map<nat, nat>, chain: seq<Block>) {
    forall tx :: ReadLookup(lookup, tx) == if FindIn(chain, tx).Some? then FindIn(chain, tx) else ReadLookup(before, tx)
  }

  /** The index after the chain of `top` was written over `before`. */
  ghost predicate IndexOver(canon: map<nat, Hash>, before: map<nat, Hash>, top: Block) {
    IndexedUpTo(canon, top) && forall n :: top.number < n ==> ReadCanonical(canon, n) == ReadCanonical(before, n)
  }

  lemma WriteOver(m: Markers, before: Markers, chain: seq<Block>, b: Block)
    requires b.parent.HashOf? && b.number == b.parent.block.number + 1
    requires LookupOver(m.lookup, before.lookup, chain) && IndexOver(m.canon, before.canon, b.parent.block)
    ensures LookupOver(WriteHeadBlock(m, b).lookup, before.lookup, [b] + chain)
    ensures IndexOver(WriteHeadBlock(m, b).canon, before.canon, b)
  {
    var m' := WriteHeadBlock(m, b);
    assert ([b] + chain)[1..] == chain;
    forall n: nat | n <= b.number ensures ReadCanonical(m'.canon, n) == Ancestor(b, n) {
      if n < b.number {
        assert ReadCanonical(m.canon, n) == Ancestor(b.parent.block, n);
      }
    }
    forall n | b.number < n ensures ReadCanonical(m'.canon, n) == ReadCanonical(before.canon, n) {
      assert ReadCanonical(m.canon, n) == ReadCanonical(before.canon, n);
    }
  }

  ghost function BlockAt(chain: seq<Block>, end: Block, i: nat): Block {
    if i < |chain| then chain[i] else end
  }

  lemma {:induction false} BranchLinks(chain: seq<Block>, b: Block, end: Block, i: nat)
    requires Branch(chain, b, end) && i < |chain|
    ensures var p := chain[i].parent; p == HashOf(BlockAt(chain, end, i + 1)) && chain[i].number == p.block.number + 1
    ensures chain[0] == b
  {
    if i > 0 {
      BranchLinks(chain[1..], b.parent.block, end, i - 1);
    }
  }

  ghost predicate Collected(txs: set<nat>, chain: seq<Block>) {
    forall tx :: tx in txs <==> FindIn(chain, tx).Some?
  }

  /** Re-writes the new branch, except its head, from the bottom up. */
  method WriteBranch(m: Markers, chain: seq<Block>, ghost b: Block, ghost common: Block)
    returns (m': Markers, added: set<nat>)
    requires Branch(chain, b, common) && IndexedUpTo(m.canon, common) && chain != []
    ensures LookupOver(m'.lookup, m.lookup, chain[1..]) && IndexOver(m'.canon, m.canon, BlockAt(chain, common, 1))
    ensures m'.currentBlock == (if 2 <= |chain| then chain[1] else m.currentBlock) && Collected(added, chain[1..])
  {
    m', added := m, {};
    var i := |chain|;
    while 1 < i
      invariant 1 <= i <= |chain|
      invariant LookupOver(m'.lookup, m.lookup, chain[i..]) && IndexOver(m'.canon, m.canon, BlockAt(chain, common, i))
      invariant m'.currentBlock == (if i < |chain| then chain[i] else m.currentBlock) && Collected(added, chain[i..])
    {
      i := i - 1;
      BranchLinks(chain, b, common, i);
      WriteOver(m', m, chain[i + 1..], chain[i]);
      assert chain[i..] == [chain[i]] + chain[i + 1..];
      m' := WriteHeadBlock(m', chain[i]);
      added := added + set tx | tx in chain[i].txs;
    }
  }

  method TxsOf(chain: seq<Block>) returns (txs: set<nat>)
    ensures Collected(txs, chain)
  {
    txs := {};
    var i := |chain|;
    while 0 < i
      invariant 0 <= i <= |chain| && Collected(txs, chain[i..])
    {
      i := i - 1;
      assert chain[i..] == [chain[i]] + chain[i + 1..];
      txs := txs + set tx | tx in chain[i].txs;
    }
  }

  /** Below the fork the index of the old chain serves the new one as well. */
  lemma CommonIndexed(canon: map<nat, Hash>, chain: seq<Block>, a: Block, common: Block, g: Block)
    requires IsGenesis(g) && Rooted(a, g) && Branch(chain, a, common) && IndexedUpTo(canon, a)
    ensures IndexedUpTo(canon, common)
  {
    BranchAt(chain, a, common);
    forall n: nat | n <= common.number ensures ReadCanonical(canon, n) == Ancestor(common, n) {
      AncestorTwice(a, g, n, common.number);
    }
  }

  /** The blocks that are put on the index again before the head itself. */
  ghost function Tail(chain: seq<Block>): seq<Block> {
    if chain == [] then [] else chain[1..]
  }

  /** The lookup before the head is written: the new branch is in it, and what only the old branch had is out. */
  ghost predicate LookupPrepared(lookup: map<nat, nat>, before: map<nat, nat>, f: Branches) {
    forall tx :: ReadLookup(lookup, tx) ==
      if FindIn(Tail(f.newChain), tx).Some? then FindIn(Tail(f.newChain), tx)
      else if FindIn(f.oldChain, tx).Some? then None else ReadLookup(before, tx)
  }

  /** The index before the head is written; if it had no hole, nothing is left above what was the head by then. */
  ghost predicate IndexPrepared(canon: map<nat, Hash>, before: map<nat, Hash>, f: Branches, a: Block, top: nat) {
    && (f.newChain != [] ==> IndexedUpTo(canon, BlockAt(f.newChain, f.common, 1)))
    && (2 <= |f.newChain| && Reaches(before, a, top) ==> Indexes(canon, f.newChain[1]))
    && (|f.newChain| < 2 ==> forall n: nat :: n <= a.number ==> ReadCanonical(canon, n) == ReadCanonical(before, n))
    && (|f.newChain| < 2 && Reaches(before, a, top) ==> Indexes(canon, a))
  }

  lemma ClearAbove(canon: map<nat, Hash>, batch: Batch, number: nat, stop: nat)
    requires number < stop && ReadCanonical(canon, stop) == Zero
    requires forall n: nat :: n in batch <==> number < n < stop
    requires forall n :: n in batch ==> batch[n] == Zero
    ensures forall n: nat ::
              ReadCanonical(Written(canon, batch), n) == if number < n < stop then Zero else ReadCanonical(canon, n)
  {
    forall n: nat ensures ReadCanonical(Written(canon, batch), n) == if number < n < stop then Zero
      else ReadCanonical(canon, n) {
      ReadWritten(canon, batch, n);
    }
  }

  /**
   * Deletes the index entries above the current head, which is the parent of the new head if the
   * branch has two blocks or more.
   */
  method ClearIndex(canon: map<nat, Hash>, number: nat, ghost before: map<nat, Hash>, ghost a: Block, ghost top: nat)
    returns (canon': map<nat, Hash>)
    requires forall n :: number < n ==> ReadCanonical(canon, n) == ReadCanonical(before, n)
    ensures forall n: nat :: n <= number ==> ReadCanonical(canon', n) == ReadCanonical(canon, n)
    ensures Reaches(before, a, top) ==> forall n: nat :: number < n ==> ReadCanonical(canon', n) == Zero
  {
    var batch, stop := DeleteAbove(canon, number);
    ClearAbove(canon, batch, number, stop);
    canon' := Written(canon, batch);
    if Reaches(before, a, top) {
      assert ReadCanonical(before, stop) == Zero;
      forall n: nat | number < n ensures ReadCanonical(canon', n) == Zero {
        assert stop <= n ==> ReadCanonical(before, n) == Zero;
      }
    }
  }

  /** What the reorganisation reports and leaves behind, before the new head itself is written. */
  ghost predicate Prepared(m: Markers, m': Markers, f: Branches, a: Block, b: Block, top: nat) {
    && Forks(f, a, b) && LookupPrepared(m'.lookup, m.lookup, f) && IndexPrepared(m'.canon, m.canon, f, a, top)
  }

  lemma LookupDone(lookup: map<nat, nat>, before: map<nat, nat>, f: Branches, deleted: set<nat>, added: set<nat>)
    requires LookupOver(lookup, before, Tail(f.newChain)) && Collected(deleted, f.oldChain)
    requires Collected(added, Tail(f.newChain))
    ensures LookupPrepared(lookup - (deleted - added), before, f)
  {
    forall tx ensures ReadLookup(lookup - (deleted - added), tx) ==
      if FindIn(Tail(f.newChain), tx).Some? then FindIn(Tail(f.newChain), tx)
      else if FindIn(f.oldChain, tx).Some? then None else ReadLookup(before, tx)
    {
      assert ReadLookup(lookup, tx) == if FindIn(Tail(f.newChain), tx).Some? then FindIn(Tail(f.newChain), tx)
        else ReadLookup(before, tx);
    }
  }

  /** Switches the index and the lookup from the chain of the current head to that of `b`, short of `b` itself. */
  method Reorg(m: Markers, blocks: set<Block>, b: Block, ghost g: Block, ghost top: nat)
    returns (m': Markers, f: Option<Branches>)
    requires IsGenesis(g) && Rooted(m.currentBlock, g) && IndexedUpTo(m.canon, m.currentBlock)
    ensures f.None? ==> m' == m
    ensures f.Some? ==> Prepared(m, m', f.value, m.currentBlock, b, top)
    ensures Complete(blocks, m.currentBlock) && Complete(blocks, b) && Ancestor(m.currentBlock, 0) == Ancestor(b, 0) ==>
              f.Some?
  {
    m' := m;
    f := Collect(blocks, m.currentBlock, b);
    if f.None? {
      return;
    }
    var deleted := TxsOf(f.value.oldChain);
    var added: set<nat> := {};
    CommonIndexed(m.canon, f.value.oldChain, m.currentBlock, f.value.common, g);
    BranchAt(f.value.oldChain, m.currentBlock, f.value.common);
    if f.value.newChain != [] {
      m', added := WriteBranch(m, f.value.newChain, b, f.value.common);
    }
    LookupDone(m'.lookup, m.lookup, f.value, deleted, added);
    var canon := ClearIndex(m'.canon, m'.currentBlock.number, m.canon, m.currentBlock, top);
    m' := m'.(lookup := m'.lookup - (deleted - added), canon := canon);
  }

  /** No transaction that only the old branch holds above the fork occurs below the fork as well. */
  ghost predicate DropsCleanly(f: Branches) {
    forall tx :: FindIn(f.oldChain, tx).Some? && FindIn(f.newChain, tx).None? ==> Find(f.common, tx).None?
  }

  /**
   * How far the index goes once `b` is the head: a child of the old head `a` leaves what is above
   * it, a branch of two blocks or more clears everything, and a single block clears only what
   * was above the old head.
   */
  function TopAfter(child: bool, blocks: nat, a: nat, b: nat, top: nat): nat {
    if child then Max(top, b) else if 2 <= blocks then b else Max(a, b)
  }

  /** After a reorganisation and the head the index holds its chain at every height, and goes as far as that says. */
  lemma HeadIndexed(m: Markers, m': Markers, f: Branches, a: Block, b: Block, g: Block, top: nat)
    requires IsGenesis(g) && Rooted(a, g) && Rooted(b, g) && IndexedUpTo(m.canon, a) && Prepared(m, m', f, a, b, top)
    ensures IndexedUpTo(WriteHeadBlock(m', b).canon, b)
    ensures Reaches(m.canon, a, top) ==>
              Reaches(WriteHeadBlock(m', b).canon, b, TopAfter(false, |f.newChain|, a.number, b.number, top))
  {
    BranchAt(f.oldChain, a, f.common);
    BranchAt(f.newChain, b, f.common);
    if f.newChain != [] {
      BranchLinks(f.newChain, b, f.common, 0);
      PutHead(m'.canon, b);
    } else {
      CommonIndexed(m.canon, f.oldChain, a, b, g);
      PutAgain(m'.canon, m.canon, b);
    }
    if Reaches(m.canon, a, top) {
      var last := if |f.newChain| < 2 then a else f.newChain[1];
      if 2 <= |f.newChain| {
        BranchLinks(f.newChain, b, f.common, 0);
        assert Rooted(f.newChain[1], g);
      }
      ExactReaches(m'.canon, last, g);
      ReachesPut(m'.canon, b, last, last.number);
    }
  }

  /** So after a reorganisation nothing is left above the head exactly if the branch has two blocks or is not lower. */
  lemma EndsAtHead(canon: map<nat, Hash>, f: Branches, a: Block, b: Block, top: nat)
    requires Reaches(canon, b, TopAfter(false, |f.newChain|, a.number, b.number, top))
    ensures Indexes(canon, b) <==> 2 <= |f.newChain| || a.number <= b.number
  {
    ReachesHead(canon, b, TopAfter(false, |f.newChain|, a.number, b.number, top));
  }

  /** A child of the head is put on the index, whatever is above it. */
  lemma ChildIndexed(m: Markers, a: Block, b: Block, top: nat)
    requires b.parent == HashOf(a) && b.number == a.number + 1 && IndexedUpTo(m.canon, a)
    ensures IndexedUpTo(WriteHeadBlock(m, b).canon, b)
    ensures forall n: nat :: n != b.number ==> ReadCanonical(WriteHeadBlock(m, b).canon, n) == ReadCanonical(m.canon, n)
    ensures Reaches(m.canon, a, top) ==>
              Reaches(WriteHeadBlock(m, b).canon, b, TopAfter(true, 1, a.number, b.number, top))
  {
    PutHead(m.canon, b);
    if Reaches(m.canon, a, top) {
      ReachesPut(m.canon, b, a, top);
    }
  }

  lemma PutHead(canon: map<nat, Hash>, b: Block)
    requires b.parent.HashOf? && b.number == b.parent.block.number + 1 && IndexedUpTo(canon, b.parent.block)
    ensures IndexedUpTo(canon[b.number := HashOf(b)], b)
  {
    forall n: nat | n < b.number ensures ReadCanonical(canon, n) == Ancestor(b, n) {}
  }

  lemma PutAgain(canon: map<nat, Hash>, before: map<nat, Hash>, b: Block)
    requires IndexedUpTo(before, b) && forall n: nat :: n <= b.number ==>
               ReadCanonical(canon, n) == ReadCanonical(before, n)
    ensures IndexedUpTo(canon[b.number := HashOf(b)], b)
  {
    forall n: nat | n < b.number ensures ReadCanonical(canon[b.number := HashOf(b)], n) == Ancestor(b, n) {
      assert ReadCanonical(before, n) == Ancestor(b, n);
    }
  }

  /** Putting an entry next to an index without a hole leaves it without one. */
  lemma ReachesPut(canon: map<nat, Hash>, b: Block, last: Block, top: nat)
    requires Reaches(canon, last, top) && b.number <= top + 1 && IndexedUpTo(canon[b.number := HashOf(b)], b)
    ensures Reaches(canon[b.number := HashOf(b)], b, Max(top, b.number))
  {
    var put := canon[b.number := HashOf(b)];
    forall n: nat ensures ReadCanonical(put, n) != Zero <==> n <= Max(top, b.number) {
      assert ReadCanonical(canon, n) != Zero <==> n <= top;
    }
  }

  /** After the head is written, the lookup is exact if and only if the old branch dropped out cleanly. */
  lemma HeadLocated(m: Markers, m': Markers, f: Branches, a: Block, b: Block)
    requires Forks(f, a, b) && LookupPrepared(m'.lookup, m.lookup, f) && f.newChain != [] && Located(m.lookup, a)
    ensures Located(WriteHeadBlock(m', b).lookup, b) <==> DropsCleanly(f)
  {
    var lookup := WriteHeadBlock(m', b).lookup;
    BranchLinks(f.newChain, b, f.common, 0);
    forall tx ensures ReadLookup(lookup, tx) == Find(b, tx) <==>
                      (FindIn(f.oldChain, tx).Some? && FindIn(f.newChain, tx).None? ==> Find(f.common, tx).None?)
    {
      FindBranch(f.oldChain, a, f.common, tx);
      FindBranch(f.newChain, b, f.common, tx);
      assert ReadLookup(m.lookup, tx) == Find(a, tx);
    }
  }

  /** A single block that outweighs a longer chain leaves the index entries of that chain in place, and only them. */
  lemma StaleEntriesRemain(m: Markers, m': Markers, f: Branches, a: Block, b: Block, g: Block, top: nat)
    requires IsGenesis(g) && Rooted(a, g) && Rooted(b, g) && Reaches(m.canon, a, top) && Prepared(m, m', f, a, b, top)
    requires |f.newChain| < 2 && b.number < a.number
    ensures EntriesAbove(WriteHeadBlock(m', b).canon, b, a)
  {
    var canon := WriteHeadBlock(m', b).canon;
    forall n: nat | b.number < n ensures ReadCanonical(canon, n) == if n <= a.number then Ancestor(a, n) else Zero {
      assert ReadCanonical(m'.canon, n) == if n <= a.number then Ancestor(a, n) else Zero;
    }
  }

  /** Above `b` the index still holds the chain of `a`. */
  ghost predicate EntriesAbove(canon: map<nat, Hash>, b: Block, a: Block) {
    forall n: nat :: b.number < n ==> ReadCanonical(canon, n) == if n <= a.number then Ancestor(a, n) else Zero
  }

  /** What becomes of an index that goes up to `top` when `b` takes over from `a`. */
  ghost predicate IndexFollows(before: map<nat, Hash>, after: map<nat, Hash>, f: Branches, a: Block, b: Block,
                               top: nat) {
    var child := b.parent == HashOf(a);
    && Reaches(after, b, TopAfter(child, |f.newChain|, a.number, b.number, top))
    && (child ==> forall n: nat :: n != b.number ==> ReadCanonical(after, n) == ReadCanonical(before, n))
    && (!child ==> (Indexes(after, b) <==> 2 <= |f.newChain| || a.number <= b.number))
    && (!child && |f.newChain| < 2 && b.number < a.number ==> EntriesAbove(after, b, a))
  }

  lemma ReorganisedFollows(m: Markers, m': Markers, f: Branches, a: Block, b: Block, g: Block, top: nat)
    requires IsGenesis(g) && Rooted(a, g) && Rooted(b, g) && Reaches(m.canon, a, top) && Prepared(m, m', f, a, b, top)
    requires b.parent != HashOf(a)
    ensures IndexFollows(m.canon, WriteHeadBlock(m', b).canon, f, a, b, top)
  {
    HeadIndexed(m, m', f, a, b, g, top);
    EndsAtHead(WriteHeadBlock(m', b).canon, f, a, b, top);
    if |f.newChain| < 2 && b.number < a.number {
      StaleEntriesRemain(m, m', f, a, b, g, top);
    }
  }

  /** The end of writing a block that wins the fork choice. */
  method SetHead(m: Markers, blocks: set<Block>, b: Block, ghost g: Block, ghost top: nat)
    returns (m': Markers, failed: bool, ghost f: Branches)
    requires IsGenesis(g) && Rooted(m.currentBlock, g) && Rooted(b, g) && IndexedUpTo(m.canon, m.currentBlock)
    ensures Complete(blocks, m.currentBlock) && Complete(blocks, b) ==> !failed
    ensures failed ==> m' == m
    ensures !failed ==> m'.currentBlock == b && Forks(f, m.currentBlock, b) && IndexedUpTo(m'.canon, b)
    ensures !failed && Reaches(m.canon, m.currentBlock, top) ==>
              IndexFollows(m.canon, m'.canon, f, m.currentBlock, b, top)
    ensures !failed && f.newChain != [] && Located(m.lookup, m.currentBlock) ==>
              (Located(m'.lookup, b) <==> DropsCleanly(f))
  {
    m', failed := m, false;
    ghost var a := m.currentBlock;
    f := Branches(a, [], [b]);
    if b.parent != HashOf(m.currentBlock) {
      AncestorExists(a, g, 0);
      AncestorExists(b, g, 0);
      var branches;
      m', branches := Reorg(m, blocks, b, g, top);
      if branches.None? {
        return m, true, f;
      }
      f := branches.value;
      HeadIndexed(m, m', f, a, b, g, top);
      if Reaches(m.canon, a, top) {
        ReorganisedFollows(m, m', f, a, b, g, top);
      }
    } else {
      assert b != g;
      ChildIndexed(m, a, b, top);
    }
    if f.newChain != [] && Located(m.lookup, a) {
      HeadLocated(m, m', f, a, b);
    }
    m' := WriteHeadBlock(m', b);
  }

  /** The fork choice; `keepOld` and `keepNew` tell which blocks were made locally, `coin` decides what is left. */
  predicate Wins(old': Block, new': Block, localTd: nat, externTd: nat, keepOld: bool, keepNew: bool, coin: bool) {
    || localTd < externTd
    || (localTd == externTd
         && (new'.number < old'.number || (new'.number == old'.number && !keepOld && (keepNew || coin))))
  }

  /**
   * Unless total difficulty and number are both equal, of two heads exactly one wins over the
   * other, whatever the coin says.
   */
  lemma ForkChoiceDecides(a: Block, b: Block, tdA: nat, tdB: nat, keepA: bool, keepB: bool, coin: bool, coin': bool)
    requires tdA != tdB || a.number != b.number
    ensures Wins(a, b, tdA, tdB, keepA, keepB, coin) <==> !Wins(b, a, tdB, tdA, keepB, keepA, coin')
  {
  }

  /**
   * The end of writeBlockWithState: the head never becomes lighter, and index and lookup follow
   * it as far as they do. The index goes up to `top` before.
   */
  method WriteBlock(m: Markers, blocks: set<Block>, b: Block, localTd: nat, externTd: nat,
                    keepOld: bool, keepNew: bool, coin: bool, ghost g: Block, ghost top: nat)
    returns (m': Markers, canonical: bool, failed: bool, ghost f: Branches)
    requires IsGenesis(g) && Rooted(m.currentBlock, g) && Rooted(b, g) && IndexedUpTo(m.canon, m.currentBlock)
    requires localTd == TotalDifficulty(m.currentBlock) && externTd == TotalDifficulty(b)
    requires Complete(blocks, m.currentBlock) && Complete(blocks, b)
    ensures !failed && m'.currentBlock == (if canonical then b else m.currentBlock) && (!canonical ==> m' == m)
    ensures IndexedUpTo(m'.canon, m'.currentBlock) && Rooted(m'.currentBlock, g)
    ensures TotalDifficulty(m.currentBlock) <= TotalDifficulty(m'.currentBlock)
    ensures !canonical ==> TotalDifficulty(b) <= TotalDifficulty(m'.currentBlock)
    ensures TotalDifficulty(m.currentBlock) < TotalDifficulty(b) ==> canonical
    ensures TotalDifficulty(b) == TotalDifficulty(m.currentBlock) && b.number != m.currentBlock.number ==>
              (canonical <==> b.number < m.currentBlock.number)
    ensures canonical == Wins(m.currentBlock, b, localTd, externTd, keepOld, keepNew, coin)
    ensures canonical ==> Forks(f, m.currentBlock, b)
    ensures canonical && Reaches(m.canon, m.currentBlock, top) ==>
              IndexFollows(m.canon, m'.canon, f, m.currentBlock, b, top)
    ensures canonical && f.newChain != [] && Located(m.lookup, m.currentBlock) ==>
              (Located(m'.lookup, b) <==> DropsCleanly(f))
  {
    m', failed, f := m, false, Branches(b, [], []);
    canonical := Wins(m.currentBlock, b, localTd, externTd, keepOld, keepNew, coin);
    if canonical {
      m', failed, f := SetHead(m, blocks, b, g, top);
    }
  }

  /** A block that was written, and what the fork choice depends on besides. */
  datatype Arrival = Arrival(block: Block, keepOld: bool, keepNew: bool, coin: bool)

  /** The head `b` took over from `a`, and where their chains part. */
  datatype Takeover = Takeover(a: Block, b: Block, f: Branches)

  /** The heads follow each other from genesis to `head`, and no head is lighter than the one before. */
  ghost predicate Leads(takes: seq<Option<Takeover>>, g: Block, head: Block) {
    if takes == [] then head == g else
      match takes[|takes| - 1]
      case None => Leads(takes[..|takes| - 1], g, head)
      case Some(t) =>
        && t.b == head && Forks(t.f, t.a, t.b) && TotalDifficulty(t.a) <= TotalDifficulty(t.b)
        && Leads(takes[..|takes| - 1], g, t.a)
  }

  ghost function TopWith(t: Takeover, top: nat): nat {
    TopAfter(t.b.parent == HashOf(t.a), |t.f.newChain|, t.a.number, t.b.number, top)
  }

  /** How far the index goes after all that. */
  ghost function TopOf(takes: seq<Option<Takeover>>): nat {
    if takes == [] then 0 else
      var top := TopOf(takes[..|takes| - 1]);
      match takes[|takes| - 1]
      case None => top
      case Some(t) => TopWith(t, top)
  }

  /**
   * Every stored block has its whole chain stored; the head is the heaviest of all, and the index
   * names only stored blocks and goes up to `top`.
   */
  ghost predicate Kept(m: Markers, tds: map<Block, nat>, g: Block, top: nat) {
    && IsGenesis(g) && g in tds && m.currentBlock in tds && Reaches(m.canon, m.currentBlock, top)
    && Names(m.canon, tds.Keys)
    && forall x :: x in tds ==> Sits(x, tds, g) && tds[x] <= TotalDifficulty(m.currentBlock)
  }

  ghost predicate Sits(x: Block, tds: map<Block, nat>, g: Block)
    requires x in tds
  {
    Rooted(x, g) && Complete(tds.Keys, x) && tds[x] == TotalDifficulty(x)
  }

  lemma {:induction false} CompleteMore(few: set<Block>, many: set<Block>, b: Block)
    requires Complete(few, b) && few <= many
    ensures Complete(many, b)
  {
    if b.number != 0 {
      CompleteMore(few, many, b.parent.block);
    }
  }

  lemma {:induction false} CompleteAncestor(blocks: set<Block>, b: Block, n: nat)
    requires Complete(blocks, b) && b in blocks && n <= b.number
    ensures var h := Ancestor(b, n); h.HashOf? && h.block in blocks && h.block.number == n
  {
    if n < b.number {
      CompleteAncestor(blocks, b.parent.block, n);
    }
  }

  /** Whatever is above the head, it is stored. */
  lemma NamesFollow(before: map<nat, Hash>, after: map<nat, Hash>, f: Branches, a: Block, b: Block, top: nat,
                    few: set<Block>, many: set<Block>)
    requires Names(before, few) && few <= many && IndexFollows(before, after, f, a, b, top)
    requires a in many && b in many && Complete(many, a) && Complete(many, b)
    ensures Names(after, many)
  {
    forall n: nat | ReadCanonical(after, n) != Zero
      ensures var h := ReadCanonical(after, n); h.block in many && h.block.number == n
    {
      if n <= b.number {
        CompleteAncestor(many, b, n);
      } else if b.parent == HashOf(a) {
        assert ReadCanonical(after, n) == ReadCanonical(before, n);
      } else {
        assert n <= a.number;
        CompleteAncestor(many, a, n);
      }
    }
  }

  lemma SitsMore(m: Markers, tds: map<Block, nat>, more: map<Block, nat>, g: Block, top: nat, b: Block)
    requires Kept(m, tds, g, top) && b.parent.HashOf? && b.parent.block in tds && b.number == b.parent.block.number + 1
    requires more == tds[b := b.difficulty + tds[b.parent.block]]
    ensures forall x :: x in more ==> Sits(x, more, g)
  {
    assert Sits(b.parent.block, tds, g);
    forall x | x in more ensures Sits(x, more, g) {
      CompleteMore(tds.Keys, more.Keys, if x == b then b.parent.block else x);
    }
  }

  predicate ParentStored(b: Block, blocks: set<Block>) {
    b.parent.HashOf? && b.parent.block in blocks
  }

  /** The fork choice between the head and a block that has just been stored. */
  predicate TakesOver(m: Markers, tds: map<Block, nat>, x: Arrival)
    requires m.currentBlock in tds && x.block in tds
  {
    Wins(m.currentBlock, x.block, tds[m.currentBlock], tds[x.block], x.keepOld, x.keepNew, x.coin)
  }

  /** What the arrival of a block does: it is stored if its parent is, and becomes the head if it wins. */
  ghost predicate Arrived(m: Markers, tds: map<Block, nat>, x: Arrival, m': Markers, tds': map<Block, nat>,
                          take: Option<Takeover>, top: nat) {
    && tds' == (if ParentStored(x.block, tds.Keys) then tds[x.block := x.block.difficulty + tds[x.block.parent.block]]
                else tds)
    && (take.Some? <==>
         ParentStored(x.block, tds.Keys) && m.currentBlock in tds' && x.block in tds' && TakesOver(m, tds', x))
    && match take
       case None => m' == m
       case Some(t) =>
         && t.a == m.currentBlock && t.b == m'.currentBlock == x.block && Forks(t.f, t.a, t.b)
         && TotalDifficulty(t.a) <= TotalDifficulty(t.b) && IndexFollows(m.canon, m'.canon, t.f, t.a, t.b, top)
  }

  method Arrive(m: Markers, tds: map<Block, nat>, x: Arrival, ghost g: Block, ghost top: nat)
    returns (m': Markers, tds': map<Block, nat>, ghost take: Option<Takeover>)
    requires Kept(m, tds, g, top) && (x.block.parent.HashOf? ==> x.block.number == x.block.parent.block.number + 1)
    ensures Arrived(m, tds, x, m', tds', take, top)
    ensures Kept(m', tds', g, if take.None? then top else TopWith(take.value, top))
  {
    m', tds', take := m, tds, None;
    var b := x.block;
    if !ParentStored(b, tds.Keys) {
      return;
    }
    var externTd := b.difficulty + tds[b.parent.block];
    tds' := tds[b := externTd];
    SitsMore(m, tds, tds', g, top, b);
    assert Sits(b, tds', g);
    assert Sits(m.currentBlock, tds', g);
    var canonical, failed;
    ghost var f;
    m', canonical, failed, f :=
      WriteBlock(m, tds'.Keys, b, tds'[m.currentBlock], externTd, x.keepOld, x.keepNew, x.coin, g, top);
    if canonical {
      take := Some(Takeover(m.currentBlock, b, f));
      NamesFollow(m.canon, m'.canon, f, m.currentBlock, b, top, tds.Keys, tds'.Keys);
    }
  }

  /** Everything that is stored after the first `i` arrivals. */
  ghost function StoredAfter(g: Block, arrivals: seq<Arrival>, i: nat): set<Block>
    requires i <= |arrivals|
  {
    if i == 0 then {g} else
      var blocks, b := StoredAfter(g, arrivals, i - 1), arrivals[i - 1].block;
      if ParentStored(b, blocks) then blocks + {b} else blocks
  }

  /** The chain at some moment. */
  datatype Stage = Stage(m: Markers, tds: map<Block, nat>)

  /** The chain after each of the first `n` arrivals; `takes` says which of them took over. */
  ghost predicate Recorded(arrivals: seq<Arrival>, stages: seq<Stage>, takes: seq<Option<Takeover>>, n: nat) {
    && n <= |arrivals| && |stages| == n + 1 && |takes| == n
    && forall i :: 0 <= i < n ==>
         Arrived(stages[i].m, stages[i].tds, arrivals[i], stages[i + 1].m, stages[i + 1].tds, takes[i],
           TopOf(takes[..i]))
  }

  lemma RecordedNext(arrivals: seq<Arrival>, stages: seq<Stage>, takes: seq<Option<Takeover>>, n: nat, m: Markers,
                     tds: map<Block, nat>, take: Option<Takeover>)
    requires Recorded(arrivals, stages, takes, n) && n < |arrivals|
    requires Arrived(stages[n].m, stages[n].tds, arrivals[n], m, tds, take, TopOf(takes))
    ensures Recorded(arrivals, stages + [Stage(m, tds)], takes + [take], n + 1)
  {
    var takes' := takes + [take];
    forall i | 0 <= i < n ensures takes'[..i] == takes[..i] {}
    assert takes'[..n] == takes;
  }

  lemma LeadsNext(takes: seq<Option<Takeover>>, g: Block, head: Block, take: Option<Takeover>)
    requires Leads(takes, g, head)
    requires take.Some? ==> take.value.a == head && Forks(take.value.f, head, take.value.b) &&
                            TotalDifficulty(head) <= TotalDifficulty(take.value.b)
    ensures Leads(takes + [take], g, if take.Some? then take.value.b else head)
    ensures TopOf(takes + [take]) == if take.Some? then TopWith(take.value, TopOf(takes)) else TopOf(takes)
  {
    assert (takes + [take])[..|takes|] == takes;
  }

  /** After `i` arrivals. */
  ghost predicate ImportedTo(g: Block, arrivals: seq<Arrival>, i: nat, m: Markers, tds: map<Block, nat>,
                             takes: seq<Option<Takeover>>)
    requires i <= |arrivals|
  {
    && Kept(m, tds, g, TopOf(takes)) && Leads(takes, g, m.currentBlock) && tds.Keys == StoredAfter(g, arrivals, i)
  }

  method ImportNext(g: Block, arrivals: seq<Arrival>, i: nat, m: Markers, tds: map<Block, nat>,
                    ghost takes: seq<Option<Takeover>>)
    returns (m': Markers, tds': map<Block, nat>, ghost take: Option<Takeover>)
    requires i < |arrivals| && ImportedTo(g, arrivals, i, m, tds, takes)
    requires arrivals[i].block.parent.HashOf? ==> arrivals[i].block.number == arrivals[i].block.parent.block.number + 1
    ensures ImportedTo(g, arrivals, i + 1, m', tds', takes + [take])
    ensures Arrived(m, tds, arrivals[i], m', tds', take, TopOf(takes))
  {
    m', tds', take := Arrive(m, tds, arrivals[i], g, TopOf(takes));
    LeadsNext(takes, g, m.currentBlock, take);
  }

  /**
   * Every run from genesis, whatever blocks arrive and in whatever order: the index holds the
   * chain of the head, which is the heaviest of all that is stored, and ends there exactly if the
   * takeovers so far say so.
   */
  method Import(g: Block, arrivals: seq<Arrival>)
    returns (m: Markers, tds: map<Block, nat>, ghost stages: seq<Stage>, ghost takes: seq<Option<Takeover>>)
    requires IsGenesis(g)
    requires forall i :: 0 <= i < |arrivals| && arrivals[i].block.parent.HashOf? ==>
               arrivals[i].block.number == arrivals[i].block.parent.block.number + 1
    ensures tds.Keys == StoredAfter(g, arrivals, |arrivals|) && m.currentBlock in tds
    ensures IndexedUpTo(m.canon, m.currentBlock) && Names(m.canon, tds.Keys)
    ensures forall x :: x in tds ==> Sits(x, tds, g) && tds[x] <= tds[m.currentBlock]
    ensures Recorded(arrivals, stages, takes, |arrivals|) && stages[|arrivals|] == Stage(m, tds)
    ensures stages[0].m.currentBlock == g && stages[0].tds == map[g := g.difficulty]
    ensures Leads(takes, g, m.currentBlock) && Reaches(m.canon, m.currentBlock, TopOf(takes))
    ensures Indexes(m.canon, m.currentBlock) <==> TopOf(takes) == m.currentBlock.number
  {
    m, tds := Markers(map[0 := HashOf(g)], map[], g, g, g), map[g := g.difficulty];
    stages, takes := [Stage(m, tds)], [];
    for i := 0 to |arrivals|
      invariant ImportedTo(g, arrivals, i, m, tds, takes)
      invariant Recorded(arrivals, stages, takes, i) && stages[i] == Stage(m, tds)
      invariant stages[0].m.currentBlock == g && stages[0].tds == map[g := g.difficulty]
    {
      ghost var take;
      m, tds, take := ImportNext(g, arrivals, i, m, tds, takes);
      RecordedNext(arrivals, stages, takes, i, m, tds, take);
      stages, takes := stages + [Stage(m, tds)], takes + [take];
    }
    ReachesHead(m.canon, m.currentBlock, TopOf(takes));
    assert Sits(m.currentBlock, tds, g);
  }

  /** A chain of three blocks on `g`, and another block on `g`. */
  ghost predicate ThreeAndOne(g: Block, a1: Block, a2: Block, a3: Block, b: Block) {
    && IsGenesis(g) && a1.parent == HashOf(g) == b.parent && a2.parent == HashOf(a1) && a3.parent == HashOf(a2)
    && a1.number == b.number == 1 && a2.number == 2 && a3.number == 3 && a1 != b
  }

  /** The single block weighs as much as the three. */
  ghost predicate ThreeAgainstOne(g: Block, a1: Block, a2: Block, a3: Block, b: Block) {
    ThreeAndOne(g, a1, a2, a3, b) && b.difficulty == a1.difficulty + a2.difficulty + a3.difficulty
  }

  function IndexOfFour(g: Block, a1: Block, a2: Block, a3: Block): map<nat, Hash> {
    map[0 := HashOf(g), 1 := HashOf(a1), 2 := HashOf(a2), 3 := HashOf(a3)]
  }

  lemma FourStored(g: Block, a1: Block, a2: Block, a3: Block, b: Block)
    requires ThreeAndOne(g, a1, a2, a3, b)
    ensures Rooted(a1, g) && Rooted(a2, g) && Rooted(a3, g) && Rooted(b, g)
    ensures Complete({g, a1, a2, a3, b}, a3) && Complete({g, a1, a2, a3, b}, b)
  {
    assert Rooted(a1, g) && Rooted(a2, g);
    assert Complete({g, a1, a2, a3, b}, a1) && Complete({g, a1, a2, a3, b}, a2);
  }

  lemma FourIndexed(g: Block, a1: Block, a2: Block, a3: Block, b: Block)
    requires ThreeAgainstOne(g, a1, a2, a3, b)
    ensures TotalDifficulty(a3) == TotalDifficulty(b) && Indexes(IndexOfFour(g, a1, a2, a3), a3)
  {
    assert TotalDifficulty(a1) == a1.difficulty + TotalDifficulty(g);
    assert TotalDifficulty(a2) == a2.difficulty + TotalDifficulty(a1);
    forall n: nat
      ensures ReadCanonical(IndexOfFour(g, a1, a2, a3), n) == if n <= a3.number then Ancestor(a3, n) else Zero
    {
      FourAncestors(g, a1, a2, a3, n);
    }
  }

  lemma FourAncestors(g: Block, a1: Block, a2: Block, a3: Block, n: nat)
    requires IsGenesis(g) && a1.parent == HashOf(g) && a2.parent == HashOf(a1) && a3.parent == HashOf(a2)
    requires a1.number == 1 && a2.number == 2 && a3.number == 3
    ensures n <= 3 ==> Ancestor(a3, n) == HashOf(if n == 0 then g else if n == 1 then a1 else if n == 2 then a2 else a3)
  {
    assert n < 3 ==> Ancestor(a3, n) == Ancestor(a2, n);
    assert n < 2 ==> Ancestor(a2, n) == Ancestor(a1, n);
    assert n < 1 ==> Ancestor(a1, n) == Ancestor(g, n);
  }

  lemma ForkOfFour(f: Branches, g: Block, a1: Block, a2: Block, a3: Block, b: Block)
    requires ThreeAgainstOne(g, a1, a2, a3, b) && Forks(f, a3, b)
    ensures f.common == g && f.newChain == [b] && |f.oldChain| == 3 && f.oldChain[2] == a1
  {
    BranchAt(f.oldChain, a3, f.common);
    BranchAt(f.newChain, b, f.common);
    FourAncestors(g, a1, a2, a3, f.common.number);
    FourAncestors(g, a1, a2, a3, f.common.number + 1);
    assert f.common == g;
    assert f.newChain == [b];
  }

  lemma {:induction false} FoundInBranch(chain: seq<Block>, i: nat, tx: nat)
    requires i < |chain| && tx in chain[i].txs
    ensures FindIn(chain, tx).Some?
  {
    if i != 0 {
      FoundInBranch(chain[1..], i - 1, tx);
    }
  }

  lemma RepeatedBelow(f: Branches, g: Block, a1: Block, a2: Block, a3: Block, b: Block, tx: nat)
    requires ThreeAgainstOne(g, a1, a2, a3, b) && Forks(f, a3, b) && tx in g.txs && tx in a1.txs && tx !in b.txs
    ensures !DropsCleanly(f)
  {
    ForkOfFour(f, g, a1, a2, a3, b);
    FoundInBranch(f.oldChain, 2, tx);
    assert f.newChain[1..] == [];
    assert FindIn(f.newChain, tx).None? && Find(g, tx).Some?;
  }

  /**
   * The single block takes over because it is lower: the entries of the old chain above it stay on
   * the index, and a transaction that the dropped branch repeated is no longer found in the block
   * that still holds it.
   */
  method LowerTakesOver(m0: Markers, g: Block, a1: Block, a2: Block, a3: Block, b: Block, ghost tx: nat)
    returns (m: Markers)
    requires ThreeAgainstOne(g, a1, a2, a3, b) && tx in g.txs && tx in a1.txs && tx !in b.txs
    requires m0.canon == IndexOfFour(g, a1, a2, a3) && m0.currentBlock == a3 && Located(m0.lookup, a3)
    ensures m.currentBlock == b && Reaches(m.canon, b, 3)
    ensures ReadCanonical(m.canon, 2) == HashOf(a2) && ReadCanonical(m.canon, 3) == HashOf(a3)
    ensures !Indexes(m.canon, b) && !Located(m.lookup, b)
  {
    FourStored(g, a1, a2, a3, b);
    FourIndexed(g, a1, a2, a3, b);
    var td := a3.difficulty + a2.difficulty + a1.difficulty + g.difficulty;
    assert TotalDifficulty(a3) == a3.difficulty + TotalDifficulty(a2);
    assert TotalDifficulty(a2) == a2.difficulty + TotalDifficulty(a1);
    ExactReaches(m0.canon, a3, g);
    var canonical, failed;
    ghost var f;
    m, canonical, failed, f := WriteBlock(m0, {g, a1, a2, a3, b}, b, td, td, false, false, false, g, 3);
    ForkOfFour(f, g, a1, a2, a3, b);
    RepeatedBelow(f, g, a1, a2, a3, b, tx);
    FourAncestors(g, a1, a2, a3, 2);
    FourAncestors(g, a1, a2, a3, 3);
    assert ReadCanonical(m.canon, 2) == Ancestor(a3, 2) && ReadCanonical(m.canon, 3) == Ancestor(a3, 3);
  }

  const GENESIS := Block(0, Zero, 1, [7], 0)
  const LONG1 := Block(1, HashOf(GENESIS), 1, [7], 0)
  const LONG2 := Block(2, HashOf(LONG1), 1, [], 0)
  const LONG3 := Block(3, HashOf(LONG2), 1, [], 0)
  const SHORT := Block(1, HashOf(GENESIS), 3, [], 1)
  const CHILD := Block(2, HashOf(SHORT), 1, [], 1)

  /** Such blocks exist. */
  method LeftBehindExample() returns (m: Markers)
    ensures m.currentBlock == SHORT && Reaches(m.canon, SHORT, 3)
    ensures ReadCanonical(m.canon, 2) == HashOf(LONG2) && ReadCanonical(m.canon, 3) == HashOf(LONG3)
    ensures !Indexes(m.canon, SHORT) && !Located(m.lookup, SHORT)
  {
    m := Markers(IndexOfFour(GENESIS, LONG1, LONG2, LONG3), map[7 := 1], LONG3, LONG3, LONG3);
    forall tx ensures ReadLookup(m.lookup, tx) == Find(LONG3, tx) {
      assert Find(LONG3, tx) == Find(LONG2, tx) == Find(LONG1, tx);
      assert Find(LONG1, tx) == if tx == 7 then Some(1) else Find(GENESIS, tx);
      assert tx in GENESIS.txs <==> tx == 7;
    }
    m := LowerTakesOver(m, GENESIS, LONG1, LONG2, LONG3, SHORT, 7);
  }

  /** A child of that head is no lower than the head before it, yet an entry of the old chain stays above it. */
  method ChildLeavesExample() returns (m: Markers)
    ensures m.currentBlock == CHILD && Reaches(m.canon, CHILD, 3) && ReadCanonical(m.canon, 3) == HashOf(LONG3)
    ensures !Indexes(m.canon, CHILD)
  {
    m := LeftBehindExample();
    assert Rooted(SHORT, GENESIS) && Rooted(CHILD, GENESIS);
    assert TotalDifficulty(SHORT) == 4 && TotalDifficulty(CHILD) == 5;
    var blocks := {GENESIS, SHORT, CHILD};
    assert Complete(blocks, SHORT) && Complete(blocks, CHILD);
    var canonical, failed;
    ghost var f;
    m, canonical, failed, f := WriteBlock(m, blocks, CHILD, 4, 5, false, false, false, GENESIS, 3);
    ReachesHead(m.canon, CHILD, 3);
  }
}
