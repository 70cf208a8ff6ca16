/** The part of the pool's reset that finds the transactions a head change sets free. */
module Resets {
  import opened Basics
  import opened Blocks
  import opened Reorgs

  /** The transactions of a branch, in the order in which the walk meets them. */
  function Concat(chain: seq<Block>): seq<nat> {
    if chain == [] then [] else Concat(chain[..|chain| - 1]) + chain[|chain| - 1].txs
  }

  lemma {:induction false} ConcatBoth(a: seq<Block>, b: seq<Block>)
    ensures Concat(a + b) == Concat(a) + Concat(b)
  {
    if b == [] {
      assert a + b == a;
    } else {
      ConcatBoth(a, b[..|b| - 1]);
      assert (a + b)[..|a + b| - 1] == a + b[..|b| - 1];
    }
  }

  lemma {:induction false} ConcatFinds(chain: seq<Block>, tx: nat)
    ensures tx in Concat(chain) <==> FindIn(chain, tx).Some?
  {
    if chain != [] {
      ConcatFinds(chain[1..], tx);
      assert chain == [chain[0]] + chain[1..];
      ConcatBoth([chain[0]], chain[1..]);
      assert Concat([chain[0]]) == chain[0].txs by { assert [chain[0]][..0] == []; }
    }
  }

  /** `a` without the transactions that occur in `b`, in the same order. */
  function Difference(a: seq<nat>, b: seq<nat>): (r: seq<nat>)
    ensures forall tx :: tx in r <==> tx in a && tx !in b
  {
    if a == [] then [] else
      var last := a[|a| - 1];
      assert a == a[..|a| - 1] + [last];
      Difference(a[..|a| - 1], b) + if last in b then [] else [last]
  }

  method TxDifference(a: seq<nat>, b: seq<nat>) returns (keep: seq<nat>)
    ensures keep == Difference(a, b)
  {
    var remove := set tx | tx in b;
    keep := [];
    for i := 0 to |a|
      invariant keep == Difference(a[..i], b)
    {
      assert a[..i + 1][..i] == a[..i];
      if a[i] !in remove {
        keep := keep + [a[i]];
      }
    }
    assert a[..|a|] == a;
  }

  method Gather(chain: seq<Block>) returns (txs: seq<nat>)
    ensures txs == Concat(chain)
  {
    txs := [];
    for i := 0 to |chain|
      invariant txs == Concat(chain[..i])
    {
      assert chain[..i + 1][..i] == chain[..i];
      txs := txs + chain[i].txs;
    }
    assert chain[..|chain|] == chain;
  }

  /** If `a` is on the chain of `b`, its branch is empty. */
  lemma NothingDropped(f: Branches, a: Block, b: Block, g: Block)
    requires IsGenesis(g) && Rooted(a, g) && Rooted(b, g) && Forks(f, a, b)
    requires a.number <= b.number && Ancestor(b, a.number) == HashOf(a)
    ensures f.oldChain == []
  {
    BranchAt(f.oldChain, a, f.common);
    BranchAt(f.newChain, b, f.common);
    if f.oldChain != [] {
      AncestorTwice(b, g, f.common.number + 1, a.number);
    }
  }

  /** How far apart two heads may be for their branches to be compared. */
  predicate Shallow(a: Block, b: Block) {
    a.number <= b.number + 64 && b.number <= a.number + 64
  }

  /** The new head follows the old one: it is its child, or the old one is on its chain. */
  ghost predicate Extending(a: Block, b: Block) {
    a.number <= b.number && Ancestor(b, a.number) == HashOf(a)
  }

  /**
   * The transactions to reinject, or nothing if a block is missing and the reset is given up.
   * When the new head extends the chain there are none; otherwise they are exactly those of
   * the old branch that are not on the new branch.
   */
  method FindReinject(blocks: set<Block>, oldHead: Option<Block>, newHead: Block, ghost g: Block)
    returns (r: Option<seq<nat>>, ghost f: Option<Branches>)
    requires newHead in blocks && IsGenesis(g) && Rooted(newHead, g) && (oldHead.Some? ==> Rooted(oldHead.value, g))
    ensures oldHead.Some? && Extending(oldHead.value, newHead) && r.Some? ==> r.value == []
    ensures f.Some? ==> oldHead.Some? && Forks(f.value, oldHead.value, newHead) && r.Some?
    ensures f.Some? ==> forall tx :: tx in r.value <==>
              FindIn(f.value.oldChain, tx).Some? && FindIn(f.value.newChain, tx).None?
    ensures f.None? && r.Some? ==>
              r.value == []
                && (oldHead.Some? ==> newHead.parent == HashOf(oldHead.value) || !Shallow(oldHead.value, newHead))
    ensures r.None? ==>
              oldHead.Some?
                && (oldHead.value !in blocks || !Complete(blocks, oldHead.value) || !Complete(blocks, newHead))
  {
    r, f := Some([]), None;
    if oldHead.None? || HashOf(oldHead.value) == newHead.parent || !Shallow(oldHead.value, newHead) {
      return;
    }
    var rem := GetBlock(blocks, HashOf(oldHead.value), oldHead.value.number);
    if rem.None? {
      return None, None;
    }
    AncestorExists(oldHead.value, g, 0);
    AncestorExists(newHead, g, 0);
    var branches := Collect(blocks, oldHead.value, newHead);
    if branches.None? {
      return None, None;
    }
    f := branches;
    var discarded := Gather(branches.value.oldChain);
    var included := Gather(branches.value.newChain);
    var reinject := TxDifference(discarded, included);
    forall tx ensures tx in reinject <==>
      FindIn(branches.value.oldChain, tx).Some? && FindIn(branches.value.newChain, tx).None? {
      ConcatFinds(branches.value.oldChain, tx);
      ConcatFinds(branches.value.newChain, tx);
    }
    if Extending(oldHead.value, newHead) {
      NothingDropped(branches.value, oldHead.value, newHead, g);
    }
    r := Some(reinject);
  }
}
