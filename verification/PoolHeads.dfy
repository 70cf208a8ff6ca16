/** From the heads of the chain to what a reset does to the pool. */
module PoolHeads {
  import opened Basics
  import opened Blocks
  import opened Transactions
  import opened TxNoncers
  import opened Reorgs
  import opened Resets
  import opened TxPools
  import opened PoolRuns

  /**
   * What the chain offers: its blocks, the state after each if it is there, their gas limits, and
   * transactions by number.
   */
  datatype Chain = Chain(blocks: set<Block>, stateAt: Block -> Option<State>, gasLimit: Block -> nat, txOf: nat -> Tx)

  /** Executing a block lowers no nonce; `post` is the state after each block. */
  ghost predicate NoncesRise(post: Block -> State) {
    forall b: Block, a: Address :: b.parent.HashOf? ==> NonceOf(post(b.parent.block), a) <= NonceOf(post(b), a)
  }

  /** The states that are there are the right ones. */
  ghost predicate Serves(chain: Chain, post: Block -> State) {
    forall b: Block :: chain.stateAt(b).Some? ==> chain.stateAt(b).value == post(b)
  }

  /** Nor do any number of blocks. */
  lemma {:induction false} NoncesRiseAlong(post: Block -> State, x: Block, b: Block, a: Address)
    requires NoncesRise(post) && Ancestor(b, x.number) == HashOf(x)
    ensures NonceOf(post(x), a) <= NonceOf(post(b), a)
  {
    if x != b {
      NoncesRiseAlong(post, x, b.parent.block, a);
    }
  }

  /** The head change that a move from one head to another means for the pool, as it is after a move along the chain. */
  ghost predicate Along(head: HeadChange, newHead: Block, post: Block -> State) {
    head.Moved? ==> head.reinject == [] && head.state == post(newHead)
  }

  /** The transactions with the given numbers, in the same order. */
  function Named(chain: Chain, numbers: seq<nat>): seq<Tx> {
    seq(|numbers|, i requires 0 <= i < |numbers| => chain.txOf(numbers[i]))
  }

  /** Exactly the transactions that the old branch holds and the new one does not. */
  ghost predicate SetFree(numbers: seq<nat>, f: Branches) {
    forall n :: n in numbers <==> FindIn(f.oldChain, n).Some? && FindIn(f.newChain, n).None?
  }

  /** The walk over the two branches cannot be completed. */
  ghost predicate BlockMissing(chain: Chain, oldHead: Option<Block>, newHead: Block) {
    && oldHead.Some?
    && (oldHead.value !in chain.blocks || !Complete(chain.blocks, oldHead.value) || !Complete(chain.blocks, newHead))
  }

  /** The first part of reset: what is to be reinjected, and the state to follow. */
  method Prepare(chain: Chain, oldHead: Option<Block>, newHead: Block, ghost g: Block, ghost post: Block -> State)
    returns (head: HeadChange, ghost numbers: seq<nat>, ghost f: Option<Branches>)
    requires newHead in chain.blocks && IsGenesis(g) && Rooted(newHead, g)
    requires (oldHead.Some? ==> Rooted(oldHead.value, g)) && Serves(chain, post)
    ensures head.Moved? ==> head == Moved(post(newHead), chain.gasLimit(newHead), Named(chain, numbers))
    ensures oldHead.Some? && Extending(oldHead.value, newHead) ==> Along(head, newHead, post)
    ensures f.Some? ==> oldHead.Some? && Forks(f.value, oldHead.value, newHead) && SetFree(numbers, f.value)
    ensures head.Moved? && f.None? ==>
              numbers == []
                && (oldHead.Some? ==> newHead.parent == HashOf(oldHead.value) || !Shallow(oldHead.value, newHead))
    ensures head.Missing? ==> chain.stateAt(newHead).None? || BlockMissing(chain, oldHead, newHead)
  {
    var found;
    found, f := FindReinject(chain.blocks, oldHead, newHead, g);
    numbers := if found.Some? then found.value else [];
    var state := chain.stateAt(newHead);
    if found.None? || state.None? {
      return Missing, numbers, f;
    }
    head := Moved(state.value, chain.gasLimit(newHead), Named(chain, found.value));
  }

  /** The whole of reset. */
  method ResetHeads(p: Pool, chain: Chain, oldHead: Option<Block>, newHead: Block, rules: Rules,
                    ghost g: Block, ghost post: Block -> State)
    returns (r: Pool, ghost head: HeadChange)
    requires p.Valid() && newHead in chain.blocks && IsGenesis(g) && Rooted(newHead, g)
    requires (oldHead.Some? ==> Rooted(oldHead.value, g)) && Serves(chain, post)
    ensures r.Valid() && r.config == p.config && ResetTo(p, head, r)
    ensures head.Moved? ==> r.state == post(newHead) && r.maxGas == chain.gasLimit(newHead)
    ensures oldHead.Some? && Extending(oldHead.value, newHead) ==> Along(head, newHead, post) && r.known == p.known
  {
    var change, numbers, f := Prepare(chain, oldHead, newHead, g, post);
    head := change;
    r := Reset(p, change, rules);
  }

  /**
   * The heads before and after each event: they change only with the event that tells the pool,
   * and only by extending the chain.
   */
  ghost predicate Follows(heads: seq<Block>, events: seq<Event>, g: Block, post: Block -> State) {
    && |heads| == |events| + 1 && (forall i :: 0 <= i < |heads| ==> Rooted(heads[i], g))
    && forall i {:trigger events[i]} :: 0 <= i < |events| ==>
         if events[i].HeadChanged? then Extending(heads[i], heads[i + 1]) && Along(events[i].head, heads[i + 1], post)
         else heads[i + 1] == heads[i]
  }

  /** The pool's state is always that of the current head or of one of its ancestors. */
  lemma {:induction false} StateBehind(heads: seq<Block>, events: seq<Event>, g: Block, post: Block -> State, i: nat)
    returns (x: Block)
    requires IsGenesis(g) && Follows(heads, events, g, post) && i <= |events|
    ensures Rooted(x, g) && Extending(x, heads[i]) && StateAt(post(heads[0]), events, i) == post(x)
  {
    if i == 0 {
      x := heads[0];
    } else {
      x := StateBehind(heads, events, g, post, i - 1);
      var e := events[i - 1];
      if e.HeadChanged? && e.head.Moved? {
        x := heads[i];
      } else if e.HeadChanged? {
        ExtendingTwice(x, heads[i - 1], heads[i], g);
      }
    }
  }

  lemma ExtendingTwice(x: Block, y: Block, z: Block, g: Block)
    requires IsGenesis(g) && Rooted(z, g) && Extending(x, y) && Extending(y, z)
    ensures Extending(x, z)
  {
    AncestorTwice(z, g, x.number, y.number);
  }

  /** So a history whose heads extend each other is one in which `PoolRuns.Run` keeps every account without a gap. */
  lemma HeadsExtend(heads: seq<Block>, events: seq<Event>, g: Block, post: Block -> State)
    requires IsGenesis(g) && NoncesRise(post) && Follows(heads, events, g, post)
    ensures OnlyExtends(post(heads[0]), events, |events|)
  {
    var state := post(heads[0]);
    forall i | 0 <= i < |events| ensures Extends(StateAt(state, events, i), events[i]) {
      if events[i].HeadChanged? && events[i].head.Moved? {
        var x := StateBehind(heads, events, g, post, i);
        ExtendingTwice(x, heads[i], heads[i + 1], g);
        forall a ensures NonceOf(StateAt(state, events, i), a) <= NonceOf(events[i].head.state, a) {
          NoncesRiseAlong(post, x, heads[i + 1], a);
        }
      }
    }
  }
}
