/**
 * The chain indexer. Its lock is not held while a section is processed, so new heads and
 * reorgs of the canonical chain interleave with the processing. Each method is one locked
 * step; the canonical chain it sees is a parameter, different at every call.
 */
module ChainIndexers {
  import opened Basics
  import opened Blocks
  import Reorgs

  /** The number of the first block of a section. */
  function Start(section: nat, size: nat): nat {
    section * size
  }

  /** The number of the last block of the first `sections` sections. */
  function Last(sections: nat, size: nat): nat
    requires 0 < sections && 0 < size
  {
    StartGrows(1, sections, size);
    Start(sections, size) - 1
  }

  lemma StartNext(section: nat, size: nat)
    ensures Start(section + 1, size) == Start(section, size) + size
  {
  }

  lemma StartGrows(j: nat, k: nat, size: nat)
    requires j <= k
    ensures Start(j, size) <= Start(k, size)
    ensures 0 < size && 0 < j ==> 0 < Start(j, size)
  {
    assert (k - j) * size >= 0;
    assert Start(k, size) == Start(j, size) + (k - j) * size;
  }

  /** From `b` the chain goes down without a break to block number `from`, whose parent is `last`. */
  ghost predicate Unbroken(b: Block, from: nat, last: Hash) {
    from <= b.number &&
    if b.number == from then b.parent == last else
      b.parent.HashOf? && b.number == b.parent.block.number + 1 && Unbroken(b.parent.block, from, last)
  }

  /** The stored head of a section closes a full section on top of the head before it. */
  ghost predicate SectionLinked(heads: map<nat, Hash>, k: nat, size: nat) {
    && k in heads && heads[k].HashOf? && heads[k].block.number + 1 == Start(k + 1, size)
    && (k == 0 || k - 1 in heads) && Unbroken(heads[k].block, Start(k, size), if k == 0 then Zero else heads[k - 1])
  }

  ghost predicate AllLinked(heads: map<nat, Hash>, stored: nat, size: nat) {
    forall k: nat {:trigger SectionLinked(heads, k, size)} :: k < stored ==> SectionLinked(heads, k, size)
  }

  /** The parent of a canonical block is canonical. */
  lemma ParentCanonical(head: Block, g: Block, b: Block)
    requires IsGenesis(g) && Rooted(head, g) && 0 < b.number <= head.number && Ancestor(head, b.number) == HashOf(b)
    ensures Ancestor(head, b.number - 1) == b.parent
  {
    AncestorExists(head, g, b.number);
    AncestorTwice(head, g, b.number - 1, b.number);
    assert b != g;
    assert Ancestor(b.parent.block, b.number - 1) == b.parent;
  }

  lemma {:induction false} UnbrokenCanonical(head: Block, g: Block, b: Block, from: nat, last: Hash)
    requires IsGenesis(g) && Rooted(head, g) && b.number <= head.number && Ancestor(head, b.number) == HashOf(b)
    requires Unbroken(b, from, last) && 0 < from
    ensures Ancestor(head, from - 1) == last
    decreases b.number
  {
    ParentCanonical(head, g, b);
    if b.number != from {
      UnbrokenCanonical(head, g, b.parent.block, from, last);
    }
  }

  /** Checking the last section head is enough: if it is canonical, so are all the others. */
  lemma {:induction false} LastHeadSuffices(heads: map<nat, Hash>, stored: nat, size: nat, head: Block, g: Block,
                                            k: nat)
    requires IsGenesis(g) && Rooted(head, g) && 0 < size && AllLinked(heads, stored, size) && k < stored
    requires Start(stored, size) <= head.number + 1 && heads.Keys >= {stored - 1}
    requires heads[stored - 1] == Ancestor(head, Start(stored, size) - 1)
    ensures k in heads && Start(k + 1, size) <= head.number + 1 && heads[k] == Ancestor(head, Start(k + 1, size) - 1)
    decreases stored - k
  {
    if k < stored - 1 {
      LastHeadSuffices(heads, stored, size, head, g, k + 1);
      assert SectionLinked(heads, k + 1, size);
      StartGrows(k + 1, k + 2, size);
      UnbrokenCanonical(head, g, heads[k + 1].block, Start(k + 1, size), heads[k]);
    }
  }

  /** Every stored section head is the block of `head`'s chain at the end of its section. */
  ghost predicate OnChain(heads: map<nat, Hash>, stored: nat, size: nat, head: Block) {
    forall k: nat {:trigger OnChainAt(heads, k, size, head)} :: k < stored ==> OnChainAt(heads, k, size, head)
  }

  ghost predicate OnChainAt(heads: map<nat, Hash>, k: nat, size: nat, head: Block) {
    k in heads && 0 < size && Last(k + 1, size) <= head.number && heads[k] == Ancestor(head, Last(k + 1, size))
  }

  /** The index agrees with the head of the last of the first `sections` sections. */
  predicate Agrees(heads: map<nat, Hash>, sections: nat, size: nat, canon: map<nat, Hash>)
    requires 0 < sections && 0 < size
  {
    SectionHead(heads, sections - 1) == ReadCanonical(canon, Last(sections, size))
  }

  /** How many sections are left when those are dropped from the top whose head is not on the index. */
  function Verified(heads: map<nat, Hash>, stored: nat, size: nat, canon: map<nat, Hash>): nat
    requires 0 < size
  {
    if stored == 0 || Agrees(heads, stored, size, canon) then stored else Verified(heads, stored - 1, size, canon)
  }

  lemma {:induction false} VerifiedIsHighest(heads: map<nat, Hash>, stored: nat, size: nat, canon: map<nat, Hash>)
    requires 0 < size
    ensures var s := Verified(heads, stored, size, canon);
            && s <= stored && (0 < s ==> Agrees(heads, s, size, canon))
            && forall j: nat :: s < j <= stored ==> !Agrees(heads, j, size, canon)
  {
    if stored != 0 && !Agrees(heads, stored, size, canon) {
      VerifiedIsHighest(heads, stored - 1, size, canon);
    }
  }

  /** No section that ends above the head finds its own head on the index. */
  ghost predicate NothingStale(heads: map<nat, Hash>, stored: nat, size: nat, canon: map<nat, Hash>, head: Block)
    requires 0 < size
  {
    forall j: nat :: 0 < j <= stored && head.number < Last(j, size) ==> !Agrees(heads, j, size, canon)
  }

  /**
   * What is left after verification is on the chain of the head if and only if no stored section
   * above the head is vouched for by an index entry that was left behind there.
   */
  lemma VerifiedOnChain(heads: map<nat, Hash>, stored: nat, size: nat, canon: map<nat, Hash>, head: Block, g: Block)
    requires IsGenesis(g) && Rooted(head, g) && IndexedUpTo(canon, head) && 0 < size && AllLinked(heads, stored, size)
    ensures OnChain(heads, Verified(heads, stored, size, canon), size, head) <==>
              NothingStale(heads, stored, size, canon, head)
  {
    var s := Verified(heads, stored, size, canon);
    VerifiedIsHighest(heads, stored, size, canon);
    if 0 < s && Last(s, size) <= head.number {
      assert SectionLinked(heads, s - 1, size);
      forall k: nat | k < s ensures OnChainAt(heads, k, size, head) {
        LastHeadSuffices(heads, s, size, head, g, k);
        StartGrows(1, k + 1, size);
      }
      forall j: nat | 0 < j <= stored && head.number < Last(j, size) ensures !Agrees(heads, j, size, canon) {
        if j <= s {
          StartGrows(j, s, size);
        }
      }
    } else if 0 < s {
      assert !OnChainAt(heads, s - 1, size, head);
    }
  }

  /** In particular an index that ends at the head vouches for nothing but its chain. */
  lemma ExactIndexSuffices(heads: map<nat, Hash>, stored: nat, size: nat, canon: map<nat, Hash>, head: Block, g: Block)
    requires IsGenesis(g) && Rooted(head, g) && Indexes(canon, head) && 0 < size && AllLinked(heads, stored, size)
    ensures OnChain(heads, Verified(heads, stored, size, canon), size, head)
  {
    VerifiedOnChain(heads, stored, size, canon, head, g);
    forall j: nat | 0 < j <= stored && head.number < Last(j, size) ensures !Agrees(heads, j, size, canon) {
      assert SectionLinked(heads, j - 1, size);
    }
  }

  /** The event loop takes `header`, which follows `prev`, for the head of another branch. */
  predicate SeesReorg(prev: Block, header: Block, canon: map<nat, Hash>) {
    header.parent != HashOf(prev) && ReadCanonical(canon, prev.number) != HashOf(prev)
  }

  /** It is right about every earlier head that is no higher; a higher one is missed if its entry was left behind. */
  lemma ReorgSeen(prev: Block, header: Block, canon: map<nat, Hash>, g: Block)
    requires IsGenesis(g) && Rooted(prev, g) && Rooted(header, g) && IndexedUpTo(canon, header)
    ensures SeesReorg(prev, header, canon) ==> Ancestor(header, prev.number) != HashOf(prev)
    ensures Ancestor(header, prev.number) != HashOf(prev) ==>
              (SeesReorg(prev, header, canon) <==>
                prev.number <= header.number || ReadCanonical(canon, prev.number) != HashOf(prev))
  {
    if header.parent == HashOf(prev) {
      assert Ancestor(header, prev.number) == HashOf(prev);
    }
    if header.number < prev.number {
      NoAncestorAbove(header, g, prev.number);
    }
  }

  lemma {:induction false} NoAncestorAbove(b: Block, g: Block, n: nat)
    requires IsGenesis(g) && Rooted(b, g) && b.number < n
    ensures Ancestor(b, n) == Zero
  {
    if b != g {
      NoAncestorAbove(b.parent.block, g, n);
    }
  }

  /**
   * With the index that a lower block of equal weight leaves behind, neither the event loop nor
   * verification finds the section heads of the old branch.
   */
  method MissedExample() returns (canon: map<nat, Hash>, heads: map<nat, Hash>)
    ensures IndexedUpTo(canon, Reorgs.SHORT) && AllLinked(heads, 4, 1) && Verified(heads, 4, 1, canon) == 4
    ensures !OnChain(heads, 4, 1, Reorgs.SHORT) && !SeesReorg(Reorgs.LONG3, Reorgs.SHORT, canon)
  {
    var m := Reorgs.LeftBehindExample();
    canon := m.canon;
    heads := Reorgs.IndexOfFour(Reorgs.GENESIS, Reorgs.LONG1, Reorgs.LONG2, Reorgs.LONG3);
    assert !OnChainAt(heads, 3, 1, Reorgs.SHORT);
  }

  /** What reading the canonical block of each number of a section gave, one read after the other. */
  predicate Reads(seen: seq<Option<Block>>, section: nat, size: nat) {
    |seen| == size && forall i :: 0 <= i < |seen| && seen[i].Some? ==> seen[i].value.number == Start(section, size) + i
  }

  /** The result of processing: the head of a full section on top of `lastHead`. */
  ghost predicate Closes(head: Hash, section: nat, size: nat, lastHead: Hash) {
    head.HashOf? && head.block.number + 1 == Start(section + 1, size)
      && Unbroken(head.block, Start(section, size), lastHead)
  }

  /** The first `n` reads found a block each, on top of each other and of `lastHead`. */
  ghost predicate LinksUp(seen: seq<Option<Block>>, lastHead: Hash, n: nat) {
    n <= |seen| && forall i :: 0 <= i < n ==> seen[i].Some? && seen[i].value.parent == HashBefore(seen, lastHead, i)
  }

  ghost function HashBefore(seen: seq<Option<Block>>, lastHead: Hash, i: nat): Hash
    requires i < |seen|
  {
    if i == 0 then lastHead else if seen[i - 1].Some? then HashOf(seen[i - 1].value) else Zero
  }

  /**
   * Processes a section while the canonical chain may change: `seen[i]` is what was canonical
   * when the block in position `i` was looked up, `fails` a failure of the backend.
   */
  method ProcessSection(size: nat, section: nat, lastHead0: Hash, seen: seq<Option<Block>>, fails: bool)
    returns (newHead: Option<Hash>)
    requires 0 < size && Reads(seen, section, size)
    ensures newHead == if LinksUp(seen, lastHead0, size) && !fails then Some(HashOf(seen[size - 1].value)) else None
    ensures newHead.Some? ==> Closes(newHead.value, section, size, lastHead0)
    ensures newHead.None? ==> fails || !(exists b :: Closes(HashOf(b), section, size, lastHead0) && Shows(seen, b))
  {
    var lastHead := lastHead0;
    StartNext(section, size);
    for i := 0 to size
      invariant LinksUp(seen, lastHead0, i) && (i == 0 ==> lastHead == lastHead0)
      invariant 0 < i ==> lastHead.HashOf? && lastHead.block.number == Start(section, size) + i - 1 &&
                          Unbroken(lastHead.block, Start(section, size), lastHead0)
                            && seen[i - 1] == Some(lastHead.block)
    {
      assert lastHead == HashBefore(seen, lastHead0, i);
      if seen[i].None? || seen[i].value.parent != lastHead {
        BreaksOff(seen, section, size, lastHead0, i);
        return None;
      }
      lastHead := HashOf(seen[i].value);
    }
    newHead := if fails then None else Some(lastHead);
  }

  lemma BreaksOff(seen: seq<Option<Block>>, section: nat, size: nat, lastHead: Hash, i: nat)
    requires Reads(seen, section, size) && i < size
    requires seen[i].None? || seen[i].value.parent != HashBefore(seen, lastHead, i)
    ensures !LinksUp(seen, lastHead, size)
    ensures !exists b :: Closes(HashOf(b), section, size, lastHead) && Shows(seen, b)
  {
    forall b | Closes(HashOf(b), section, size, lastHead) && Shows(seen, b) ensures false {
      ShownBelow(seen, b, section, size, lastHead, i);
    }
  }

  /** Every read found the block of `b`'s chain. */
  ghost predicate Shows(seen: seq<Option<Block>>, b: Block) {
    forall i :: 0 <= i < |seen| ==> seen[i].Some? && Ancestor(b, seen[i].value.number) == HashOf(seen[i].value)
  }

  /** If all seen show one chain, each block read is the parent of the next. */
  lemma ShownBelow(seen: seq<Option<Block>>, b: Block, section: nat, size: nat, lastHead: Hash, i: nat)
    requires Reads(seen, section, size) && Closes(HashOf(b), section, size, lastHead) && Shows(seen, b) && i < size
    ensures seen[i].Some? && seen[i].value.parent == if i == 0 then lastHead else HashOf(seen[i - 1].value)
  {
    StartNext(section, size);
    UnbrokenParent(b, Start(section, size), lastHead, seen[i].value.number);
  }

  lemma {:induction false} UnbrokenParent(b: Block, from: nat, last: Hash, n: nat)
    requires Unbroken(b, from, last) && from <= n <= b.number
    ensures Ancestor(b, n).HashOf? && Ancestor(b, n).block.parent == if n == from then last else Ancestor(b, n - 1)
  {
    if n < b.number {
      UnbrokenParent(b.parent.block, from, last, n);
    } else if n != from {
      assert Ancestor(b.parent.block, n - 1) == b.parent;
    }
  }

  /** A section being processed without the lock, and the head it builds on. */
  datatype Job = Job(section: nat, oldHead: Hash)

  /** The head that the job builds on is still stored. */
  predicate OldHeadStays(job: Job, heads: map<nat, Hash>) {
    job.section == 0 || job.oldHead == SectionHead(heads, job.section - 1)
  }

  function SectionHead(heads: map<nat, Hash>, section: nat): Hash {
    if section in heads then heads[section] else Zero
  }

  lemma LinkedFewer(heads: map<nat, Hash>, stored: nat, size: nat)
    requires AllLinked(heads, stored + 1, size)
    ensures AllLinked(heads - {stored}, stored, size)
  {
    forall k: nat | k < stored ensures SectionLinked(heads - {stored}, k, size) {
      assert SectionLinked(heads, k, size);
    }
  }

  lemma LinkedMore(heads: map<nat, Hash>, stored: nat, size: nat, head: Hash)
    requires AllLinked(heads, stored, size) && (stored == 0 || stored - 1 in heads)
    requires Closes(head, stored, size, if stored == 0 then Zero else heads[stored - 1])
    ensures AllLinked(heads[stored := head], stored + 1, size)
  {
    var heads' := heads[stored := head];
    forall k: nat | k < stored + 1 ensures SectionLinked(heads', k, size) {
      if k < stored {
        assert SectionLinked(heads, k, size);
      }
    }
  }

  /**
   * What can happen, in any order; each step that looks at the index may find any contents, even
   * a half written one.
   */
  datatype Step =
    | HeadSeen(number: nat, reorg: bool)
    | UpdateDue(canon: map<nat, Hash>)
    | ResetDrops
    | SectionRead(seen: seq<Option<Block>>, fails: bool, canon: map<nat, Hash>)
    | SectionsAsked(canon: map<nat, Hash>)

  /** What one sees of an indexer. */
  datatype Snapshot = Snapshot(stored: nat, known: nat, heads: map<nat, Hash>, job: Option<Job>)

  ghost function Upto(heads: map<nat, Hash>, n: nat): map<nat, Hash> {
    map k | k in heads && k < n :: heads[k]
  }

  lemma UptoIs(heads: map<nat, Hash>, heads': map<nat, Hash>, n: nat)
    requires forall k: nat :: k in heads' <==> k < n
    requires forall k :: k in heads' ==> k in heads && heads'[k] == heads[k]
    ensures heads' == Upto(heads, n)
  {
  }

  ghost function RolledBack(s: Snapshot, n: nat): Snapshot {
    s.(stored := n, heads := Upto(s.heads, n))
  }

  /** A head moves the known sections on, a reorg takes known and stored sections back. */
  ghost function Told(s: Snapshot, size: nat, confirms: nat, head: nat, reorg: bool): Snapshot
    requires 0 < size
  {
    if reorg then
      RolledBack(s, Min(s.stored, (head + 1) / size)).(known := Min(s.known, (head + 1) / size))
    else if confirms <= head then s.(known := Max(s.known, (head + 1 - confirms) / size)) else s
  }

  /** What the index does not vouch for is dropped. */
  ghost function Checked(s: Snapshot, size: nat, canon: map<nat, Hash>): Snapshot
    requires 0 < size
  {
    RolledBack(s, Verified(s.heads, s.stored, size, canon))
  }

  /** If sections are due, the next one is taken on, on top of what is left. */
  ghost function Taken(s: Snapshot, size: nat, canon: map<nat, Hash>): Snapshot
    requires 0 < size
  {
    if s.known <= s.stored then s else
      var t := Checked(s, size, canon);
      t.(job := Some(Job(t.stored, if t.stored == 0 then Zero else SectionHead(t.heads, t.stored - 1))))
  }

  /** The section is committed if the head it builds on is still stored. */
  ghost function Finished(s: Snapshot, size: nat, newHead: Option<Hash>, canon: map<nat, Hash>): Snapshot
    requires 0 < size && s.job.Some?
  {
    var k := s.job.value.section;
    if newHead.Some? && OldHeadStays(s.job.value, s.heads) then
      s.(stored := k + 1, heads := s.heads[k := newHead.value], job := None)
    else
      var t := Checked(s, size, canon);
      t.(known := t.stored, job := None)
  }

  /** The effect of each step; one that is not possible when its turn comes is passed over. */
  ghost function Next(s: Snapshot, size: nat, confirms: nat, step: Step): Snapshot
    requires 0 < size
  {
    match step
    case HeadSeen(number, reorg) => Told(s, size, confirms, number, reorg)
    case UpdateDue(canon) => if s.job.Some? then s else Taken(s, size, canon)
    case ResetDrops => if s.job.None? || s.stored == 0 then s else RolledBack(s, s.stored - 1)
    case SectionRead(seen, fails, canon) =>
      if s.job.None? || !Reads(seen, s.job.value.section, size) then s else
        var closes := LinksUp(seen, s.job.value.oldHead, size) && !fails;
        Finished(s, size, if closes then Some(HashOf(seen[size - 1].value)) else None, canon)
    case SectionsAsked(canon) => Checked(s, size, canon)
  }

  ghost function After(size: nat, confirms: nat, steps: seq<Step>, i: nat): Snapshot
    requires 0 < size && i <= |steps|
  {
    if i == 0 then Snapshot(0, 0, map[], None)
    else Next(After(size, confirms, steps, i - 1), size, confirms, steps[i - 1])
  }

  class ChainIndexer {
    const sectionSize: nat
    const confirmsReq: nat
    var storedSections: nat
    var knownSections: nat
    var cascadedHead: nat
    var heads: map<nat, Hash>
    var job: Option<Job>

    /**
     * There is a head for exactly the stored sections, each closing a full section on top of
     * the one before; and while a section is processed, no section beyond it is stored.
     */
    ghost predicate Valid()
      reads this
    {
      && 0 < sectionSize
      && (forall k: nat :: k in heads <==> k < storedSections)
      && AllLinked(heads, storedSections, sectionSize)
      && (job.Some? ==> storedSections <= job.value.section && (job.value.oldHead == Zero <==> job.value.section == 0))
    }

    ghost function Now(): Snapshot
      reads this
    {
      Snapshot(storedSections, knownSections, heads, job)
    }

    constructor (size: nat, confirms: nat)
      requires 0 < size
      ensures Valid() && sectionSize == size && confirmsReq == confirms && Now() == Snapshot(0, 0, map[], None)
    {
      sectionSize, confirmsReq := size, confirms;
      storedSections, knownSections, cascadedHead, heads, job := 0, 0, 0, map[], None;
    }

    /** Rolls the stored sections back. */
    method RollBack(sections: nat)
      requires Valid() && sections <= storedSections
      modifies this`storedSections, this`heads
      ensures Valid() && Now() == RolledBack(old(Now()), sections)
    {
      while sections < storedSections
        invariant sections <= storedSections <= old(storedSections) && Valid()
        invariant forall k :: k in heads ==> k in old(heads) && heads[k] == old(heads)[k]
      {
        storedSections := storedSections - 1;
        LinkedFewer(heads, storedSections, sectionSize);
        heads := heads - {storedSections};
      }
      UptoIs(old(heads), heads, sections);
    }

    /** A new head or, if `reorg`, the block at which the chain forked; can come at any time. */
    method NewHead(head: nat, reorg: bool)
      requires Valid()
      modifies this
      ensures Valid() && Now() == Told(old(Now()), sectionSize, confirmsReq, head, reorg)
    {
      UptoIs(heads, heads, storedSections);
      if reorg {
        var known := (head + 1) / sectionSize;
        if known < knownSections {
          knownSections := known;
        }
        if known < storedSections {
          RollBack(known);
        }
        if known * sectionSize < cascadedHead {
          cascadedHead := known * sectionSize;
        }
      } else if confirmsReq <= head {
        var sections := (head + 1 - confirmsReq) / sectionSize;
        if knownSections < sections {
          knownSections := sections;
        }
      }
    }

    /** Rolls back until the last stored head is on the index. */
    method VerifyLastHead(canon: map<nat, Hash>)
      requires Valid()
      modifies this`storedSections, this`heads
      ensures Valid() && Now() == Checked(old(Now()), sectionSize, canon)
    {
      while 0 < storedSections && !Agrees(heads, storedSections, sectionSize, canon)
        invariant Valid()
                    && Verified(old(heads), old(storedSections), sectionSize, canon) ==
                         Verified(old(heads), storedSections, sectionSize, canon)
        invariant forall k :: k in heads ==> k in old(heads) && heads[k] == old(heads)[k]
      {
        RollBack(storedSections - 1);
      }
      UptoIs(old(heads), heads, storedSections);
    }

    /** The update loop picks the next section to process and gives up the lock. */
    method Begin(canon: map<nat, Hash>)
      requires Valid() && job == None
      modifies this
      ensures Valid() && Now() == Taken(old(Now()), sectionSize, canon)
    {
      if storedSections < knownSections {
        VerifyLastHead(canon);
        var oldHead := Zero;
        if 0 < storedSections {
          assert SectionLinked(heads, storedSections - 1, sectionSize);
          oldHead := SectionHead(heads, storedSections - 1);
        }
        job := Some(Job(storedSections, oldHead));
      }
    }

    /** Resetting the backend fails: all sections are dropped. */
    method ResetFails()
      requires Valid() && job.Some?
      modifies this`storedSections, this`heads
      ensures Valid() && storedSections == 0
    {
      while 0 < storedSections
        invariant Valid()
      {
        DropOne();
      }
    }

    /** One step of dropping all sections; it is done without the lock, so that others can come in between. */
    method DropOne()
      requires Valid() && job.Some? && 0 < storedSections
      modifies this`storedSections, this`heads
      ensures Valid() && Now() == RolledBack(old(Now()), old(storedSections) - 1)
    {
      RollBack(storedSections - 1);
    }

    /** The update loop has the lock again and commits the section unless a reorg got in the way. */
    method Finish(newHead: Option<Hash>, canon: map<nat, Hash>) returns (committed: bool)
      requires Valid() && job.Some?
      requires newHead.Some? ==> Closes(newHead.value, job.value.section, sectionSize, job.value.oldHead)
      modifies this
      ensures Valid() && Now() == Finished(old(Now()), sectionSize, newHead, canon)
      ensures committed <==> newHead.Some? && OldHeadStays(old(job).value, old(heads))
    {
      var section := job.value.section;
      committed := newHead.Some? && OldHeadStays(job.value, heads);
      if committed {
        LinkedMore(heads, section, sectionSize, newHead.value);
        heads := heads[section := newHead.value];
        storedSections := section + 1;
        StartGrows(1, storedSections, sectionSize);
        cascadedHead := Start(storedSections, sectionSize) - 1;
      } else {
        VerifyLastHead(canon);
        knownSections := storedSections;
      }
      job := None;
    }

    /** The number of sections, the last block they cover, wrapping around if there is none, and its hash. */
    method Sections(canon: map<nat, Hash>) returns (sections: nat, last: nat, hash: Hash)
      requires Valid()
      modifies this`storedSections, this`heads
      ensures Valid() && sections == storedSections && Now() == Checked(old(Now()), sectionSize, canon)
      ensures sections == 0 ==> last == 0xFFFF_FFFF_FFFF_FFFF && hash == Zero
      ensures 0 < sections ==>
                last + 1 == Start(sections, sectionSize) && hash == ReadCanonical(canon, last) && hash != Zero
    {
      VerifiedIsHighest(heads, storedSections, sectionSize, canon);
      VerifyLastHead(canon);
      sections := storedSections;
      if sections == 0 {
        return 0, 0xFFFF_FFFF_FFFF_FFFF, Zero;
      }
      StartGrows(1, sections, sectionSize);
      assert SectionLinked(heads, sections - 1, sectionSize);
      last, hash := Start(sections, sectionSize) - 1, SectionHead(heads, sections - 1);
    }
  }

  method Take(c: ChainIndexer, step: Step)
    requires c.Valid()
    modifies c
    ensures c.Valid() && c.Now() == Next(old(c.Now()), c.sectionSize, c.confirmsReq, step)
  {
    match step {
      case HeadSeen(number, reorg) => c.NewHead(number, reorg);
      case UpdateDue(canon) =>
        if c.job == None {
          c.Begin(canon);
        }
      case ResetDrops =>
        if c.job.Some? && 0 < c.storedSections {
          c.DropOne();
        }
      case SectionRead(seen, fails, canon) =>
        if c.job.Some? && Reads(seen, c.job.value.section, c.sectionSize) {
          var newHead := ProcessSection(c.sectionSize, c.job.value.section, c.job.value.oldHead, seen, fails);
          var committed := c.Finish(newHead, canon);
        }
      case SectionsAsked(canon) => var n, last, hash := c.Sections(canon);
    }
  }

  /** Every interleaving of the steps: each has its effect, and the stored heads stay linked. */
  method Interleave(size: nat, confirms: nat, steps: seq<Step>) returns (c: ChainIndexer)
    requires 0 < size
    ensures fresh(c) && c.Valid() && c.sectionSize == size && c.Now() == After(size, confirms, steps, |steps|)
  {
    c := new ChainIndexer(size, confirms);
    for i := 0 to |steps|
      invariant fresh(c) && c.Valid() && c.sectionSize == size && c.confirmsReq == confirms
      invariant c.Now() == After(size, confirms, steps, i)
    {
      Take(c, steps[i]);
    }
  }
}
