/** The header chain: fork choice by total difficulty and re-routing of the canonical index. */
module HeaderChains {
  import opened Basics
  import opened Blocks

  datatype WriteStatus = UnknownAncestor | Side | Canon

  /** `b` descends from `g`, and its parent is there. */
  ghost predicate Linked(b: Block, g: Block, headers: set<Block>) {
    Rooted(b, g) && (b == g || (b.parent.HashOf? && b.parent.block in headers))
  }

  /** What is stored on disk. */
  datatype Db = Db(headers: set<Block>, tds: map<Hash, nat>, canon: map<nat, Hash>) {

    /** Every stored header has its whole ancestor chain stored, and the sum of difficulties along it. */
    ghost predicate Stored(g: Block) {
      && IsGenesis(g) && g in headers
      && (forall b {:trigger Linked(b, g, headers)} :: b in headers ==> Linked(b, g, headers))
      && (forall b :: b in headers <==> HashOf(b) in tds)
      && (forall h :: h in tds ==> h.HashOf? && tds[h] == TotalDifficulty(h.block))
    }

    /** No stored header outweighs `head`. */
    ghost predicate Heaviest(head: Block) {
      forall b :: b in headers ==> TotalDifficulty(b) <= TotalDifficulty(head)
    }

    function Header(hash: Hash): Option<Block> {
      if hash.HashOf? && hash.block in headers then Some(hash.block) else None
    }

    function Td(hash: Hash): Option<nat> {
      if hash in tds then Some(tds[hash]) else None
    }

    /** Reading by hash and number finds nothing under another number. */
    function ReadTd(hash: Hash, number: int): Option<nat> {
      if hash in tds && hash.HashOf? && hash.block.number == number then Some(tds[hash]) else None
    }
  }

  ghost predicate Consistent(db: Db, g: Block, head: Block) {
    db.Stored(g) && head in db.headers && Indexes(db.canon, head) && db.Heaviest(head)
  }

  /** The entries written so far lead from `b` down to, but not including, `number`. */
  ghost predicate Rerouted(batch: Batch, before: Batch, b: Block, number: nat) {
    forall n: nat ::
      && (n in batch <==> n in before || number < n < b.number)
      && (n in batch ==> batch[n] == if number < n < b.number then Ancestor(b, n) else before[n])
  }

  /** Where the re-routing stands: at the ancestor `b'` of `b`. */
  ghost predicate At(db: Db, batch: Batch, batch0: Batch, b: Block, b': Block) {
    b' in db.headers && b'.number < b.number && Ancestor(b, b'.number) == HashOf(b')
      && Rerouted(batch, batch0, b, b'.number)
  }

  lemma StepDown(db: Db, batch: Batch, batch0: Batch, b: Block, b': Block, head: Block, g: Block)
    requires db.Stored(g) && head in db.headers && Indexes(db.canon, head) && Rooted(b, g)
    requires At(db, batch, batch0, b, b') && ReadCanonical(db.canon, b'.number) != HashOf(b')
    ensures b'.parent.HashOf? && b'.number == b'.parent.block.number + 1
    ensures At(db, batch[b'.number := HashOf(b')], batch0, b, b'.parent.block)
  {
    assert Linked(head, g, db.headers) && Linked(b', g, db.headers);
    AncestorExists(head, g, 0);
    assert b' != g;
    AncestorTwice(b, g, b'.number - 1, b'.number);
  }

  /** Overwrites stale index entries along the ancestors of `b`, down to where the index already has them. */
  method OverwriteStale(db: Db, batch0: Batch, b: Block, ghost head: Block, ghost g: Block)
    returns (batch: Batch, fork: nat)
    requires db.Stored(g) && head in db.headers && Indexes(db.canon, head)
    requires b.parent.HashOf? && b.parent.block in db.headers && b.number == b.parent.block.number + 1
    ensures fork < b.number && fork <= head.number && Ancestor(b, fork) == Ancestor(head, fork)
    ensures Rerouted(batch, batch0, b, fork)
  {
    batch := batch0;
    assert Linked(b.parent.block, g, db.headers);
    var headHash, headNumber := b.parent, b.number - 1;
    var headHeader := db.Header(headHash);
    while ReadCanonical(db.canon, headNumber) != headHash
      invariant headHeader.Some? && headHash == HashOf(headHeader.value) && headNumber == headHeader.value.number
      invariant At(db, batch, batch0, b, headHeader.value)
      decreases headNumber
    {
      StepDown(db, batch, batch0, b, headHeader.value, head, g);
      batch := batch[headNumber := headHash];
      headHash, headNumber := headHeader.value.parent, headHeader.value.number - 1;
      headHeader := db.Header(headHash);
    }
    fork := headNumber;
  }

  /** The writes that make `b` the head: nothing above it, its ancestors down to the fork, and itself. */
  ghost predicate Reroutes(batch: Batch, b: Block, fork: nat, head: Block) {
    forall n: nat ::
      && (n in batch <==> fork < n <= b.number || b.number < n <= head.number)
      && (n in batch ==> batch[n] == if n <= b.number then Ancestor(b, n) else Zero)
  }

  /** Deleting above, re-routing below and adding the new head makes the index exact again. */
  lemma ReroutedIndexes(canon: map<nat, Hash>, batch: Batch, b: Block, fork: nat, head: Block, g: Block)
    requires IsGenesis(g) && Rooted(head, g) && Rooted(b, g) && Indexes(canon, head) && Reroutes(batch, b, fork, head)
    requires fork < b.number && fork <= head.number && Ancestor(b, fork) == Ancestor(head, fork)
    ensures Indexes(Written(canon, batch), b)
  {
    forall n: nat ensures ReadCanonical(Written(canon, batch), n) == (if n <= b.number then Ancestor(b, n) else Zero) {
      ReadWritten(canon, batch, n);
      if n <= b.number {
        AncestorExists(b, g, n);
      }
      if n <= fork {
        AgreeBelow(b, head, g, n, fork);
      }
    }
  }

  lemma BatchReroutes(canon: map<nat, Hash>, deletes: Batch, stop: nat, batch: Batch, b: Block, fork: nat, head: Block,
                      g: Block)
    requires IsGenesis(g) && Rooted(head, g) && Indexes(canon, head)
    requires b.number < stop && ReadCanonical(canon, stop) == Zero && forall n :: b.number < n < stop ==>
               ReadCanonical(canon, n) != Zero
    requires forall n: nat :: n in deletes <==> b.number < n < stop
    requires forall n :: n in deletes ==> deletes[n] == Zero
    requires Rerouted(batch, deletes, b, fork) && fork < b.number
    ensures Reroutes(batch[b.number := HashOf(b)], b, fork, head)
  {
    if stop <= head.number {
      AncestorExists(head, g, stop);
    }
    assert b.number + 1 < stop ==> ReadCanonical(canon, stop - 1) != Zero;
  }

  /** Makes the stored header `b` the head of the canonical chain. */
  method Reroute(db: Db, b: Block, ghost head: Block, ghost g: Block) returns (canon: map<nat, Hash>)
    requires db.Stored(g) && head in db.headers && Indexes(db.canon, head)
    requires b in db.headers && b != g
    ensures Indexes(canon, b)
  {
    assert Linked(b, g, db.headers) && Linked(head, g, db.headers);
    var deletes, stop := DeleteAbove(db.canon, b.number);
    var batch, fork := OverwriteStale(db, deletes, b, head, g);
    BatchReroutes(db.canon, deletes, stop, batch, b, fork, head, g);
    batch := batch[b.number := HashOf(b)];
    ReroutedIndexes(db.canon, batch, b, fork, head, g);
    canon := Written(db.canon, batch);
  }

  lemma StoredOneMore(db: Db, g: Block, b: Block)
    requires db.Stored(g) && b.parent in db.tds && b.number == b.parent.block.number + 1
    ensures TotalDifficulty(b) == b.difficulty + db.tds[b.parent] && Rooted(b, g)
    ensures db.(headers := db.headers + {b}, tds := db.tds[HashOf(b) := TotalDifficulty(b)]).Stored(g)
  {
    assert Linked(b.parent.block, g, db.headers);
    forall x | x in db.headers + {b} ensures Linked(x, g, db.headers + {b}) {
      assert x in db.headers ==> Linked(x, g, db.headers);
    }
  }

  /** The part of WriteHeader after the parent was found: stores the header and decides whether it becomes the head. */
  method Adopt(db: Db, header: Block, externTd: nat, localTd: nat, coin: bool, ghost head: Block, ghost g: Block)
    returns (db': Db, canonical: bool)
    requires Consistent(db, g, head) && header.parent in db.tds && header.number == header.parent.block.number + 1
    requires externTd == header.difficulty + db.tds[header.parent] && localTd == TotalDifficulty(head)
    ensures Consistent(db', g, if canonical then header else head)
    ensures db'.headers == db.headers + {header} && db'.tds == db.tds[HashOf(header) := externTd]
    ensures !canonical ==> db'.canon == db.canon
    ensures externTd == TotalDifficulty(header)
    ensures canonical <==> localTd < externTd || (localTd == externTd && coin)
  {
    StoredOneMore(db, g, header);
    db' := db.(headers := db.headers + {header}, tds := db.tds[HashOf(header) := externTd]);
    canonical := localTd < externTd || (externTd == localTd && coin);
    if canonical {
      var canon := Reroute(db', header, head, g);
      db' := db'.(canon := canon);
    }
  }

  /** The number is one more than the parent's. */
  ghost predicate Numbered(b: Block) {
    b.parent.HashOf? ==> b.number == b.parent.block.number + 1
  }

  /** What is stored after the first `i` headers of an import. */
  ghost predicate Imported(before: set<Block>, after: set<Block>, chain: seq<Block>, i: nat, processed: nat)
    requires i <= |chain|
  {
    && |after| == |before| + processed && before <= after <= before + Members(chain)
    && forall j :: 0 <= j < i ==> chain[j] in after
  }

  class HeaderChain {
    const genesis: Block
    var db: Db
    var tdCache: map<Hash, nat>
    var headerCache: map<Hash, Block>
    var currentHeader: Block

    /** The caches hold nothing that is not stored. */
    ghost predicate Valid()
      reads this
    {
      && Consistent(db, genesis, currentHeader)
      && (forall h :: h in tdCache ==> h in db.tds && tdCache[h] == db.tds[h])
      && (forall h :: h in headerCache ==> headerCache[h] in db.headers && h == HashOf(headerCache[h]))
    }

    constructor (g: Block)
      requires IsGenesis(g)
      ensures Valid() && genesis == g && currentHeader == g && db.headers == {g}
    {
      genesis, currentHeader := g, g;
      db := Db({g}, map[HashOf(g) := g.difficulty], map[0 := HashOf(g)]);
      tdCache, headerCache := map[], map[];
    }

    /** The caches may lose entries at any time. */
    method Evict(hashes: set<Hash>)
      requires Valid()
      modifies this
      ensures Valid() && db == old(db) && currentHeader == old(currentHeader)
    {
      tdCache, headerCache := tdCache - hashes, headerCache - hashes;
    }

    /**
     * Asked with the right number, the answer does not depend on the cache; a wrong number is
     * noticed only off the cache.
     */
    method GetTd(hash: Hash, number: int) returns (td: Option<nat>)
      requires Valid()
      modifies this`tdCache
      ensures Valid() && td == if hash in old(tdCache) then db.Td(hash) else db.ReadTd(hash, number)
    {
      if hash in tdCache {
        return Some(tdCache[hash]);
      }
      td := db.ReadTd(hash, number);
      if td.Some? {
        tdCache := tdCache[hash := td.value];
      }
    }

    method GetHeader(hash: Hash) returns (header: Option<Block>)
      requires Valid()
      modifies this`headerCache
      ensures Valid() && header == db.Header(hash)
    {
      if hash in headerCache {
        return Some(headerCache[hash]);
      }
      header := db.Header(hash);
      if header.Some? {
        headerCache := headerCache[hash := header.value];
      }
    }

    /** `coin` decides a tie. */
    method WriteHeader(header: Block, coin: bool) returns (status: WriteStatus)
      requires Valid()
      requires header.parent in tdCache ==> Numbered(header)
      modifies this
      ensures Valid()
      ensures status == UnknownAncestor <==> old(db).Header(header.parent).None? || !Numbered(header)
      ensures status == UnknownAncestor ==> db == old(db) && currentHeader == old(currentHeader)
      ensures status != UnknownAncestor ==> db.headers == old(db).headers + {header}
      ensures status == Side ==> currentHeader == old(currentHeader) && db.canon == old(db).canon
      ensures status == Canon ==> currentHeader == header
      ensures status != UnknownAncestor ==>
                (status == Canon <==>
                 || TotalDifficulty(old(currentHeader)) < TotalDifficulty(header)
                 || (TotalDifficulty(old(currentHeader)) == TotalDifficulty(header) && coin))
    {
      var ptd := GetTd(header.parent, header.number - 1);
      if ptd.None? {
        return UnknownAncestor;
      }
      var localTd := GetTd(HashOf(currentHeader), currentHeader.number);
      var externTd := header.difficulty + ptd.value;
      var db', canonical := Adopt(db, header, externTd, localTd.value, coin, currentHeader, genesis);
      db := db';
      status := if canonical then Canon else Side;
      currentHeader := if canonical then header else currentHeader;
      tdCache := tdCache[HashOf(header) := externTd];
      headerCache := headerCache[HashOf(header) := header];
    }

    /** HasHeader: present in a cache or on disk. */
    method HasHeader(header: Block) returns (known: bool)
      requires Valid()
      ensures known <==> header in db.headers
    {
      known := HashOf(header) in headerCache || header in db.headers;
    }

    /** One header of an imported chain; a header that is already stored is never written again. */
    method InsertHeader(header: Block, coin: bool) returns (status: WriteStatus, ignored: bool)
      requires Valid()
      requires header in db.headers || Numbered(header)
      modifies this
      ensures Valid() && (ignored <==> header in old(db).headers)
      ensures ignored ==> db == old(db) && currentHeader == old(currentHeader) && status == Side
      ensures !ignored ==> (status == UnknownAncestor <==> old(db).Header(header.parent).None?)
      ensures !ignored && status == UnknownAncestor ==> db == old(db) && currentHeader == old(currentHeader)
      ensures status != UnknownAncestor ==> db.headers == old(db).headers + {header}
      ensures !ignored && status != UnknownAncestor ==> |db.headers| == |old(db).headers| + 1
    {
      status := Side;
      ignored := HasHeader(header);
      if ignored {
        var externTd := GetTd(HashOf(header), header.number);
        var localTd := GetTd(HashOf(currentHeader), currentHeader.number);
        ignored := externTd.None? || externTd.value <= localTd.value;
      }
      if !ignored {
        status := WriteHeader(header, coin);
      }
    }

    /** Imports a chain of headers up to the first one whose parent is missing. */
    method InsertHeaderChain(chain: seq<Block>, coins: seq<bool>) returns (failed: Option<nat>, processed: nat)
      requires Valid() && |coins| == |chain|
      requires forall i :: 0 <= i < |chain| ==> Numbered(chain[i])
      modifies this
      ensures Valid() && |db.headers| == |old(db).headers| + processed
      ensures old(db).headers <= db.headers <= old(db).headers + Members(chain)
      ensures failed.None? ==> forall i :: 0 <= i < |chain| ==> chain[i] in db.headers
      ensures failed.Some? ==>
                && failed.value < |chain| && (forall i :: 0 <= i < failed.value ==> chain[i] in db.headers)
                && chain[failed.value] !in db.headers && db.Header(chain[failed.value].parent).None?
    {
      failed, processed := None, 0;
      for i := 0 to |chain|
        invariant Valid() && Imported(old(db).headers, db.headers, chain, i, processed)
      {
        var ok;
        ok, processed := ImportNext(chain, i, coins[i], processed, old(db).headers);
        if !ok {
          return Some(i), processed;
        }
      }
    }

    method ImportNext(chain: seq<Block>, i: nat, coin: bool, processed: nat, ghost before: set<Block>)
      returns (ok: bool, processed': nat)
      requires Valid() && i < |chain| && Numbered(chain[i]) && Imported(before, db.headers, chain, i, processed)
      modifies this
      ensures Valid() && Imported(before, db.headers, chain, if ok then i + 1 else i, processed')
      ensures !ok ==> chain[i] !in db.headers && db.Header(chain[i].parent).None?
    {
      assert chain[i] in Members(chain);
      var status, ignored := InsertHeader(chain[i], coin);
      ok := status != UnknownAncestor;
      processed' := if ignored || !ok then processed else processed + 1;
    }
  }

  /** Everything that is stored after the first `i` headers: those whose parents were there by then. */
  ghost function StoredAfter(g: Block, headers: seq<Block>, i: nat): set<Block>
    requires i <= |headers|
  {
    if i == 0 then {g} else
      var stored, b := StoredAfter(g, headers, i - 1), headers[i - 1];
      if b.parent.HashOf? && b.parent.block in stored then stored + {b} else stored
  }

  /** What becomes of header `i`, and so who is the head then. */
  ghost function StatusAt(g: Block, headers: seq<Block>, coins: seq<bool>, i: nat): WriteStatus
    requires i < |headers| == |coins|
    decreases i, 1
  {
    var b, td := headers[i], TotalDifficulty(HeadAfter(g, headers, coins, i));
    if b.parent.Zero? || b.parent.block !in StoredAfter(g, headers, i) then UnknownAncestor
    else if td < TotalDifficulty(b) || (td == TotalDifficulty(b) && coins[i]) then Canon else Side
  }

  ghost function HeadAfter(g: Block, headers: seq<Block>, coins: seq<bool>, i: nat): Block
    requires i <= |headers| == |coins|
    decreases i, 0
  {
    if i == 0 then g
    else if StatusAt(g, headers, coins, i - 1) == Canon then headers[i - 1] else HeadAfter(g, headers, coins, i - 1)
  }

  /** Where a run stands after `i` headers. */
  ghost predicate ReplayedTo(hc: HeaderChain, g: Block, headers: seq<Block>, coins: seq<bool>, i: nat)
    requires i <= |headers| == |coins|
    reads hc
  {
    && hc.Valid() && hc.genesis == g && hc.db.headers == StoredAfter(g, headers, i)
    && hc.currentHeader == HeadAfter(g, headers, coins, i)
  }

  method ReplayNext(hc: HeaderChain, g: Block, headers: seq<Block>, coins: seq<bool>, i: nat)
    returns (status: WriteStatus)
    requires i < |headers| == |coins| && ReplayedTo(hc, g, headers, coins, i) && Numbered(headers[i])
    modifies hc
    ensures ReplayedTo(hc, g, headers, coins, i + 1) && status == StatusAt(g, headers, coins, i)
  {
    status := hc.WriteHeader(headers[i], coins[i]);
  }

  /**
   * Every run from genesis, whatever headers arrive and in whatever order: what is stored, what
   * becomes of each header and who is the head, and the chain stays consistent.
   */
  method Replay(g: Block, headers: seq<Block>, coins: seq<bool>) returns (hc: HeaderChain, statuses: seq<WriteStatus>)
    requires IsGenesis(g) && |coins| == |headers|
    requires forall i :: 0 <= i < |headers| ==> Numbered(headers[i])
    ensures fresh(hc) && ReplayedTo(hc, g, headers, coins, |headers|) && |statuses| == |headers|
    ensures forall i :: 0 <= i < |headers| ==> statuses[i] == StatusAt(g, headers, coins, i)
  {
    hc := new HeaderChain(g);
    statuses := [];
    for i := 0 to |headers|
      invariant fresh(hc) && ReplayedTo(hc, g, headers, coins, i) && |statuses| == i
      invariant forall j :: 0 <= j < i ==> statuses[j] == StatusAt(g, headers, coins, j)
    {
      var status := ReplayNext(hc, g, headers, coins, i);
      statuses := statuses + [status];
    }
  }
}
