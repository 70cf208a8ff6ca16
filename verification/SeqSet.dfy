/** The cache of sequencer epochs and the check of who may produce a block. */
module SeqSets {
  import opened Basics

  type Address = seq<bv8>

  datatype Epoch = Epoch(number: nat, signer: Address, startBlock: nat, endBlock: nat)

  datatype Tx = Tx(fromL1: bool, toSeqSet: bool, data: seq<bv8>, seqSigner: Option<Address>)

  datatype Verdict = Fine | NoSeqSetAddress | MissingSignature | IncorrectSequencer

  /** The cache as it must be once it is filled for the epoch `current`. */
  ghost predicate Filled(cache: seq<Epoch>, current: nat) {
    && 1 <= |cache| <= 10 && cache[0].number == current
    && forall i, j :: 0 <= i < j < |cache| ==> cache[j].number < cache[i].number
  }

  function FirstTen(cache: seq<Epoch>): seq<Epoch> {
    if |cache| > 10 then cache[..10] else cache
  }

  /** The epoch takes the place of an older record of its own in front, or comes before the others. */
  function Prepended(cache: seq<Epoch>, epoch: Epoch): seq<Epoch> {
    if |cache| > 0 && cache[0].number == epoch.number then cache[0 := epoch] else FirstTen([epoch] + cache)
  }

  /** Apart from the new epoch the cache holds only what it held before, and loses at most its last entry. */
  lemma PrependedKeeps(cache: seq<Epoch>, epoch: Epoch)
    requires |cache| <= 10 && (cache == [] || (cache[0].number <= epoch.number && Filled(cache, cache[0].number)))
    ensures var cache' := Prepended(cache, epoch);
            && Filled(cache', epoch.number) && cache'[0] == epoch
            && (forall i :: 0 < i < |cache'| ==> cache'[i] in cache)
            && (forall i :: 0 <= i < |cache| && i < 9 && cache[i].number != epoch.number ==> cache[i] in cache')
  {
    var cache' := Prepended(cache, epoch);
    forall i | 0 <= i < |cache| && i < 9 && cache[i].number != epoch.number ensures cache[i] in cache' {
      assert cache[i] == if cache[0].number == epoch.number then cache'[i] else cache'[i + 1];
    }
  }

  method UpdateEpochCache(cache0: seq<Epoch>, current: nat, epoch: Epoch, prepend: bool) returns (cache: seq<Epoch>)
    requires |cache0| <= 10
    ensures !prepend ==> cache == FirstTen(cache0 + [epoch])
    ensures prepend && epoch.number == current ==> cache == Prepended(cache0, epoch)
    ensures |cache| <= 10
  {
    cache := cache0;
    if prepend {
      if |cache| > 0 && cache[0].number == current {
        if cache[0].signer != epoch.signer || cache[0].startBlock != epoch.startBlock
          || cache[0].endBlock != epoch.endBlock {
          cache := cache[0 := epoch];
        }
      } else {
        cache := [epoch] + cache;
      }
    } else {
      cache := cache + [epoch];
    }
    if |cache| > 10 {
      cache := cache[..10];
    }
  }

  /** The epochs from `current` down, ten of them or as many as there are. */
  ghost predicate Window(cache: seq<Epoch>, current: nat, epochs: nat -> Epoch, n: nat) {
    && |cache| == n && n <= current + 1
    && forall i :: 0 <= i < n ==> cache[i] == epochs(current - i)
  }

  method FillCache(current: nat, epochs: nat -> Epoch) returns (cache: seq<Epoch>)
    ensures Window(cache, current, epochs, if current < 9 then current + 1 else 10)
  {
    cache := UpdateEpochCache([], current, epochs(current), false);
    var i: nat := 1;
    while i <= 10 && i <= current
      invariant 1 <= i <= 11 && i <= current + 1
      invariant Window(cache, current, epochs, if i < 10 then i else 10)
    {
      cache := UpdateEpochCache(cache, current, epochs(current - i), false);
      i := i + 1;
    }
  }

  /** Reads the current epoch, or on first use the last ten, into the cache. */
  method RefreshCache(cache0: seq<Epoch>, current: nat, epochs: nat -> Epoch) returns (cache: seq<Epoch>)
    requires forall id: nat :: epochs(id).number == id
    requires cache0 == [] || (Filled(cache0, cache0[0].number) && cache0[0].number <= current)
    ensures Filled(cache, current) && cache[0] == epochs(current)
    ensures if cache0 == [] then Window(cache, current, epochs, if current < 9 then current + 1 else 10)
            else cache == Prepended(cache0, epochs(current))
  {
    if |cache0| == 0 {
      cache := FillCache(current, epochs);
    } else {
      cache := UpdateEpochCache(cache0, current, epochs(current), true);
      PrependedKeeps(cache0, epochs(current));
    }
  }

  /** A number read from bytes, most significant first. */
  function Big(bytes: seq<bv8>): nat {
    if bytes == [] then 0 else Big(bytes[..|bytes| - 1]) * 256 + bytes[|bytes| - 1] as nat
  }

  datatype Recommit = Recommit(signer: Address, startBlock: nat, endBlock: nat)

  function DecodeReCommitData(data: seq<bv8>): Option<Recommit> {
    if |data| < 164 || data[0..4] != [0x2c, 0x91, 0xc6, 0x79] then None
    else Some(Recommit(data[144..164], Big(data[68..100]), Big(data[100..132])))
  }

  /** Decoding recovers the arguments from the encoding of a call, whatever follows them. */
  lemma DecodesCall(oldId: seq<bv8>, newId: seq<bv8>, start: seq<bv8>, end: seq<bv8>, pad: seq<bv8>, signer: seq<bv8>,
                    rest: seq<bv8>)
    requires |oldId| == |newId| == |start| == |end| == 32 && |pad| == 12 && |signer| == 20
    ensures var data := [0x2c, 0x91, 0xc6, 0x79] + oldId + newId + start + end + pad + signer + rest;
            DecodeReCommitData(data) == Some(Recommit(signer, Big(start), Big(end)))
  {
    var data := [0x2c, 0x91, 0xc6, 0x79] + oldId + newId + start + end + pad + signer + rest;
    assert data[0..4] == [0x2c, 0x91, 0xc6, 0x79] && data[68..100] == start;
    assert data[100..132] == end && data[144..164] == signer;
  }

  /** Who signed as sequencer; a transaction that came in through L1 is not signed. */
  function RecoverSeqAddress(tx: Tx): Option<Address> {
    if tx.fromL1 then None else tx.seqSigner
  }

  /** A block is checked by itself if its only transaction came through L1 or hands over to a new sequencer. */
  predicate Special(txs: seq<Tx>) {
    |txs| == 1 && (txs[0].fromL1
      || (txs[0].toSeqSet && (DecodeReCommitData(txs[0].data).Some? || RecoverSeqAddress(txs[0]).None?)))
  }

  /** A hand-over that is signed by the new sequencer. */
  predicate HandsOver(tx: Tx) {
    var recommit := DecodeReCommitData(tx.data);
    recommit.Some? && RecoverSeqAddress(tx) == Some(recommit.value.signer)
  }

  ghost predicate SignedBy(cache: seq<Epoch>, txs: seq<Tx>) {
    txs != [] && RecoverSeqAddress(txs[0]).Some? && exists i ::
      0 <= i < |cache| && cache[i].signer == RecoverSeqAddress(txs[0]).value
  }

  /** Looks for the signer in the cache. */
  method CheckSigner(cache: seq<Epoch>, txs: seq<Tx>) returns (verdict: Verdict)
    requires txs != []
    ensures verdict == Fine <==> SignedBy(cache, txs)
    ensures verdict != NoSeqSetAddress
  {
    var signer := RecoverSeqAddress(txs[0]);
    if signer.None? {
      return MissingSignature;
    }
    for i := 0 to |cache|
      invariant forall j :: 0 <= j < i ==> cache[j].signer != signer.value
    {
      if cache[i].signer == signer.value {
        return Fine;
      }
    }
    verdict := IncorrectSequencer;
  }

  /** What the check sees of a block and of the state before it. */
  datatype Candidate = Candidate(enabled: bool, hasSeqSet: bool, txs: seq<Tx>, current: nat, epochs: nat -> Epoch)

  predicate Ordinary(c: Candidate) {
    c.enabled && c.hasSeqSet && !Special(c.txs)
  }

  /** The cache is empty or filled for an epoch no later than `current`. */
  ghost predicate Usable(cache: seq<Epoch>, current: nat) {
    cache == [] || (Filled(cache, cache[0].number) && cache[0].number <= current)
  }

  method ProcessSeqSetBlock(cache0: seq<Epoch>, c: Candidate) returns (cache: seq<Epoch>, verdict: Verdict)
    requires c.txs != [] && Usable(cache0, c.current)
    requires forall id: nat :: c.epochs(id).number == id
    ensures !Ordinary(c) ==> cache == cache0
    ensures Ordinary(c) ==> Filled(cache, c.current) && (verdict == Fine <==> SignedBy(cache, c.txs))
    ensures Ordinary(c) ==>
              if cache0 == [] then Window(cache, c.current, c.epochs, if c.current < 9 then c.current + 1 else 10)
              else cache == Prepended(cache0, c.epochs(c.current))
    ensures c.enabled && c.hasSeqSet && Special(c.txs) ==>
              (verdict == Fine <==> c.txs[0].fromL1 || HandsOver(c.txs[0]))
    ensures !c.enabled ==> verdict == Fine
    ensures verdict == NoSeqSetAddress <==> c.enabled && !c.hasSeqSet
  {
    cache, verdict := cache0, Fine;
    if !c.enabled {
      return;
    }
    if !c.hasSeqSet {
      return cache, NoSeqSetAddress;
    }
    if |c.txs| == 1 {
      var tx := c.txs[0];
      if tx.fromL1 {
        return;
      }
      if tx.toSeqSet {
        var recommit, signer := DecodeReCommitData(tx.data), RecoverSeqAddress(tx);
        if signer.None? {
          return cache, MissingSignature;
        }
        if recommit.Some? {
          return cache, if recommit.value.signer == signer.value then Fine else IncorrectSequencer;
        }
      }
    }
    cache := RefreshCache(cache0, c.current, c.epochs);
    verdict := CheckSigner(cache, c.txs);
  }

  /** The epoch never goes back from one block to the next, and every epoch's record carries its number. */
  ghost predicate Advancing(blocks: seq<Candidate>) {
    && (forall i :: 0 <= i < |blocks| ==> blocks[i].txs != [])
    && (forall i, id: nat :: 0 <= i < |blocks| ==> blocks[i].epochs(id).number == id)
    && (forall i, j :: 0 <= i < j < |blocks| ==> blocks[i].current <= blocks[j].current)
  }

  /** What holds of a block of a run, given the cache and the verdict after it. */
  ghost predicate Judged(c: Candidate, cache: seq<Epoch>, verdict: Verdict) {
    && Usable(cache, c.current)
    && (Ordinary(c) ==> Filled(cache, c.current) && (verdict == Fine <==> SignedBy(cache, c.txs)))
  }

  /**
   * The record is one that the state held when an earlier block of the run, or this one, was
   * checked against the cache.
   */
  ghost predicate Recorded(blocks: seq<Candidate>, i: nat, e: Epoch)
    requires i < |blocks|
  {
    exists j :: 0 <= j <= i && ReadBy(blocks[j], e)
  }

  ghost predicate ReadBy(c: Candidate, e: Epoch) {
    Ordinary(c) && e.number <= c.current && e == c.epochs(e.number)
  }

  ghost predicate AllRecorded(blocks: seq<Candidate>, i: nat, cache: seq<Epoch>)
    requires i < |blocks|
  {
    forall k :: 0 <= k < |cache| ==> Recorded(blocks, i, cache[k])
  }

  lemma RecordedNext(blocks: seq<Candidate>, i: nat, cache0: seq<Epoch>, cache: seq<Epoch>)
    requires i < |blocks| && Advancing(blocks) && Usable(cache0, blocks[i].current)
    requires i == 0 ==> cache0 == []
    requires 0 < i ==> AllRecorded(blocks, i - 1, cache0)
    requires var c := blocks[i];
             if !Ordinary(c) then cache == cache0
             else if cache0 == [] then Window(cache, c.current, c.epochs, if c.current < 9 then c.current + 1 else 10)
             else cache == Prepended(cache0, c.epochs(c.current))
    ensures AllRecorded(blocks, i, cache)
  {
    var c := blocks[i];
    if Ordinary(c) && cache0 == [] {
      forall k | 0 <= k < |cache| ensures Recorded(blocks, i, cache[k]) {
        assert ReadBy(c, c.epochs(c.current - k));
      }
    } else {
      if Ordinary(c) {
        PrependedKeeps(cache0, c.epochs(c.current));
        assert ReadBy(c, c.epochs(c.current));
      }
      forall k | 0 <= k < |cache| ensures Recorded(blocks, i, cache[k]) {
        if cache[k] in cache0 {
          var m :| 0 <= m < |cache0| && cache0[m] == cache[k];
          assert Recorded(blocks, i - 1, cache0[m]);
        }
      }
    }
  }

  /** A signer whom some block of the run up to this one found on record. */
  ghost predicate SignedOnRecord(blocks: seq<Candidate>, i: nat)
    requires i < |blocks|
  {
    blocks[i].txs != [] && exists e: Epoch ::
      Recorded(blocks, i, e) && RecoverSeqAddress(blocks[i].txs[0]) == Some(e.signer)
  }

  lemma AcceptedOnRecord(blocks: seq<Candidate>, i: nat, cache: seq<Epoch>)
    requires i < |blocks| && AllRecorded(blocks, i, cache) && SignedBy(cache, blocks[i].txs)
    ensures SignedOnRecord(blocks, i)
  {
    var k :| 0 <= k < |cache| && cache[k].signer == RecoverSeqAddress(blocks[i].txs[0]).value;
    assert Recorded(blocks, i, cache[k]);
  }

  /** What holds after block `i` of a run. */
  ghost predicate Right(blocks: seq<Candidate>, i: nat, cache: seq<Epoch>, verdict: Verdict)
    requires i < |blocks|
  {
    && Judged(blocks[i], cache, verdict) && AllRecorded(blocks, i, cache)
    && (Ordinary(blocks[i]) && verdict == Fine ==> SignedOnRecord(blocks, i))
  }

  /** One more block of a run. */
  method RunNext(blocks: seq<Candidate>, i: nat, cache0: seq<Epoch>) returns (cache: seq<Epoch>, verdict: Verdict)
    requires Advancing(blocks) && i < |blocks| && Usable(cache0, blocks[i].current)
    requires if i == 0 then cache0 == [] else AllRecorded(blocks, i - 1, cache0)
    ensures Right(blocks, i, cache, verdict) && (cache0 != [] ==> cache != [])
  {
    cache, verdict := ProcessSeqSetBlock(cache0, blocks[i]);
    RecordedNext(blocks, i, cache0, cache);
    if Ordinary(blocks[i]) && verdict == Fine {
      AcceptedOnRecord(blocks, i, cache);
    }
  }

  /** A whole run of blocks; the cache is shared by all of them. */
  method Run(blocks: seq<Candidate>) returns (caches: seq<seq<Epoch>>, verdicts: seq<Verdict>)
    requires Advancing(blocks)
    ensures |caches| == |verdicts| == |blocks|
    ensures forall i :: 0 <= i < |blocks| ==> Right(blocks, i, caches[i], verdicts[i])
    ensures forall i, j :: 0 <= i < j < |blocks| && caches[i] != [] ==> caches[j] != []
  {
    caches, verdicts := [], [];
    var cache: seq<Epoch> := [];
    for i := 0 to |blocks|
      invariant |caches| == |verdicts| == i
      invariant forall k :: 0 <= k < i ==> Right(blocks, k, caches[k], verdicts[k])
      invariant forall j, k :: 0 <= j < k < i && caches[j] != [] ==> caches[k] != []
      invariant cache == if i == 0 then [] else caches[i - 1]
    {
      assert 0 < i ==> Right(blocks, i - 1, caches[i - 1], verdicts[i - 1]);
      var verdict;
      cache, verdict := RunNext(blocks, i, cache);
      caches, verdicts := caches + [cache], verdicts + [verdict];
    }
  }
}
