/** The data slots that transactions fill. */
module TxLookups {
  import opened Transactions

  /** The number of 32 KiB data slots a transaction fills: enough for it, and one less would not be. */
  function NumSlots(tx: Tx): (n: nat)
    ensures 0 < n && 32768 * (n - 1) < tx.size <= 32768 * n
  {
    (tx.size + 32767) / 32768
  }

  ghost function SlotSum(txs: set<Tx>): nat {
    if txs == {} then 0 else
      var tx :| tx in txs;
      NumSlots(tx) + SlotSum(txs - {tx})
  }

  lemma {:induction false} SlotSumSplit(txs: set<Tx>, tx: Tx)
    requires tx in txs
    ensures SlotSum(txs) == NumSlots(tx) + SlotSum(txs - {tx})
    decreases |txs|
  {
    var picked :| picked in txs && SlotSum(txs) == NumSlots(picked) + SlotSum(txs - {picked});
    if picked != tx {
      SlotSumSplit(txs - {picked}, tx);
      SlotSumSplit(txs - {tx}, picked);
      assert txs - {picked} - {tx} == txs - {tx} - {picked};
    }
  }

  lemma {:induction false} SlotSumParts(txs: set<Tx>, part: set<Tx>)
    requires part <= txs
    ensures SlotSum(txs) == SlotSum(part) + SlotSum(txs - part)
    decreases |part|
  {
    if part == {} {
      assert txs - part == txs;
    } else {
      var tx :| tx in part;
      SlotSumSplit(txs, tx);
      SlotSumSplit(part, tx);
      SlotSumParts(txs - {tx}, part - {tx});
      assert txs - {tx} - (part - {tx}) == txs - part;
    }
  }

  lemma {:induction false} SlotSumBound(txs: set<Tx>)
    ensures |txs| <= SlotSum(txs)
    decreases |txs|
  {
    if txs != {} {
      var tx :| tx in txs;
      SlotSumSplit(txs, tx);
      SlotSumBound(txs - {tx});
    }
  }
}
