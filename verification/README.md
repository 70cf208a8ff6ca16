# Verified models of the l2geth chain and transaction-pool engine

This project models the parts of l2geth that keep redundant structures in step, in Dafny, and
proves what they keep. `dafny verify dfyconfig.toml` checks all of it. Nothing here executes the
original program.

| files | what they model |
|---|---|
| `Basics`, `BinaryHeap`, `Sorting`, `Sums` | what all share; Go's `container/heap` and `sort.Sort`, re-implemented with proofs; sums over maps |
| `Transactions`, `TxSortedMap`, `TxList` | an account's transactions: nonce heap, map and sorted cache; the list with its cost and gas caps |
| `TxLookup`, `TxPricedList`, `Known` | the set of known transactions and the lazily cleaned price heap |
| `TxNoncer` | virtual nonces on top of the state nonces |
| `PoolState`, `TxPool`, `PoolPromote`, `PoolDemote`, `PoolReorg`, `PoolTruncate`, `PoolQueue`, `PoolRun` | the transaction pool: its invariant, every locked operation, a reorg run, and every history of events |
| `Reset`, `PoolHeads` | the walk over two branches that finds what a head change sets free, and histories of heads that extend each other |
| `Scheduler` | the loop that merges requests into reorg runs |
| `Blocks`, `HeaderChain`, `Ancestors`, `Reorg` | total difficulty, the number-to-hash index, fork choice, re-routing, ancestor lookup and header queries |
| `ChainIndexer` | sections of the canonical chain, processed without the lock while the chain changes |
| `Feed` | the event feed: every interleaving of subscribers, unsubscribers and a sender that partitions its select cases in place |
| `Gas`, `GasLimit` | gas and fee accounting of a message and of a block; the next block's gas limit |
| `SeqSet` | the cache of sequencer epochs and the check of a block's signer |
| `DerivationPath` | the printer and parser of BIP-32 derivation paths |

How things are represented:

- A transaction stands for its own hash; a block hash is a constructor applied to the block. Equal
  hashes therefore mean equal contents.
- The random tie-breaks, the readiness of channels, the outcome of the virtual machine, the clock,
  cache eviction and the order of concurrent events are parameters or nondeterministic choices.
- The price list keeps its promises only as long as no transaction is made known again while a
  stale heap entry of it lingers. `Known.log` records how often each transaction was made known and
  whether that happened; what the price heap promises is stated under `log.clean`, and
  `PoolRuns.Run` shows that the heap is sound in every history that makes no transaction known twice,
  however often it is handed in.

What turned out not to hold as one might expect, and when it does:

- `CalcGasLimit` does not always move by less than a 1024th of the parent's limit: the minimum of
  4,000,000 pulls a smaller limit up at once (`GasLimits.JumpsToMinimum`). `GasLimits.BoundedMove`
  gives the condition, in both directions. Below 2048 a higher target is never approached
  (`GasLimits.StuckBelow2048`).
- A reorganisation to a lower chain by a single block leaves the index entries above the new head
  in place (`Reorgs.StaleEntriesRemain`), and a child of the head leaves what is above it.
  `Reorgs.EndsAtHead` says exactly when the index ends at the head after one reorganisation, and
  `Reorgs.Import` after any run from genesis. `Reorgs.HeadLocated` says exactly when the transaction
  lookup is exact. `Reorgs.LeftBehindExample` and `Reorgs.ChildLeavesExample` are inputs.
- With such an index the chain indexer keeps section heads that are not on the head's chain, and its
  event loop does not notice the reorganisation (`ChainIndexers.MissedExample`).
  `ChainIndexers.VerifiedOnChain` says exactly when the heads it keeps are on the chain, and
  `ChainIndexers.ReorgSeen` exactly when the event loop notices.
- Putting a transaction on the price heap keeps it sound exactly if no stale entry of it is left
  (`TxPricedLists.SoundPut`); `KnownTxs.BackAgainExample` is a transaction that leaves and comes back.
- After Shanghai a message from L1 credits the coinbase with an L1 fee that nobody paid; before it, a
  sender with too little balance gets the rest for free. `GasAccounting.Minted` is the exact amount,
  with `GasAccounting.SurplusExample` and `GasAccounting.ShortfallExample`. A message without a gas
  price mints nothing (`GasAccounting.FreeMintsNothing`).
- A header query by number can wrap around; `Ancestors.StepNumber` says exactly when, and
  `Ancestors.WrappedExample` gets the same header twice.
- With an index that goes on above the head, or while a reorganisation is writing it, `GetAncestor` can
  answer with a block of another branch, and a reply can pass from one branch to another
  (`Ancestors.CrossedOverExample`, `Ancestors.HalfWritten`). `Ancestors.StepRight` says exactly when a
  step by hash keeps to one chain; `Ancestors.AnswerRight` and `Ancestors.ReplySpaced` say that what
  stays below the head does.
- The second look at the index in `GetAncestor` does not help if the index moves to another branch and
  back in between (`Ancestors.FlippedBack`); `Ancestors.MeetingRight` says when what it finds is the
  ancestor.
- A head change that lowers the nonce of an account with pending transactions can leave it with a gap.
  A run leaves the whole pool without gap and alert exactly if, for each account, the queue holds every
  transaction that is missing below the pending ones or the first of these is no longer payable
  (`PoolReorgs.RunSettles`, `PoolRuns.RunReorg`). `PoolRuns.LoweredExample` is a pool and a head for
  which an alert is raised.
- A shutdown closes the done channel of requests that never run (`Schedulers.NeverRun`,
  `Schedulers.NeverRunExample`).

## Model

| member | source | states |
|---|---|---|
| `BinaryHeap.Init` | l2geth/core/tx_list.go:112-118 | heapifying orders any slice as a heap with the same contents |
| `BinaryHeap.Push` | l2geth/core/tx_list.go:38-40 | pushing keeps the heap and adds just the element |
| `BinaryHeap.Pop` | l2geth/core/tx_list.go:42-48 | popping returns a least element and leaves a heap of the rest |
| `BinaryHeap.RemoveAt` | l2geth/core/tx_list.go:159-166 | removing at any index leaves a heap of everything else |
| `TxSortedMaps.TxSortedMap.Put` | l2geth/core/tx_list.go:73-79 | refines a map update; the index stays a heap of exactly the stored nonces |
| `TxSortedMaps.TxSortedMap.Forward` | l2geth/core/tx_list.go:84-98 | removes and lists in order exactly the nonces below the threshold; a cache sliced at the front is still the sorted contents |
| `TxSortedMaps.TxSortedMap.Filter` | l2geth/core/tx_list.go:102-123 | removes exactly the matching transactions and returns them |
| `TxSortedMaps.TxSortedMap.Cap` | l2geth/core/tx_list.go:127-148 | keeps exactly the lowest nonces up to the threshold; a cache sliced at the back is still the sorted contents |
| `TxSortedMaps.TxSortedMap.Remove` | l2geth/core/tx_list.go:152-169 | removes exactly the nonce and reports whether it was there |
| `TxSortedMaps.TxSortedMap.Ready` | l2geth/core/tx_list.go:178-193 | takes exactly the maximal run of consecutive nonces from the lowest, and nothing if that is above the start |
| `TxSortedMaps.TxSortedMap.Flatten` | l2geth/core/tx_list.go:203-216 | returns the contents in nonce order, from the cache or by sorting |
| `TxSortedMaps.TakeRun` | l2geth/core/tx_list.go:183-192 | the popping loop of Ready ends at the first gap |
| `TxLists.TxList.Add` | l2geth/core/tx_list.go:251-272 | accepts exactly when the price bump is met at the same nonce, and keeps the caps above every stored transaction |
| `TxLists.ReplacementPays` | l2geth/core/tx_list.go:253-261 | an accepted replacement pays strictly more and the bump up to rounding; paying the full bump is enough |
| `TxLists.TxList.Filter` | l2geth/core/tx_list.go:290-314 | with or without the early exit, removes what the value-level filter removes |
| `TxLists.FilterExact` | l2geth/core/tx_list.go:290-314 | the early exit loses nothing: exactly the offenders are removed, and a strict list is cut at the lowest of them |
| `TxLists.FilterKeepsPrefix` | l2geth/core/tx_list.go:302-313 | a gap-free strict list stays a gap-free prefix, the whole of it exactly if there is no offender |
| `TxLists.TxList.Remove` | l2geth/core/tx_list.go:325-336 | removes the nonce and, in a strict list, exactly those above it |
| `TxLists.TxList.Cap` | l2geth/core/tx_list.go:318-320 | keeps the lowest nonces |
| `TxLists.TxList.Forward` | l2geth/core/tx_list.go:277-279 | drops what is below the threshold |
| `TxLists.TxList.Ready` | l2geth/core/tx_list.go:345-347 | takes the leading run |
| `TxLists.TxList.Flatten` | l2geth/core/tx_list.go:362-364 | lists the contents in nonce order |
| `TxPricedLists.PriceRankIsOrder` | l2geth/core/tx_list.go:373-383 | the rank used for the heap is the order by price, then by falling nonce |
| `TxPricedLists.Removed` | l2geth/core/tx_list.go:421-436 | counts, and rebuilds the heap from the live set exactly when more than a quarter is stale |
| `TxPricedLists.Underpriced` | l2geth/core/tx_list.go:471-493 | drops stale heads only, and compares with the first live entry |
| `TxPricedLists.Discard` | l2geth/core/tx_list.go:497-520 | takes remote live entries, cheapest first and just enough, and puts the local ones back |
| `TxPricedLists.CapPrice` | l2geth/core/tx_list.go:440-467 | takes exactly the remote live entries below the threshold |
| `TxPricedLists.StalesCount` | l2geth/core/tx_list.go:398-403 | the counter of a sound heap is the number of its entries that are not live |
| `TxPricedLists.SoundPut` | l2geth/core/tx_list.go:414-416 | putting keeps the heap sound if and only if no stale entry of the transaction lingers |
| `TxPricedLists.SoundRemoved` | l2geth/core/tx_list.go:421-436 | counting removals restores soundness, rebuilt or not |
| `TxPricedLists.SoundPurged` | l2geth/core/tx_list.go:471-520 | a query keeps the heap sound for what stays live |
| `TxPricedLists.HeadIsCheapest` | l2geth/core/tx_list.go:482-492 | the head of a sound heap, once live, is a cheapest live transaction |
| `KnownTxs.Admit` | l2geth/core/tx_pool.go:1591-1599 | adding to the lookup and the heap keeps them in step |
| `KnownTxs.Remove` | l2geth/core/tx_pool.go:1602-1610 | removing from the lookup leaves one more entry to be counted as stale |
| `KnownTxs.IsUnderpriced` | l2geth/core/tx_list.go:471-493 | true exactly if the pool is not empty and the remote transaction is no dearer than anything in it |
| `KnownTxs.MakeRoom` | l2geth/core/tx_list.go:497-520 | what is dropped is remote, no dearer than any remote one kept, enough and no more than enough, or all there is |
| `KnownTxs.DropCheap` | l2geth/core/tx_list.go:440-467 | exactly the remote transactions below the threshold |
| `KnownTxs.BackAgain` | l2geth/core/tx_list.go:414-436 | a transaction that leaves and comes back while its stale entry lingers makes the heap unsound |
| `KnownTxs.BackAgainExample` | l2geth/core/tx_list.go:414-436 | four transactions for which that happens |
| `TxLookups.NumSlots` | l2geth/core/tx_pool.go:1613-1615 | as many slots as the size needs, and not one more |
| `TxLookups.SlotSumParts` | l2geth/core/tx_pool.go:1583-1615 | slots of a set add up over its parts |
| `TxNoncers.TxNoncer.Get` | l2geth/core/tx_noncer.go:45-55 | answers the recorded or the state nonce, and changes no answer |
| `TxNoncers.TxNoncer.Set` | l2geth/core/tx_noncer.go:59-64 | records the nonce |
| `TxNoncers.TxNoncer.SetIfLower` | l2geth/core/tx_noncer.go:68-79 | lowers the answer for one account, never raises it |
| `PoolState.Local` | l2geth/core/tx_pool.go:898-943 | the pool stays in order if only one account changes and that account stays in order |
| `TxPools.EnqueueTx` | l2geth/core/tx_pool.go:677-707 | accepts exactly when nothing is at the nonce or it is outbidden; a known transaction is moved without replacing anything |
| `TxPools.RemoveTx` | l2geth/core/tx_pool.go:898-943 | the pool stays in order; a pending transaction takes those above it into the queue and lowers the virtual nonce, a queued one just goes; the heartbeat goes with the last pending transaction unless one is queued again |
| `TxPools.Requeue` | l2geth/core/tx_pool.go:924-926 | every demoted transaction is accepted by the queue and replaces nothing |
| `TxPools.UnlistedGapfree` | l2geth/core/tx_pool.go:915-931 | removing any transaction keeps every account gap-free |
| `TxPools.RemoveDropped` | l2geth/core/tx_pool.go:621-626 | all transactions given up by the price heap leave the pool, which stays in order |
| `TxPools.Validate` | l2geth/core/tx_pool.go:531-588 | the error is the first rule, in the order of the checks, that the transaction violates; no error exactly if it violates none |
| `TxPools.EnsureRoom` | l2geth/core/tx_pool.go:612-627 | a full pool turns a remote transaction away exactly if it is underpriced, else drops just enough of the cheapest |
| `TxPools.RivalsAre` | l2geth/core/tx_pool.go:629-651 | at most one known transaction has the sender and nonce, in the pending list or else in the queue |
| `TxPools.Place` | l2geth/core/tx_pool.go:628-671 | accepted exactly if the rival is outbidden; the lookup loses the rival and gains the transaction; who becomes local |
| `TxPools.Add` | l2geth/core/tx_pool.go:597-672 | the exact outcome in every case, with its error; pool in order, gaps kept away, and at most the capacity known unless all others are local |
| `PoolPromotes.PromoteTx` | l2geth/core/tx_pool.go:725-761 | inserts, raising the virtual nonce and renewing the heartbeat, or finds an older one better; without an older one nothing leaves the lookup |
| `PoolPromotes.PromoteAll` | l2geth/core/tx_pool.go:1231-1238 | the run of ready transactions is inserted whole, the branch for a better older one is never taken |
| `PoolPromotes.PromoteAccount` | l2geth/core/tx_pool.go:1209-1261 | the exact effect of promotion on an account's lists, virtual nonce and heartbeat, and the run it took; the pool stays in order |
| `PoolPromotes.PromotedGapfree` | l2geth/core/tx_pool.go:1230-1238 | promotion keeps every account gap-free |
| `PoolReorgs.PromoteExecutables` | l2geth/core/tx_pool.go:1204-1264 | promotes exactly the given accounts and touches no other, and returns exactly what was promoted; afterwards none of them has its next transaction waiting in the queue |
| `PoolReorgs.NothingExecutableLeft` | l2geth/core/tx_pool.go:1230-1238 | after promotion no promoted account's queue holds the transaction with its virtual nonce |
| `PoolDemotes.DemoteAccount` | l2geth/core/tx_pool.go:1403-1446 | the exact effect of demotion on an account's lists and heartbeat, with or without a gap in front; the pool stays in order |
| `PoolReorgs.DemotedLagging` | l2geth/core/tx_pool.go:1433-1441 | if the pool was demotable, no gap in front is found and the pending nonces of every account start at its state nonce |
| `PoolReorgs.DemoteUnexecutables` | l2geth/core/tx_pool.go:1401-1448 | demotes exactly the accounts with pending transactions; the alerts are as many as accounts whose filtered list has a gap in front |
| `PoolReorgs.RefillDecides` | l2geth/core/tx_pool.go:1073-1087 | after a head change, promotion and demotion leave an account without gap and alert if and only if the queue fills the gap below its pending transactions or the first of these is unpayable; otherwise there is an alert exactly if even the first one is missing |
| `PoolReorgs.RunDecides` | l2geth/core/tx_pool.go:1073-1087 | the same on one account's lists: what the run that promotion takes does to the gap |
| `PoolReorgs.RunSettles` | l2geth/core/tx_pool.go:1073-1087 | so for the pool: no gap and no alert if and only if every account settles, and alerts for exactly the stranded accounts |
| `PoolReorgs.GapStays` | l2geth/core/tx_pool.go:1411-1441 | demotion closes a gap in the middle only by dropping everything above it; otherwise it finds the gap in front exactly if nothing is below it |
| `PoolReorgs.PayableDemotable` | l2geth/core/tx_pool.go:1401-1448 | a gap-free pool in which everyone can pay is demotable |
| `PoolReorgs.RunMakesPayable` | l2geth/core/tx_pool.go:1073-1087 | after promotion of all queues and demotion every known transaction is payable, whatever the new state |
| `PoolTruncates.CountAll` | l2geth/core/tx_pool.go:1270-1273 | the counter is the true total |
| `PoolTruncates.CapLast` | l2geth/core/tx_pool.go:1304-1311 | capping at one less cuts off exactly the highest nonce |
| `PoolTruncates.Round` | l2geth/core/tx_pool.go:1301-1319 | every offender loses one transaction and the total falls by their number |
| `PoolTruncates.Lower` | l2geth/core/tx_pool.go:1300-1320 | rounds end at the limit or at the threshold, with the offenders level |
| `PoolTruncates.Equalise` | l2geth/core/tx_pool.go:1280-1323 | the longest accounts are brought level one after the other |
| `PoolTruncates.LevelGap` | l2geth/core/tx_pool.go:1269-1351 | raising the level by one adds one for each account that is cut |
| `PoolTruncates.TruncatePending` | l2geth/core/tx_pool.go:1269-1351 | water-filling: one common level, the highest that meets the limit or the allowance; locals and small accounts untouched; counter exact; undershoot less than the number cut |
| `PoolTruncates.LowerPartIsCapped` | l2geth/core/tx_pool.go:1304-1313 | what is left of a list is exactly its lowest nonces |
| `PoolQueues.TruncateQueue` | l2geth/core/tx_pool.go:1354-1396 | the total becomes exactly the limit unless only locals are left; most recently heard accounts lose first, and lose all before the next loses any |
| `PoolQueues.RemoveQueued` | l2geth/core/tx_pool.go:1380-1394 | exactly the given queued transactions leave the pool |
| `PoolRuns.AddTxsLocked` | l2geth/core/tx_pool.go:854-866 | each transaction in turn has the outcome of an addition; exactly the senders of new queue entries are dirty |
| `PoolRuns.SetGasPrice` | l2geth/core/tx_pool.go:426-435 | exactly the remote transactions below the price leave |
| `PoolRuns.EvictIdle` | l2geth/core/tx_pool.go:366-380 | exactly the queues of idle remote accounts are dropped; an account without a heartbeat is idle |
| `PoolRuns.Reset` | l2geth/core/tx_pool.go:1177-1198 | the pool follows the new head's state, forgets the virtual nonces and takes back what was set free |
| `PoolHeads.Prepare` | l2geth/core/tx_pool.go:1113-1186 | what a reset reinjects is exactly what the old branch holds and the new one does not, and nothing along the chain; when the reset is given up |
| `PoolHeads.ResetHeads` | l2geth/core/tx_pool.go:1113-1198 | the whole of reset, from two heads to the pool after it; a head that extends the chain changes nothing known |
| `PoolHeads.HeadsExtend` | l2geth/core/tx_pool.go:323-345 | a history whose heads extend each other is one in which nonces only rise and nothing comes back |
| `PoolHeads.StateBehind` | l2geth/core/tx_pool.go:1177-1189 | the pool's state is always that of the head or of one of its ancestors |
| `Resets.FindReinject` | l2geth/core/tx_pool.go:1113-1176 | nothing comes back when the new head extends the chain; otherwise exactly what only the old branch holds; given up only if a block is missing |
| `Resets.NothingDropped` | l2geth/core/tx_pool.go:1144-1174 | an old head on the new chain has an empty branch |
| `PoolRuns.MovedStarts` | l2geth/core/tx_pool.go:1177-1189 | after any head the pending transactions of each account are still an interval; after one that extends the chain every account settles |
| `PoolRuns.TakenBack` | l2geth/core/tx_pool.go:1190-1194 | an account settles if what was taken back fills the gap between its nonces in the new and in the old state |
| `PoolRuns.SettleNonces` | l2geth/core/tx_pool.go:1091-1095 | virtual nonces become one past the last pending nonce, and the pool gap-free |
| `PoolRuns.RunReorg` | l2geth/core/tx_pool.go:1048-1110 | the whole run, part by part; gap-free and payable before and heads only extending, or the pool unable to follow, means gap-free after and no alert; for any other head gap-free without alert if and only if every account settles, up to what the limits cut away; limits enforced; all payable after any reset; what is announced |
| `PoolRuns.DiscardStale` | l2geth/core/tx_pool.go:1060-1066 | after a reset exactly the announcements at or above the virtual nonces are left |
| `PoolRuns.Announce` | l2geth/core/tx_pool.go:1073-1081 | what was promoted joins the announcements and replaces those at the same nonce |
| `PoolRuns.NothingUnannounced` | l2geth/core/tx_pool.go:1073-1109 | every transaction that a run makes pending is announced |
| `PoolRuns.LoweredStrands` | l2geth/core/tx_pool.go:1433-1441 | a head that lowers the nonce of an account with one pending transaction and no queue strands it |
| `PoolRuns.LoweredExample` | l2geth/core/tx_pool.go:1048-1097 | such a pool and head: the run raises an alert |
| `PoolRuns.Handle` | l2geth/core/tx_pool.go:323-393 | the effect of each event, and the invariants it keeps |
| `PoolRuns.Run` | l2geth/core/tx_pool.go:323-393 | over every history, with any rules of admission at each step and any configured locals: each pool is what its event makes of the one before; pool in order, every known transaction payable; if heads only extend, gap-free with no alert; if nothing is made known twice, the price heap is sound |
| `Schedulers.ScheduleReorgLoop` | l2geth/core/tx_pool.go:978-1045 | in every interleaving the loop does what a scheduler without variables does, which merges each batch from the requests themselves; at most one run active, each request carried by exactly the run whose channel was handed out, channels closed exactly as runs end, nothing due waits without a run active; it ends exactly with the first shutdown |
| `Schedulers.Take` | l2geth/core/tx_pool.go:1006-1035 | a request joins the next run and gets its channel |
| `Schedulers.Launch` | l2geth/core/tx_pool.go:990-1003 | a due batch is launched as soon as no run is active, with exactly its requests, and nothing is launched otherwise |
| `Schedulers.ResetSpans` | l2geth/core/tx_pool.go:1007-1013 | merged resets go from the first old head to the last new head |
| `Schedulers.DirtyIsUnion` | l2geth/core/tx_pool.go:1017-1023 | an account is promoted exactly if a request named it |
| `Schedulers.LastEventStays` | l2geth/core/tx_pool.go:1026-1034 | of the transactions queued with one sender and nonce the run announces the last |
| `Schedulers.AskedWhileActive` | l2geth/core/tx_pool.go:1006-1035 | a request that comes while a run is active waits for the next one |
| `Schedulers.NeverRun` | l2geth/core/tx_pool.go:1036-1043 | a promotion asked for during a run, then a shutdown: its channel is closed and no run carries it |
| `Schedulers.NeverRunExample` | l2geth/core/tx_pool.go:978-1045 | the same from the start of the loop |
| `HeaderChains.HeaderChain.WriteHeader` | l2geth/core/headerchain.go:141-216 | keeps index, difficulties and heaviest head exact; which status, and that nothing changes for an unknown parent or a wrong number |
| `HeaderChains.Adopt` | l2geth/core/headerchain.go:153-209 | storing and, if it wins, re-routing keeps the database consistent |
| `HeaderChains.OverwriteStale` | l2geth/core/headerchain.go:184-197 | the re-routing loop ends at the fork and rewrites exactly the entries above it |
| `HeaderChains.ReroutedIndexes` | l2geth/core/headerchain.go:174-205 | the batch makes the index exactly the new head's ancestor chain, nothing above |
| `Blocks.DeleteAbove` | l2geth/core/headerchain.go:175-182 | marks the entries above a number up to the first missing one |
| `HeaderChains.HeaderChain.GetTd` | l2geth/core/headerchain.go:392-404 | the answer is the stored one, cached or not; a wrong number is noticed only off the cache |
| `HeaderChains.HeaderChain.GetHeader` | l2geth/core/headerchain.go:418-430 | the answer is the stored one, cached or not |
| `HeaderChains.HeaderChain.InsertHeader` | l2geth/core/headerchain.go:294-306 | a stored header is never written again, because none outweighs the head |
| `HeaderChains.HeaderChain.InsertHeaderChain` | l2geth/core/headerchain.go:284-325 | imports up to the first header without a parent; the count is the number of new headers |
| `HeaderChains.Replay` | l2geth/core/headerchain.go:141-216 | every run from genesis: exactly the headers are stored whose parents were, each has the status that total difficulty and coin give it, the head is the last one that won, and the chain is consistent |
| `Ancestors.GetAncestor` | l2geth/core/headerchain.go:355-388 | with a fixed index, whatever it holds: the ancestor as far as the walk goes by itself and then the index entry, one unit of budget for each step; with a changing one, the ancestor or the entry the index had between the two looks; an unknown block has no ancestors |
| `Ancestors.Meets` | l2geth/core/headerchain.go:366-386 | the walk meets the index at an ancestor, or goes all the way to genesis |
| `Ancestors.AnswerRight` | l2geth/core/headerchain.go:366-386 | the answer is the ancestor if the walk meets the index no higher than the head whose chain it holds |
| `Ancestors.ExactMeetsBelow` | l2geth/core/headerchain.go:366-386 | with an index that ends at its head every walk does |
| `Ancestors.MeetingRight` | l2geth/core/headerchain.go:367-374 | with a changing index the answer is the ancestor if the index held the block, and a head's chain that high, when the entry was read |
| `Ancestors.FlippedBack` | l2geth/core/headerchain.go:367-374 | an index that moves to another branch and on to a descendant of the first head, for which it is not |
| `Ancestors.StepBack` | l2geth/eth/handler.go:612-620 | the next header is what the lookup answers at the distance asked for, exactly if there is one and the budget pays for it; overflow of the distance stops |
| `Ancestors.StepForth` | l2geth/eth/handler.go:621-643 | the next header is the index entry at the distance asked for, exactly if the lookup from there leads back |
| `Ancestors.StepNumber` | l2geth/eth/handler.go:644-655 | the distance is kept if and only if the addition does not wrap; a reverse step as wide as can be asked for stays where it is |
| `Ancestors.StepRight` | l2geth/eth/handler.go:612-643 | a step by hash keeps to one chain if and only if the entry it takes from the index does |
| `Ancestors.StepBelowHead` | l2geth/eth/handler.go:612-643 | it does if it stays no higher than a head whose chain the index holds |
| `Ancestors.DistanceBelow` | l2geth/core/headerchain.go:362-386 | each step down brings a block one closer to the index, until it is on it |
| `Ancestors.FollowingDistance` | l2geth/eth/handler.go:612-620 | each step of a reply towards genesis brings it closer by its length |
| `Ancestors.GetBlockHeaders` | l2geth/eth/handler.go:588-657 | whatever the index holds: within the limit, starting at the one asked for, each header the one that follows, and as many as there are or the budget of 100 pays for; by number, the entry of the index at each position |
| `Ancestors.ReplySpaced` | l2geth/eth/handler.go:588-657 | a reply that stays no higher than a head whose chain the index holds is evenly spaced on one chain |
| `Ancestors.ExactFollowing` | l2geth/eth/handler.go:612-643 | with an index that ends at its head a reply goes on exactly as long as there is something to give |
| `Ancestors.CrossedOver` | l2geth/eth/handler.go:612-643 | with an index left behind by a takeover, the lookup answers with a block of the other branch, and replies pass from one branch to the other |
| `Ancestors.CrossedOverExample` | l2geth/eth/handler.go:612-643 | such blocks, from the takeover itself |
| `Ancestors.HalfWritten` | l2geth/core/blockchain.go:2482-2493 | an index that is being rewritten looks the same |
| `Ancestors.WrappedExample` | l2geth/eth/handler.go:652-655 | a query by number that gets the same header twice |
| `Reorgs.Collect` | l2geth/core/blockchain.go:2422-2465 | collects exactly the two branches above the common ancestor; fails only if a block is missing |
| `Reorgs.CommonIsHighest` | l2geth/core/blockchain.go:2442-2465 | above it the two chains share no block |
| `Reorgs.WriteBranch` | l2geth/core/blockchain.go:2482-2493 | re-writes the branch without its head, bottom up |
| `Reorgs.Reorg` | l2geth/core/blockchain.go:2366-2511 | index and lookup before the head is written, also if the index went on above the old head |
| `Reorgs.HeadIndexed` | l2geth/core/blockchain.go:2494-2511 | after the head is written the index is its chain at every height, and how far it goes above |
| `Reorgs.EndsAtHead` | l2geth/core/blockchain.go:2500-2508 | nothing is above the head exactly if the branch has two blocks or is not lower |
| `Reorgs.ChildIndexed` | l2geth/core/blockchain.go:1448-1462 | a child of the head is put on the index, and what is above it stays |
| `Reorgs.HeadLocated` | l2geth/core/blockchain.go:2494-2499 | the lookup covers exactly the canonical transactions if and only if no dropped one also occurs below the fork |
| `Reorgs.StaleEntriesRemain` | l2geth/core/blockchain.go:2500-2508 | a single lower block leaves every index entry of the old chain above it as it was, and only those |
| `Reorgs.SetHead` | l2geth/core/blockchain.go:1448-1462 | re-organising and writing the head together, with what becomes of the index above it and exactly when the lookup is exact |
| `Reorgs.ForkChoiceDecides` | l2geth/core/blockchain.go:1433-1447 | unless difficulty and number are equal, of two heads exactly one wins over the other |
| `Reorgs.WriteBlock` | l2geth/core/blockchain.go:1430-1462 | the fork choice never makes the head lighter, and at equal difficulty prefers the lower number; how far the index goes afterwards, and exactly when index and lookup are exact |
| `Reorgs.NamesFollow` | l2geth/core/blockchain.go:2482-2508 | the index names only stored blocks, also above the head |
| `Reorgs.Arrive` | l2geth/core/blockchain.go:1334-1462 | a block whose parent is stored is stored with its total difficulty, and becomes the head exactly if it wins; the head stays the heaviest |
| `Reorgs.Import` | l2geth/core/blockchain.go:1334-1462 | over every run from genesis: what is stored and which arrivals take over; the index holds the chain of the heaviest stored block, names only stored blocks, and ends at the head exactly if the takeovers say so |
| `Reorgs.LowerTakesOver` | l2geth/core/blockchain.go:1433-1462 | a single block that outweighs three by being lower leaves two entries above it, and loses a transaction that the dropped branch repeated |
| `Reorgs.LeftBehindExample` | l2geth/core/blockchain.go:1433-1462 | such blocks |
| `Reorgs.ChildLeavesExample` | l2geth/core/blockchain.go:1448-1462 | a child of such a head leaves an entry above it |
| `ChainIndexers.ProcessSection` | l2geth/core/chain_indexer.go:385-415 | succeeds exactly if the reads link up on top of the head given and the backend does not fail, and then with a full unbroken section, whatever was canonical at each read |
| `ChainIndexers.LastHeadSuffices` | l2geth/core/chain_indexer.go:420-427 | if the last stored head is canonical, every stored head is |
| `ChainIndexers.VerifiedIsHighest` | l2geth/core/chain_indexer.go:420-427 | verification keeps as many sections as the highest whose head is on the index |
| `ChainIndexers.VerifiedOnChain` | l2geth/core/chain_indexer.go:420-427 | what it keeps is on the head's chain if and only if no section above the head is vouched for by an entry left behind |
| `ChainIndexers.ExactIndexSuffices` | l2geth/core/chain_indexer.go:420-427 | with an index that ends at the head, every stored head is canonical afterwards |
| `ChainIndexers.ReorgSeen` | l2geth/core/chain_indexer.go:222-231 | the event loop never sees a reorg where there is none, and misses one exactly if the old head is higher and its entry was left behind |
| `ChainIndexers.MissedExample` | l2geth/core/chain_indexer.go:222-231 | an index left behind by a real head change with which event loop and verification keep a head that is off the chain |
| `ChainIndexers.ChainIndexer.VerifyLastHead` | l2geth/core/chain_indexer.go:420-427 | keeps just those sections, whatever the index holds |
| `ChainIndexers.ChainIndexer.NewHead` | l2geth/core/chain_indexer.go:240-297 | what a head or a reorg does to the known and stored sections |
| `ChainIndexers.ChainIndexer.Begin` | l2geth/core/chain_indexer.go:316-342 | a job starts exactly if sections are due, on top of the sections that verification keeps |
| `ChainIndexers.ChainIndexer.ResetFails` | l2geth/core/chain_indexer.go:390-393 | a failing backend drops all sections |
| `ChainIndexers.ChainIndexer.DropOne` | l2geth/core/chain_indexer.go:390-393 | each drop by itself keeps the heads linked, since others can come in between |
| `ChainIndexers.ChainIndexer.Finish` | l2geth/core/chain_indexer.go:343-371 | commits exactly if the head it built on is still stored; heads stay one linked chain |
| `ChainIndexers.ChainIndexer.RollBack` | l2geth/core/chain_indexer.go:469-481 | rolling back keeps the remaining heads as they are |
| `ChainIndexers.ChainIndexer.Sections` | l2geth/core/chain_indexer.go:432-438 | the last head returned is on the index; the block number wraps around if there is no section |
| `ChainIndexers.Interleave` | l2geth/core/chain_indexer.go:301-379 | over every interleaving, with an index that may hold anything at each step: each step has exactly its effect on sections, heads and job, and the stored heads form one linked chain of full sections |
| `Feeds.Find` | l2geth/event/feed.go:212-219 | finds a case exactly if it occurs |
| `Feeds.DeactivatedContents` | l2geth/event/feed.go:227-231 | swapping takes the case out of the active prefix and puts it behind |
| `Feeds.Unsubscribed` | l2geth/event/feed.go:170-177 | deleting keeps the partition, shrinking the prefix exactly if the case was active |
| `Feeds.LeftInbox` | l2geth/event/feed.go:107-113 | deleting a case from the inbox pays for one subscription that has not looked there before |
| `Feeds.PassedInbox` | l2geth/event/feed.go:107-114 | who does not find its channel in the inbox has a case among the send cases, besides all others who wait |
| `Feeds.StillThere` | l2geth/event/feed.go:116-123 | and keeps it whatever happens until it is removed |
| `Feeds.LeftCases` | l2geth/event/feed.go:119-122 | removing it keeps the account of all others |
| `Feeds.Locate` | l2geth/event/feed.go:170-176 | the case of who did not find it in the inbox is found, and not in the first place; without it all others are still accounted for |
| `Feeds.TookOutDivides` | l2geth/event/feed.go:170-177 | taking a case out during a send adds its subscription to those handed over, and the case to the dropped or the removed ones |
| `Feeds.Deactivate` | l2geth/event/feed.go:158-164 | a receiver that takes the value leaves the active prefix, joins those reached, and everyone is accounted for |
| `Feeds.Collected` | l2geth/event/feed.go:134-137 | taking in the inbox loses nobody |
| `Feeds.Feed.Subscribe` | l2geth/event/feed.go:72-92 | one more live subscription, at any time |
| `Feeds.Feed.CheckInbox` | l2geth/event/feed.go:103-114 | the first access of an unsubscriber: gone, or waiting for the second |
| `Feeds.Feed.RemoveLocked` | l2geth/event/feed.go:119-122 | the second with the send lock: the case is found, and not in the first place |
| `Feeds.Feed.CollectInbox` | l2geth/event/feed.go:132-153 | the value is addressed to one case for each live subscription, and nobody is reached or handed over yet |
| `Feeds.Feed.TrySend` | l2geth/event/feed.go:158-164 | a ready receiver gets the value, counts one and leaves the prefix; less is left to do |
| `Feeds.Feed.ChooseReceiver` | l2geth/event/feed.go:168-179 | so does the receiver that the select chooses |
| `Feeds.Feed.HandOver` | l2geth/event/feed.go:170-176 | an unsubscriber's case is found, and not in the first place; the prefix shrinks exactly if it was active; just this subscription joins those handed over, and its case the dropped or the removed ones |
| `Feeds.Feed.EndPass` | l2geth/event/feed.go:165-188 | a send ends exactly if no active case is left; then everyone addressed got the value once or unsubscribed before, and exactly those handed over are gone |
| `Feeds.TakeSenders` | l2geth/event/feed.go:155-189 | every step of a sender keeps the account and the partition, changes just what the step is for, and leaves less to do |
| `Feeds.TakeOther` | l2geth/event/feed.go:67-153 | so does every other step; those of subscribers and unsubscribers do not add to what is left to do |
| `Feeds.BusySince` | l2geth/event/feed.go:132-189 | a send under way was addressed to who was live when it collected the inbox, and those handed over are the ones received since |
| `Feeds.SendsEndWell` | l2geth/event/feed.go:165-189 | a send that ends reached one case for each of those, once, except for cases taken out before |
| `Feeds.GivesWay` | l2geth/event/feed.go:116-189 | a sender that goes on by itself comes to where an unsubscriber that waits can go on |
| `Feeds.Interleave` | l2geth/event/feed.go:67-189 | over every interleaving: each step that is possible is taken and has its effect; as many cases per channel as live subscriptions, enough send cases for all who wait to be removed, and every send that ends complete, with its audience and departures |
| `GasAccounting.IntrinsicGas` | l2geth/core/state_transition.go:93-127 | the exact cost, given up exactly if it does not fit 64 bits |
| `GasAccounting.GasPool.AddGas` | l2geth/core/gaspool.go:29-35 | adds, within 64 bits |
| `GasAccounting.GasPool.SubGas` | l2geth/core/gaspool.go:39-45 | subtracts exactly if there is enough |
| `GasAccounting.StateTransition.BuyGas` | l2geth/core/state_transition.go:194-230 | who is charged how much, and exactly when it fails |
| `GasAccounting.StateTransition.PreCheck` | l2geth/core/state_transition.go:232-249 | succeeds exactly if nonce, balance and block gas allow it, with the nonce errors told apart; no change on failure |
| `GasAccounting.StateTransition.Execute` | l2geth/core/state_transition.go:297-333 | what is run with how much gas, before and after Shanghai, and what happens to the nonce |
| `GasAccounting.ExecutedConserves` | l2geth/core/state_transition.go:297-333 | never more gas than before, total of balances kept |
| `GasAccounting.StateTransition.RefundGas` | l2geth/core/state_transition.go:364-379 | refund of at most half; sender and pool get the rest back |
| `GasAccounting.StateTransition.PayFee` | l2geth/core/state_transition.go:347-360 | what the coinbase is credited with |
| `GasAccounting.StateTransition.TransitionDb` | l2geth/core/state_transition.go:259-362 | goes through exactly if it can; pool gas plus used gas unchanged; balances exactly settled; total ether changes by exactly the minted amount |
| `GasAccounting.TotalsAdd` | l2geth/core/state_transition.go:345-360 | charge, refund and fee add up to the minted amount |
| `GasAccounting.ApplyTransaction` | l2geth/core/state_processor.go:90-134 | the receipt carries the cumulative gas |
| `GasAccounting.Process` | l2geth/core/state_processor.go:58-84 | over a block: remaining plus used gas is the limit, receipts are prefix sums, the total ether changes by the sum of what the messages mint in the worlds before them, which is zero after Shanghai without messages from L1 |
| `GasAccounting.AccountsNext` | l2geth/core/state_processor.go:71-79 | one more message adds what it mints |
| `GasAccounting.NeutralBlock` | l2geth/core/state_processor.go:71-79 | a block of sequencer messages after Shanghai mints nothing |
| `GasAccounting.FreeMintsNothing` | l2geth/core/state_transition.go:136-146 | a message without a gas price has no L1 fee and mints nothing |
| `GasAccounting.SurplusExample` | l2geth/core/state_transition.go:347-356 | a message from L1 at a gas price of 1 that mints its L1 fee |
| `GasAccounting.ShortfallExample` | l2geth/core/state_transition.go:206-217 | a message that mints the price of its gas |
| `GasAccounting.NeutralMints` | l2geth/core/state_transition.go:194-230 | a sequencer's message after Shanghai mints nothing |
| `GasLimits.NoWrap` | l2geth/core/block_validator.go:108-139 | for limits of valid headers the 64-bit computation equals the unbounded one |
| `GasLimits.BoundedMove` | l2geth/core/block_validator.go:108-139 | the move is below a 1024th if and only if the minimum does not pull the limit up too far |
| `GasLimits.BoundedAboveMinimum` | l2geth/core/block_validator.go:108-139 | in particular from the minimum on |
| `GasLimits.JumpsToMinimum` | l2geth/core/block_validator.go:124-126 | an input for which it is not |
| `GasLimits.Approaches` | l2geth/core/block_validator.go:127-138 | with floor and ceiling at one target, limits come monotonically closer, reach it within their distance and stay, whatever the blocks use |
| `GasLimits.StuckBelow2048` | l2geth/core/block_validator.go:113-132 | below 2048 they never move to a higher target |
| `SeqSets.UpdateEpochCache` | l2geth/core/seq_set.go:66-81 | the cache after appending or putting in front |
| `SeqSets.PrependedKeeps` | l2geth/core/seq_set.go:66-81 | putting in front keeps falling order, at most ten entries, and all old ones but the last |
| `SeqSets.FillCache` | l2geth/core/seq_set.go:118-159 | the first use reads the last ten epochs, or all there are |
| `SeqSets.RefreshCache` | l2geth/core/seq_set.go:118-159 | the current epoch comes in front of a filled cache, the other entries stay |
| `SeqSets.CheckSigner` | l2geth/core/seq_set.go:161-178 | fine exactly if the signer is in the cache |
| `SeqSets.ProcessSeqSetBlock` | l2geth/core/seq_set.go:83-178 | an ordinary block is accepted exactly if a cached signer signed it; a hand-over exactly if the new sequencer signed it |
| `SeqSets.RecordedNext` | l2geth/core/seq_set.go:83-178 | every entry of the cache stays one that the state held for some block |
| `SeqSets.Run` | l2geth/core/seq_set.go:83-178 | over every run with non-decreasing epochs the cache stays filled, each entry is one that the state of some block so far recorded, and so is the signer of every accepted ordinary block |
| `SeqSets.DecodesCall` | l2geth/core/seq_set.go:29-42 | decoding recovers the encoded arguments |
| `DerivationPaths.ParseDerivationPath` | l2geth/accounts/hd.go:68-116 | computes the specified parse |
| `DerivationPaths.String` | l2geth/accounts/hd.go:120-136 | computes the specified printing |
| `DerivationPaths.ComponentRoundTrip` | l2geth/accounts/hd.go:93-113 | a printed component, hardened or not, reads back as it was |
| `DerivationPaths.RoundTrip` | l2geth/accounts/hd.go:68-136 | parsing what was printed gives back every non-empty path of 32-bit components |
| `DerivationPaths.ReparseIsNoOp` | l2geth/accounts/hd.go:68-136 | printing and parsing again any input that parses changes nothing |

## Left out

- The pool, the price heap and the block chain's markers are values that each operation takes and hands back; the lists inside the pool are values too. Update in place is captured for the sorted map, the list, the nonce overlay, the header chain, the indexer, the feed and the state transition, which are classes; aliasing is not captured for the feed, whose active cases are the length of a prefix of one sequence instead of a second slice of it.
- TxPools.Add: the sign of the value, the signature and the intrinsic gas of a transaction are parameters; its cost is a field, not computed from its gas, price and value.
- TxPools.EnqueueTx: a nonce is 64 bit but the nonce after it is not reduced modulo 2^64.
- PoolRuns.RunReorg: for a whole run, the exact condition for gap-freeness is stated if the pending transactions of each account are an interval after the reset, as they are unless additions to a full pool drop some in between; after the limit on pending transactions is exceeded it is stated up to there. The order in which transactions of different senders are announced is not modelled.
- PoolHeads.Prepare: a block holds the numbers of its transactions; which transaction a number stands for, and the states after blocks, are parameters. That executing a block lowers no nonce is a hypothesis of `PoolHeads.HeadsExtend`.
- Positions of the errors returned for a batch of transactions: not modelled.
- PoolTruncates.Equalise: the priority queue is modelled by choosing a longest remaining account.
- PoolQueues.TruncateQueue: sorting by heartbeat is modelled by choosing a most recent remaining account; the transactions of an account are removed in any order.
- Schedulers.ScheduleReorgLoop: a requester that finds the pool shut down instead of the scheduler is not modelled.
- HeaderChains.HeaderChain.WriteHeader: a header with a wrong number whose parent's difficulty is cached is excluded, since the cache is not asked for the number; header verification refuses it before. Caches may lose entries only between calls. Rewinding the head is not modelled.
- Ancestors.GetBlockHeaders: the index holds anything that is stored, but does not change while a reply is put together.
- Reorgs.Reorg: logs and their events are not modelled.
- Reorgs.Import: a block has the number after its parent's, as header verification has it; the state that goes with a block is not modelled.
- ChainIndexers.ChainIndexer.NewHead: no checkpoint and no child indexers.
- ChainIndexers.ChainIndexer.DropOne: lowering the count and removing the head of a section is one step, although no lock is held.
- ChainIndexers.ReorgSeen: the search for the common ancestor that follows is not modelled.
- Feeds.Feed.CollectInbox: the type check of channels is not modelled.
- GasAccounting.StateTransition.Execute: what the virtual machine does to nonces, code and storage is not modelled, nor are access lists and tracing.
- GasAccounting.Process: the consensus engine's finalisation and the derivation of the L1 fee are not modelled.
- SeqSets.ProcessSeqSetBlock: signature recovery is a field of the transaction; a block without transactions is excluded, since the original would fail on it. Storage slots are a function from epoch to record.
- Journals, metrics, logging, timers, networking, databases beyond maps, the freezer, side-chain insertion and state repair are not part of this model.
