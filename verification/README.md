# Chainpoint Core: anchoring, proofs and their limits

Chainpoint Core turns submitted hashes into Bitcoin timestamps. Hashes are aggregated into
Merkle trees, the aggregation roots into calendar (CAL) transactions on a Tendermint chain,
ranges of CAL transactions into the root of a Bitcoin transaction (announced as a BTC-A), and
that transaction into a block's Merkle root. Each level leaves a segment of operations, and a
proof glues the segments of one hash together.

This project models that machinery in Dafny and proves what it keeps over whole runs:

- `ByteStrings`, `Utf8`, `Merkle`, `ProofOps`: hexadecimal text, UTF-8, the two kinds of tree, and
  proof operations with the meaning of a Chainpoint proof (`l` prepends, `r` appends, `op`
  hashes, a nested branch goes on from its parent's value).
- `Aggregations`, `Calendar`, `BitcoinBlock`: each level's tree and the segment it stores.
- `KeyValue`, `Store`, `ProofAssembly`, `ProofSoundness`, `ProofRuns`, `ProofUpgrade`: lists under
  keys, the doubly indexed proof store, the joins that assemble proofs, that every stored proof
  verifies, and exactly when ConstructProof recomputes the branch the store holds.
- `ChainState`, `TxIndex`, `AnchorEngine`, `AnchorRuns`, `AnchorInterval`, `AnchorLosses`, `Replay`:
  the replicated counters, the queries over the transaction log, and the anchor epoch machine.
- `Deliveries`, `OfferedRanges`, `Announcing`: what whole runs of deliveries leave in the counters, which
  ranges block ends offer, and which node announces them.
- `NodeRuns`, `HandedOn`, `SecondAnnouncement`: the anchor machine and the proof store of one node
  together, with its confirmation list, and a run in which a range is announced twice.
- `AggregatorThreads`, `AggregatorProgress`: the concurrent aggregator, and that a call to it returns.
- `TokenBucket`, `RateLimiter`, `CoreActivity`, `Election`: the rate limiter, what its records remember,
  and leader election among the active cores.
- `Confirmations`, `ConfirmationRuns`: the list of transactions that wait for confirmations.
- `FailingInputs`: one input for each promise that holds only under a condition.

Code that changes state in place is a class whose methods are proved against functions of the
old state; goroutines are steps of a state machine that interleave.

## What the proofs found

Where a promise of the code holds only under a condition, the condition is proved exact and an
input or a run that breaks it is given.

- No CAL root is lost between anchors only if three things do not happen: a re-anchoring that
  does not return nil (the check has been deleted by then), a BTC-A that shares its root with
  another pending range, and 144 Bitcoin blocks within ten calendar blocks, for which
  `bitcoinanchor.go:547` drops the check without a re-anchoring.
- Pending ranges stay apart exactly from `AnchorInterval` 11 on. The failure monitor acts after
  more than ten blocks, so with ten a new range can be anchored first.
- `bitcoinanchor.go:524` compares an aggregation root with `LastErrorCoreID`; the failed root is
  kept in `LatestErrRoot`. With roots of 64 hexadecimal digits and core IDs of another length
  the branch is never taken, and neither is the reset at line 543.
- `LatestCalTxInt - CurrentCalInts` cuts off the CALs of the current block only if at most one
  counted transaction of another kind stands among them.
- Calendar proofs are taken by the position of the aggregation, leaves by the position among the
  roots that decode: they belong together only if every earlier root decodes. This is so of
  GenerateCalendarTree alone: whatever AggregateAndReset hands it decodes.
- Without a beacon value a hash is copied into 32 bytes, so only 32-byte hashes are led to their
  aggregation root. A left node that contains "drand" is written as text; unless it is UTF-8 it
  comes back from JSON as other bytes, and a submitted hash can be such a node.
- AggregateAnchorTx slices 16 bytes off the root for the aggregation ID, which panics for a range
  that is not empty and none of whose CALs decodes.
- The BTC transaction state rejoins to the transaction only if the root's first occurrence in
  the body is at an even offset, wherever the root was pushed.
- `GetBtcaForCalTx` reads one page of BTC-As: it finds a CAL's own only among the next five.
- A catching-up node takes `BeginCalTxInt` from each BTC-A, so the BTC-A of an older range sets
  it back; it agrees with a synced node exactly if the BTC-A is that of the newest range.
- A re-anchoring or a second leader announces one range in two Bitcoin transactions. The stored
  branch is that of the one confirmed first, ConstructProof's that of the first BTC-A found: they
  agree exactly if that is the same transaction, and otherwise for no block and BTC-C.
- A scan for confirmations doubles an entry that it meets more often than it is listed, which no
  scan of one chain does. A sync
  that jumps 36 blocks leaves entries mined on the way waiting for good, and an entry with six
  confirmations is taken off the list also when no header proof could be made for it.
- A leader whose cache write fails after its BTC-A is out has announced a range that it does not hold
  as anchored.
- Records start at height 0, so in the first 128 blocks every declared core counts as active.
- CAL and BTC-C rate limits are counted but not enforced.
- Validate answers true together with an error for a JWK whose meta does not parse, of a core
  whose Lightning identity is known; it answers false for CHNGSTK, which its switch lacks.

## Model

| member | source | states |
|---|---|---|
| `NodeRuns.EveryProofOfANodeVerifies` | anchor/bitcoin/bitcoinanchor.go:70-133 | Over every interleaving of deliveries, block ends, anchoring and re-anchoring goroutines, failure monitors, calendar steps, BTC-A monitors and confirmations: the proof stored under an ID has that ID, carries a hash submitted under it and verifies from that hash to the root of the calendar transaction it went into and, once it has a BTC branch, to the Merkle root of the confirming block; every hash that reached the calendar has a proof; each step reads the log only as far as it has been delivered |
| `NodeRuns.StartIsSound` | anchor/bitcoin/bitcoinanchor.go:70-133 | The invariant that these runs keep holds at any start with nothing pending, an empty store and no BTC-A of a range beyond the start |
| `NodeRuns.UpgradeEqualsStoredForGood` | anchor/bitcoin/bitcoinanchor.go:277-347 | In every run each proof that gets a BTC branch gets it from one confirmation of the run, and at the end it nests the branch that ConstructProof makes for that confirmation's block and BTC-C if and only if the BTC-A found for the CAL is of the BTC transaction that was confirmed; if it is of another one, or none is found, ConstructProof makes that branch for no block and BTC-C |
| `SecondAnnouncement.SecondConfirmedFirst` | anchor/bitcoin/bitcoinanchor.go:277-347 | A run from a start delivers two BTC-As of one range and confirms the second first: it ends with a stored branch that ConstructProof makes for no block and BTC-C, though it succeeds for a block that holds the first transaction |
| `NodeRuns.UpgradeStays` | anchor/bitcoin/bitcoinanchor.go:277-347 | What ConstructProof makes for a block and a BTC-C, once the BTC-A found for the CAL is of an anchored range, it makes after any further steps of the node |
| `HandedOn.HandedOnCompletes` | anchor/bitcoin/bitcoinanchor.go:571-601 | Over every run of a node and its confirmation list, each transaction handed on is one the node can confirm, and its confirmation leaves every proof found under it with a BTC branch for good when LND delivers its block, and changes nothing when not |
| `NodeRuns.ConfirmationCompletesForGood` | anchor/bitcoin/bitcoinanchor.go:229-275 | After a confirmation every proof found under its BTC transaction has a BTC branch, for good |
| `NodeRuns.ConfirmedForGood` | database/level/chainpointdb.go:185-206 | A stored proof with a BTC branch is the same after any steps of the node |
| `NodeRuns.TreeStays` | anchor/bitcoin/bitcoinanchor.go:57-68 | Deliveries that come after a range was anchored leave its tree, and so every anchor state made from it, what it was |
| `AnchorEngine.AnchorBTC.StartAnchoring` | abci/anchor.go:17-33 | When a range is offered and which half-open range it is; CurrentCalInts is cleared in every case |
| `OfferedRanges.EveryOfferFitsItsBlock` | abci/anchor.go:17-33 | Over every run, whatever goroutines and monitors do between two block ends, the second offers at most one range: one that begins at BeginCalTxInt, takes in every index before the last CAL of earlier blocks and, if and only if at most one counted other transaction stands between the first and last CAL of the block, no CAL of it; when it is due and offers none, no CAL of earlier blocks is left |
| `OfferedRanges.OfferAfterBlock` | abci/anchor.go:22-32 | The same after any block delivered at once |
| `OfferedRanges.NoOfferWhileCatchingUp` | abci/anchor.go:22-32 | A node that is catching up offers nothing, and sets EndCalTxInt when a range would be due |
| `OfferedRanges.NothingWithoutAnchoring` | abci/anchor.go:22 | A node configured not to anchor never has a range pending |
| `AnchorEngine.AnchorBTC.AnchorToChain` | anchor/bitcoin/bitcoinanchor.go:70-133 | Who is elected in the node's view, with the core that reported an error last left out, what is broadcast, whether a failing broadcast panics, which of its steps a failing call has already taken, and the whole new state and list entry of one that returns nil |
| `Announcing.OnlyLeadersBroadcast` | anchor/bitcoin/bitcoinanchor.go:96-113 | Only an elected leader broadcasts: one BTC-A with the root of its own tree for the range if the Bitcoin transaction was sent, else a BTC-E with that root, and it panics exactly when a broadcast fails |
| `Announcing.CallLeaves` | anchor/bitcoin/bitcoinanchor.go:87-132 | Who was elected is on record, an error about this root and no other is forgotten, and the check put on the list says whether the node broadcast |
| `Announcing.LeaderIsFit` | anchor/bitcoin/bitcoinanchor.go:75-78 | An elected leader was active in the last 128 blocks, is not catching up and is not the core that reported an error last, unless in test mode |
| `Announcing.AtMostOneAnnounces` | anchor/bitcoin/bitcoinanchor.go:70-107 | Of all nodes that elect from the same view and leave out the same core, at most one ID broadcasts, whatever their logs and ranges |
| `Announcing.ElectedAnnounces` | anchor/bitcoin/bitcoinanchor.go:96-107 | ... and the elected ID, when synced and its calls succeed, broadcasts exactly its BTC-A |
| `Announcing.SomeoneIsElected` | anchor/bitcoin/bitcoinanchor.go:75-78 | ... and there is one if and only if some core was active and is not left out |
| `Announcing.AnnouncedIsAnchored` | anchor/bitcoin/bitcoinanchor.go:96-132 | The announced range is anchored by the call if and only if it returns nil, that is, if the cache write succeeds |
| `AnchorLosses.AnnouncedUnanchored` | anchor/bitcoin/bitcoinanchor.go:123-126 | A run from a start reaches a call that announces a range and does not anchor it |
| `Announcing.AnnouncedIsDeliverable` | anchor/bitcoin/bitcoinanchor.go:96-132 | The BTC-A of a call that returned nil can be delivered in any later block of the node, whose tree still has the announced root |
| `AnchorEngine.AnchorBTC.FindAndRemoveBtcCheck` | anchor/bitcoin/bitcoinanchor.go:434-453 | Deleting by value, entry by entry of a snapshot, takes out every check with the root and no other |
| `AnchorEngine.WithoutMultiset` | anchor/bitcoin/bitcoinanchor.go:434-453 | ... and keeps each other entry as often as it was there |
| `AnchorEngine.AnchorBTC.MonitorFailedAnchor` | anchor/bitcoin/bitcoinanchor.go:505-551 | The list, the counters and the re-anchored ranges after the loop over a snapshot of the list |
| `AnchorEngine.AnchorBTC.CheckAnchorRange` | anchor/bitcoin/bitcoinanchor.go:515-549 | One entry: deleted and reset, deleted and re-anchored, deleted as stale, or left |
| `AnchorEngine.AnchorBTC.ResetAnchor` | anchor/bitcoin/bitcoinanchor.go:697-701 | The two counters a reset writes |
| `OfferedRanges.ResetOffersAgain` | anchor/bitcoin/bitcoinanchor.go:697-701 | After a reset the next block end offers the range again from its beginning, however recent the last anchor |
| `AnchorEngine.EntryIsDeleted` | anchor/bitcoin/bitcoinanchor.go:524-549 | An entry goes once when reported, else once for more than 10 blocks and once more for 144 Bitcoin blocks, if it is listed so often; no other entry goes |
| `AnchorEngine.EntryOutcome` | anchor/bitcoin/bitcoinanchor.go:524-545 | When an entry is anchored again and when the epoch is reset to its beginning |
| `OfferedRanges.BlindMonitorWaits` | anchor/bitcoin/bitcoinanchor.go:505-512 | While LND's height is unknown no check is touched |
| `AnchorRuns.RunsAreSafe` | anchor/bitcoin/bitcoinanchor.go:70-133 | Over every run at most one range is pending, as a check or as a goroutine; ranges ever anchored are equal or disjoint and cover every index up to BeginCalTxInt; a pending check ends at BeginCalTxInt |
| `AnchorRuns.EndBlockKeeps` | abci/anchor.go:17-33 | From an interval of 11 on a block end leaves at most one range pending, the one it offers beginning where the anchored ones end, and loses no index |
| `AnchorRuns.RunKeeps` | anchor/bitcoin/bitcoinanchor.go:70-133 | A goroutine, whether it returns nil or not, leaves the anchored ranges equal or disjoint, covering everything up to BeginCalTxInt, and at most one of them pending |
| `AnchorRuns.RunLoses` | anchor/bitcoin/bitcoinanchor.go:528-541 | ... and loses indexes exactly when it is a re-anchoring that does not return nil, of a range without a BTC-A |
| `AnchorRuns.MonitorFailedKeeps` | anchor/bitcoin/bitcoinanchor.go:505-551 | The failure monitor keeps the invariant, and loses indexes exactly when it drops a check for 144 Bitcoin blocks that has not timed out and whose BTC-A was not delivered |
| `AnchorRuns.MonitorExactly` | anchor/bitcoin/bitcoinanchor.go:515-549 | The pending check is anchored again if and only if more than 10 blocks have passed since, and kept if and only if they have not and fewer than 144 Bitcoin blocks have, counted from a known height |
| `AnchorRuns.MonitorBtcaKeeps` | anchor/bitcoin/bitcoinanchor.go:185-226 | BeginTxMonitor keeps the invariant, and loses indexes exactly when the check it deletes by root belongs to a range without a BTC-A |
| `AnchorRuns.ResetIsUnreachable` | anchor/bitcoin/bitcoinanchor.go:524-545 | In every reachable state neither reset branch of the failure monitor is taken: no check carries the reported core ID (line 524 compares a root with LastErrorCoreID), and BeginCalTxInt has reached the end of every pending range (line 543) |
| `AnchorLosses.ReanchoringLoss` | anchor/bitcoin/bitcoinanchor.go:528-541 | For every interval >= 11 a run from a start reaches a re-anchoring that returns no nil and loses an index |
| `AnchorLosses.SameRootLoss` | anchor/bitcoin/bitcoinanchor.go:434-453 | ... a run delivers and monitors a BTC-A once more while another range with its root is pending, and loses an index |
| `AnchorLosses.StaleLoss` | anchor/bitcoin/bitcoinanchor.go:547-549 | ... and a run reaches 144 Bitcoin blocks within ten calendar blocks, and loses an index |
| `AnchorLosses.LateBtcaSetsBack` | abci/transactions.go:136-148 | A run reaches a BTC-A of an older range that sets a catching-up node back behind the synced one |
| `AnchorRuns.NoCalRootIsLost` | anchor/bitcoin/bitcoinanchor.go:505-551 | Over every run with AnchorInterval >= 11 in which no step meets one of three guards, every index from the initial beginning up to BeginCalTxInt lies in a range whose BTC-A was delivered or that is pending |
| `AnchorRuns.FirstLossLoses` | anchor/bitcoin/bitcoinanchor.go:536-547 | ... and the first step that meets one of them does lose an index: the three guards (a re-anchoring that does not return nil, a BTC-A of another range with the same root, 144 Bitcoin blocks within ten calendar blocks) are exact |
| `AnchorInterval.IntervalBound` | anchor/bitcoin/bitcoinanchor.go:505-551 | No run has two ranges pending if and only if AnchorInterval >= 11: for every smaller interval a concrete run anchors a second range in the block in which the first has timed out but has not been looked at |
| `AnchorRuns.RootsOfRun` | anchor/bitcoin/bitcoinanchor.go:57-68 | Over every run indexes are unique, increasing and gapless, every check carries the root of its range, and the root of an anchored range never changes |
| `ChainState.AnchorApplication.UpdateStateFromTx` | abci/transactions.go:110-236 | The whole new state, the tags and the acceptance of every transaction type, malformed data included |
| `Deliveries.DeliveriesAreRecorded` | abci/transactions.go:110-236 | Over every run each transaction is accepted, counted and tagged as its type, its form and the transactions before it say (a BTC-C of version 2 or 3 if and only if its root is not that of the last accepted one), and each counter holds what the last transaction of its kind left: index, block height, root, fee, error, sender |
| `Deliveries.ConsecutiveRootsDiffer` | abci/transactions.go:174-198 | No two consecutive accepted BTC-Cs confirm one root |
| `Deliveries.HeightOfRun` | abci/abci.go:288-297 | The height counts the commits, deliveries leave it alone, and AppHash is one behind |
| `Replay.RunIsRemembered` | abci/transactions.go:110-236 | The same of what deliveries alone move, over every run of the anchor machine, whatever its goroutines and monitors do in between |
| `ChainState.AnchorApplication.UpdateStateFromBtcc` | abci/transactions.go:155-198 | The BTC-C case, with its three versions and the rejection of a repeated root |
| `ChainState.AnchorApplication.IncrementTxInt` | abci/transactions.go:26-29 | The tag appended carries the incremented counter |
| `ChainState.AnchorApplication.Commit` | abci/abci.go:288-297 | AppHash encodes the height before the increment |
| `Replay.ReplayAgrees` | abci/transactions.go:110-236 | Over every run a synced node, whatever its goroutines do, and a node catching up on the same blocks agree after each event on TxInt, Height, AppHash, LatestCalTxInt, CurrentCalInts and the latest BTC-A and BTC-C |
| `Replay.BtcaBringsTogether` | abci/transactions.go:136-148 | After a BTC-A they agree on LatestBtcaHeight, and on BeginCalTxInt if and only if no range anchored so far ends beyond it |
| `Replay.PendingBtcaBringsTogether` | abci/transactions.go:136-148 | In particular they agree on BeginCalTxInt after the BTC-A of the pending range |
| `TxIndex.DeliverKeepsIndexed` | abci/transactions.go:26-29 | Each delivery keeps the indexes unique, strictly increasing along the log and without gaps |
| `TxIndex.GetCalTxRange` | tendermintrpc/rpc.go:146-162 | One search per index returns exactly the CAL subsequence of the log with index in [min, max), in order; an empty range is an error |
| `TxIndex.SearchIsRange` | tendermintrpc/rpc.go:146-162 | A single search finds what the one-index range is |
| `TxIndex.RangeMembers` | tendermintrpc/rpc.go:146-162 | The range holds an entry exactly when it is a logged CAL with an index in bounds |
| `TxIndex.RangesConcatenate` | tendermintrpc/rpc.go:146-162 | Adjacent ranges concatenate to the combined range |
| `TxIndex.RangeIsStable` | tendermintrpc/rpc.go:146-162 | A range that ends at or below the counter reads the same after any further delivery |
| `TxIndex.GetBtcaForCalTx` | tendermintrpc/rpc.go:183-203 | The first of the first page of later BTC-As whose half-open range holds the index, or an error |
| `TxIndex.LookupFindsLaterCover` | tendermintrpc/rpc.go:183-203 | What it returns is a logged BTC-A with a higher index than the transaction, and its range holds the transaction's index |
| `TxIndex.LookupStays` | tendermintrpc/rpc.go:183-203 | A BTC-A once found is found whatever is delivered later |
| `TxIndex.LookupFindsOwnAnchor` | tendermintrpc/rpc.go:183-203 | With ranges equal or disjoint, repeats included, all later BTC-As that cover a transaction announce one range, and the lookup by transaction ID returns the first of them if and only if at most four others come before it |
| `FailingInputs.SixthIsNotFound` | tendermintrpc/rpc.go:188-202 | With six later BTC-As, the last of which covers the CAL, the lookup fails; with fewer it finds it |
| `TxIndex.RangeEndRespectsBlock` | abci/anchor.go:22-32 | At every block end LatestCalTxInt - CurrentCalInts is at least the last CAL index of earlier blocks, and it lies below every CAL of the block if and only if at most one counted other transaction stands between the first and the last of them |
| `FailingInputs.TwoOthersBetween` | abci/anchor.go:22-32 | A block with two such transactions, whose first CAL the range takes in |
| `TxIndex.BlockCounters` | abci/transactions.go:110-236 | What the counters hold after any block, in terms of the block alone |
| `AggregatorThreads.EveryInterleavingConserves` | aggregator/aggregator.go:38-134 | In every interleaving of additions, the worker loop, the workers and AggregateAndReset calls, each item is in the queue, with a worker, in a queued, drained or returned aggregation or on record as lost, as often as it was added; the mutex invariants hold |
| `AggregatorThreads.NothingIsLost` | aggregator/aggregator.go:98-131 | Nothing is lost if and only if every flush of a non-empty slice got its ULID and no worker took up an item with an empty hash |
| `AggregatorThreads.DroppedWereEmpty` | aggregator/aggregator.go:106-108 | Only items added with an empty hash are dropped |
| `AggregatorThreads.QuietWhenReset` | aggregator/aggregator.go:92-131 | Whenever the restart mutex is free or held by AggregateAndReset no worker holds an item |
| `AggregatorProgress.CallReturns` | aggregator/aggregator.go:38-66 | AggregateAndReset returns: from every reachable state in which it finds the channel open, at most 8n + 3 rounds of turns of the loop and the n workers, in any order and among any other steps, stop all workers and free the mutex, with nothing taken from the queue since the close; if the call takes the mutex then, as many turns of its own as aggregations are queued and one more return all of them |
| `AggregatorProgress.RoundsRelease` | aggregator/aggregator.go:92-133 | While the channel is closed each round leaves fewer turns to take, until the loop frees the mutex |
| `AggregatorProgress.DrainEnds` | aggregator/aggregator.go:45-63 | A drain ends with the whole queue, an empty queue and a free mutex, whatever the other threads do |
| `AggregatorProgress.FlushQueues` | aggregator/aggregator.go:122-126 | A worker on its way out queues the tree of its slice, if that is not empty and it gets a ULID |
| `AggregatorProgress.EveryBatchFits` | aggregator/aggregator.go:108-126 | Over every run in which each tree gets a ULID no tree has more than one item over the batch size |
| `AggregatorProgress.QueueIsInOrder` | aggregator/aggregator.go:66-80 | Over every run items leave the queue in the order they were added |
| `AggregatorProgress.OnlyCallsStop` | aggregator/aggregator.go:92-106 | The loop makes an open channel and lets its workers consume; only a call closes it, and only a worker that finds it closed stops the others |
| `AggregatorProgress.TurnsTakeOldest` | aggregator/aggregator.go:102-118 | Until then four turns of a worker put the oldest item behind those it has |
| `AggregatorThreads.DrainEmpties` | aggregator/aggregator.go:46-62 | A drain finds exactly as many aggregations as it counted, leaves the queue empty and frees the mutex |
| `AggregatorThreads.DrainTakesTheQueue` | aggregator/aggregator.go:38-64 | Over every interleaving a call that drains returns, in order, the queue it found, and leaves it empty |
| `AggregatorThreads.TreeTakesSlice` | aggregator/aggregator.go:137-213 | An aggregation carries exactly the items of the slice it was built from, and is empty only for want of items or of a ULID |
| `AggregatorThreads.Aggregator.AddHashItem` | aggregator/aggregator.go:66-68 | The step that puts an item on record as added and queued, after which every item added is still accounted for exactly once |
| `AggregatorThreads.Aggregator.MainTurn` | aggregator/aggregator.go:91-133 | Each turn of the loop is the step of the interleaving, and keeps the accounts and the mutex invariants |
| `AggregatorThreads.Aggregator.WorkerTurn` | aggregator/aggregator.go:97-128 | Each turn of a worker is its step, and keeps them |
| `AggregatorThreads.Aggregator.HeadHashItem` | aggregator/aggregator.go:70-80 | Takes the oldest item, or answers an empty one |
| `AggregatorThreads.Aggregator.CallTurn` | aggregator/aggregator.go:38-64 | Each turn of AggregateAndReset, from closing the channel to unlocking, is its step and keeps them; its error return for a short queue is never taken, and a call that ends hands out what it drained |
| `Aggregations.ProcessAggregation` | aggregator/aggregator.go:137-213 | The aggregation of a batch, the empty batch and a missing ULID included |
| `Aggregations.AggregationSound` | aggregator/aggregator.go:137-213 | Every stored row leads its submitted hash to the aggregation root, with any beacon or, for 32-byte hashes, without one, if every left node on its path that contains "drand" is UTF-8 |
| `Aggregations.AggregationSoundExactly` | aggregator/aggregator.go:144-185 | ... and only if both hold: the hash is 32 bytes long or there is a beacon, and every such node is UTF-8, unless inputs hashed on the way collide |
| `Aggregations.BadNeighbourMisleads` | aggregator/aggregator.go:174-183 | A submitted hash that contains "drand" and is not UTF-8, and the hash next to it, which is not led to the root |
| `Aggregations.AggItemsLead` | aggregator/aggregator.go:172-195 | Stored steps carry a node to where the steps read back from JSON carry it |
| `Utf8.ReadBackExactly` | aggregator/aggregator.go:176-178 | Bytes come back from JSON as they were if and only if they are UTF-8; otherwise there are more of them |
| `Aggregations.AggregationItems` | aggregator/aggregator.go:188-210 | The rows carry exactly the submitted items in order, under a root of 64 digits |
| `Aggregations.BeaconIsFirstLine` | aggregator/aggregator.go:148-190 | With a beacon the first stored line of each row is the text "drand:" and the beacon, on the left, and the second hashes |
| `Aggregations.RootCommitsToBeacon` | aggregator/aggregator.go:148-160 | The same items have the same root under two beacons if and only if the beacons are equal, unless named inputs collide |
| `Aggregations.RowsShowBeacon` | aggregator/aggregator.go:175-190 | ... and the same row only if they are |
| `Aggregations.BeaconReadBack` | aggregator/aggregator.go:171-178 | The beacon line is read back as it was |
| `Aggregations.BeaconIsNotHex` | aggregator/aggregator.go:174-178 | A node written as text is not taken for hexadecimal |
| `Merkle.PathCompleteness` | calendar/calendar.go:21-46 | In both trees, for every leaf list and every index, folding the emitted path from the leaf gives the root, promoted and duplicated nodes included |
| `Merkle.FoldInjective` | calendar/calendar.go:21-46 | A path leads to a given root from one start only, unless two inputs hashed on the way collide |
| `Merkle.RootCommits` | calendar/calendar.go:21-46 | Two equally long lists of digest-wide leaves share a root if and only if they are equal, unless two inputs hashed in the trees collide |
| `Merkle.DuplicatedLeafSharesRoot` | anchor/bitcoin/bitcoinanchor.go:626-653 | The Bitcoin tree of [a, b, c] has the root of [a, b, c, c]: why equal lengths are asked for |
| `Merkle.ThreeLeaves` | anchor/bitcoin/bitcoinanchor.go:617-655 | Neighbours are hashed left to right; a lone last node is promoted in the one shape and hashed with itself in the other |
| `Calendar.GenerateCalendarTree` | calendar/calendar.go:19-48 | The tree over the roots that decode, and one proof per aggregation, by the position of the aggregation |
| `Calendar.CalendarAlignment` | calendar/calendar.go:21-46 | Aggregation i is given the path of its own leaf if and only if every root before it decodes |
| `FailingInputs.ProofOfTheNext` | calendar/calendar.go:21-46 | For input that the aggregator does not produce: behind a root that does not decode, an aggregation is given the proof of the next one |
| `AggregatorThreads.DrainedAlign` | calendar/calendar.go:21-46 | In every interleaving what an AggregateAndReset call has taken fits the calendar tree made of it: leaf i is the root of aggregation i, and proof i leads it to the calendar root |
| `Calendar.CalendarSound` | calendar/calendar.go:19-48 | Each aggregation root is led to the calendar root by its own proof |
| `Calendar.CreateCalStateMessage` | calendar/calendar.go:51-76 | One state per proof, in order, under the transaction that carries the root |
| `Calendar.CalStatePointsToAnchor` | calendar/calendar.go:49-76 | Each state's URI is that of the calendar transaction its anchor names |
| `Calendar.AggregateAnchorTx` | calendar/calendar.go:79-126 | The BTC aggregation of a CAL list, undecodable data skipped in both slices |
| `Calendar.AggregateFailsExactly` | calendar/calendar.go:104 | With roots of 32 bytes the slice that makes the aggregation ID is out of range if and only if the list is not empty and none of its data decodes |
| `FailingInputs.NothingDecodes` | calendar/calendar.go:104 | A range whose one CAL carries no hexadecimal data |
| `Calendar.BtcAggregateSound` | calendar/calendar.go:79-126 | Proof i belongs to leaf i whatever was skipped before it, and leads its CAL root to the aggregation root |
| `Calendar.PrepareBtcaStateData` | calendar/calendar.go:129-145 | One state per proof, in order |
| `Calendar.TxStateLeads` | calendar/calendar.go:174-195 | The stored ends of the BTC transaction lead the root to the double hash of the rejoined body |
| `Calendar.RejoinedIsBody` | calendar/calendar.go:174-195 | Rejoining gives the body again if and only if the first occurrence of the root in it is at an even offset |
| `FailingInputs.RootAfterDigit` | calendar/calendar.go:174-195 | A transaction that pushes a root of zero bytes after 6a20: the first occurrence is at an odd offset, and the state does not rejoin to the body |
| `Calendar.GenerateHeadStateObject` | calendar/calendar.go:148-171 | The head state of a confirmation, line by line of its path |
| `Calendar.HeadStatePointsToBtcc` | calendar/calendar.go:148-171 | The head state names the block height and points to the BTC-C in lower case |
| `Calendar.HeadLeads` | calendar/calendar.go:148-171 | Its operations fold the path with double hashing |
| `BitcoinBlock.GetBlockTree` | anchor/bitcoin/bitcoinanchor.go:626-653 | The leaves, the last index of the transaction, and the three error cases |
| `BitcoinBlock.SameReversedIsEquality` | anchor/bitcoin/bitcoinanchor.go:644-650 | The doubly reversed comparison holds if and only if the computed root is the block's Merkle root |
| `BitcoinBlock.GenerateBtcHeaderProof` | anchor/bitcoin/bitcoinanchor.go:603-623 | The message for a transaction in a block |
| `BitcoinBlock.HeaderProofExists` | anchor/bitcoin/bitcoinanchor.go:603-653 | A header proof exists if and only if the block is there, holds the transaction, and its transactions hash to its Merkle root |
| `BitcoinBlock.HeaderProofSound` | anchor/bitcoin/bitcoinanchor.go:603-623 | Its path leads the transaction, in internal byte order, to the Merkle root, of which BtcHeadRoot is the reversed display |
| `ProofOps.ConvertGoOpsToJsonMap` | proof/proof.go:42-61 | Each line becomes one sibling operation if it has a left or right value and one hashing operation if it has an op, in order |
| `ProofOps.PathItemsLead` | aggregator/aggregator.go:172-195 | A path stored line by line carries a node where folding the path carries it |
| `ProofOps.WritePath` | calendar/calendar.go:33-44 | Writing a path line by line |
| `ProofOps.LeadsConcat` | proof/proof.go:64-126 | After a segment that leads x to y, another leads on to z if and only if it leads y to z |
| `ProofOps.OperationNames` | calendar/calendar.go:148-195 | "sha-256" hashes and "sha-256-x2" hashes twice |
| `ProofOps.CalendarBranchVerifies` | proof/proof.go:64-89 | A calendar branch verifies to the claim of its anchor, and to nothing else |
| `ProofOps.ChainBranchVerifies` | proof/proof.go:92-126 | A chain branch continues from the calendar value and claims the chain value |
| `ProofOps.NestedProofVerifies` | proof/proof.go:64-126 | A document with a chain branch nested in a calendar branch makes exactly these two claims |
| `ProofOps.Proof.AddChainpointHeader` | proof/proof.go:19-39 | The hash and the ID, replacing what was there |
| `ProofOps.Proof.AddCalendarBranch` | proof/proof.go:64-89 | The branches after it, unparsable states included |
| `ProofOps.Proof.AddChainBranch` | proof/proof.go:92-126 | The chain branch is nested in the first calendar branch, or is the first branch when there is none |
| `ProofAssembly.GenerateCalBatch` | abci/anchor.go:78-101 | One document for every row, with a calendar branch if its states parse, stored in order |
| `ProofAssembly.GenerateBtcBatch` | anchor/bitcoin/bitcoinanchor.go:349-424 | The join through last-wins maps and one document per row with a selected anchor state |
| `ProofSoundness.BtcDocsMembers` | anchor/bitcoin/bitcoinanchor.go:349-424 | A batch writes the documents of exactly those rows for which an anchor state is found |
| `ProofAssembly.ConstructProof` | anchor/bitcoin/bitcoinanchor.go:277-347 | The upgraded document of a CAL transaction, or an error |
| `ProofAssembly.GetTreeFromCalRange` | anchor/bitcoin/bitcoinanchor.go:57-68 | The aggregation of an index range, or an error |
| `ProofAssembly.EmptyTrees` | anchor/bitcoin/bitcoinanchor.go:57-68 | A range without indexes is an error, one without CALs has an empty tree |
| `ProofUpgrade.UpgradeEqualsStored` | anchor/bitcoin/bitcoinanchor.go:277-347 | A confirmation leaves in each proof found under its BTC transaction, not confirmed before, the branch that ConstructProof makes for the same block and BTC-C if and only if the BTC-A found for the CAL is of that transaction; if not, the two differ for every block and BTC-C that ConstructProof is given |
| `ProofUpgrade.BranchShowsBody` | anchor/bitcoin/bitcoinanchor.go:334-345 | Two BTC-As of one root that give a CAL the same chain branch carry the same transaction body |
| `ProofUpgrade.StoredIsRecomputed` | anchor/bitcoin/bitcoinanchor.go:277-304 | Every anchor state stored under the CAL is the one ConstructProof recomputes from the range of the BTC-A it finds |
| `ProofUpgrade.UpgradeFindsProof` | anchor/bitcoin/bitcoinanchor.go:268-270 | Once the BTC-A found for the CAL is monitored and gives an upgrade, the proof of every hash under the CAL is among those its confirmation completes |
| `ProofUpgrade.OneStatePerCal` | anchor/bitcoin/bitcoinanchor.go:334-337 | The recomputed tree has one anchor state for the CAL, so the last-wins map of ConstructProof holds it |
| `ProofUpgrade.ConfirmCompletes` | anchor/bitcoin/bitcoinanchor.go:229-275 | A confirmation leaves every proof found under its transaction with a BTC branch |
| `ProofSoundness.ProofService.AnchorCalendar` | abci/anchor.go:36-75 | What the store holds after it, also when the broadcast fails |
| `ProofSoundness.ProofService.BeginTxMonitor` | anchor/bitcoin/bitcoinanchor.go:185-226 | What the store holds after it: anchor states only if the node's own tree has the announced root |
| `ProofSoundness.ProofService.ConfirmAnchor` | anchor/bitcoin/bitcoinanchor.go:229-275 | What the store holds after it: a BTC batch for the proofs found under the transaction |
| `ProofSoundness.BatchSound` | anchor/bitcoin/bitcoinanchor.go:349-424 | For the proofs found under a BTC transaction the batch writes, in order, one document per aggregation row, with the row's ID and hash, that verifies from that hash to the root of the row's CAL and on to the block's Merkle root |
| `ProofSoundness.ClaimKinds` | proof/proof.go:128-133 | The claims of a sound proof are of the kinds "cal" and "btc", on the test network "tcal" and "tbtc" |
| `ProofAssembly.FinishedProof` | proof/proof.go:64-126 | A finished proof has one branch "cal_anchor_branch" and in it one "btc_anchor_branch", each ending in the anchor of its state |
| `ProofSoundness.JoinSelects` | anchor/bitcoin/bitcoinanchor.go:384-411 | For each of them the last-wins maps select an anchor state of that transaction's aggregation |
| `ProofRuns.DisjointRangesJustifyJoin` | anchor/bitcoin/bitcoinanchor.go:384-411 | Ranges that are equal or disjoint leave every CAL transaction one BTC aggregation, so it does not matter which state wins |
| `ProofRuns.EveryStoredProofVerifies` | anchor/bitcoin/bitcoinanchor.go:349-424 | Over every run of calendar, monitor and confirmation steps the proof stored under an ID has that ID, carries a hash submitted under it, verifies and claims nothing but the root of its CAL and the Merkle root of its block; every hash that reached the calendar has one |
| `ProofRuns.CalendarWrites` | abci/anchor.go:78-101 | After a broadcast every row of the step has a proof |
| `ProofRuns.ProcessedIsGood` | aggregator/aggregator.go:137-213 | What ProcessAggregation returns meets what those runs ask of an aggregation |
| `ByteStrings.ReverseAny` | util/util.go:61-67 | Reverses the array in place |
| `ByteStrings.ReverseTxHexInPlace` | util/util.go:54-59 | Collecting pairs, reversing them in place and joining is the reversal of the pairs |
| `ByteStrings.ReverseTxHexInvolution` | util/util.go:54-59 | Reversing twice gives the text back if and only if it has even length and no white space |
| `ByteStrings.ReverseTxHexOfEncoding` | util/util.go:54-59 | Reversing the text of an encoding is encoding the reversed bytes |
| `ByteStrings.HexRoundTrip` | anchor/bitcoin/bitcoinanchor.go:613-615 | Decoding an encoding gives the bytes back |
| `ByteStrings.HexOfByte` | anchor/bitcoin/bitcoinanchor.go:613-615 | The high digit comes first, in lower case; either case is decoded |
| `ByteStrings.HexDecodeSplit` | calendar/calendar.go:180-190 | Text cut at an even offset decodes piece by piece |
| `KeyValue.KVStore.Append` | database/level/cache.go:44-56 | The list under the key grows at its end, other lists are untouched |
| `KeyValue.KVStore.Del` | database/level/cache.go:75-95 | The first occurrence is taken out, and nothing when there is none; with the empty value everything under the key |
| `KeyValue.KVStore.GetArray` | database/level/cache.go:28-42 | An absent key reads as the empty list |
| `KeyValue.DelFirstMultiset` | database/level/cache.go:83-88 | Deletion takes out one occurrence at most, and nothing else |
| `KeyValue.DelFirstAppend` | database/level/cache.go:44-95 | Deleting one value and appending another commute |
| `Store.ChainpointDb.BulkInsertAggState` | database/level/chainpointdb.go:209-224 | Each record is appended to both of its indexes |
| `Store.ChainpointDb.BulkInsertCalState` | database/level/chainpointdb.go:226-241 | Each record is appended to both of its indexes |
| `Store.ChainpointDb.BulkInsertBtcAggState` | database/level/chainpointdb.go:243-258 | Each record is appended to both of its indexes |
| `Store.ChainpointDb.InsertBtcTxState` | database/level/chainpointdb.go:260-274 | The state is set under both of its keys |
| `Store.TxUnderBothKeys` | database/level/chainpointdb.go:260-274 | A transaction state is found under both keys, and no other record is touched |
| `Store.ChainpointDb.BulkInsertProofs` | database/level/chainpointdb.go:185-206 | A stored proof with a BTC branch is kept, any other is replaced |
| `Store.ChainpointDb.GetProofIdsByBtcTxId` | database/level/chainpointdb.go:55-99 | The nested loops give the proof IDs of the forward walk, repeats included |
| `Store.ChainpointDb.GetAggStateObjectsByProofIds` | database/level/chainpointdb.go:121-137 | The rows of every key, in order |
| `Store.ChainpointDb.GetCalStateObjectsByAggIds` | database/level/chainpointdb.go:102-118 | The rows of every key, in order |
| `Store.ChainpointDb.GetAnchorBTCAggStateObjectsByCalIds` | database/level/chainpointdb.go:140-156 | The rows of every key, in order |
| `Store.IndexesAgree` | database/level/chainpointdb.go:209-274 | After any sequence of inserts each record is under its first key as often as under its second |
| `Store.ForwardIsBackward` | database/level/chainpointdb.go:55-99 | A proof ID is found under a BTC transaction if and only if its walk through aggregation, calendar and anchor records reaches the aggregation of that transaction |
| `Store.StoredProofOfRun` | database/level/chainpointdb.go:185-206 | Under any interleaving of batches and other inserts the stored proof is the winner of all documents inserted under its ID |
| `Store.WinnerIsFirstBtcOrLast` | database/level/chainpointdb.go:185-206 | ... which is the first with a BTC branch or, while there is none, the latest |
| `Store.BtcProofsStay` | database/level/chainpointdb.go:185-206 | A stored BTC proof is changed by no later batch |
| `Confirmations.ConfirmationMonitor.MonitorBlocksForConfirmation` | anchor/bitcoin/bitcoinanchor.go:656-694 | The list after the nested loops, up to the first block LND does not deliver, and whether there was one |
| `Confirmations.ConfirmationMonitor.BlockSyncMonitor` | anchor/bitcoin/bitcoinanchor.go:479-502 | The list and the height after a sync, a silent LND and a gap of 36 blocks included |
| `Confirmations.ConfirmationMonitor.MonitorConfirmedTx` | anchor/bitcoin/bitcoinanchor.go:571-601 | Exactly the entries with six confirmations go, in spite of the double deletion, and are handed on in order with the message made for each |
| `Confirmations.ArrayContainsIndex` | util/util.go:515-522 | The first position, or -1 |
| `ConfirmationRuns.ScanExactly` | anchor/bitcoin/bitcoinanchor.go:656-694 | For any list and any blocks, how often each entry is listed after a scan |
| `ConfirmationRuns.ScanKeepsEntries` | anchor/bitcoin/bitcoinanchor.go:679-690 | A scan never loses an entry, and doubles none if and only if no entry it finds is met in blocks above genesis more often than it is listed |
| `FailingInputs.DoubledEntry` | anchor/bitcoin/bitcoinanchor.go:679-690 | A transaction that a scan meets in two blocks, as across a reorganisation, leaves two entries |
| `ConfirmationRuns.SyncMarksExactly` | anchor/bitcoin/bitcoinanchor.go:479-502 | A waiting entry is given the height of its block if and only if the sync looks at blocks and reaches that one |
| `ConfirmationRuns.NeverLost` | anchor/bitcoin/bitcoinanchor.go:571-694 | Over any run, with any blocks, no broadcast transaction is lost |
| `ConfirmationRuns.EntriesAreTracked` | anchor/bitcoin/bitcoinanchor.go:571-694 | Over every run on a chain that mines no ID twice, each entry goes from height 0 to the height of a block that holds it to confirmation, and none is lost or doubled |
| `ConfirmationRuns.HandedOnWithProof` | anchor/bitcoin/bitcoinanchor.go:571-601 | What is handed on has six confirmations, and a header proof if and only if LND delivers its block |
| `FailingInputs.GoneWithoutProof` | anchor/bitcoin/bitcoinanchor.go:591-599 | An entry taken off the list though no message could be made |
| `ConfirmationRuns.NothingIsMissed` | anchor/bitcoin/bitcoinanchor.go:479-502 | Over runs that broadcast each ID once, before its block is passed, and never jump 36 blocks, no entry waits for a block already passed |
| `ConfirmationRuns.PassedEntryWaitsForGood` | anchor/bitcoin/bitcoinanchor.go:486-497 | An entry whose block was passed waits through every run in which LND's height does not fall back to that block |
| `ConfirmationRuns.PassedEntryWaits` | anchor/bitcoin/bitcoinanchor.go:486-497 | ... and the step in which it does brings the entry back in reach |
| `FailingInputs.JumpedOver` | anchor/bitcoin/bitcoinanchor.go:486-497 | A jump of 36 blocks that passes an entry |
| `TokenBucket.BucketIsLeastRoom` | txratelimiter/validation.go:63-80 | The bucket an attempt finds is the least of what the initial bucket and refills leave and what any window from an earlier attempt leaves |
| `TokenBucket.BucketIsWindows` | txratelimiter/validation.go:63-80 | The bucket decides every attempt as a limiter does that keeps no bucket and looks at all windows |
| `TokenBucket.BucketStaysWithin` | txratelimiter/validation.go:63-80 | Over non-decreasing heights and without exempt attempts the bucket stays between 0 and AllowedRate |
| `TokenBucket.NoWindowOverruns` | txratelimiter/validation.go:63-80 | ... and no window holds more acceptances than AllowedRate plus the refill over it |
| `RateLimiter.TxRateLimiter.Validate` | txratelimiter/validation.go:206-296 | The records, the verdict and the error for every type, undecodable and undeclared senders included |
| `RateLimiter.TxRateLimiter.GetValidationRecord` | txratelimiter/validation.go:125-138 | The record of a declared core, a missing one reading as zero; an error and a new record for an undeclared one; with complete records none is missing |
| `RateLimiter.TxRateLimiter.SetValidationRecord` | txratelimiter/validation.go:141-148 | The record under the key of a declared core |
| `RateLimiter.TxRateLimiter.IncrementAnchor` | txratelimiter/validation.go:151-170 | One of the two anchor counters of a declared core |
| `RateLimiter.TxRateLimiter.SetIdentity` | abci/stakingidentity.go:268-293 | The key is declared and has a record, an existing one being kept |
| `RateLimiter.RunKeepsRecords` | abci/stakingidentity.go:268-293 | Over every run every declared key has a record, with the rates it was made with |
| `RateLimiter.CheckMovesLimits` | txratelimiter/validation.go:223-287 | Which transactions are attempts on which limit, and that no other transaction moves it |
| `RateLimiter.LimitIsBucket` | txratelimiter/validation.go:206-296 | Over every run a key's limit is the bucket of its own attempts, whatever other keys, declarations and anchor outcomes come between |
| `RateLimiter.FeeAcceptedExactly` | txratelimiter/validation.go:264-273 | A FEE of a declared core is accepted if and only if it offers at least 50 and every window of its key's earlier attempts has room for one more |
| `RateLimiter.BtcaAcceptedExactly` | txratelimiter/validation.go:247-254 | A BTC-A is accepted if and only if its core is a validator or every window has room |
| `RateLimiter.CalNeverLimited` | txratelimiter/validation.go:230-263 | CAL and BTC-C transactions of a declared core are always accepted |
| `RateLimiter.ValAndErrorAlwaysPass` | txratelimiter/validation.go:228-247 | VAL and BTC-E transactions of a declared core pass and move no record |
| `RateLimiter.UndeclaredPassesWithJwk` | txratelimiter/validation.go:213-222 | An undeclared core passes with a JWK only, and moves no record |
| `RateLimiter.RatesOfRun` | txratelimiter/validation.go:21-61 | Over every run the rates of a record are 80 CALs, 2 BTC-As, 1 BTC-C and 4 FEEs in 60 blocks |
| `CoreActivity.RecordsRemember` | txratelimiter/validation.go:206-296 | Over every run a record holds the height of the last CAL, JWK, accepted BTC-A and FEE and counted BTC-C of cores with its key, and the counts of its CALs and moved identities |
| `CoreActivity.OutcomesRemember` | txratelimiter/validation.go:151-170 | ... and the numbers of their confirmed and failed anchors |
| `CoreActivity.DeclarationsRemember` | abci/stakingidentity.go:268-293 | Over every run each core has the key and the Lightning identity it declared last |
| `CoreActivity.ActiveExactly` | txratelimiter/validation.go:102-122 | After any run the election counts a declared core as active if and only if one of its checks in the last 128 blocks was a CAL, an accepted BTC-A or FEE or a counted BTC-C, or the height is below 128 |
| `FailingInputs.ActiveWithoutTransactions` | txratelimiter/validation.go:102-122 | A core that has only declared its key and counts as active |
| `FailingInputs.NotEnforced` | txratelimiter/validation.go:230-263 | A core whose CAL passes with an empty bucket |
| `RateLimiter.PassesWithErrorExactly` | txratelimiter/validation.go:274-291 | A transaction passes together with an error if and only if it is a JWK of a declared core whose Lightning identity is known and its meta does not parse |
| `RateLimiter.UnknownNeverPasses` | txratelimiter/validation.go:223-291 | A declared core's transaction of a type that the switch lacks never passes |
| `RateLimiter.BucketsBounded` | txratelimiter/validation.go:21-80 | In every run no bucket exceeds AllowedRate, and the FEE, CAL and BTC-C buckets, and the BTC-A buckets of keys without a validator's attempt, are never below 0 and no window overruns |
| `Election.GetLastNSubmitters` | txratelimiter/validation.go:102-122 | Exactly the declared cores with a record and a transaction of one of four kinds in the window, each with the height of the last kind seen, in whatever order the map is walked |
| `Election.SortIsUnique` | leaderelection/tmleader.go:88 | Two sorts of the same elements agree when no two different elements compare equal |
| `Election.ElectChainContributorAsLeader` | leaderelection/tmleader.go:70-103 | The leaders are the election on the ordered active cores off the blacklist; the node claims to lead if and only if it is one of them and not catching up |
| `Election.LeadersAreUnique` | leaderelection/tmleader.go:70-103 | The leaders depend on nothing but what all nodes see alike |
| `Election.AtMostOneLeads` | leaderelection/tmleader.go:70-103 | When one leader is elected at most one ID is it, whatever the order of maps and blacklists |
| `Election.LeadersAreActive` | leaderelection/tmleader.go:70-103 | Leaders are active cores off the blacklist, and there is one if and only if there is such a core |
| `Election.ElectionIsSeeded` | leaderelection/tmleader.go:70-103 | The leaders are those that the library elects from the ordered active cores off the blacklist, seeded by the latest block hash |
| `Election.LeqMeans` | leaderelection/tmleader.go:88 | The order of the sort: a beginning first, else the smaller element where two strings first differ |
| `Election.GetSortedValidatorList` | leaderelection/tmleader.go:143-152 | A permutation in descending order of address |
| `Election.DetermineValidatorLeader` | leaderelection/tmleader.go:105-140 | The leaders are the election on the sorted, filtered list, and the node claims to lead if and only if its address is among them and it is not catching up |
| `Election.ValidatorLeadersAreUnique` | leaderelection/tmleader.go:105-152 | Validators listed in any order elect the same leaders, provided addresses tell them apart |
| `Election.LeadingValidatorsAreAllowed` | leaderelection/tmleader.go:105-140 | Leading validators are validators off the blacklist, and there is one if and only if there is such a validator |

## Left out

- Cryptography: SHA-256 (FIPS 180-4, section 6.2) is any function from bytes to bytes, given as a parameter; signatures, JWK parsing and ULIDs are inputs. Collisions are asked for only among named inputs.
- The `merkletools` and leader-election libraries are not part of the repository: the first is modelled (a lone last node is promoted, in the Bitcoin tree duplicated; a path out of range is empty), the second is a parameter, and only `Election.LeadersAreActive` asks it to pick from its list.
- Networks and clocks: Tendermint, LND, HTTP, drand and time are inputs; failures that change what the code does are inputs too (elected leaders, searches, cache writes, broadcasts, blocks not delivered). Errors of LevelDB are not modelled except the cache write of AnchorToChain.
- JSON and text: states are typed records that parse or do not. A key whose JWK does not materialise makes SetIdentity panic and is not modelled. Decimal and UUID text and lower-casing are parameters. A slice out of bounds in GenerateAnchorBtcTxState is an error result where the source panics.
- Calendar.AggregateAnchorTx: a slice out of bounds is an error result where the source panics; Calendar.AggregateFailsExactly says when.
- Integer width: counters and heights are unbounded integers.
- Float32: buckets are exact rationals, held as the bucket times PerBlocks; rounding is not modelled.
- ChainState.AnchorApplication.UpdateStateFromTx: StakePerCore, the wallet's last fee and the counter of confirmed anchors, which RateLimiter.TxRateLimiter.IncrementAnchor moves, are not part of its state.
- ChainState.AnchorApplication.UpdateStateFromBtcc: the call that counts a confirmed anchor is not part of it, for the same reason.
- ProofAssembly.ConstructProof: the block height and the hash of the BTC-C, and the block, are inputs; the search for them and the fallback to LND are not modelled.
- AnchorRuns.RunsAreSafe: no goroutine panics, since that ends the process; and runs are serialised as the code intends, not as it enforces: the failure monitor runs once between two block ends and LND has a height by then, a goroutine spawned before a block end is done by the next, and BTC-As come from honest leaders, so they name a range this node anchored.
- ProofRuns.EveryStoredProofVerifies: works against one log; `NodeRuns.EveryProofOfANodeVerifies` is the same over a log that grows. Both take as given that aggregation, proof and transaction IDs are unique, that an ID stands for one root, that a BTC-A is monitored after it is delivered, and that the broadcast BTC transaction carries its root between two bytes and has its double hash as ID. ProofUpgrade.UpgradeEqualsStored takes as given of every BTC-A in the log that it is such a one, that its ID is written as Bitcoin displays it, and that no other message announces its transaction.
- Replay.ReplayAgrees: all transactions of the blocks decode and verify on both nodes.
- TxIndex.GetCalTxRange: the index holds every delivered transaction at once; Tendermint's indexing lag is not modelled.
- ConfirmationRuns.EntriesAreTracked: LND delivers blocks of one chain; reorganisations are not modelled.
- ConfirmAnchor handed an empty message, as MonitorConfirmedTx does after a failed header proof, is not followed further.
- Torn read-modify-write races on the key-value lists: each list operation is one step.
- PruneOldState: depends on the clock and does not keep the indexes in agreement.
- Staking, voting, rewards, validator promotion, fees (FeeMonitor changes them locally), API handlers and configuration.
- JWKAllowedRate and NISTAllowedRate are never read or written, so records are modelled without them; the NIST, fee-failure and unauthorised-vote counters are left out with them.
- ProofOps.Proof.AddChainpointHeader: the constant header fields and the time read from the proof ID are not modelled.
- ElectPeerAsLeader and ElectChainContributorAsLeaderNaive: the same sort, filter and election over other lists.
