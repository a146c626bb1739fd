# AQChain core, modelled in Dafny

This project models the parts of AQChain (a go-ethereum descendant) where several structures have to stay in
step while they are changed by loops, and proves what they promise to each other.

| files | what they model |
|---|---|
| `ChainTree`, `HeaderChain`, `BlockChain`, `ForkWalk` | the stored tree of headers and blocks, fork choice, the canonical index, total difficulties and the transaction lookup table, reorganisations, and the three walks to a common ancestor |
| `Heap`, `TxList`, `PricedList`, `PoolState`, `Levels`, `TxPool` | the transaction pool: per-account lists, the price heap, promotion, demotion, removal, truncation, head changes |
| `ChainIndexer` | indexing of chain sections while the chain is reorganised |
| `Feed` | the one-to-many event feed |
| `Ledger`, `Miner` | state transitions with journal and revert, block assembly and block validation |
| `Rlpx` | message frames on an encrypted connection |
| `Dial`, `Server` | which nodes are dialed, and the scheduling of dial tasks |
| `Protocols` | negotiation of sub-protocols and their message codes |
| `ChainConfig` | compatibility of fork configurations |

How the model stands to the code:

- A block hash is the free constructor `Of(block)`, so hashes are injective; databases are maps keyed as the code's
  key functions are; database errors do not happen.  One type serves as header and as block.
- Random tie-breaks are parameters (`coin`).  Receiver readiness, the choice of a `select` and what other goroutines
  do meanwhile are nondeterministic choices, so a contract covers every outcome.  A lock-protected region is one step.
- What an operation means is a function or predicate on plain values; lemmas say what each step and each run keeps.
  The classes hold the code's fields, do the code's loops, and are proved against those functions.  The pool's four
  maps sit together in one record, `st`.
- In the pool an account's list is the plain nonce map; `TxList.List`, with its heap index, cache and caps, is proved
  to do on its contents exactly what those plain maps do.
- "Every run" is stated as `Valid()` kept by every public operation and, where operations compose, as a theorem over
  sequences of them: `ChainTree.HeaderRun`, `ChainTree.BlockRun`, `ChainIndexer.RunIsChained`, `TxPool.TxPool.Drive`,
  `TxPool.Live`, `Server.Server.Run`, `Miner.MinerAndValidatorAgree`, `Rlpx.StreamRoundTrip`.

What the code does where one would expect otherwise, each with the statement that says so:

- After a reorganisation the header head is left on the lowest block of the new branch, not on its tip
  (`BlockChain.BlockChain.WriteBlockAndState`), since the tip is inserted first; the comment on `insert` says that the
  header head is moved onto the block.
- The first local transaction of an account can be refused as underpriced by a full pool, because the account is only
  marked local once a transaction of it is queued (`TxPool.TxPool.Add`); the comment on `AddLocal` lets local
  transactions go around the pricing constraints.
- A full pool of local transactions only takes in one more, so a pool can grow beyond its limit.  Making room then pops
  as many heap entries as it is beyond, but in every run at most one known transaction is remote by then
  (`TxPool.Live`), so one at most goes, and only local ones are left (`TxPool.TxPool.MakeRoom`).
- When the global queue overflows, the most recently active account loses its transactions first
  (`TxPool.TxPool.TruncateQueue`); the comment says oldest.
- A reinjection can leave a gap in an account's pending nonces (`TxPool.ReinjectionLeavesGap`): one promotion and
  demotion does if and only if the promoted run falls short of the old pending nonces and the first of those is payable
  (`TxPool.ReinjectionJoins`).
- Removing a pending transaction the chain has already included, as making room in mid-reset can, leaves the virtual
  nonce below the chain's, and no other removal does (`TxPool.StaleRemoval`).
- A queued dial is not checked again when it starts (`Server.QueuedDialToConnected`, and the exact condition in
  `Server.Server.ScheduleTasks`).
- A reorg inside the section being processed is not noticed by the indexer, only one that starts before it
  (`ChainIndexer.StoredIffNoneBefore`; `ChainIndexer.StaleSectionStored` is such a run).
- A frame size is a 32-bit sum that can wrap (`Rlpx.WrappedIsWritten`; `Rlpx.SurvivesIffFits` is the exact condition).
- A failed transaction leaves its sender marked dirty.  If the sender is an empty account of the parent state, the miner
  deletes it and the validator does not (`Miner.EmptyAccountDisagrees`; `Miner.AgreeIffClean` is the exact condition).

## Model

| member | source | states |
|---|---|---|
| ChainTree.HeaderRun | pkg/core/headerchain.go:131-195 | in every run of header writes, with any tie-breaks, the stored headers are closed under parents and the head has the greatest total difficulty of them all |
| ChainTree.BlockRun | pkg/core/blockchain.go:794-876 | the same for block writes, and of the heaviest blocks the head has the lowest number |
| ChainTree.HeaderStepKeeps | pkg/core/headerchain.go:131-187 | one header write keeps the tree and the head's maximality |
| ChainTree.BlockStepKeeps | pkg/core/blockchain.go:808-841 | one block write keeps the tree, maximality and the lowest-number rule |
| ChainTree.ParentLookup | pkg/core/headerchain.go:131-143 | the difficulty lookup for the parent succeeds exactly when the parent is stored under the preceding number, and gives the sum along its path |
| ChainTree.StorePut | pkg/core/headerchain.go:141-151 | storing a linked block with parent difficulty plus its own keeps every stored difficulty the sum along the path |
| ChainTree.PathStored | pkg/core/headerchain.go:165-176 | every ancestor of a stored block is stored, so walks along parents never miss |
| HeaderChain.HeaderChain.WriteHeader | pkg/core/headerchain.go:131-195 | the head is the fork choice's, the canonical index is exactly the head's ancestor path with nothing above it, difficulties are sums, and unknown ancestors are refused |
| HeaderChain.HeaderChain.Store | pkg/core/headerchain.go:138-151 | a linked header is stored with the sum of the difficulties along its path, whatever the fork choice |
| HeaderChain.HeaderChain.Adopt | pkg/core/headerchain.go:155-184 | re-routing onto a stored header leaves the index equal to its path and moves the head markers |
| HeaderChain.HeaderChain.DeleteAbove | pkg/core/headerchain.go:156-163 | entries above the new head are deleted and all others kept |
| HeaderChain.HeaderChain.Reroute | pkg/core/headerchain.go:164-176 | rewriting down to the first right entry terminates and makes the whole index the new path |
| HeaderChain.HeaderChain.InsertHeaderChain | pkg/core/headerchain.go:259-285 | a batch import stores exactly the batch up to the first unlinkable header or the interruption; stored headers and head are those of the fork-choice run over the headers that are new when their turn comes; the head's difficulty never falls |
| ForkWalk.FindCommonAncestor | pkg/core/database_util.go:619-643 | finds the last common ancestor, and nothing exactly when no common ancestor can be looked up from both |
| ForkWalk.LastCommonUnique | pkg/core/database_util.go:619-643 | there is at most one last common ancestor, so walks that find one agree |
| ForkWalk.TxDifference | pkg/core/types/transaction.go:383-398 | the transactions of one list that are not in the other |
| ForkWalk.CollectReinjection | pkg/core/tx_pool.go:338-381 | for height differences up to 64 the pool reinjects exactly the old branch's transactions absent from the new branch, and gives up exactly without a common ancestor |
| BlockChain.WalksMeetAtFork | pkg/core/blockchain.go:1138-1178 | for stored blocks the fork of the two paths is the one last common ancestor, so all three walks end there |
| BlockChain.LookupAfterReorg | pkg/core/blockchain.go:1190-1208 | writing the new branch's entries and deleting the difference turns the lookup table of one path into that of the other |
| BlockChain.BlockChain.Insert | pkg/core/blockchain.go:468-490 | the head and its index entry are set; the header and fast heads follow only if the index held another hash there |
| BlockChain.BlockChain.WriteTxLookupEntries | pkg/core/database_util.go:477-494 | each transaction of the block gets its block, number and last index; no other entry changes |
| BlockChain.BlockChain.Reduce | pkg/core/blockchain.go:1138-1152 | walking a branch down to a height collects exactly its blocks and transactions above it |
| BlockChain.BlockChain.Walk | pkg/core/blockchain.go:1115-1178 | the walk of a reorg never fails, ends at the fork, and collects the new branch's blocks and the old branch's transactions |
| BlockChain.BlockChain.Meet | pkg/core/blockchain.go:1160-1178 | going down both branches in step ends at the fork |
| BlockChain.BlockChain.InsertBranch | pkg/core/blockchain.go:1190-1200 | inserting the new branch from the top overwrites exactly its numbers and transactions, with the right positions if none repeats; the header head ends on its lowest block |
| BlockChain.BlockChain.Reorg | pkg/core/blockchain.go:1115-1214 | never fails; afterwards the index is the new head's path, and a lookup table that was right for the old path is right for the new one unless a transaction repeats on one of them |
| BlockChain.BlockChain.WriteBlockAndState | pkg/core/blockchain.go:794-876 | in every state reached by block writes: head by fork choice, index up to the head equal to its path, and, as long as no stored branch repeats a transaction, a lookup table of exactly the path's transactions; reports the right status; the block is put off no longer |
| BlockChain.BlockChain.InsertChain | pkg/core/blockchain.go:893-1060 | whatever verification finds: refused whole exactly if not one chain; of the blocks got to, one is stored exactly if it was or passes all checks and its parent is stored, any other is put off, and nothing else changes; stops early only for an interruption or the exact reason given; stored blocks and head are those of the fork-choice run over the newly stored ones in order; a batch that passes all checks on a stored parent is stored whole |
| BlockChain.ImportedMore | pkg/core/blockchain.go:931-1041 | writing a block of a batch leaves what was settled of the earlier ones as it was |
| BlockChain.WholeBatch | pkg/core/blockchain.go:893-1060 | a chain of blocks that pass all checks on a stored parent gets through whole |
| Heap.Push | pkg/core/tx_list.go:37-39 | pushing keeps the heap order and adds one element |
| Heap.Pop | pkg/core/tx_list.go:41-47 | popping takes a least element and keeps the order of the rest |
| Heap.Remove | pkg/core/tx_list.go:151-168 | removal at an index keeps the order and removes just that element |
| Heap.Init | pkg/core/tx_list.go:101-122 | rebuilding gives a heap of the same elements |
| Heap.Sort | pkg/core/tx_list.go:126-147 | sorting gives an ordered permutation |
| TxList.SortedMap.Put | pkg/core/tx_list.go:72-78 | sets one nonce, with the index a heap of exactly the stored nonces and no stale cache |
| TxList.SortedMap.Forward | pkg/core/tx_list.go:83-97 | drops exactly the nonces below the threshold, returns them in order, and a cache stays the sorted contents |
| TxList.SortedMap.Filter | pkg/core/tx_list.go:101-122 | drops exactly what the filter matches |
| TxList.SortedMap.Cap | pkg/core/tx_list.go:126-147 | keeps exactly the lowest nonces up to the limit and returns the rest |
| TxList.SortedMap.Remove | pkg/core/tx_list.go:151-168 | removes exactly one nonce, if there |
| TxList.SortedMap.Ready | pkg/core/tx_list.go:177-192 | takes the consecutive run from the least nonce if that is not above the start, else nothing |
| TxList.SortedMap.Flatten | pkg/core/tx_list.go:202-215 | gives the contents by increasing nonce |
| TxList.ShortCircuit | pkg/core/tx_list.go:290-297 | when the caps are within the limits the full scan would keep everything, so skipping it changes nothing |
| TxList.List.Add | pkg/core/tx_list.go:251-272 | inserts unless the replaced transaction is not outbid by the required percentage, and says which was replaced |
| TxList.List.Filter | pkg/core/tx_list.go:290-314 | keeps the payable ones and, in strict mode, only those below every unpayable one; returns dropped and invalidated apart |
| TxList.List.Remove | pkg/core/tx_list.go:325-336 | removes a nonce and, in strict mode, everything above it |
| TxList.List.Cap | pkg/core/tx_list.go:318-320 | keeps the lowest nonces |
| TxList.List.Forward | pkg/core/tx_list.go:277-279 | drops the nonces below the threshold |
| TxList.List.Ready | pkg/core/tx_list.go:345-347 | takes the run from the least nonce |
| PricedList.TxPricedList.Removed | pkg/core/tx_list.go:410-424 | no live entry is lost, whether the heap is kept or rebuilt |
| PricedList.TxPricedList.Cap | pkg/core/tx_list.go:428-455 | takes out exactly the covered live remote transactions below the threshold; every other live entry stays |
| PricedList.TxPricedList.Underpriced | pkg/core/tx_list.go:459-481 | with every live transaction covered, true exactly for a remote transaction priced at most at the live minimum; only stale entries leave the heap |
| PricedList.TxPricedList.Discard | pkg/core/tx_list.go:485-508 | drops live remote entries, none dearer than a remote one left, all of them if there are too few, and every live entry is accounted for |
| PoolState.EnqueuedKeeps | pkg/core/tx_pool.go:650-669 | queueing a nonce that is not pending keeps lists filed, known and disjoint, and pending nonces contiguous |
| PoolState.ReplacedKeeps | pkg/core/tx_pool.go:610-623 | replacing a pending transaction keeps the invariants and contiguity |
| PoolState.RemovedKeeps | pkg/core/tx_pool.go:831-870 | removal keeps the invariants and contiguity of every account |
| PoolState.FitKnown | pkg/core/tx_pool.go:889-909 | what is promoted is known and none of its nonces is pending, so no promotion displaces or is refused |
| PoolState.PromotionKeeps | pkg/core/tx_pool.go:884-923 | promoting an account keeps the invariants and contiguity everywhere |
| PoolState.PromotionContiguous | pkg/core/tx_pool.go:904-909 | in a contiguous account the promoted run starts exactly at the virtual nonce and nothing executable stays queued |
| PoolState.BackKnown | pkg/core/tx_pool.go:1048-1068 | what demotion queues again is known and none of its nonces is queued, so no demotion displaces or is refused |
| PoolState.DemotedKeeps | pkg/core/tx_pool.go:1036-1075 | demotion keeps the invariants |
| PoolState.DemotedInterval | pkg/core/tx_pool.go:1036-1075 | whatever the new chain state, a gapless pending list is left running from the chain nonce |
| PoolState.CutKeeps | pkg/core/tx_pool.go:953-964 | dropping an account's highest pending transaction keeps the invariants and contiguity |
| Levels.TruncationIsFair | pkg/core/tx_pool.go:925-992 | the total fits or every remote account is at its guaranteed slots; none is cut below them; local ones are untouched; cut lists end equal and no shorter than any uncut remote one |
| Levels.TruncationIsLeast | pkg/core/tx_pool.go:925-992 | no common level that fits would keep more transactions |
| TxPool.TxPool.EnqueueTx | pkg/core/tx_pool.go:650-669 | the queue, the known set and the price heap change together, or the transaction is refused |
| TxPool.TxPool.RequeueAll | pkg/core/tx_pool.go:851-855 | requeueing transactions with free nonces adds all of them and forgets nothing |
| TxPool.TxPool.PromoteTx | pkg/core/tx_pool.go:686-717 | all three branches: refused and forgotten, displacing, or plainly inserted; sets the virtual nonce |
| TxPool.TxPool.RemoveTx | pkg/core/tx_pool.go:831-870 | the exact new state, including that invalidated ones are requeued only if something stays pending |
| TxPool.TxPool.PromoteAccount | pkg/core/tx_pool.go:884-923 | stale and unpayable go, the executable run becomes pending, the queue of a remote account is capped; nothing else is forgotten |
| TxPool.TxPool.TruncatePending | pkg/core/tx_pool.go:925-992 | terminates with the remote lists cut to one level: it fits or is at the guaranteed slots, and one level higher would not have fitted |
| TxPool.TxPool.Equalise | pkg/core/tx_pool.go:930-970 | after each offender is taken, all offenders are equally long unless the pool already fits |
| TxPool.TxPool.LowerTo | pkg/core/tx_pool.go:951-967 | whole rounds of cuts, until the pool fits or the threshold is reached |
| TxPool.TxPool.Reduce | pkg/core/tx_pool.go:971-990 | the last phase ends in the truncated state |
| TxPool.TxPool.TruncateQueue | pkg/core/tx_pool.go:993-1030 | cut to exactly the limit unless local accounts alone exceed it; whole accounts go but at most one, most recently active first; local ones untouched |
| TxPool.TxPool.PromoteExecutables | pkg/core/tx_pool.go:875-1031 | keeps every invariant and contiguity and learns of no new transaction; in between nothing pending is lost and of the given accounts the contiguous ones have nothing executable left queued; then pending lists are cut to one level and the queue is trimmed, which ends within both limits or with only exempt ones over them |
| TxPool.TxPool.DemoteAccount | pkg/core/tx_pool.go:1039-1073 | the exact new state: dropped, requeued, or all requeued if the chain nonce is missing |
| TxPool.TxPool.DemoteUnexecutables | pkg/core/tx_pool.go:1036-1075 | keeps every invariant; every gapless account runs from its chain nonce; no empty list stays |
| TxPool.TxPool.Shrink | pkg/core/tx_pool.go:601-606 | the pool has room afterwards if and only if enough entries were found and none of them repeats; only the cheapest remote ones go; within the limit's invariant one goes, or none if none is remote |
| TxPool.TxPool.MakeRoom | pkg/core/tx_pool.go:595-607 | refuses exactly the outpriced; drops only remote transactions, none dearer than a remote one kept; in every state a run reaches, one is dropped, or none if none is remote, and then there is room or only local ones are left: room exactly if the pool was not beyond its limit and had a remote one |
| TxPool.OneGoes | pkg/core/tx_pool.go:601-606 | with the limit exceeded by local transactions and at most one remote only, discarding by entries takes out one transaction, or none if none is remote |
| TxPool.WithinAdded | pkg/core/tx_pool.go:594-645 | adding one where there is room or all are local exceeds the limit by local ones and at most one remote only |
| TxPool.RemoteListWithin | pkg/core/tx_pool.go:931-937 | no remote account has more pending transactions than the pool's limit, or has one |
| TxPool.TxPool.Place | pkg/core/tx_pool.go:608-645 | the exact new state of a validated transaction: it is pooled if and only if it outbids what holds its nonce in the pending list, or else in the queue |
| TxPool.TxPool.Add | pkg/core/tx_pool.go:582-645 | exactly which transactions are known, invalid (oversized, negative, over the gas limit, unsigned, underpriced, stale, unfunded, in this order) or underpriced; a refusal on these grounds leaves the contents alone; otherwise the exact state: room is made if the pool is full, by dropping at most one in every state a run reaches, then it takes the place of a sufficiently outbid pending or queued one or joins the queue; the account becomes local only when a local transaction is queued; the limit is exceeded by local ones and at most one remote only |
| TxPool.TxPool.AddTx | pkg/core/tx_pool.go:748-763 | the outcomes of adding, with every invariant and contiguity kept through the promotion that follows |
| TxPool.TxPool.AddTxsLocked | pkg/core/tx_pool.go:775-798 | keeps every invariant and contiguity, pools nothing from outside the batch, and changes nothing if every transaction is turned away before room is made |
| TxPool.TxPool.SetGasPrice | pkg/core/tx_pool.go:446-455 | exactly the remote transactions below the new threshold leave the pool |
| TxPool.TxPool.Evict | pkg/core/tx_pool.go:294-308 | exactly the queues of expired remote accounts are emptied |
| TxPool.TxPool.SetNonces | pkg/core/tx_pool.go:405-409 | an account running from its chain nonce becomes contiguous |
| TxPool.TxPool.Rebase | pkg/core/tx_pool.go:391-409 | without reinjection every gapless account becomes contiguous; with it, every gapless account that sent none of the reinjected ones and had nothing stale pending |
| TxPool.TxPool.Reset | pkg/core/tx_pool.go:334-413 | keeps every invariant and the bound on the pool; changes nothing without a common ancestor or state; otherwise gapless accounts become contiguous with nothing executable left queued, all of them without reinjection, and with it those that sent none of it and had nothing stale pending |
| TxPool.TxPool.Drive | pkg/core/tx_pool.go:244-413 | every run keeps lists filed, known and disjoint, the price heap covering, and the limit exceeded by local transactions and at most one remote only; runs whose head changes reinject nothing keep every account contiguous and leave nothing executable in a queue after any operation |
| TxPool.Live | pkg/core/tx_pool.go:199-413 | the same of every run from a new pool, in which every account starts settled |
| TxPool.ReinjectionJoins | pkg/core/tx_pool.go:395-409 | one promotion and demotion of a gapless account with its virtual nonce back at the chain's, whatever is payable and wherever the chain nonce is, leaves a gap if and only if the promoted run ends below the old pending nonces and the first of those is payable |
| TxPool.ReinjectionLeavesGap | pkg/core/tx_pool.go:395-403 | a case where a gapless account is left with a gap |
| TxPool.StaleRemoval | pkg/core/tx_pool.go:831-870 | removing a transaction leaves the virtual nonce below the chain nonce if and only if it was pending with a nonce the chain has passed |
| TxPool.StaleRemovalLowersNonce | pkg/core/tx_pool.go:856-859 | a case of it in a gapless account |
| ChainIndexer.RunIsChained | pkg/core/chain_indexer.go:217-366 | for any interleaving of notifications, header reads and commits, section k's head is `size` links from the one before and (k+1)*size from the start, and no head exists at or above the stored count |
| ChainIndexer.NextKeeps | pkg/core/chain_indexer.go:217-366 | every single step keeps that invariant, also in the middle of a section |
| ChainIndexer.CommitKeeps | pkg/core/chain_indexer.go:297-317 | the predecessor check succeeds only if no section was given up meanwhile |
| ChainIndexer.StoredIffNoneBefore | pkg/core/chain_indexer.go:217-317 | whatever is notified while a section is processed, between any two header reads or after the last, a section read to its end is stored if and only if no reorg starts before it |
| ChainIndexer.ReorgInsideSection | pkg/core/chain_indexer.go:217-243 | a reorg while a section is processed stops it from being stored if and only if it starts before the section |
| ChainIndexer.StaleSectionStored | pkg/core/chain_indexer.go:217-317 | from the start, a run that stores a section whose last block was replaced |
| ChainIndexer.ChainIndexer.SetValidSections | pkg/core/chain_indexer.go:401-413 | removes exactly the heads given up |
| ChainIndexer.ChainIndexer.HandleHead | pkg/core/chain_indexer.go:217-256 | the notification step |
| ChainIndexer.ChainIndexer.BeginUpdate | pkg/core/chain_indexer.go:275-292 | the start of an update |
| ChainIndexer.ChainIndexer.ProcessHeader | pkg/core/chain_indexer.go:347-360 | one header read; a missing or unlinked header ends the job |
| ChainIndexer.ChainIndexer.FailReset | pkg/core/chain_indexer.go:342-345 | a failing backend gives everything up |
| ChainIndexer.ChainIndexer.FinishUpdate | pkg/core/chain_indexer.go:297-317 | the end of an update |
| Feed.Feed.Subscribe | pkg/event/feed.go:73-93 | a new channel waits in the inbox |
| Feed.Feed.BeginRemove | pkg/event/feed.go:104-116 | from the inbox at once, else waiting with its channel certain to be in the case list and logged as leaving |
| Feed.Feed.RemoveIdle | pkg/event/feed.go:118-124 | takes exactly one case of the channel out of the list |
| Feed.Feed.TakeOut | pkg/event/feed.go:169-171 | the channel of a waiting remover is always found, never at slot 0 |
| Feed.Feed.DeleteAt | pkg/event/feed.go:220-222 | shifting removes just that case |
| Feed.Feed.Deactivate | pkg/event/feed.go:225-229 | swaps the case out of the active prefix |
| Feed.Feed.Deliver | pkg/event/feed.go:151-179 | whatever receivers are ready and whoever unsubscribes, the value is delivered exactly once to each merged case not removed first and to nobody else; whoever was removed first had begun to unsubscribe before or during the send; the count is that of the deliveries; everybody still listed has received it |
| Feed.Feed.Send | pkg/event/feed.go:129-187 | the same for what was listed and in the inbox at the start; slot 0 stays the removal case |
| Feed.WaitBalanced | pkg/event/feed.go:104-125 | a remover that misses the inbox has its channel listed beside those already waiting |
| Feed.ServeProgress | pkg/event/feed.go:158-162 | a delivery to an active case moves it behind the split |
| Feed.MissProgress | pkg/event/feed.go:169-174 | removing an active case makes it a missed one |
| Feed.ForgetProgress | pkg/event/feed.go:169-174 | removing a served case changes nothing about the deliveries |
| Feed.HeardLeft | pkg/event/feed.go:165-174 | hearing a remover, its case served or not, keeps every removal one that was begun |
| Ledger.ApplyKeeps | pkg/core/state_transition.go:126-298 | a transaction changes no account without marking it, and a failing one, however far it got, has journalled all it changed |
| Ledger.FinalisedAgree | pkg/core/state/statedb.go:604-616 | without empty accounts before, only the transaction's own marks decide what is deleted |
| Miner.RevertToSnapshot | pkg/core/state/statedb.go:575-593 | undoes the journal, last entry first |
| Miner.Process | pkg/core/state_processor.go:55-83 | the replay of the block's transactions, failing exactly if one fails |
| Miner.Work.CommitTransaction | pkg/miner/worker.go:591-606 | a failing transaction is reverted, a successful one committed with its receipt |
| Miner.Work.CommitTransactions | pkg/miner/worker.go:513-589 | whatever the candidates and their order, from a clean parent state the block replays to the miner's state and receipts; of each account every candidate is tried up to a protected one before the fork or one failing for its high nonce |
| Miner.FailureIsReverted | pkg/miner/worker.go:591-601 | a failing transaction leaves no trace in the contents |
| Miner.MinerAndValidatorAgree | pkg/miner/worker.go:513-606 | for anything tried, replaying the committed transactions never errors and gives the same state and receipts, if the parent state is clean |
| Miner.EmptyAccountDisagrees | pkg/core/state/journal.go:127-129 | an empty account whose transaction failed after its nonce was set is deleted by the miner and kept by the validator |
| Miner.AgreeIffClean | pkg/core/state_processor.go:68-78 | agreement on everything that may be tried holds if and only if empty accounts are not deleted or the parent state has none |
| Rlpx.CounterModeOk | pkg/p2p/rlpx.go:572-592 | counter mode with any key stream decrypts what it encrypts and works piece by piece |
| Rlpx.CodeRoundTrip | pkg/rlp/encode.go:392-406 | every 64-bit message code is read back from its encoding, leaving what follows |
| Rlpx.UnsealSealed | pkg/p2p/rlpx.go:647-684 | a reader in the writer's state accepts both MACs and gets the content back, ending in the writer's state |
| Rlpx.FrameRoundTrip | pkg/p2p/rlpx.go:594-714 | a message that fits is read back, compressed or not |
| Rlpx.TooLongIsLost | pkg/p2p/rlpx.go:608-613 | a message whose size sum wraps is written and not read back as it was |
| Rlpx.WrappedIsWritten | pkg/p2p/rlpx.go:608-613 | a message of 2^32 - 1 bytes is written and lost |
| Rlpx.SurvivesIffFits | pkg/p2p/rlpx.go:594-714 | a message survives if and only if code and data fit into 24 bits of size |
| Rlpx.StreamRoundTrip | pkg/p2p/rlpx.go:594-736 | a stream of messages is read back in order, with cipher position and MAC equal on both ends after each |
| Rlpx.FrameWriter.WriteMsg | pkg/p2p/rlpx.go:594-645 | writes the frame piece by piece, or refuses and changes nothing |
| Rlpx.FrameReader.ReadMsg | pkg/p2p/rlpx.go:647-714 | takes one frame off the connection, checking both MACs |
| Rlpx.FrameWriter.UpdateMAC | pkg/p2p/rlpx.go:718-726 | mixes a seed into the MAC and gives its tag |
| Dial.Expire | pkg/p2p/dial.go:397-401 | removes exactly the expired entries |
| Dial.DialState.CheckDial | pkg/p2p/dial.go:260-275 | exactly when a node may be dialed, and which refusal takes precedence |
| Dial.DialState.DialStatics | pkg/p2p/dial.go:191-202 | every static node that may be dialed is dialed and stays static; static dials do not count as dynamic |
| Dial.DialState.DialDynamic | pkg/p2p/dial.go:203-234 | bootnode, random and lookup dials never exceed what is needed |
| Dial.DialState.NewTasks | pkg/p2p/dial.go:159-250 | new dials go to nodes not being dialed, not connected, without unexpired history; every dialable static node is dialed; dynamic ones stay within the maximum; lookups are made only while more are needed and timers only alone; the dialing table tracks all outstanding dials |
| Dial.DialState.TaskDone | pkg/p2p/dial.go:277-286 | a finished dial leaves the table and enters the history |
| Server.Server.ScheduleTasks | pkg/p2p/server.go:480-488 | at most 16 run; no node has two outstanding dials; whatever starts, queued or new, goes to a node whose last dial ended over 30 seconds ago; what runs is what ran and what started, in order; new dials are to unconnected nodes; exactly when all that starts now is |
| Server.Server.StartQueued | pkg/p2p/server.go:469-479 | starts the first tasks there is room for, in order |
| Server.Server.TaskFinished | pkg/p2p/server.go:517-523 | keeps all invariants, recording when the dial ended |
| Server.Server.AddPeer | pkg/p2p/server.go:537-612 | the outcome exactly: useless, too many, already connected, self, or added; useless if and only if matching leaves no common protocol; distinct dynamic peers and dials together stay within the maximum |
| Server.Server.DelPeer | pkg/p2p/server.go:562-566 | keeps all invariants |
| Server.StartsAnyway | pkg/p2p/server.go:470-479 | with room, the first queued dial starts, connected or not |
| Server.Server.Round | pkg/p2p/server.go:490-568 | one round keeps all invariants; what it starts is over 30 seconds after the node's last dial; what runs is what ran and was started, less what ended |
| Server.Server.Run | pkg/p2p/server.go:490-568 | every run of the loop keeps all invariants; what runs at the end is what ran and was started, less what ended; no dial starts within 30 seconds of an earlier end of a dial to the same node |
| Server.SpacedMore | pkg/p2p/server.go:469-488 | what a round starts is spaced from every end logged so far |
| Server.QueuedDialToConnected | pkg/p2p/server.go:469-488 | a run from a new server in which a queued dial starts although its node has connected |
| Protocols.MatchProtocols | pkg/p2p/peer.go:307-329 | the highest common version per name, with ranges following one another by name from 16 without gaps |
| Protocols.CountMatching | pkg/p2p/peer.go:294-304 | counts nothing exactly if no name matches |
| Protocols.SortCaps | pkg/p2p/protocol.go:75-81 | orders capabilities by name and version |
| Protocols.TablesAgree | pkg/p2p/peer.go:307-329 | two sides matching against each other's capabilities, with equal lengths, build identical tables |
| Protocols.GetProto | pkg/p2p/peer.go:359-366 | finds a protocol handling the code, or there is none |
| Protocols.CodeSurvives | pkg/p2p/peer.go:378-405 | a written code lies in its own protocol's range and no other's, and is read as the same code |
| ChainConfig.CheckCompatible | pkg/params/config.go:154-168 | terminates; nothing exactly if all blocks up to the height have the same rules, else the greatest height for which they have, or 0 |
| ChainConfig.CompatibleIsSamePast | pkg/params/config.go:170-210 | no conflict at a height exactly if every block up to it is subject to the same rules |
| ChainConfig.ConflictBelow | pkg/params/config.go:232-247 | a conflict points right below a height that has one |
| ChainConfig.CompatibleRules | pkg/params/config.go:264-270 | compatible at a height, all fork flags agree for every block up to it |
| ChainConfig.CompatibleIsSymmetric | pkg/params/config.go:170-196 | which configuration is the stored one does not matter |

## Left out

- HeaderChain.SetHead, BlockChain.SetHead, loading of the last state, fast-sync insertion and receipts: they depend on which states are available and mix header-only with block mode.
- Validation of headers, bodies and states itself: what it finds of each block of a batch is an argument of `BlockChain.BlockChain.InsertChain`. The later retry of blocks put off, and the bound on how many are kept.
- BlockChain.BlockChain.WriteBlockAndState: says nothing of the lookup table once a stored branch repeats a transaction hash, for which a table of one position per hash has no right contents.
- Numbers, difficulties and nonces are unbounded; 64-bit wrap-around is not modelled except in frame sizes. Key encodings are typed pairs, not byte strings.
- LRU caches, the journal of local transactions, metrics, logging and event posting.
- TxPool.TxPool.TruncatePending: the priority queue orders by list length exactly, not by a 32-bit float of it. The two orders agree for lengths up to 2^24, so for all remote lists of a pool whose limits add up to no more (`TxPool.RemoteListWithin`).
- TxPool.TxPool.DropQueue: removes an account's queued transactions in arbitrary order, not by increasing nonce; the state afterwards is the same.
- TxPool.TxPool.Reset: the reinjected transactions, or that there is no common ancestor, are an argument; how they are collected is `ForkWalk.CollectReinjection`.
- TxPool.ReinjectionJoins: one promotion and demotion step of an account, not the whole of `Reset`, in which room made for others can take more away.
- TxPool.TxPool holds the lists of its accounts as values; sharing of list objects is not modelled.
- Child indexers, throttling, `AddKnownSectionHead`, and the persistence of the section count.
- Feed: type checks, panics and closing.
- Ledger: state tries are maps and roots the contents themselves; logs, refunds and contract code do not occur. Transitions are functions on values with the code's journal entries and dirty marks; the record store and the candidates, which no failing transaction changes, are reverted by copy.
- Miner: uncles, sealing and rewards; the order of candidates by price is left open, so the results hold for any order.
- Rlpx: the handshake and the cryptography itself; cipher, hash, block cipher and compression are parameters with the laws stated. The announced size of a message is the length of its payload.
- Server: listening, handshakes and shutdown; node resolution inside a dial task.
- Protocols: names are compared by character, which is the byte order for ASCII names.
