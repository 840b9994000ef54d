# Block pipeline of the InSoBlok sequencer: a verified model

The sequencer takes signed transactions over RPC into a pool of three priority
lanes.  A producer repeatedly pops a batch under a gas limit and a count cap,
executes it through the EVM, commits the state, writes the block to a key-value
database, puts back what was skipped, and adjusts a base fee and a block size.  A
batcher submits what has been produced to L1 and tracks confirmations.

The model follows the program's own structure.  Objects that change in place are
classes whose methods are proved against functions on values, and the theorems are
about those functions:

- `Execution`, `EvmExecutor` - one transaction and a block's worth of them; laws in
  `TransactionProofs` and `BlockProofs`, one transaction field by field in
  `TransactionExact` and, on an EVM that only transfers value, in `Transfers`.
  `GasEstimation` is the search beside it.
- `TxHeap`, `LanePool`, `LanedMempool` - Go's container/heap on a slice, the ranked
  lanes it implements, and the pool with its hash index; laws in `LanePoolProofs`,
  `LaneConservation` and `LaneShares`, over whole runs in `PoolRuns`; `LaneOrder` - who
  leaves first.  `GasLimits` - exactly when the limits of a popped batch and of a block
  are kept.
- `Merkle`, `Receipts`, `ComputeReceipts` - the receipt root and what a commitment binds;
  `ComputeLaws` - what the receipts stored for a block say of the chain.
- `BigEndian`, `ChainKeys`, `ChainStore`, `ChainDB` - keys, histories of writes, and the
  database with its cache; laws in `ChainStoreProofs`.
- `ChainState`, `StateManager` - commit, recovery and runs; laws in `ChainProofs`
  (every run) and `ChainLaws` (whole chains).
- `Batching`, `BatchSubmitter` - frames, submission and confirmation; `Derivation` - what
  can be rebuilt from the frames; `BatchRecords` - what the database says of them.
- `FeeModel`, `AdaptiveSizer` - the two feedback controllers; `FeeRise` - which way the
  fee moves and how far, and its climb; `SizerLoop` - the second one closed on itself
  through the producer.
- `Producing`, `Producer` - one block step; `Pipeline` - the whole system as a state
  machine whose steps interleave; `PipelineProofs` - what holds of any transactions and
  any EVM; `PipelineControls` - what needs submitted gas that cannot wrap;
  `PipelineTheorems` - what follows; `PipelineLoop` - what the controllers see is the
  chain; `PipelineSteps` - producer and batcher uninterrupted;
  `PipelineLosses` - when a transaction is lost to a full pool; `Feasibility` - the
  assumptions can be met.

Conventions.  A step of the machine is what happens under one lock.  uint64 and
uint256 arithmetic wraps where the program's does, and the theorems that need it not
to say so in terms of the inputs.  The EVM is a parameter with a stated contract
(`Execution.WellBehaved`: it returns at most the gas it got, mints nothing, never
lowers a nonce, moves no other key-held account's nonce, self-destructs no key-held
account and gives none code, and a creation takes its caller's nonce).  The contract is
asked only in states whose balances add up to less than 2^256 and whose key-held accounts
have no code (`Execution.WorldOk`); that is kept from the base state on.  State roots and
hashes are parameters, collision-free only where a lemma says so and only on what was
actually hashed.  float64 is `real`.  A clock is a
counter that every accepted submission advances.  Failing I/O is a parameter of the
operation (`commitOk`, `writeOk`, ...).

Behaviour of the code that the theorems make exact:

- A block's hash is its parent's hash, so every block of every run has the zero hash
  and a lookup by hash finds the tip.
- Block number 0x74 * 256^k + i and batch index i share a database key.
- The restoring path finds a root only after a block has been written; restarted
  earlier, the node runs on the empty state.
- A failed step loses popped transactions exactly as far as submissions accepted in the
  meantime have taken up the room.
- A production error sends every popped transaction back to the slow lane with no
  sender and no score.
- The frames sent to L1 leave out one thing needed to re-execute a block that changes
  from block to block: its base fee.
- The refund is capped at half of the gas consumed, not at the fifth of EIP-3529.
- Block numbers are stored as minimal big-endian strings, where the comments on the key
  prefixes say big-endian uint64.
- The comment on the fee model's floor says 100 gwei; the code's floor is 0.1 gwei,
  and that is the one modelled.
- By default demand past the size controller's threshold cannot last at its ceiling,
  because execution is limited to 30M whatever the ceiling is; a full block there still
  counts as neutral, so a ceiling once reached can be held.
- The logs hash, the Merkle root and the commitment each leave something out (lengths, the
  number of leaves, whether there is a recipient); the lemmas say exactly what.
- A discount above 10000 basis points, a repeated L1 hash among pending batches, a
  call at the last nonce, and gas sums past 64 bits each break the property around
  them, and the lemmas say exactly when.

## Model

| member | source | states |
|---|---|---|
| `PipelineProofs.RunKeepsOk` | internal/producer/producer.go:98-251 | safety of every interleaving of RPC submissions, block steps and batch steps, for any transactions and any EVM: index agreement, a chain that re-executes to its own roots, frames equal to the chain, every accepted transaction accounted for exactly once |
| `PipelineProofs.NoTransactionLost` | internal/producer/producer.go:130-150 | over any interleaving every accepted transaction is, by hash, in the pool, in flight or in a block, unless its re-add found the pool full (when that can happen is stated by PipelineLosses) |
| `PipelineProofs.RunNotHalted` | internal/producer/producer.go:116-118 | until the chain has 29,697 blocks no interleaving reads a nil header: production never stops and no frame is refused |
| `PipelineProofs.StepHaltsExactly` | internal/producer/producer.go:116-118 | a step ends the process exactly if it produces on a tip whose record a batch record has overwritten, or collects a frame that would hold such a block |
| `PipelineTheorems.RunExecutesOnce` | internal/execution/evm.go:124-128 | over the whole run no sender executes a nonce twice, however often a transaction is re-submitted and whatever gas it offers (key-held senders, not the last nonce) |
| `PipelineTheorems.RunConserves` | internal/execution/evm.go:130-204 | over the whole run no money is created; if the EVM burns none, what is missing is exactly what the state commits deleted with self-destructed accounts |
| `PipelineTheorems.RunGas` | internal/execution/evm.go:79-105 | every block of the run has gas that is the prefix sum of its receipts, within 30M, when submitted gas cannot wrap |
| `PipelineTheorems.RunControls` | internal/producer/producer.go:184-190 | over the whole run fee, fee average, gas limit and transaction cap stay in their bounds, because block gas never exceeds the popped limit, when submitted gas cannot wrap |
| `PipelineLoop.RunFollowsBlocks` | internal/producer/producer.go:184-190 | over every interleaving from rest both controllers have seen exactly the gas in the headers of the blocks produced and the limits their batches were popped under, a block in flight excepted |
| `PipelineLoop.ControllersFollowChain` | internal/producer/producer.go:101-190 | read off at rest: fee state and size are those of the run over these usages; the k-th limit is the one the sizer had come to, and the k-th header's base fee the one the fee model had |
| `PipelineLoop.SizerLoopIsPipelines` | internal/producer/producer.go:107-190 | what the sizer sees in any run of the pipeline is a closed loop as SizerLoop assumes, so its theorems are about the pipeline |
| `PipelineLoop.PopUsesLimits` | internal/producer/producer.go:107-114 | a pop keeps to the sizer's cap, or without a sizer to the configured one, and hands on the limit it used |
| `PipelineTheorems.RunBatches` | internal/batcher/batcher.go:174-264 | over any interleaving of production and submission the frames sent, concatenated, are exactly blocks 1 to the last batched one; intervals are contiguous, indices run 1, 2, 3, ... |
| `Derivation.RunFramesCarry` | internal/batcher/batcher.go:281-303 | over the whole run entry k of the frames, in the order sent, is block k + 1, field by field: number, hashes, timestamp, state root, gas, count and every transaction |
| `Derivation.RunFramesRebuild` | internal/batcher/batcher.go:281-303 | executing the frames' entries in order from the base state, with the headers' base fees, skips nothing, uses each entry's gas and reaches each entry's state root |
| `PipelineTheorems.RunTracks` | internal/batcher/batcher.go:248-251 | as long as L1 hashes do not repeat among pending batches, each batch sent is pending or confirmed, never both |
| `PipelineTheorems.PolledStaysConfirmed` | internal/batcher/batcher.go:309-328 | a pending batch whose hash L1 confirms at a poll is confirmed from then on, whatever happens after; one it does not confirm stays pending |
| `PipelineTheorems.RunIsAChainRun` | internal/producer/producer.go:98-251 | whatever interleaves with it, what happens to the chain in a run of the machine is a run of the chain, so ChainProofs and ChainLaws speak of the machine |
| `PipelineTheorems.SubmitQueues` | internal/mempool/lanes.go:87-130 | a submission is accepted exactly if its hash is not queued and there is room, and is queued then |
| `BatchRecords.RunRecords` | internal/batcher/batcher.go:237-251 | over every interleaving in which record writes succeed, the records added to the database are those of the batches sent, one each, in order |
| `BatchRecords.RecordsReadBack` | internal/execution/chaindb.go:229-283 | each of them is read back under its index unless a block has overwritten it, which takes 29,697 blocks, and the last one as the latest batch |
| `PipelineSteps.ProduceIsARun` | internal/producer/producer.go:101-251 | one uninterrupted produceBlock is one of the machine's interleavings: pop, commit, put back entry by entry, finish; it accepts, loses and drops nothing |
| `PipelineSteps.SubmitIsARun` | internal/batcher/batcher.go:174-264 | one submission start to finish is an interleaving as well: collect, observe, send |
| `PipelineSteps.ProduceBlockConserves` | internal/producer/producer.go:113-150 | with no Add in between, the pool before produceBlock is the pool after plus the block's transactions, or the pool after if there is no block |
| `PipelineSteps.PutBackAll` | internal/producer/producer.go:135-138 | single re-adds, interleavable one by one, empty a queue that fits into the pool in order, all of them accepted |
| `PipelineProofs.CommitChain` | internal/state/manager.go:278-335 | a commit leaves a sound chain grown by the included transactions, with included plus skipped equal to the popped batch; a failed one leaves the history alone |
| `PipelineControls.CommitWithinLimit` | internal/state/manager.go:268-278 | the block made from a popped batch uses at most min(popped limit, 30M) |
| `Feasibility.GenesisStartOk` | internal/state/manager.go:91-127 | a sequencer opened on an empty database satisfies the invariants every run keeps, and its base state what the EVM contract asks of states if genesis does |
| `Feasibility.PlainMachineBehaves` | internal/execution/evm.go:176-185 | the contract assumed of evm.Call and evm.Create is met by an EVM that only transfers value |
| `PipelineSteps.PutBackExactly` | internal/producer/producer.go:135-150 | an uninterrupted put-back of unknown, distinct transactions loses exactly those the pool has no room for, last ones first |
| `PipelineLosses.NothingLostWithinRoom` | internal/mempool/lanes.go:95-97 | over any stretch of any interleaving nothing is lost to a full pool as long as the submissions accepted in it number at most the room that pool and flight leave at its start |
| `PipelineLosses.FailureLosesExactly` | internal/producer/producer.go:130-139 | with only submissions of other transactions in between, a failed step loses exactly as many popped transactions as the accepted submissions exceed the room before the pop, so none if and only if they do not |
| `GasLimits.BlockLimitExactly` | internal/execution/evm.go:79-105 | every block of transactions that offer at most g keeps the limit of 30M, for every well-behaved EVM and state, if and only if g + 30M fits in 64 bits |
| `GasLimits.PopLimitExactly` | internal/mempool/lanes.go:135-197 | every batch popped from a pool whose transactions offer at most g keeps to a limit of at most 2^63 if and only if g and the limit together fit in 64 bits |
| `Producer.Producer.ProduceBlock` | internal/producer/producer.go:101-251 | the imperative step refines the pipeline step on pool, chain, fee model and sizer, and appends the block's compute receipts in order |
| `Producer.Producer.ReturnSkipped` | internal/producer/producer.go:143-150 | skipped transactions go back in order, each with the sender and score of its own entry |
| `Producer.Producer.ReturnAll` | internal/producer/producer.go:135-138 | after an error all popped transactions go back with the zero sender and score 0 |
| `Producer.Producer.StoreReceipts` | internal/producer/producer.go:228-243 | one compute receipt per transaction, by position, appended to the block's list |
| `Producing.SuccessConserves` | internal/producer/producer.go:142-150 | with no Add in between, pool before equals pool after plus block transactions, as multisets |
| `Producing.FailureConserves` | internal/producer/producer.go:132-139 | after a failed step the pool holds exactly the multiset it held before |
| `Producing.FailureDemotes` | internal/producer/producer.go:135-138 | but every popped transaction comes back in the slow lane |
| `Producing.FailureAnonymizes` | internal/producer/producer.go:135-138 | and with the zero sender, score 0 and the priority of its price alone |
| `Producing.ReAddAll` | internal/mempool/lanes.go:87-130 | entries with distinct unindexed hashes that fit are all accepted, and nothing else in the pool changes |
| `Producing.ReturnedAll` | internal/producer/producer.go:143-150 | the search by hash finds every skipped transaction its own entry |
| `Producing.BlockWithinPoppedLimit` | internal/producer/producer.go:114-131 | a block uses no more gas than the limit its batch was popped under, nor than 30,000,000 |
| `EvmExecutor.EVMExecutor.ExecuteTransactions` | internal/execution/evm.go:58-106 | the loop with snapshot and revert refines the functional run: same state, receipts, skipped list and gas |
| `EvmExecutor.EVMExecutor.ApplyTransaction` | internal/execution/evm.go:109-174 | one attempt, with every rejection in order; a late one leaves the gas deducted |
| `EvmExecutor.EVMExecutor.RunAndSettle` | internal/execution/evm.go:176-241 | the EVM run, capped refund, coinbase payment and receipt of an accepted transaction |
| `TransactionExact.AttemptDecides` | internal/execution/evm.go:109-172 | a transaction is accepted if and only if its signature recovers, its nonce is the account's, the account covers gas and value, and the gas covers the intrinsic cost; otherwise the first that fails is the error |
| `TransactionExact.OneCallDecides` | internal/execution/evm.go:174-185 | two EVMs that agree on the intrinsic gas, the created address and the one call with the transaction's own recipient, data, value, price and remaining gas give the same attempt |
| `TransactionExact.AcceptedExactly` | internal/execution/evm.go:174-241 | the state left is the EVM's, with the change back at the sender and the charge at the coinbase; the charge is the gas consumed less the smaller of refund counter and half of it; every field of the receipt |
| `Transfers.TransferExactly` | internal/execution/evm.go:109-241 | on the value-only EVM: accepted exactly if signature, nonce, balance and gas are right; then value moves from sender to recipient and fee from sender to coinbase, account by account, and the receipt says success |
| `BlockProofs.BlockSnoc` | internal/execution/evm.go:79-105 | a block grows by its last transaction: skipped exactly if its gas no longer fits in 64 bits under the limit or its attempt on the state reached is rejected, otherwise state, receipt and gas are the attempt's |
| `BlockProofs.BlockReplays` | internal/execution/evm.go:79-105 | replay equivalence: executing only the executed subsequence skips nothing and gives the same state, gas and receipts up to index |
| `BlockProofs.BlockPartitions` | internal/execution/evm.go:79-105 | executed and skipped partition the list, and receipts pair up with executed transactions by position |
| `BlockProofs.BlockPositions` | internal/execution/evm.go:79-103 | a receipt as executed, and each of its logs, names the position offered: its own plus the number skipped before it |
| `BlockProofs.BlockConserves` | internal/execution/evm.go:130-204 | a block preserves the sum of balances under a sum-preserving EVM, and never increases it |
| `BlockProofs.BlockGas` | internal/execution/evm.go:79-105 | cumulative gas is the prefix sum of receipts, its end the block's gas, within the limit and within what was offered |
| `BlockProofs.BlockNonces` | internal/execution/evm.go:124-156 | within a block each sender's executed nonces count up by one from the pre-state nonce, and the account ends just past the last |
| `BlockProofs.CountUpIsOnce` | internal/execution/evm.go:124-128 | counting up means no (sender, nonce) pair occurs twice |
| `TransactionProofs.AcceptedConserves` | internal/execution/evm.go:109-241 | an accepted transaction conserves value and is charged at most its gas and at least half its intrinsic gas |
| `TransactionProofs.AcceptedNonces` | internal/execution/evm.go:124-156 | an accepted transaction advances exactly its sender's nonce by one among key-held accounts, and no nonce goes down |
| `TransactionProofs.NonceAdvancesExactly` | internal/execution/evm.go:154-156 | the nonce advances if and only if it is not the last 64-bit one; there a call wraps it to zero and a creation leaves it |
| `TransactionProofs.SettlementExact` | internal/execution/evm.go:190-204 | settlement hands out exactly the gas bought, account by account, also when sender and coinbase coincide |
| `TransactionProofs.PurchaseExact` | internal/execution/evm.go:130-156 | buying gas never underflows and leaves the value to be sent covered |
| `TransactionProofs.GasExact` | internal/execution/evm.go:187-197 | refund is at most half of the gas consumed; no gas subtraction or addition wraps |
| `TransactionProofs.VmFacts` | internal/execution/evm.go:174-185 | what the EVM contract gives for the state after buying gas: leftover, money and nonces |
| `Common.GasGuardExact` | internal/execution/evm.go:81-84 | the wrapped gas test agrees with the intended one if and only if the sum fits in 64 bits; otherwise it always lets the transaction through |
| `GasEstimation.EstimateGas` | internal/execution/evm.go:281-343 | whenever the search ends it returns an amount the call succeeds with, one less than which (for limits up to 2^63) fails or was not tried; state and snapshots are restored |
| `GasEstimation.SearchEndsExactly` | internal/execution/evm.go:322-340 | the search ends for every call that succeeds with the whole limit if and only if the limit is at most 2^63 |
| `GasEstimation.EstimateIsLeast` | internal/execution/evm.go:322-342 | where success is monotone the result is the least amount above the floor that succeeds |
| `GasEstimation.CallUses` | internal/execution/evm.go:244-279 | a simulated call runs as it is with the gas asked for, or 2^63 - 1 if none is; it used that gas less what the EVM left |
| `GasEstimation.FallbackExactly` | internal/execution/evm.go:303-324 | when even the whole limit fails: 120% of the gas used, rounded down, up to the limit, or a fixed amount |
| `GasEstimation.MidpointExactly` | internal/execution/evm.go:322-323 | the 64-bit midpoint halves every interval up to the limit if and only if the limit is at most 2^63 |
| `LanedMempool.LanedMempool.PopBatchLaned` | internal/mempool/lanes.go:135-177 | the two-phase pop on heaps returns exactly the pop of the three ranked lanes, put-backs included, and keeps the index |
| `LaneOrder.BestLeaveFirst` | internal/mempool/queue.go:13-20 | in each of the batch's six stretches priorities never rise and ties go by arrival; nothing a lane keeps has more priority than what it gave, nor as much with an earlier arrival |
| `LaneOrder.ReachableBestFirst` | internal/mempool/queue.go:13-20 | so for every pool reachable by Add, PopBatch, Remove and Reset, where the priority is that of price and score |
| `LaneOrder.HigherPayerFirst` | internal/mempool/queue.go:13-20 | of two entries of one lane with equal score the one paying more, up to 100 gwei, is ahead, and no pop takes the other and leaves it |
| `LaneOrder.LaneScores` | internal/mempool/lanes.go:74-84 | the fast lane holds scores from 0.65, the standard lane from 0.15 to below 0.65, the slow lane those below 0.15 |
| `LaneOrder.AddAnswers` | internal/mempool/lanes.go:87-130 | Add refuses exactly a queued hash, or else a full pool; otherwise the entry carries sender, score, priority and latest arrival, in the lane of its score |
| `LanedMempool.LanedMempool.Add` | internal/mempool/lanes.go:87-130 | duplicate and full rejections, otherwise insertion in rank order into the lane the score asks for |
| `LanedMempool.LanedMempool.Remove` | internal/mempool/lanes.go:261-284 | removes exactly the entry of the hash from its lane and the index |
| `LanedMempool.LanedMempool.Reset` | internal/mempool/lanes.go:226-236 | empties lanes and index |
| `LanedMempool.LanedMempool.Has` | internal/mempool/lanes.go:218-223 | the index answers true exactly for queued hashes |
| `LanedMempool.LanedMempool.DrainQueue` | internal/mempool/lanes.go:180-197 | pops the longest fitting prefix of the ranking and drops its hashes; the entry that does not fit is put back |
| `LanedMempool.LanedMempool.DrainGuaranteed` | internal/mempool/lanes.go:139-158 | phase 1: 40%, 40% and 20% of the gas limit, in lane order under the shared count cap |
| `LanedMempool.LanedMempool.TopUpLane` | internal/mempool/lanes.go:160-174 | phase 2 for one lane, on whatever gas and room are left |
| `LaneShares.PopExact` | internal/mempool/lanes.go:135-177 | the batch is guaranteed prefixes of the three sorted lanes, then longest extensions in lane order; the rest stays |
| `LaneShares.PopBounds` | internal/mempool/lanes.go:135-177 | at most maxTx entries; gas given out plus gas left is the limit, so nothing underflows |
| `LaneShares.SharesExactly` | internal/mempool/lanes.go:139-142 | the shares never exceed the limit together, and are 40, 40 and 20 percent of it if and only if 4,000 times the limit fits in 64 bits |
| `LaneShares.SharesGuaranteed` | internal/mempool/lanes.go:139-158 | unless the count cap is hit, a lane still non-empty after phase 1 has used its share but for less than its head's gas |
| `LaneShares.PopConservesWork` | internal/mempool/lanes.go:160-174 | if gas and room remain at the end, the head of every non-empty lane needs more gas than remains |
| `LaneShares.FitIsLongest` | internal/mempool/lanes.go:184-194 | a drain takes the longest prefix that fits by gas and count |
| `LaneShares.LongestCoversAll` | internal/mempool/lanes.go:184-194 | longest means: a prefix fits if and only if it is no longer than that |
| `LaneConservation.PopConserves` | internal/mempool/lanes.go:135-197 | pool before equals pool after plus batch; the index loses exactly the popped hashes, which are distinct |
| `LaneConservation.AddBag` | internal/mempool/lanes.go:87-130 | Add changes the pool's multiset and size by exactly the accepted transaction |
| `PoolRuns.ReachablePool` | internal/mempool/lanes.go:74-284 | over every run of Add, PopBatch, Remove and Reset: index agreement and ranking hold, and everything accepted is queued, popped or dropped, once |
| `LaneConservation.RemoveOk` | internal/mempool/lanes.go:261-284 | Remove takes out exactly one transaction, of that hash, and keeps the index in agreement |
| `LanePoolProofs.AddOk` | internal/mempool/lanes.go:87-130 | Add keeps index agreement, ranking, unique hashes and the size bound |
| `LanePoolProofs.TakeOk` | internal/mempool/lanes.go:184-194 | taking a prefix of a lane keeps them |
| `LanePoolProofs.ResetOk` | internal/mempool/lanes.go:226-236 | so does Reset |
| `LanePoolProofs.InsertRanks` | internal/mempool/queue.go:13-20 | insertion keeps the strict order, with arrival times breaking ties |
| `LanePoolProofs.RankingUnique` | internal/mempool/queue.go:13-20 | there is one ranking of given entries, so popping is determined |
| `LanePoolProofs.FirstIsHead` | internal/mempool/queue.go:13-20 | an entry none precedes is the head of the ranking |
| `TxHeap.BeforeIsStrictWeakOrder` | internal/mempool/queue.go:13-20 | Less is irreflexive, asymmetric and transitive with transitive incomparability |
| `TxHeap.RootIsFirst` | internal/mempool/queue.go:13-20 | nothing in a heap precedes its root |
| `TxHeap.HeapPush` | internal/mempool/lanes.go:114-121 | Push keeps heap order and adds exactly the entry |
| `TxHeap.HeapPop` | internal/mempool/lanes.go:185 | Pop keeps heap order, removes one entry and returns one no other precedes |
| `TxHeap.HeapRemove` | internal/mempool/lanes.go:280 | Remove at any index keeps heap order and removes exactly the entry there |
| `TxHeap.HeapInit` | internal/mempool/lanes.go:67-69 | Init makes any slice a heap of the same entries |
| `Transactions.ComputePriority` | pkg/types/transaction.go:26-40 | the priority mix, with price capped at 100 gwei and 0.5 for a missing price |
| `Transactions.PriorityMonotone` | pkg/types/transaction.go:24-40 | for positive prices priority grows with price and score and stays in [0, 1] |
| `Transactions.PriorityGrowsWithPrice` | pkg/types/transaction.go:26-40 | strictly with price up to 100 gwei, unless the score is all that counts |
| `Transactions.PriorityGrowsWithScore` | pkg/types/transaction.go:26-40 | and with score by its weight, strictly if and only if the weight is positive |
| `Transactions.PriorityIsLinear` | pkg/types/transaction.go:26-40 | between one wei and 100 gwei in proportion to the price; above, nothing more is gained |
| `Transactions.FreeTransactionOvertakes` | pkg/types/transaction.go:27-38 | at price zero it does not: a free transaction overtakes exactly those paying less than 50 gwei |
| `Merkle.ComputeMerkleRoot` | internal/execution/receipts.go:224-248 | the level-by-level loop computes the functional level reduction |
| `Merkle.RootIsTreeHash` | internal/execution/receipts.go:224-248 | for every length that is the top-down tree splitting at the largest power of two below n, the shape of section 2.1 of RFC 6962 |
| `Merkle.SplitIsPower` | internal/execution/receipts.go:224-248 | the split point is a power of two k with k < n <= 2k |
| `Merkle.SplitIsOnly` | internal/execution/receipts.go:224-248 | and it is the only one |
| `Merkle.RootJoins` | internal/execution/receipts.go:235-243 | the root of two or more leaves is the hash of the left half's root followed by the right half's, in that order |
| `Merkle.RootBinds` | internal/execution/receipts.go:224-248 | equal roots of equally long lists mean equal lists, unless the hash collides on strings actually hashed |
| `Merkle.LengthsCollide` | internal/execution/receipts.go:224-248 | equal length is needed, for every hash function: any two different positive numbers of leaves have lists with equal roots |
| `Merkle.LengthsCanCollide` | internal/execution/receipts.go:235-243 | the plainest case: two leaves share a root with their node |
| `Receipts.CommitDetermines` | internal/execution/receipts.go:114-135 | two receipts commit to the same string exactly if all fixed-width fields and recipient-then-value agree |
| `Receipts.CommitLayout` | internal/execution/receipts.go:114-135 | the layout of the committed string, field by field and byte by byte |
| `Receipts.CommitBinds` | internal/execution/receipts.go:114-135 | for receipts that agree on whether To is set, exactly if every committed field agrees |
| `Receipts.CreationCollides` | internal/execution/receipts.go:120-125 | a call and a creation collide exactly when the value of the creation is the call's address followed by its value |
| `Receipts.BlockRootBinds` | internal/execution/receipts.go:183-198 | under collision-free hashes equal block roots of equally many such receipts mean the same committed receipts in order |
| `Receipts.ReceiptStore.Store` | internal/execution/receipts.go:144-149 | appends to the block's list and replaces the entry of the transaction |
| `Receipts.ReceiptStore.ComputeBlockReceiptRoot` | internal/execution/receipts.go:183-198 | the tree hash of the block's receipt hashes, zero if there are none |
| `ComputeReceipts.CreateReceipt` | internal/execution/receipts.go:69-112 | the receipt made from transaction and result, which verifies |
| `ComputeLaws.StoredReceiptsTell` | internal/producer/producer.go:228-243 | the i-th compute receipt of a block written on a good node names its i-th transaction and what became of it, between the root of the state before the block and the root its re-execution leaves |
| `ComputeReceipts.ComputeHash` | internal/execution/receipts.go:114-135 | feeding the hasher field by field hashes the commitment string |
| `ComputeReceipts.ComputeLogsHash` | internal/execution/receipts.go:208-221 | feeding emitter, topics and data of each log |
| `ComputeReceipts.LogsBind` | internal/execution/receipts.go:212-220 | between lists of logs of one shape (topic counts and data lengths) the hashed string determines every log |
| `ComputeReceipts.LogsConfusedExactly` | internal/execution/receipts.go:212-220 | two shapes can be confused if and only if they differ and take equally many bytes in all |
| `ComputeReceipts.LogsHashBinds` | internal/execution/receipts.go:208-221 | for one shape, equal logs hashes mean equal logs unless the hash collides on the two strings |
| `ComputeReceipts.BlockRootBindsLogs` | internal/execution/receipts.go:183-198 | so under equal block roots receipts whose logs have one shape have the same logs |
| `ComputeReceipts.LogsHashAmbiguous` | internal/execution/receipts.go:212-221 | the plainest confusion: moving the last topic in front of the data leaves the logs hash unchanged |
| `ChainKeys.KeysCollideExactly` | internal/execution/chaindb.go:19-31 | two keys of the scheme coincide if and only if they are the same key, or block n and batch i with n = 0x74 * 256^k + i, k the byte length of i |
| `ChainKeys.FirstClash` | internal/execution/chaindb.go:20-25 | the first clash with a real batch index is block 29697 with batch 1 |
| `BigEndian.ValueOfMinimal` | internal/execution/chaindb.go:80 | minimal big-endian encoding decodes to the number |
| `BigEndian.MinimalOfValue` | internal/execution/chaindb.go:53 | and decoding then encoding is the identity on strings without leading zero |
| `BigEndian.ValuePrepend` | internal/execution/chaindb.go:83 | a leading byte x in front of k bytes weighs x * 256^k |
| `ChainStoreProofs.ReadBlockExact` | internal/execution/chaindb.go:125-141 | after any history a block read returns the last write under its number, or fails if that was a clashing batch |
| `ChainStoreProofs.BlockUnderIsLastBlock` | internal/execution/chaindb.go:125-141 | without clashing batches, the last block written with that number |
| `ChainStoreProofs.ReadBlockByHashExact` | internal/execution/chaindb.go:144-164 | a read by hash goes to the number of the last block written with that hash |
| `ChainStoreProofs.ReadTransactionExact` | internal/execution/chaindb.go:178-224 | a transaction and its block number are found exactly if a block with it was written; the last one counts |
| `ChainStoreProofs.ReadReceiptExact` | internal/execution/chaindb.go:195-212 | the last receipt written under the transaction hash |
| `ChainStoreProofs.ReadBatchExact` | internal/execution/chaindb.go:247-261 | the last write under the batch index |
| `ChainStoreProofs.ReadLatestBatchExact` | internal/execution/chaindb.go:264-283 | the batch written last |
| `ChainStoreProofs.ClashOverwrites` | internal/execution/chaindb.go:229-244 | block and batch read back what was just written if and only if their keys do not clash |
| `ChainStoreProofs.StoredTipExact` | internal/execution/chaindb.go:45-62 | the stored number and root decode to those of the last block written, or zero |
| `ChainStoreProofs.StoredMetaExact` | internal/execution/chaindb.go:302-335 | genesis root and L1 origin keys hold what was last written to them |
| `ChainDB.ChainDB.constructor` | internal/execution/chaindb.go:45-62 | opening loads into the cache what the stored keys decode to |
| `ChainDB.ChainDB.WriteBlock` | internal/execution/chaindb.go:67-122 | block, indices and tip are written together; a failure changes neither disk nor cache |
| `ChainDB.ChainDB.BlockPuts` | internal/execution/chaindb.go:71-111 | the write batch assembled transaction by transaction and receipt by receipt |
| `ChainDB.ChainDB.WriteBatch` | internal/execution/chaindb.go:229-244 | a batch record leaves the tip alone |
| `ChainDB.ChainDB.Tip` | internal/execution/chaindb.go:39-42 | cache and disk both name the last block written |
| `StateManager.Manager.ExecuteAndCommitBlock` | internal/state/manager.go:249-336 | execute, commit, assemble, write refines the functional commit, failures of either store included |
| `StateManager.Manager.Pair` | internal/state/manager.go:290-304 | receipts stamped with block and position; the quadratic search by hash for their transactions |
| `StateManager.Manager.NewManager` | internal/state/manager.go:49-128 | restores from disk if a genesis root is stored, otherwise opens the empty state, allocates and commits genesis and stores its root; fails exactly if one of the four does |
| `StateManager.Manager.SetL1Origin` | internal/state/manager.go:392-397 | memory always moves, disk only if its write succeeds |
| `ChainProofs.RunKeeps` | internal/state/manager.go:249-336 | over every run of productions, failures, origin and batch writes and restarts, blocks are numbered 1, 2, 3, ..., linked, re-execute to their own roots, gas and receipts, and the tip opens the state that gives |
| `ChainProofs.CommitKeeps` | internal/state/manager.go:278-335 | a successful commit adds one faithful block holding exactly the included transactions; a failed one changes neither tip nor history nor the state the tip opens |
| `ChainProofs.AssembleFaithful` | internal/state/manager.go:286-324 | the assembled block re-executes to itself: nothing skipped, same gas, root and receipts |
| `ChainProofs.MatchingIsPositional` | internal/state/manager.go:297-303 | the search by hash pairs receipts and transactions exactly as their positions do |
| `ChainProofs.BlockHashIsParentHash` | internal/state/manager.go:440-447 | a block has its parent's hash |
| `ChainProofs.HashOfBytes` | internal/state/manager.go:440-447 | the conversion to a hash keeps the number a string of up to 32 bytes stands for, and the last 32 bytes of a longer one |
| `ChainProofs.HashIndexNamesTip` | internal/execution/chaindb.go:85-86 | so a lookup by the hash of any block answers with the tip |
| `ChainProofs.ProductionStopsExactly` | internal/producer/producer.go:116-118 | the nil header is read exactly when a batch record has overwritten the tip's block record |
| `ChainProofs.RestartRestores` | internal/state/manager.go:72-89 | reopening restores number and root exactly when a block has been written (or the root was already zero), and the origin exactly when its last successful write is the one in memory |
| `ChainProofs.EarlyRestartLosesGenesis` | internal/state/manager.go:117-120 | restarted before its first block, a node runs on the empty state |
| `ChainProofs.BootFounds` | internal/state/manager.go:91-127 | a new database boots into a good node on its genesis state |
| `ChainProofs.BlockUnderNumber` | internal/execution/chaindb.go:125-141 | under the number of a chain block is that block or an overwriting batch record |
| `ChainProofs.IntactBelowFirstClash` | internal/execution/chaindb.go:20-25 | on a chain of fewer than 29,697 blocks every block record is intact and production never stops |
| `ChainProofs.LogsKeepOfferedPosition` | internal/state/manager.go:292-296 | sealing renumbers a receipt but not its logs; the two agree exactly if nothing was skipped before it |
| `ChainLaws.ChainConserves` | internal/execution/evm.go:130-204 | a whole chain creates no money; if the EVM burns none, end plus what the commits deleted is the start |
| `Ledger.CommitDeletesExactly` | internal/execution/statestore.go:70-84 | a state commit adds no money, and deletes none exactly if every self-destructed account is empty |
| `Ledger.PersistedExactly` | internal/execution/statestore.go:70-84 | a commit keeps balance, nonce, code and storage of every account but the self-destructed ones, which are gone; what lives in memory only is reset |
| `ChainLaws.ChainNonces` | internal/execution/evm.go:124-156 | over a whole chain every sender's nonces count up by one from the starting nonce |
| `ChainLaws.ExecutedAtMostOnce` | internal/execution/evm.go:124-128 | no two positions of a chain hold the same sender and nonce |
| `ChainLaws.StoredBlockGas` | internal/state/manager.go:306-318 | every stored block: receipts aligned, cumulative gas the prefix sum, GasUsed its end, within 30M |
| `ChainLaws.RunOrigins` | internal/state/manager.go:316 | L1 origin numbers never decrease along the chain if the L1 client's do not, over runs in which no restart follows a failed origin write |
| `ChainLaws.RunStoresOrigin` | internal/state/manager.go:392-397 | as long as origin writes succeed, memory and disk agree on the origin |
| `ChainLaws.FailedWriteForgets` | internal/state/manager.go:396 | a failed origin write followed by a restart goes back to the origin on disk |
| `BatchSubmitter.BatchSubmitter.SubmitBatch` | internal/batcher/batcher.go:174-264 | the imperative submission refines the functional one on batcher and chain, failures and the nil header included |
| `BatchSubmitter.BatchSubmitter.BuildBatchFrame` | internal/batcher/batcher.go:267-306 | reads blocks one by one; gives up at the first that is missing, and reads a nil header in the first that is damaged |
| `BatchSubmitter.BatchSubmitter.CheckConfirmations` | internal/batcher/batcher.go:309-328 | in whatever order it polls, exactly the confirmed hashes leave the pending map |
| `Batching.CollectedExact` | internal/batcher/batcher.go:277-303 | over a numbered chain the frame is exactly the stored blocks, or a nil header if and only if one of them was overwritten |
| `Batching.NextFrameExact` | internal/batcher/batcher.go:178-191 | the frame is everything between last batch and current block; nothing is sent exactly if nothing is missing, and a nil header is read exactly if a missing block was overwritten |
| `Batching.NewBatcherResends` | internal/batcher/batcher.go:125-134 | a batcher just created starts at block 1 with index 1, so after a restart everything is sent again and record 1 is written over |
| `Batching.AdvanceKeeps` | internal/batcher/batcher.go:237-251 | a submission extends the concatenation, the intervals and the indices |
| `Batching.AdvanceTracksExactly` | internal/batcher/batcher.go:249 | it keeps every batch accounted for if and only if its L1 hash is not that of a batch still pending |
| `Batching.ConfirmKeeps` | internal/batcher/batcher.go:313-327 | a confirmation round moves batches from pending to confirmed and forgets none |
| `Batching.SimulatedHashesRepeat` | internal/batcher/batcher.go:76-91 | the devnet client's hashes repeat exactly when a later, smaller batch makes up for the blocks in between |
| `FeeModel.DynamicFeeModel.AdjustAfterBlock` | internal/fees/model.go:108-163 | the step of the fee state, in place |
| `FeeModel.StepBounds` | internal/fees/model.go:116-155 | a block within its limit keeps the average in [0, 1] and the fee in [10^8, 10^11] and moves the fee by at most floor(fee * 1250 / 10000) |
| `FeeRise.FeeMovesExactly` | internal/fees/model.go:116-155 | the fee rises if and only if the new average is above the target by a basis point of it or more and the fee below its ceiling, and falls if and only if below by as much and above its floor |
| `FeeRise.FeeMovesBy` | internal/fees/model.go:120-155 | by an eighth, rounded down, once the average is an eighth of the target away, by as many basis points as it is away before that, and never past its bounds |
| `FeeRise.CeilingWithin64` | internal/fees/model.go:108-155 | from every state in range 64 or more full blocks in a row reach the ceiling, where the fee then stays |
| `FeeRise.WorstClimb` | internal/fees/model.go:108-155 | 64 is least: from the lowest fee and an empty average 63 do not |
| `FeeRise.FirstBlock` | internal/fees/model.go:108-155 | a model just started moves from 1 gwei to 1.125 on a full block and to 0.875 on an empty one |
| `FeeModel.AverageNeedsTheLimit` | internal/fees/model.go:116-119 | a full average stays at most 1 exactly if the block kept to its limit; the fee bounds hold regardless |
| `FeeModel.RunInRange` | internal/fees/model.go:108-163 | so over whole runs |
| `FeeModel.FloorWithin57` | internal/fees/model.go:108-155 | from every state in range 57 or more empty blocks in a row reach the floor, where the fee then stays |
| `FeeModel.WorstDescent` | internal/fees/model.go:108-155 | 57 is least: from the highest fee and a full average 56 do not |
| `FeeModel.IdleForMonotone` | internal/fees/model.go:116-155 | a lower fee state stays lower over any number of empty blocks |
| `FeeModel.DynamicFeeModel.EffectiveFee` | internal/fees/model.go:82-104 | the discounted fee, from cache while fresh, from the provider otherwise |
| `FeeModel.DynamicFeeModel.GetCachedDiscount` | internal/fees/model.go:167-191 | a fresh entry answers; otherwise the provider's answer is remembered, and an error is no discount |
| `FeeModel.DiscountNeverSurcharges` | internal/fees/model.go:94-103 | a sender pays between the floor and the base fee if and only if the discount is at most 10000 basis points; a larger one wraps into a surcharge |
| `FeeModel.DiscountExactly` | internal/fees/model.go:94-103 | within 100% the fee is the discounted share of the base fee, rounded down, or the floor if that is more |
| `FeeModel.CacheAnswers` | internal/fees/model.go:167-191 | an answer given once stands for 60 seconds, whatever the provider says meanwhile; other senders are not affected |
| `FeeModel.DiscountMonotone` | internal/fees/model.go:94-103 | more discount never means a higher fee |
| `AdaptiveSizer.AdaptiveBlockSizer.AdjustAfterBlock` | internal/producer/adaptive.go:90-133 | the step of the size state, in place |
| `AdaptiveSizer.SettingsMoveExactly` | internal/producer/adaptive.go:114-132 | more than 0.1 above the target both settings go up by their steps, more than 0.1 below down, up to their bounds; within 0.1 neither moves |
| `AdaptiveSizer.StepsAre` | internal/producer/adaptive.go:104-112 | the steps are the configured basis points of the two ranges, rounded down, the second at least 1 |
| `AdaptiveSizer.StepInBounds` | internal/producer/adaptive.go:114-132 | with step at most the minimum and maximum plus step not wrapping, both settings stay in bounds |
| `AdaptiveSizer.RunInBounds` | internal/producer/adaptive.go:90-133 | so over whole runs |
| `AdaptiveSizer.ShrinkExactly` | internal/producer/adaptive.go:125 | shrinking never raises an in-bounds limit if and only if the step is at most the minimum |
| `AdaptiveSizer.GrowExactly` | internal/producer/adaptive.go:116 | growing never lowers one if and only if maximum plus step fits in 64 bits |
| `AdaptiveSizer.ReachesCeiling` | internal/producer/adaptive.go:114-122 | utilization of at least u above target + 0.1 in m + n blocks drives both to their ceilings, where u < (u - target - 0.1)(1 + m alpha), n gas steps cover the gas range and n transaction steps the range of the cap; how far the loop itself can keep such demand up is stated by SizerLoop |
| `AdaptiveSizer.ReachesFloor` | internal/producer/adaptive.go:123-131 | symmetrically, with both steps, sustained quiet drives both to their floors |
| `SizerLoop.SustainedExactly` | internal/producer/producer.go:107-114 | with every block popped under the sizer's own limit and using at most 30M, demand at u past the threshold can outlast the climb if and only if u * maxGas <= min(maxGas, 30M) |
| `SizerLoop.FullDemandClimbs` | internal/producer/producer.go:184-190 | in any configuration full demand raises the limit, within the same count, to its ceiling or past the point where a full block still reaches u |
| `SizerLoop.CeilingHeldExactly` | internal/producer/adaptive.go:123-126 | a sizer at its gas ceiling, not quiet, can be held there for ever if and only if the limit cannot move or min(maxGas, 30M) / maxGas >= target - 0.1 |
| `SizerLoop.DefaultConfiguration` | internal/producer/adaptive.go:57-69 | by default nothing wraps, the steps are 2,250,000 and 450, 20 steps cover both ranges and 19 do not; demand past the threshold cannot last at the ceiling, but the ceiling can be held |
| `AdaptiveSizer.GapBound` | internal/producer/adaptive.go:102 | the distance of the average from a sustained level falls at least as fast as 1 / (1 + n alpha) |

## Left out

- JSON-RPC, HTTP and WebSocket servers, metrics, logging, configuration and `main.go`: I/O and formatting; an RPC submission is an Add event with arbitrary sender and score.
- The taste score client: the score is an arbitrary real.
- EVM opcodes, tries, Pebble, signature recovery, RLP, JSON and zlib: parameters with contracts, or lossless codecs; a record of the wrong class decodes to a value without contents.
- `internal/mempool/mempool.go`: the one-lane special case, unused by the main program; it would repeat the heap proofs.
- `Pending` and `LaneSizes` of the pool, `Get` and `GetByBlock` of the receipt store: plain reads.
- Receipt type, bloom filter and the fee caps kept in pool metadata: never used by what is modelled.
- Logs are returned by the EVM run instead of being collected from a map by transaction hash.
- Slice aliasing of key prefixes and data races: keys are immutable sequences and a step is atomic under its lock.
- float64 rounding in priorities, averages and percentages: exact reals.
- EvmExecutor.EVMExecutor.RunAndSettle: the per-transaction log context and access lists live inside the EVM parameter; transient storage, block-start storage and self-destruct marks are state it reads and writes, carried from one transaction to the next as in the code.
- AdaptiveSizer.AdaptiveBlockSizer.AdjustAfterBlock: the transaction cap is an unbounded integer, so overflow of Go's int in it is not modelled.
- GasEstimation.EstimateGas: is about searches that end; those of every call do if and only if the block gas limit is at most 2^63 (GasEstimation.SearchEndsExactly). The node always passes 30,000,000.
- GasLimits.PopLimitExactly: is about limits of at most 2^63; above that, small amounts cannot reach the point where the sum wraps, and the condition is another one.
- PipelineLosses.FailureLosesExactly: counts the loss when only submissions of other transactions come between pop and put-back; for any other interleaving PipelineLosses.NothingLostWithinRoom gives the sufficient half.
- PipelineProofs.RunKeepsOk: a restart inside a run is covered for the chain by ChainProofs.RunKeeps; the pool and the batcher keep nothing across one, so the machine starts anew from the restored node, and the batcher sends every block again from block 1 with index 1, writing over its records (Batching.NewBatcherResends).
- PipelineProofs.NoTransactionLost: a transaction whose re-add finds the same hash resubmitted in the meantime is dropped, and is kept by the resubmitted copy.
- The L1 client beyond its three answers, and the timers that trigger production and submission.
