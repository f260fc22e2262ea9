# Verification model of the sharded blockchain and its dashboard

The project models the parts of the repository that carry state and proves what they keep over whole runs.

- **Ledger.** `Ledger.dfy` is the state transition of `GetUpdateStatusTrie` as a function on the state trie, a map from
  address to account. `TransferLaws.dfy` says what one transaction does to it in terms of its own fields and of the
  account table; `LedgerLaws.dfy` proves the laws of batches: exact balances, conservation, the write counter,
  non-negative balances, nonces, virtual accounts, replica agreement and independence of the block size.
  `ShardedLedger.dfy` runs all shards in any interleaving and proves that they refine the sequential ledger of
  `ReferenceLedger.dfy`, and `ShardedNodes.dfy` carries this over to the chains of running nodes; `Comparison.dfy` says
  what the comparison at the end of `Ttestresult` shows. `AccountLoading.dfy` has the tries that `AddAccounts` and
  `AddAccount` build.
- **Node.** `Storage.dfy` has the persistent buckets, one atomic write at a time, and what a crash between two writes
  leaves behind; `ChainStates.dfy` gives the operations of a node as functions on its state, and `BlockChain.dfy` is the
  node as a class whose methods are proved against them; `Accounts.dfy` belongs to it. `TxRoots.dfy` proves which bodies
  the transaction root of a header admits.
- **Runs.** `NodeStates.dfy` is a state machine: a running node or a disk without a process, under the actions start,
  submit, mine, receive and remap, each of which a crash may stop between any two of its writes. `RunLaws.dfy` proves
  what whole runs keep, and `Runs.dfy` that node objects driven by the same events end exactly where the state machine
  says. `Replicas.dfy` runs a leader and a follower of one shard.
- **Transaction pool.** `GoSlices.dfy` models Go slices as windows into real, shared arrays. `TxPool.dfy` proves when
  outstanding batches are not overwritten and that batches and queue together are first in, first out.
- **Log reader.** `Bytes.dfy`, `WriteBatch.dfy` and `LogFormat.dfy` give the reader as functions, a writer after
  LevelDB's log format and Base 128 varints after the Protocol Buffers encoding document, and the round trips.
  `LogReader.dfy` is the reader with its loops and its reused fragment buffer, and `LogLaws.dfy` gives its outcome on
  arbitrary bytes in terms of the bytes. `Texts.dfy` reads hexadecimal and decimal texts back.
- **Dashboard.** `Dashboard.dfy` has the scans of the block bucket, the loaded index and the lookup of a block's
  transactions, `DashboardTexts.dfy` what the texts of its transaction list say, and `DashboardRuns.dfy` what it shows
  of a running node's disk; `Timestamp.dfy` has `extractTimestamp`.

Conventions. A trie root carries its trie, a block hash its header and a transaction root its transaction tree, so all
are injective by construction. The trie database is a set of roots in memory, lost in a crash, and a set of committed
roots. A batch is executed from the trie of the current block, and `cfg.mapInfo` stands for the literal account table
of `MapInfo`. A call that panics in the source is either an outcome (`OutOfRange`, `Panic`, `None` of
`RestoreAccountShard`) or excluded by a `requires` of the method: an address that does not parse, where it is looked at,
a disk whose newest block or state is missing, a nil relay map. In the state machine of runs such a panic ends the
process. The current time, the growth of a reallocated slice, the order of hash texts and the iteration order of maps
and buckets are arbitrary.

Where the source falls short of what its names or tests promise, the model keeps the code and proves the exact
condition:

- `RestoreAccountShard` never inverts `AddrVirtualAccount` on forty-character addresses (`RestoreAccountShardNeverInverts`).
- Shards reject more than the reference ledger: exactly when the missing funds sit in the sender's virtual accounts
  elsewhere (`RejectionsDifferExactly`, with the example `TwoShardsRejectMore`); never with one shard
  (`SingleShardCoincides`).
- The account table lists addresses with their 0x prefix, and the transactions of the file carry theirs without it, so
  the table is never consulted for them (`PrefixedTableIsIdle`).
- The transaction root commits to the last transaction of every hash, and so to the transactions of a body without
  repeated hashes, but not to their order (`SameRootExactly`, `TamperedBodyExactly`, with the example
  `RepeatedHashIsFree`).
- No check looks at a block's state root: `AddBlock` stores a peer's block whatever executing it gives. The new state
  can be opened, and a node started again, exactly when the root was known or is what executing the block gave
  (`AddBlock`, `RestartableExactly`, `RunsRestartExactly`, with the examples `UnknownRootIsStored` and
  `UnknownRootPanicsLater`).
- `AddAccounts` and `AddAccount` commit the old root instead of the new one, so a node can be started again exactly when
  the loaded state was empty or committed before (`LoadedRestartsExactly`, with the example `LoadingIsLost`).
- A crash can leave two blocks of the same height behind (`CrashCanRepeatHeight`): each height stays stored once exactly
  when no crash falls after the first and before the third write of a block and no block is written over the chain
  (`CutKeepsShapeExactly`, `RunsKeepShapeExactly`).
- No check compares a block's hash with its header, and blocks are stored under the hash they carry. In every run,
  crashes included, the chain below the newest pointer stays stored exactly until a block is written that carries the
  hash of a block already on the chain (`RunsKeepChainExactly`, with the example `ForgedHashBreaksChain`). One that
  carries the newest block's hash takes its place with its first write (`RestartableExactly`, `RunsKeepHeaderExactly`,
  with the example `ForgedHashTakesAtOnce`). Neither happens when every received block carries the hash of its header
  (`HashedRunsNeverOverwrite`).
- Pushing back a batch in place is safe exactly when no batch packed later lies in the same array
  (`ReturnKeepsLayoutExactly`, `ReturnableExactly`, with the example `OlderBatchOverwritesNewer`).
- The comparison of `Ttestresult` accepts an account that any shard shows with the right balance, and misses value in
  virtual accounts (`ComparisonPassesExactly`).
- The log reader's conversion of a length to `int` makes it panic exactly for lengths that leave 64 bits
  (`OutOfRangeExactly`, `ParseLogPanicsExactly`, with the file of `HugeKeyLogPanics`).

## Model

| member | source | states |
|---|---|---|
| Addresses.Addr2Shard | utils/utils_partition.go:10-17 | the default shard of a parsable address is one of the shards |
| Texts.ShardableExactly | utils/utils_partition.go:10-17 | an address has a default shard exactly when its last eight characters are hexadecimal digits of either case |
| Texts.ShardOfLastBytes | utils/utils_partition.go:10-17 | the default shard is the number its last four bytes spell, modulo the number of shards |
| Texts.VirtualAddressReadsBack | utils/utils_partition.go:18-24 | a virtual address is its account followed by text that reads in decimal as the shard |
| Addresses.VirtualAccountInjective | utils/utils_partition.go:18-28 | RestoreAccount undoes AddrVirtualAccount; a virtual address determines both the account and the shard |
| Addresses.RestoreAccountShardNeverInverts | utils/utils_partition.go:29-33 | on forty-character addresses it panics exactly for one-digit shards and otherwise returns the code of the second digit, which is not the shard |
| Accounts.AccountState.Deduct | core/account.go:30-36 | debits in place exactly when the balance suffices, and says whether it did |
| Accounts.AccountState.Deposit | core/account.go:39-41 | credits in place and changes nothing else |
| TransferLaws.TransferOnTable | chain/blockchain.go:91-160 | one transaction changes nothing when its paying sender lacks the funds; otherwise it moves its value from the sender, if not relayed and listed or hashed here, to the recipient, if a broker sends or it is listed or hashed here, or else to the virtual account of the sender's shard, and touches no other |
| TransferLaws.PanicsOnTable | chain/blockchain.go:91-160 | it panics exactly on an address that is looked at, not listed and does not parse |
| TransferLaws.ListedSenderPaysThere | chain/blockchain.go:56-63 | a sender listed in the table is debited on the shard it is listed for and on no other |
| TransferLaws.ListedRecipientIsPaidThere | chain/blockchain.go:56-63 | a listed recipient is credited itself on that shard, elsewhere only by a broker |
| TransferLaws.PrefixedTableIsIdle | chain/blockchain.go:463-478 | a table of addresses that are not forty characters long changes nothing for transactions whose addresses are |
| LedgerLaws.ApplyTxDelta | chain/blockchain.go:91-160 | one transaction moves its value from the debited to the credited key and leaves every other balance, or moves nothing when rejected |
| LedgerLaws.ExactBalances | chain/blockchain.go:91-160 | every balance after a batch is the one before plus the net flow of the accepted transactions |
| LedgerLaws.Conservation | chain/blockchain.go:91-160 | the shard's total over defaults grows by exactly the value credited but not debited here, over any batch |
| LedgerLaws.WriteCounter | chain/blockchain.go:89-164 | two writes per debited and one per credit-only accepted transaction; zero exactly when all are rejected, and then nothing changes |
| LedgerLaws.BalancesStayNonNegative | chain/blockchain.go:108-117 | with non-negative values no balance ever becomes negative |
| LedgerLaws.NonceIsOpeningPosition | chain/blockchain.go:97-104 | a batch changes no nonce, and an account it opens has the position of the opening transaction |
| LedgerLaws.VirtualAccountsCarryHistory | chain/blockchain.go:138-158 | in every reachable state a virtual account holds exactly the accepted non-broker value sent to that recipient by senders hashing to that shard |
| LedgerLaws.VirtualsStayAgreed | chain/blockchain.go:138-158 | batches keep every AllStateMapTx entry equal to the trie's entry |
| LedgerLaws.AddedBlockAgrees | chain/blockchain.go:234-246 | once an executed block is added AllStateMapTx equals the new trie, also when the batch is executed twice |
| LedgerLaws.ReplicasExecuteAlike | chain/blockchain.go:77-177 | nodes of one shard get the same trie and accept the same transactions, whatever their number and block size |
| LedgerLaws.ReplicasSurviveAlike | chain/blockchain.go:77-177 | and the batch panics on all of them or on none |
| LedgerLaws.BlockSizeDoesNotMatter | chain/blockchain.go:180-197 | for any block size of at least one the pool empties after the ceiling of n over size blocks with the balances of one single batch |
| LedgerLaws.SplitSurvives | chain/blockchain.go:89-160 | executing a list of transactions panics exactly when executing it cut into two batches does |
| ReferenceLedger.Ttestresult | test/test_result.go:54-67 | the reference loop computes the reference ledger function |
| ReferenceLedger.RefStepDelta | test/test_result.go:63-66 | the reference moves an accepted value between two balances and nothing else |
| ReferenceLedger.RefRunOpens | test/test_result.go:54-62 | exactly the accounts that some transaction names have a reference balance, carried out or not |
| ShardedLedger.AssetsStep | chain/blockchain.go:91-160 | an accepted transaction on its home shard moves an account's assets across all shards exactly as the reference moves balances |
| ShardedLedger.ShardingRefinesReference | chain/blockchain.go:91-160 | after every interleaving of routed batches home plus foreign virtual balances equal the reference run on the accepted transactions, none of which it rejects |
| ShardedLedger.RejectionsDifferExactly | chain/blockchain.go:108-112 | the reference accepts what a shard rejects exactly when the sender's foreign virtual balances cover the difference, and never the reverse |
| ShardedLedger.SingleShardCoincides | test/test_result.go:54-67 | with one shard the same transactions are accepted and all balances agree |
| ShardedLedger.TwoShardsRejectMore | chain/blockchain.go:138-158 | with four shards and any account table that lists neither account, two concrete transfers both accepted by the reference, the second rejected by its shard |
| ShardedNodes.ShardIsHistory | chain/blockchain.go:89-160 | in every interleaving each shard's trie is the history of exactly its own batches |
| ShardedNodes.NodesRefineReference | chain/blockchain.go:77-246 | one node a shard, any of its replicas, in any run with crashes: if their blocks are honest and routed, the assets in the states of their last blocks are the reference balances for every order of the blocks |
| ShardedNodes.SomeOrderPlays | chain/blockchain.go:77-246 | and such an order always exists |
| Comparison.CompareShards | test/test_result.go:69-93 | the accounts counted as correct are exactly those that some shard shows with the reference balance |
| Comparison.RunsStayAtHome | chain/blockchain.go:91-160 | in every run of routed batches a real account exists on its home shard only |
| Comparison.ReferenceInAnyOrder | test/test_result.go:54-67 | without rejections the reference balances do not depend on the order of the transactions |
| Comparison.ComparisonPassesExactly | test/test_result.go:69-103 | without rejections an account counts as correct exactly when none of its value sits in virtual accounts elsewhere, or when its reference balance is the starting balance and there is another shard |
| GoSlices.Append | core/txpool.go:26-52 | append writes in place only behind the slice when the capacity suffices and moves to a new array otherwise |
| TxPools.TxPool.constructor | core/txpool.go:18-23 | an empty queue and an empty relay map |
| TxPools.StampSetsTimeOnly | core/txpool.go:26-45 | a queued transaction keeps a time it had, has the current time otherwise, and is unchanged in all other fields |
| TxPools.StampAllInOrder | core/txpool.go:36-45 | the same of every transaction of a list, at its own position |
| TxPools.TxPool.AddTx2Pool | core/txpool.go:26-33 | the stamped transaction is queued last, in place exactly when there is room; batches that lie apart keep their contents |
| TxPools.TxPool.AddTxs2Pool | core/txpool.go:36-45 | the stamped transactions are queued last in order; outstanding batches keep their contents |
| TxPools.TxPool.AddTxs2Pool_Head | core/txpool.go:48-52 | any slice comes exactly before the queue; the new contents of every outstanding batch are given exactly; a slice that may be pushed back harms no other batch, and the batch packed last restores the order of entering |
| TxPools.TxPool.PackTxs | core/txpool.go:55-65 | the batch is the front of the queue, as many as allowed; with the rest it is the old queue; older batches keep their contents |
| TxPools.ReturnKeepsLayoutExactly | core/txpool.go:48-52 | pushing a slice back keeps all other batches apart exactly when it reallocates or all others in its array end before it |
| TxPools.ReturnableExactly | core/txpool.go:48-65 | the batch packed last may always be pushed back, an older one that is not empty exactly when it reallocates or no later batch lies in its array |
| TxPools.OverwrittenExactly | core/txpool.go:48-52 | an append in place changes a batch's contents exactly when the batch reaches into the part that is written |
| TxPools.OlderBatchOverwritesNewer | core/txpool.go:26-65 | through calls of the pool: an older batch is pushed back, and the next transaction added is written over the newer batch |
| TxPools.TxPool.AddRelayTx | core/txpool.go:68-76 | the transaction is appended to its shard's relay pool |
| TxPools.TxPool.ClearRelayPool | core/txpool.go:96-100 | leaves a nil relay map |
| TxPools.TxPool.PackRelayTxs | core/txpool.go:103-119 | packs the front of one relay pool when it is large enough, and leaves the rest and the other pools |
| TxPools.TxPool.TransferTxs | core/txpool.go:122-150 | takes out exactly the sender's transactions; what stays keeps its order and does not depend on the map iteration order |
| TxPools.SplitKeepsAll | core/txpool.go:127-133 | the split of the queue by sender loses and duplicates nothing |
| TxPools.SplitIsBySender | core/txpool.go:127-133 | every transaction lands on its own side of the split |
| TxPools.SplitInOrder | core/txpool.go:127-133 | both sides of the split keep the order of the queue |
| TxPools.SplitOne | core/txpool.go:127-133 | a single transaction goes to the side of its sender |
| TxPools.RelayLeftExactly | core/txpool.go:135-146 | a relay pool stays exactly when somebody else sent a transaction in it |
| TxPools.RelayTakenInOrder | core/txpool.go:135-146 | the relay pools are emptied in the order in which they are visited |
| TxPools.RelayTransferConserves | core/txpool.go:135-146 | the transfer loses and duplicates no relayed transaction in any iteration order |
| Storage.Disk.UpdateNewestBlock | storage/storage.go:75-89 | one atomic write of the newest pointer |
| Storage.Disk.AddBlockHeader | storage/storage.go:92-104 | one atomic write of a header under its hash |
| Storage.Disk.AddBlock | storage/storage.go:107-122 | exactly the block, header and pointer writes, in this order |
| Storage.StoringIsCrashSafe | storage/storage.go:107-122 | whichever writes reach the disk, the newest pointer names a stored block; a restart resumes on the block before until the last write, or the first if the new block carries the newest hash, and then on the new one exactly when its state is durable |
| Storage.HeaderStaysExactly | storage/storage.go:107-122 | the newest block keeps its header unless just the first write of a block with the same hash reached the disk |
| Storage.ChainIsUnique | storage/storage.go:107-122 | a disk holds at most one chain from the newest pointer down to genesis |
| Storage.StoringKeepsShape | chain/blockchain.go:234-246 | storing an extending block with a hash of its own keeps heights 0 to n once each, the parent links and the newest pointer |
| Storage.CutKeepsIntactExactly | storage/storage.go:107-122 | whichever writes reach the disk, the chain from the newest pointer down to the genesis block stays stored and linked, except exactly when the block is written and its hash is on the chain; then the disk holds no chain at all |
| Storage.CutKeepsShapeExactly | storage/storage.go:107-122 | each height stays stored once exactly when the cut does not fall after the first and before the third write and nothing of the chain is written over; otherwise the stored blocks are no chain at all |
| Storage.CrashCanRepeatHeight | storage/storage.go:107-122 | a crash after the first write lets the restarted node store a second block of the same height |
| ChainStates.AddedOpensExactly | chain/blockchain.go:234-246 | after AddBlock the state opens exactly when the header's root was empty, in memory or committed, or is the one just executed; for a restart the same without the memory |
| ChainStates.LoadedRestartsExactly | chain/blockchain.go:326-357 | after loading accounts a restart works exactly when the loaded state was empty or committed before |
| ChainStates.LoadedOnTop | chain/blockchain.go:337-357 | loading stores an empty block of the zero time on the current one; the new state is in memory, and the old one becomes durable if it could be opened |
| ChainStates.ExecutingCommitsExactly | chain/blockchain.go:77-177 | a batch of which nothing is accepted changes only the partition map; any other commits its trie and sets the flag |
| ChainStates.AddedExecutesExactly | chain/blockchain.go:234-246 | a node's own block is stored without being executed, that of another miner is executed first |
| Blocks.GenesisIsEmpty | chain/blockchain.go:200-217 | the genesis block has height zero, no parent, no transactions and the empty state |
| TxRoots.TreeHoldsLast | chain/blockchain.go:38-46 | the tree under a transaction root holds exactly the hashes of the body, each with the last transaction of that hash |
| TxRoots.SameRootExactly | chain/blockchain.go:38-46 | two bodies have the same root exactly when they have the same last transaction of every hash |
| TxRoots.TamperedBodyExactly | chain/blockchain.go:299-308 | under the header of a generated block exactly the bodies with the same transactions are accepted, in any order, when hashes are not repeated |
| TxRoots.RepeatedHashIsFree | chain/blockchain.go:299-308 | an arbitrary transaction put before one of the same hash is accepted under its header |
| BlockChains.BlockChain.constructor | chain/blockchain.go:250-296 | resumes on the newest stored block with an empty memory, or stores the genesis block on a disk without one |
| BlockChains.BlockChain.AddGenisisBlock | chain/blockchain.go:220-231 | stores the genesis block and makes it current |
| BlockChains.BlockChain.Update_PartitionMap | chain/blockchain.go:49-53 | sets one entry of the partition map |
| BlockChains.BlockChain.GetUpdateStatusTrie | chain/blockchain.go:77-177 | returns the root of the ledger function whatever the partition map was, commits it exactly when a transaction is accepted, and changes the rest of the state as Executing says; it needs the state trie and parsable addresses only as far as it looks at them |
| BlockChains.BlockChain.ProcessTx | chain/blockchain.go:91-160 | one loop iteration with in-place account states is the ledger's step; the debit always succeeds |
| BlockChains.BlockChain.CreditRecipient | chain/blockchain.go:119-158 | credits the real account or the virtual one and records the latter |
| BlockChains.BlockChain.GenerateBlock | chain/blockchain.go:180-197 | the block extends the current one with every header field given, passes IsValidBlock, carries the front of the queue and the root of executing it |
| BlockChains.BlockChain.AddBlock | chain/blockchain.go:234-246 | drops wrong heights; any other block is stored and becomes current, whatever its root, and the exact conditions for its state to open and for a restart are given; the executed root is only printed |
| BlockChains.BlockChain.IsValidBlock | chain/blockchain.go:299-308 | no error exactly when the parent hash is the current block's and the transaction root is that of the body; a wrong parent is reported first |
| BlockChains.BlockChain.AddAccounts | chain/blockchain.go:311-358 | when the listed states change the trie, or none are listed, it stores a block on the loaded trie and commits the old root; a restart works exactly when the loaded state was empty or committed before |
| BlockChains.BlockChain.FetchAccounts | chain/blockchain.go:361-383 | the stored state of each address, or a new account |
| BlockChains.BlockChain.AddAccount | chain/blockchain.go:385-441 | likewise on the trie with the listed amounts added, with the same condition for restarts |
| BlockChains.LoadingIsLost | chain/blockchain.go:311-358 | a new node that loads one local account shows it but cannot be started again |
| AccountLoading.SetAccountsTakesLast | chain/blockchain.go:326-336 | a listed local account is fetched with the state listed last for it |
| AccountLoading.SetAccountsKeepsOthers | chain/blockchain.go:326-336 | unlisted accounts and accounts of other shards are unchanged |
| AccountLoading.CreditAccountsAddsListed | chain/blockchain.go:399-417 | every fetched balance grows by exactly its listed amounts, duplicates included, whether or not the account existed |
| AccountLoading.CreditAccountsKeepsNonce | chain/blockchain.go:399-417 | an account that existed keeps its nonce, and a new one has the nonce listed first for it |
| AccountLoading.ReachableBalancesNonNegative | chain/blockchain.go:91-160 | no balance is negative in any state reached by batches and loaded accounts in any order, when values and loaded balances are not |
| NodeStates.PanicsExactly | chain/blockchain.go:77-177 | a running node whose disk can be started panics in an action exactly on an address that is looked at and does not parse |
| NodeStates.RestartableExactly | chain/blockchain.go:165-308 | after every action, complete or stopped by a crash between any two writes, the node can be started again, except exactly when the newest pointer came to name a peer's block with an unknown state root |
| NodeStates.CrashResumes | chain/blockchain.go:250-296 | after a crash in an action the node resumes on the block that was current before, or, once the newest pointer names it, on the block being stored |
| NodeStates.HeaderStaysStoredExactly | storage/storage.go:107-122 | every event leaves the newest block with its header, except exactly a crash after the first write of a block that carries the newest hash |
| RunLaws.RunsRestartExactly | chain/blockchain.go:165-308 | a node can be started again at every point of a run with any crashes exactly when the newest pointer never came to name a peer's block with an unknown state root |
| RunLaws.UnknownRootIsStored | chain/blockchain.go:234-308 | a block that passes IsValidBlock with a made-up state root is stored, its state cannot be opened, and the node cannot be started again |
| RunLaws.UnknownRootPanicsLater | chain/blockchain.go:77-87 | such a node goes on storing empty blocks and panics on the first block with a transaction |
| RunLaws.RunsKeepHeaderExactly | storage/storage.go:107-122 | the newest block has its header at every point of a run exactly when there was no such crash |
| RunLaws.RunsFormChain | chain/blockchain.go:234-296 | in every run, whatever crashes, roots and hashes, the blocks the newest pointer has named are linked by parent hash at heights 0 to n, the last is stored, and a running node stands on it |
| RunLaws.ChainSurvivesExactly | chain/blockchain.go:234-308 | an event leaves the whole chain stored unless it writes a block whose hash is on the chain, and then no chain is stored |
| RunLaws.RunsKeepChainExactly | chain/blockchain.go:234-308 | at every point of a run with any crashes the disk holds the whole chain from the newest pointer down to genesis, exactly when no block was written whose hash was on the chain |
| RunLaws.HashedRunsNeverOverwrite | chain/blockchain.go:234-308 | and none is when every received block carries the hash of its header |
| RunLaws.ForgedHashBreaksChain | chain/blockchain.go:234-308 | a block that passes IsValidBlock and carries the hash of the genesis block is written over it, and no chain is left |
| RunLaws.ForgedHashTakesAtOnce | storage/storage.go:107-122 | a crash after the first write of that block resumes on it without its header, or leaves a disk that cannot be started when its root is unknown |
| RunLaws.ShapeSurvivesExactly | storage/storage.go:107-122 | an event keeps each height stored once unless it is a crash after the first and before the third write of a block or writes over the chain, and then no chain holds all stored blocks |
| RunLaws.RunsKeepShapeExactly | storage/storage.go:107-122 | at every point of a run each height is stored exactly once, exactly when there was no such event |
| RunLaws.CrashFreeRunsKeepShape | chain/blockchain.go:220-296 | in particular a run without crashes whose received blocks carry the hashes of their headers |
| RunLaws.RunsKeepVirtualsAgreed | chain/blockchain.go:138-158 | in every run of honest blocks executed here, crashes included, each AllStateMapTx entry equals the trie entry |
| RunLaws.ChainIsExecuted | chain/blockchain.go:165-246 | in every run of honest blocks each block on the chain carries the root of executing it on the block before |
| RunLaws.ChainStateIsHistory | chain/blockchain.go:91-160 | the last state of such a chain is the history of its bodies from an empty trie, so the laws of histories hold of it |
| Runs.SubmitTxs | core/txpool.go:36-45 | a node object that takes transactions changes as the state machine says |
| Runs.MineBlock | chain/blockchain.go:180-246 | generating and adding a block: the state afterwards and the writes made are those of the state machine |
| Runs.ReceiveBlock | chain/blockchain.go:234-308 | a peer's block is added exactly when it passes IsValidBlock and has the right height; state, writes and printed root are given |
| Runs.RemapAccount | chain/blockchain.go:49-53 | a change of the partition map and nothing else |
| Runs.StartNode | chain/blockchain.go:250-296 | a node object starts on a disk exactly when the state machine does, with its state and writes |
| Runs.Perform | chain/blockchain.go:77-308 | every action on a node object, panics included, ends in the state machine's state with its writes |
| Runs.CrashDuring | storage/storage.go:75-122 | stopping an action after some of its writes leaves the state machine's disk |
| Runs.RunNode | chain/blockchain.go:250-296 | node objects driven by any events, crashes included, end exactly in the state of the run |
| Runs.MineUntilEmpty | chain/blockchain.go:180-246 | mining until the pool is empty ends with the trie and the number of blocks of Drain, from any queue that executes without panic |
| Replicas.LeaderChain | chain/blockchain.go:180-246 | in every run of rounds in which the leader does not panic its chain has one block per round, each honest and acceptable for every other node of the shard |
| Replicas.FollowerChain | chain/blockchain.go:234-308 | a follower of such blocks ends on their chain and can be started again, whatever it submits and however its partition map changes |
| Replicas.ReplicasAgree | chain/blockchain.go:77-246 | while the leader does not panic, leader and follower hold the same chain, and at every height executing the block on either gives the header's root |
| Replicas.Replicate | chain/blockchain.go:77-308 | two node objects play all rounds: same current block, same stored chain, and every root the follower prints is the header's |
| Bytes.VarintRoundTrip | main.go:965-970 | a 64-bit value is read back with exactly the bytes it was written in |
| WriteBatch.OutOfRangeExactly | main.go:965-976 | reading a string panics exactly when its declared length leaves int64 |
| WriteBatch.OpRoundTrip | main.go:941-961 | an encoded put or delete is read back as its row, up to exactly the next record |
| WriteBatch.BatchRoundTrip | main.go:934-963 | parsing an encoded batch returns exactly its operations in order |
| WriteBatch.DeclaredRoundTrip | main.go:934-963 | as many rows are read as the batch declares, or as it holds |
| WriteBatch.OtherKindsDelete | main.go:941-961 | a record of any kind but 1 is read as a deletion |
| Bytes.HexEncodeInjective | main.go:957-960 | rows of different keys have different key texts |
| Texts.HexIsBase16 | main.go:957-960 | the hexadecimal text of some bytes reads in base 16 as the number they spell |
| Texts.HexReadsBack | main.go:957-960 | every byte string is read back from its hexadecimal text |
| LogFormat.EmitRoundTrip | main.go:889-930 | reading the fragments of one record, over any number of blocks, completes exactly that record |
| LogFormat.FramesRoundTrip | main.go:889-930 | every list of records of any size is reassembled exactly and in order |
| LogFormat.LogRoundTrip | main.go:878-976 | reading the log of any list of well-formed batches returns exactly their rows in order |
| LogFormat.TruncatedExactly | main.go:889-905 | on arbitrary bytes reading fails exactly when a reached header declares more bytes than the file has |
| LogFormat.ParseLogPanicsExactly | main.go:878-976 | reading a file panics exactly when parsing one of the completed records does |
| LogLaws.HeaderExactly | main.go:889-901 | a header is read where seven bytes fit into the block of 32768 and are not those of a zero record |
| LogLaws.RecordAtHeader | main.go:893-907 | the length is little-endian at bytes four and five, and the next record is looked for after the payload but not beyond the block |
| LogLaws.NoHeaderSkipsBlock | main.go:889-901 | where no header is read the rest of the block of 32768 is skipped |
| LogLaws.RowShowsPayload | main.go:941-961 | a row read from any payload spells bytes of it as its key, and has a value exactly for records of kind 1 |
| LogLaws.ReaderCompletes | main.go:908-927 | on arbitrary bytes the completed records are the payloads of kind 1 and, at each of kind 4, what was kept since the last of kind 2, which kind 1 leaves alone and unknown kinds drop |
| LogLaws.FailedBatchesAreDropped | main.go:909-925 | records that fail to parse add nothing, not even the rows read before the failure |
| LogLaws.ParseLogExactly | main.go:878-932 | the outcome on any bytes: a panic when a completed record panics, an error when a reached header overruns the file, otherwise the rows of the records that parse |
| LogLaws.LogSpellsOps | main.go:878-976 | the rows read from the log of any batches spell the operations' keys and have their values, one by one and in order |
| LogLaws.VarintIsBase128 | main.go:965-970 | a varint ends at its first byte below 128 and is the sum of its groups of seven bits |
| LogFormat.HugeKeyLogPanics | main.go:965-976 | a concrete log file on which the reader panics |
| LogReader.ParseBatchRows | main.go:934-963 | the loop over slices computes the batch function, and its values refer to the payload only |
| LogReader.TakeRecord | main.go:908-927 | the switch over record kinds assembles fragments in the reused buffer and drops a buffer once parsed |
| LogReader.ParseLevelDBLog | main.go:878-932 | terminates on arbitrary bytes with the outcome of the log format, and no row's value is changed by later records |
| Dashboard.QueryBlocks | query/query_block.go:19-38 | every stored block once, in scan order |
| Dashboard.QueryBlock | query/query_block.go:40-61 | the last block of that height in scan order |
| Dashboard.QueryBlockTxs | query/query_block.go:71-92 | the body of that block, or nothing |
| Dashboard.ScanByHeightIsExact | query/query_block.go:40-92 | on a stored chain the scan finds exactly the block of that height in any scan order |
| Dashboard.LoadShardStore | main.go:468-534 | the loops build the views by height and hash, the latest mark and the index by hash |
| Dashboard.SortSorts | main.go:527-532 | whatever blocks the bucket holds, the views are sorted by height, and by hash where heights are equal |
| Dashboard.LatestIsLastHighest | main.go:475-485 | the latest view is the last of those of the greatest height |
| Dashboard.IndexShowsChain | main.go:462-576 | for a stored chain the views show height, hash, parent, count and time of the blocks by height, only the last is latest, and every notion of newest names height n |
| Dashboard.BuildTransactionViews | main.go:753-783 | the first transactions of the body in order, numbered from one, up to the limit |
| DashboardTexts.TransactionShown | main.go:753-800 | every transaction is shown with its own four addresses without surrounding blanks, a value and a hash that read back as its own, and its nonce and flags |
| DashboardTexts.TrimmedExactly | main.go:770-776 | trimming takes blanks off both ends and nothing else |
| DashboardTexts.BlanksExactly | main.go:770-776 | blanks are the white space characters of Unicode |
| Dashboard.QueryBlockTransactions | main.go:711-719 | the first hundred transactions of the block found through the height indexed under the hash |
| Dashboard.HashLookupIsExact | main.go:570-588 | the height found under a hash selects the very block stored under it, also after later blocks were added; other hashes are not found |
| DashboardRuns.ChainGrows | chain/blockchain.go:234-296 | the chain of a run only grows, whatever happens in it |
| DashboardRuns.RunIndexShowsChain | main.go:462-576 | at every point of a run without stray or overwriting blocks the index of the node's disk shows the node's chain, with its current block as the latest |
| DashboardRuns.RunHashLookupIsExact | main.go:570-588 | an index loaded at any point of such a run finds, in the bucket at any later point, the very block stored under a hash |
| Timestamp.CountWindows | main.go:813-825 | every in-range window value with its count and first position |
| Timestamp.PickBest | main.go:827-836 | the loop over the counts ends on one that no other beats, in any order |
| Timestamp.ExtractTimestamp | main.go:827-840 | the most frequent in-range value, ties broken by the earliest position, for any iteration order |
| Timestamp.BestIsUnique | main.go:827-836 | no two values are both best |
| Timestamp.BestStandsMostOften | main.go:827-836 | the value found stands at more positions than any other plausible one, or at as many of which one comes first |
| Timestamp.InRangeExactly | main.go:803-818 | plausible times reach from the beginning of 2020 to that of 2027 |
| Timestamp.WindowBytes | main.go:815 | a window is eight bytes, the low one first |

## Left out

- AddTx2Pool: the time stamp is set on the queued copy; that the source stamps the caller's transaction object is not modelled.
- AddRelayTx: relay pools are values, so a packed relay batch sharing its pool's backing array is not modelled.
- PackRelayTxs: relay pools are values, as for AddRelayTx.
- GenerateBlock: the block body is the batch's contents at that moment; the pool's contracts show they stay as they are.
- AddTxs2Pool: the time stamps are set on the queued copies, as for AddTx2Pool.
- AddAccounts: nothing is said when states are listed but leave the trie as it was, because committing a trie that no write changed is not modelled.
- AddAccount: the same case as for AddAccounts.
- RunNode: loading accounts is not an action of runs; what it does to a restart is in the contracts of AddAccounts and AddAccount.
- GetUpdateStatusTrie: a batch with accepted transactions that leaves the trie as it was is taken to commit the same root again, for the same reason.
- PanicsExactly: says nothing about that commit either.
- Replicate: the follower's rounds are played after the leader's; the two processes share nothing but the blocks.
- QueryBlockTransactions: the query's hash text (hexadecimal, case, surrounding blanks) is the hash itself here.
- Height, nonce and counter overflow at 64 bits, and the memory needed for a declared row count.
- Committing a trie that no write changed, the clean cache of the trie database, and how bolt, the trie and gob store their data.
- The checksum of log records, which the reader ignores; the writer may fill it freely.
- `QueryBlockHash`, `Get_shard`, `SendTx2Pool`, `CloseBlockChain`, other printing, the unused header field `AllStateRoot` and the unused account fields: no further behaviour.
- Reading the transaction file in `data2tx`, opening the shards' databases and printing in `Ttestresult`: file access.
- `parseShardDatabase`, `chooseShardDatabases`, `loadUserCount`, account name matching, HTTP handlers, CSV, sizes and time texts: library matching, file access and user interface.
- Locks: every pool method is one atomic step.
