# Sharded two-phase commit: a verified model

The system is a block-based two-phase commit between one orchestrator and eight state
shards. The orchestrator puts cross-shard transactions into blocks, collects the shards'
votes and publishes the decisions in later blocks. A shard turns every orchestrator block
into queue entries: Lock for a new transaction; CrossDebit, CrossCredit, CrossWriteSet,
Finalize and Unlock for a commit; CrossAbort and Unlock for an abort. When it produces a
block it executes the queue in priority order and votes according to the success of the
Locks. Locking is optimistic: a Lock checks that the values the transaction read while it
was simulated are still current, and takes slot locks and a reservation of the sender's
funds.

## How the project is laid out

There are two levels. The first level describes behaviour on values: what a transaction
does to a shard (`ShardSpec`), what the orchestrator does (`OrchestratorSpec`), the
reorder buffer (`BlockBuffer`), the simulation state (`Simulation`, `ReadSets`). All
protocol theorems are about this level. The second level has the source's objects, with
nested maps, an address index, loops and rollback (`LockIndex`, `SlotLocks`, `ShardChain`,
`ShardServer`, `OrchestratorChain`, `StateDB`, `BlockBuffer.ReorderBuffer`). Each method is
proved to compute its function of the first level.

| modules | content |
|---|---|
| `Protocol`, `EvmState`, `RwItems`, `History` | data types, account state, read/write sets item by item, what can be read off the two kinds of chain |
| `ShardSpec`, `ShardInvariant`, `ShardSteps`, `ShardIntake`, `ShardBlocks` | one shard: its steps, its invariant, and that every step keeps it |
| `OrchestratorSpec`, `OrchestratorChain` | the orchestrator, its lifecycle, deadlines and votes |
| `BlockBuffer` | in-order, exactly-once delivery |
| `Network`, `AtomicCommitment`, `Conservation`, `Serializability` | the whole system and its main theorems |
| `Outcomes` | what becomes of each queued transaction in the next block |
| `OrderIndependence`, `Reordering`, `LockRelease`, `Scenarios`, `Races` | map iteration order, release of locks, and runs in which a promise is broken |
| `Simulation`, `ReadSets`, `RwSets`, `StateDB`, `NestedMaps` | the simulation state, its read and write sets, the shard's tracker |
| `LockIndex`, `SlotLocks`, `ShardChain`, `ShardServer` | the shard's objects |

## The system and its runs

`Network.System` is one orchestrator and eight nodes, each a shard with a reorder buffer.
`Network.Event` lists the atomic steps: a client submits a transaction, the orchestrator
produces a block or checks timeouts, an orchestrator block reaches a shard, a local
transaction is queued, a shard produces a block, a vote reaches the orchestrator. Any step
may happen at any time, with any block or vote ever produced, so messages may be lost,
repeated, late or out of order. `Reaches` says that a system is the result of such a run.
The central invariant says of every transaction on every shard which phase it is in, as a
function of the blocks the shard has taken in, what is queued, what is in the lock and
pending tables, what was executed and what was voted.

Two flags record what a run respects, because the code relies on it without enforcing it.

- `safe`: local transactions leave every reservation covered. The code checks only the raw
  balance (internal/shard/evm.go:515). `ShardSteps.TransferCoveredIff` says exactly which
  transfers qualify, `Races.ReservedMoneySpentTwice` shows what happens otherwise.
- `framed`: contract calls of local transactions write storage only at their two addresses,
  the limit documented at internal/shard/chain.go:541-549; and every slot a cross-shard
  transaction writes is one it reads, which `RwSets.SimulatedWritesAreRead` proves for every
  read/write set that comes out of a simulation.

Theorems that need a flag name it; the others hold in every run. Transaction ids are fresh,
as they are when the service assigns them (internal/orchestrator/service.go:207).

## What does not hold

- An abort does not always free what the shard holds. Unlock has a higher priority than
  Lock, and CrossAbort is queued only if the shard already holds something for the
  transaction. If the abort is taken in while the Lock is still queued, the Lock is executed
  after the Unlock. `LockRelease.AbortReleasesIff` and `LockRelease.OvertakenAbortIff` give
  the exact condition, `Races.AbortRaceLeaks` a run, and `LockRelease.LeftoversAreForever`
  shows that the locks are then never freed.
- Reserved money can be spent by a local transfer; the commit's debit then fails while its
  credit succeeds (`Races.ReservedMoneySpentTwice`).
- A transfer whose recipient's shard is not involved is debited and never credited
  (`Races.StrayedMoneyIsLost`). `Conservation.ConservedIff`: money is conserved exactly if no
  committed transfer is of that kind. `RwSets.SimulatedTransferArrives` says when a simulation
  rules it out.
- The read set need not determine the simulation: a read made inside a reverted call is
  dropped from it (`ReadSets.RevertForgetsReads`), and balances are never in it
  (`ReadSets.BalanceIsNotRecorded`). `ReadSets.ReadSetSufficesIff` gives the exact condition.
- Locking funds twice for one id breaks the agreement of the lock table and its address
  index, and nothing else does (`LockIndex.AddAgreesIff`).
- The repository's README.md:381-385 says that votes never time out. The code has timeouts
  (internal/orchestrator/chain.go:143-171), and the model follows the code.

## Model

| member | source | states |
|---|---|---|
| `AtomicCommitment.CommittedEverywhere` | internal/orchestrator/chain.go:79-139 | In every run: if any block commits t, every involved shard executed t's Lock and voted YES, holds t's fund lock, slot locks, credit, call and read/write set until it carries out the decision, and afterwards has executed exactly t's operations (all but a failed debit if the run is not safe) and holds nothing of t |
| `AtomicCommitment.NothingWithoutCommit` | internal/shard/server.go:925-1037 | In every run: a debit, credit or storage write that is executed or queued for t anywhere is one of the operations of a committed t on an involved shard; none for an aborted or undecided t |
| `AtomicCommitment.LockStability` | internal/shard/chain.go:293-348 | In every framed run: from a shard's YES vote until t's writes are applied there or its abort is taken in, every slot of t's local read set is locked by t and has the validated value |
| `AtomicCommitment.ReservationsCovered` | internal/shard/chain.go:304-333 | In every safe run no address on any shard has more reserved than it owns |
| `AtomicCommitment.DecisionsAreFinal` | internal/orchestrator/chain.go:194-242 | No continuation of a run changes or withdraws a decision |
| `Network.ReachableInv` | internal/shard/server.go:884-907 | The system invariant (phases of all transactions on all shards, buffers, votes, lifecycle) holds at the end of every run |
| `Network.NextInv` | internal/orchestrator/service.go:443-461 | Each of the seven kinds of step keeps the system invariant |
| `Conservation.ValueConserved` | internal/shard/server.go:932-963 | In every run the balances of all shards plus the value in flight equal the initial balances; in a safe run the value in flight is that of the committed transfers with the debit executed and the credit not, minus that of those with the credit executed and the debit not |
| `Conservation.ExactlyOnce` | internal/shard/server.go:1056-1088 | In every safe run the operations of a committed transaction that a shard has executed or queued are its operations there, each once, in order; none on other shards |
| `Conservation.SettledTotal` | internal/shard/evm.go:465-469 | Once everything is delivered and executed, the total is the initial one minus the transfers whose recipient's shard was not involved |
| `Conservation.ConservedIff` | internal/shard/server.go:1059-1084 | Then nothing is lost if and only if no committed transfer bypasses its recipient's shard |
| `Serializability.SerialEquivalence` | internal/shard/chain.go:736-779 | If commits are the only storage writers, the final storage of every shard is that of applying the committed write sets one at a time, in any order that respects the decision blocks, and at each turn the whole read set holds in the serial state |
| `Serializability.ShardSerialEquivalence` | internal/shard/evm.go:524-533 | The same, storage and read sets, for one shard whenever its queue is empty, for the decisions it has taken in |
| `Serializability.CommittedItems` | internal/shard/server.go:1043-1050 | The same on the transactions' own lists: a slot finally holds the new value of the last write item for its shard among all committed transactions, or its initial value if there is none; and the value of every read item is what the committed transactions before it leave in that slot |
| `Reordering.OrderIrrelevantInEveryRun` | internal/shard/server.go:925-999 | Take a safe and framed run and any legal run of the same steps in which shards walk TpcResult in other orders, also when several blocks are released at once and other steps come before the next shard block: it is safe too, and both end with the same orchestrator, balances, storage, tables, buffers and votes; blocks hold the same transactions, and queues differ only in the order of one block's decisions |
| `Reordering.IterationOrderIrrelevant` | internal/shard/server.go:925-1037 | Taking in the next block in any two orders keeps two such shards alike |
| `Reordering.ProduceAlike` | internal/shard/chain.go:284-383 | Producing a block keeps them alike: same state, tables and votes, the same transactions in the block |
| `OrderIndependence.RearrangedEffect` | internal/shard/chain.go:121-128 | Executing in priority order two queues that differ only in the order of one block's decisions, with any entries between and after them, leaves the same state, tables, votes and executed transactions |
| `OrderIndependence.SameEffect` | internal/shard/chain.go:387-438 | Two lists of commit operations and releases that agree on each transaction's part have the same effect on state and tables |
| `OrderIndependence.WritesOnce` | internal/shard/server.go:966-999 | Executing both CrossWriteSet and Finalize of a transaction leaves the storage, balances and locks that Finalize alone leaves |
| `LockRelease.AbortReleasesIff` | internal/shard/server.go:1000-1036 | After the block that executes the Unlock of an aborted t, t is in none of the tables if and only if a CrossAbort was queued or no Lock of t succeeds in that block |
| `LockRelease.OvertakenAbortIff` | internal/shard/server.go:1003-1026 | If the abort is taken in while the Lock is still queued, the next block leaves nothing of t if and only if the shard was to credit the recipient or kept the call, or the Lock fails |
| `LockRelease.ReleaseOutcome` | internal/shard/chain.go:459-466 | For any sorted list of Unlock, CrossAbort and at most one Lock of t among other entries: exactly when t is in none of the tables afterwards |
| `LockRelease.LeftoversAreForever` | internal/shard/chain.go:871-879 | Once the decision is handled and nothing is queued for t, what a shard holds for t never changes again |
| `Races.AbortRaceLeaks` | internal/protocol/types.go:189-207 | For every vote timeout: a safe run after which an aborted transaction holds a fund lock that no queued entry will free |
| `Races.ReservedMoneySpentTwice` | internal/shard/evm.go:496-521 | For every vote timeout: a run in which reserved money is spent by a local transfer, the debit fails, the credit succeeds, and the system has five units more than at the start |
| `Races.StrayedMoneyIsLost` | internal/shard/server.go:1059-1084 | For every vote timeout: a safe run that commits a transfer to a shard without an entry and delivers and executes everything, after which five units are missing |
| `ShardSteps.TransferCoveredIff` | internal/shard/evm.go:513-519 | A local transfer keeps all reservations covered if and only if it spends unreserved money or pays its sender |
| `ShardSteps.LockCoveredIff` | internal/shard/evm.go:569-573 | The balance check grants a new reservation if and only if every address can still pay all of its reservations afterwards |
| `ShardSteps.StepInv` | internal/shard/chain.go:293-348 | Every step of block production keeps the shard invariant |
| `ShardSteps.StepFrame` | internal/shard/chain.go:387-438 | A step changes no table entry of another transaction |
| `ShardSteps.CommitHead` | internal/shard/server.go:929-999 | A commit operation is executed only for a transaction committed here, as the next one of its list, with funds and slots still held |
| `ShardIntake.ProcessInv` | internal/shard/server.go:911-1113 | Taking in the next orchestrator block keeps the shard invariant, whatever the order of its decisions |
| `ShardBlocks.ProduceBlockInv` | internal/shard/chain.go:284-383 | Producing a block keeps the shard invariant |
| `History.ByPriorityIsStableSort` | internal/shard/chain.go:121-128 | The execution order is a permutation of the queue, ascending in priority, and keeps the queue order within each priority |
| `Outcomes.VoteIff` | internal/shard/chain.go:302-333 | A Lock of a transaction with nothing reserved is voted YES if and only if its sender (in a covered state: every address) can pay all reservations including the new one, and every read item is current with its slot free or its own |
| `Outcomes.BlockVotesIff` | internal/shard/chain.go:284-383 | The produced block votes on every queued Lock, YES if and only if that holds in the state at the Lock's turn |
| `Outcomes.VotesInEveryRun` | internal/shard/chain.go:284-383 | The same for every shard in every run of the system |
| `Outcomes.LocalTurn` | internal/shard/evm.go:496-521 | A local transaction runs if and only if no slot at sender or recipient is locked, its value is not negative, and the call succeeds or, without data, the sender has the value; a transfer then moves the value and nothing else, a call has the effect of the call; otherwise nothing changes |
| `Outcomes.LocalInBlock` | internal/shard/chain.go:293-348 | The produced block lists it right after what was executed before its turn if it runs, and not otherwise |
| `Outcomes.OtherTurn` | internal/shard/evm.go:461-491 | Other entries are executed unless a debit finds too little money or the type is unknown; balances change by exactly the debit or credit |
| `Outcomes.WriteTurn` | internal/shard/evm.go:524-533 | Applying a write set leaves the value of the last item in each slot it writes and all others alone |
| `Outcomes.BlockOrder` | internal/protocol/types.go:189-207 | In every block commit operations precede unlocks, unlocks precede locks, locks precede local transactions and aborts, failed simulations come last |
| `Outcomes.HeightsArePositions` | internal/shard/chain.go:349-383 | In every run the block at position i of a shard's chain has height i |
| `Outcomes.CommitConsistsOf` | internal/shard/server.go:929-999 | The operations of a commit on a shard, each once: a debit at the source if there is value, a credit at the recipient's shard if there is value, a write set away from the source if there is data and a local entry, a Finalize if there is a local entry |
| `Outcomes.CommitClears` | internal/shard/chain.go:387-438 | When the operations of a commit have been executed, the shard holds nothing of it even before the Unlock, except an empty read/write set |
| `Outcomes.CreditClears` | internal/shard/chain.go:496-515 | Executing a credit removes exactly the transaction's pending credits to that address and leaves no empty list |
| `Outcomes.CreditAdds` | internal/shard/chain.go:215-222 | A stored credit is appended to the transaction's pending credits and no other entry changes |
| `Outcomes.CreditPerEntry` | internal/shard/server.go:949-963 | A commit queues one credit for each pending credit, in order |
| `Outcomes.AbortQueuedIffHeld` | internal/shard/server.go:1000-1036 | In every reachable state an abort of an undecided transaction queues a CrossAbort if and only if any table, slot locks included, holds something of it; it always queues an Unlock |
| `Outcomes.ProcessOnce` | internal/shard/server.go:911-924 | Handling the same orchestrator block again changes nothing |
| `RwItems.LocalRwSetCount` | internal/shard/server.go:1043-1050 | A shard's share of a read/write set holds every variable of that shard as often as the whole set, and no other |
| `RwItems.LocalRwSetConcat` | internal/shard/server.go:1043-1050 | The share keeps the order of the list |
| `RwItems.ReadsAreItems` | internal/shard/chain.go:736-779 | The entries that are validated are exactly the read items of the variables of the shard |
| `RwItems.LastItemWins` | internal/shard/evm.go:524-533 | Of several items for a slot, the last one of the last variable is the one whose value stays |
| `Protocol.ShardOfLastByte` | internal/shard/server.go:1059-1059 | An address with last byte b lives on shard b mod 8 |
| `Protocol.InvolvedShardsAreTheVoters` | internal/protocol/types.go:352-360 | The expected voters are listed once each, and are exactly the shards that queue a Lock |
| `Protocol.TargetShards` | internal/protocol/types.go:339-349 | The shards of the read/write set, in order of first occurrence |
| `Protocol.InvolvedShards` | internal/protocol/types.go:352-360 | The expected voters, distinct, exactly the involved shards |
| `OrchestratorSpec.Lifecycle` | internal/orchestrator/chain.go:194-242 | After any sequence of calls every id that was added is in exactly one of pending, awaiting, pending result, one block's TpcResult, and still stands for the transaction added; an id never added is in none; and no id is decided twice |
| `OrchestratorSpec.Deadline` | internal/orchestrator/chain.go:143-171 | A transaction ordered in block h is decided in a block of height h + 1 to h + timeout + 1, once the chain is that long |
| `OrchestratorSpec.NoEarlyAbort` | internal/orchestrator/chain.go:143-171 | In every run with fresh ids: if block d aborts a transaction ordered in block h and no NO vote on it came before block d, then d is exactly h + timeout + 1 |
| `OrchestratorSpec.FirstComeFirstServed` | internal/orchestrator/chain.go:194-242 | In every run the blocks order the added transactions in the order they were added, each once; the rest is pending in that order |
| `OrchestratorSpec.VotesCountInEveryRun` | internal/orchestrator/chain.go:79-139 | For the votes on t among any other calls that do not let t expire: commit once all expected voters have voted without an earlier NO, abort on an earlier NO, open otherwise; only first votes count |
| `OrchestratorSpec.AcceptedIffCounted` | internal/orchestrator/chain.go:79-139 | The answer is true if and only if the vote changes the orchestrator's state |
| `OrchestratorSpec.NewlyOrdered` | internal/orchestrator/chain.go:220-234 | A transaction just put into a block awaits the votes of its involved shards and has none |
| `OrchestratorSpec.DecisionIsConjunction` | internal/orchestrator/chain.go:93-134 | Without uninvolved voters the decision is the conjunction of the first votes, taken at the first NO or when all are in |
| `OrchestratorSpec.LengthCheckIsRedundant` | internal/orchestrator/chain.go:115-124 | The length comparison never blocks a commit |
| `OrchestratorChain.Chain.AddTransaction` | internal/orchestrator/chain.go:69-75 | The object computes OrchestratorSpec.AddTransaction |
| `OrchestratorChain.Chain.RecordVote` | internal/orchestrator/chain.go:79-139 | The object computes OrchestratorSpec.RecordVote, and answers true exactly for a first vote on an awaited transaction |
| `OrchestratorChain.Chain.AllHaveVoted` | internal/orchestrator/chain.go:115-124 | The loop decides whether all expected shards are among the votes |
| `OrchestratorChain.Chain.FindTimedOut` | internal/orchestrator/chain.go:143-158 | Walking the map in any order finds exactly the overdue transactions |
| `OrchestratorChain.Chain.CheckTimeouts` | internal/orchestrator/chain.go:143-171 | Exactly the overdue transactions are aborted and forgotten; all others are unchanged |
| `OrchestratorChain.Chain.ProduceBlock` | internal/orchestrator/chain.go:194-242 | The object computes OrchestratorSpec.ProduceOrchBlock |
| `BlockBuffer.ReleasedInOrder` | internal/shard/block_buffer.go:39-90 | For any arrivals at a fresh buffer, the blocks released are received blocks of heights start, start + 1, ..., expected - 1, each once, and never more than maxBuffer are held |
| `BlockBuffer.Completeness` | internal/shard/block_buffer.go:39-90 | If every height of a range that fits the capacity arrives, in any order, all are released |
| `BlockBuffer.CapacityIsExact` | internal/shard/block_buffer.go:63-84 | Every order of arrival releases the whole range if and only if last - start <= maxBuffer |
| `BlockBuffer.ReorderBuffer.ProcessBlock` | internal/shard/block_buffer.go:39-90 | The object with its drain loop computes Receive |
| `Simulation.SimulationRefinesPlainMap` | internal/orchestrator/statedb.go:344-416 | Any sequence of reads, writes, balance changes, snapshots and reverts gets the answers of a plain total map with a stack of saved copies |
| `Simulation.StepInv` | internal/orchestrator/statedb.go:521-586 | Every operation, reverts included, keeps the relation of cache, writes, old values and snapshots to the fetched state |
| `Simulation.RecordedSlots` | internal/orchestrator/statedb.go:344-416 | Cache and overlay hold exactly the slots read and the slots written, apart from what a revert has undone, in every layer |
| `ReadSets.SimulationDependsOnReadSet` | internal/orchestrator/statedb.go:344-416 | A deterministic client without reverts, re-run against a state that agrees on the read set and on the balances the client asked for (none for a client of GetState and SetState), makes the same calls, gets the same answers and leaves the same read set, write set and old values |
| `ReadSets.ReadSetSufficesIff` | internal/orchestrator/statedb.go:521-534 | For any client: agreement on the read set guarantees the same answers if and only if every slot looked at is still in the read set and no balance was looked at |
| `ReadSets.BalanceIsNotRecorded` | internal/orchestrator/statedb.go:237-240 | A client that asks for one balance gets different answers in two states with the same storage |
| `ReadSets.RevertForgetsReads` | internal/orchestrator/statedb.go:536-586 | A client that reads inside a reverted call sees different answers in two states that agree on its read set |
| `ReadSets.TrackersAgree` | internal/shard/tracking_statedb.go:160-210 | Over storage reads and writes the shard's tracker and the simulation give the same answers, read sets, write sets and old values, and the write set laid over the initial storage is the final storage |
| `RwSets.RwSetShape` | internal/orchestrator/statedb.go:611-679 | After any simulation there is one entry for each address with a slot read or written, not undone by a revert, or with a final balance other than the shard's, and no other; it names the shard of its address and lists exactly the slots read and the slots written there, none twice; reads and old values are the shard's, new values those of the plain map; every slot that ends up different is among the written ones |
| `RwSets.SimulatedWritesAreRead` | internal/orchestrator/statedb.go:396-416 | On every shard a simulated transaction reads what it writes |
| `RwSets.SimulatedTransferArrives` | internal/orchestrator/statedb.go:611-639 | If the simulation changes the recipient's balance, the recipient's shard is involved |
| `StateDB.SimulationStateDB.GetState` | internal/orchestrator/statedb.go:344-378 | The object computes Read: writes first, then the cache, then a fetch that is cached |
| `StateDB.SimulationStateDB.SetState` | internal/orchestrator/statedb.go:396-416 | The object computes Write: read first, remember the first old value, overlay the new value |
| `StateDB.SimulationStateDB.Snapshot` | internal/orchestrator/statedb.go:536-586 | A copy of accounts, reads and writes is pushed and its id returned |
| `StateDB.SimulationStateDB.RevertToSnapshot` | internal/orchestrator/statedb.go:521-534 | The copy is restored and later snapshots dropped; old values stay; an unknown id changes nothing |
| `StateDB.SimulationStateDB.BuildRwSet` | internal/orchestrator/statedb.go:611-679 | One entry per address read, written or with a changed balance, with exactly its reads and its writes and their old values |
| `StateDB.TrackingStateDB.GetState` | internal/shard/tracking_statedb.go:160-174 | The first read of a slot is recorded with the value found |
| `StateDB.TrackingStateDB.GetStateAndCommittedState` | internal/shard/tracking_statedb.go:176-190 | Current and committed value, the first read recorded |
| `StateDB.TrackingStateDB.SetState` | internal/shard/tracking_statedb.go:192-210 | The old value is recorded as a read, the new one as a write |
| `StateDB.TrackingStateDB.BuildRwSet` | internal/shard/tracking_statedb.go:354-408 | One entry per address read or written, with exactly its reads and writes |
| `LockIndex.AddAgreesIff` | internal/shard/chain.go:138-150 | Adding a lock keeps table and address index in agreement if and only if the id holds no lock |
| `LockIndex.IndexSum` | internal/shard/chain.go:175-181 | The sum over an address's index entries is the sum over the table's locks on it |
| `LockIndex.SwapOutLists` | internal/shard/chain.go:193-207 | Removing by swapping in the last entry lists exactly the remaining locks |
| `LockIndex.WithoutLists` | internal/shard/chain.go:475-482 | Removing in place lists exactly the remaining locks |
| `LockIndex.FundLocks.LockFunds` | internal/shard/chain.go:138-150 | The reservation is stored; the index stays right exactly if the id was new |
| `LockIndex.FundLocks.GetLockedAmountForAddr` | internal/shard/chain.go:175-181 | The loop over the index returns the amount reserved on the address |
| `LockIndex.FundLocks.ClearLock` | internal/shard/chain.go:184-211 | Exactly t's reservation goes, index kept in agreement |
| `LockIndex.FundLocks.ClearLockLocked` | internal/shard/chain.go:469-488 | The same by the order-preserving removal |
| `SlotLocks.SlotTable.LockSlot` | internal/shard/chain.go:623-640 | A slot held by another transaction is refused with its holder and nothing changes; otherwise t holds it |
| `SlotLocks.SlotTable.UnlockSlot` | internal/shard/chain.go:650-663 | Exactly that slot is freed, and only if t holds it; no empty inner map remains |
| `SlotLocks.SlotTable.UnlockAllSlotsForTx` | internal/shard/chain.go:674-701 | Exactly t's slots are freed, and no empty inner map remains |
| `SlotLocks.SlotTable.ValidateAndLockReadSet` | internal/shard/chain.go:736-779 | Success exactly if every read value is current and every slot free or t's own, and then exactly the read slots are added; the error is that of the first failing item, and then what was locked is rolled back |
| `SlotLocks.FailureChangesNothing` | internal/shard/chain.go:750-754 | For a transaction without slots the rollback restores the table exactly |
| `ShardChain.EVMState.Debit` | internal/shard/evm.go:577-587 | Fails exactly if the balance is too small, changing nothing |
| `ShardChain.EVMState.ApplyWriteSet` | internal/shard/evm.go:524-533 | The nested loops store the write entries in order |
| `ShardChain.EVMState.Execute` | internal/shard/evm.go:461-491 | Succeeds exactly if ExecuteTx does, and then leaves its state |
| `ShardChain.Chain.ClearPendingCreditForAddress` | internal/shard/chain.go:496-515 | Exactly t's credits to that address go; an empty list is removed |
| `ShardChain.Chain.CleanupAfterExecution` | internal/shard/chain.go:387-438 | The tables become those of ShardSpec.CleanupAfterExecution |
| `ShardChain.Chain.CleanupAfterFailure` | internal/shard/chain.go:444-455 | A failed Lock leaves nothing of t but a NO vote; another failure changes nothing |
| `ShardChain.Chain.CheckLocalTxLockConflict` | internal/shard/chain.go:550-573 | True exactly for a local transaction with a slot locked at sender or recipient |
| `ShardChain.Chain.ExecuteLock` | internal/shard/chain.go:302-333 | The Lock succeeds exactly if funds are available and the read set passes; the tables are those of StepLock, also after a rollback |
| `ShardChain.Chain.ProduceBlock` | internal/shard/chain.go:284-383 | The objects compute ShardSpec.ProduceBlock: state, tables, block, votes and empty queue |
| `ShardChain.Chain.CheckAndMarkCommitProcessed` | internal/shard/chain.go:871-879 | True exactly the first time for an id |
| `ShardServer.Server.HandleDecision` | internal/shard/server.go:925-1036 | A new decision queues exactly its entries; a repeated one queues nothing |
| `ShardServer.Server.HandleNewTx` | internal/shard/server.go:1043-1108 | An involved shard stores credit and call and queues one Lock; another shard does nothing |
| `ShardServer.Server.ProcessOrchestratorBlock` | internal/shard/server.go:911-1113 | The objects compute ShardSpec.Process for some order of the decisions; an old block changes nothing |
| `ShardServer.Server.HandleOrchestratorShardBlock` | internal/shard/server.go:884-907 | Receiving a block is exactly the BlockArrives step of Network |
| `ShardServer.ProducerMayRun` | internal/shard/chain.go:138-150 | In every reachable state no queued Lock finds its id already locked, which the block producer needs for its index |

## Left out

- ShardServer.Server.ProcessOrchestratorBlock: treated as one atomic step, though the source takes the chain's mutex once per call inside it; a shard block produced in the middle of an intake is not modelled.
- ShardServer.Server.HandleOrchestratorShardBlock: release from the buffer and the intake of all released blocks are one atomic step, though the source takes a mutex per call and other steps may come in between.
- Contract execution: the outcome of a local contract call is a parameter (`Call`); gas, nonces, code and logs are not modelled.
- Amounts and heights are unbounded integers on the shards; wrap-around at 2^256 is modelled for balances inside a simulation only, and a local transfer with a negative value fails.
- Block hashes, timestamps, state roots, `PrepareTxs` and the per-entry UUID of queue entries.
- Failure of `evmState.Commit` during block production.
- HTTP handlers, retries, timers and crash recovery; endpoints that change state outside block production.
- `SetExpected` of the reorder buffer and changes of the vote timeout during a run.
- The simulation's access list, transient storage, refunds, code and self-destruct; a failed fetch, which the source turns into zero.
- Transaction ids that are used twice.
