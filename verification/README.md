# Verification of a replicated log, its write-once registers and its applications

This project models the protocols of a replicated log service and proves what they promise, in Dafny.
Each module follows one component:

| module | component |
|---|---|
| `Ballots`, `Acceptor`, `Proposer` | one Paxos acceptor, the proposer's loops over replies, the register's lock counter |
| `Paxos`, `PaxosSafety`, `PaxosValidity`, `PaxosAdoption`, `PaxosReads` | the write-once register as a message-passing state machine, its safety, where its values come from, and how large the threshold must be |
| `MetadataStore`, `MetadataReplication`, `MetadataRefinement` | the compare-and-append chain of configs with its index by log id, its replication through registers, and how far that behaves as one store |
| `CompletionQueue`, `NanoLogs` | in-order completion of appends, and one version's log at one replica |
| `LogProtocol`, `LogSafety`, `LogNodes` | the log with sealing and reconfiguration as a state machine, its safety, and the objects that take its steps |
| `LogRuns`, `LogLateAcks`, `LogReads` | runs of the log for every number of replicas that show exactly how far durability and agreement of reads go |
| `QuorumWait` | waiting for the first n successes |
| `OrderedApply`, `Counter`, `ReplicatedApply` | applying the log in order on one node, down to the counters, and many nodes on one run of the log |
| `KeySerializer`, `CycleDetection` | the escaped key codec; wait-for cycle detection |
| `Quorums`, `Decimals`, `Options` | counting arguments about quorums; numbers as text; shared types |

Code that changes fields or runs loops is modelled by classes and methods with loops; each is proved equal to a
function on values. The protocols (`Paxos`, `MetadataReplication`, `LogProtocol`, `OrderedApply`) are state machines
built from those same functions, and their theorems are about every run: `IsRun` is an initial state followed by any
enabled steps. Messages, once sent, may arrive late, repeatedly or never; any number of register objects, acceptors,
replicas, reconfigurers and nodes take part.

Assumptions of the models:

- Paxos: a register object uses each granted lock for at most one write, and its calls do not overlap, as the callers
  do it (`statemachine/MetadataStoreStateMachine.h:51-57`). Each register object has its own proposer
  (`wor/WORFactory.cc:29-33`). Ballots are not unique: all register objects count their locks from 1.
- Log: a nano log's append is one atomic step; each version is served by the one sequencer that its installer starts,
  and no answers for an earlier version are counted after that; the replica set is fixed
  (`log/impl/VirtualLogImpl.cc:260`). The chain is bootstrapped with version 1. All replicas and reconfigurers share one
  metadata store whose reads and appends are atomic, and an append that reports success appended the caller's own
  config. The server's replicated store (`log/server/LogServer.h:43`, `log/impl/PersistentMetadataStore.h:54-86`) meets
  this for reads (`MetadataRefinement.SyncIsCurrent`, `MetadataRefinement.StoreStep`), and for an append exactly when
  its register decided the caller's config or both configs are refused (`MetadataRefinement.AppendIsOwnIff`).
- Ordered apply: applying one batch and answering its callers is one step of the single apply thread. A node's fetches
  return whatever they return; where nodes are compared, every fetch is a read of one common run of the log that looks
  its id up after that id or a later one was acknowledged.
- Integers are unbounded except where a width matters (the key codec's 32-bit ids, the 64-bit limits of the sealing
  loop and of the open end index).

Results where the code does less than one might expect, kept as the code has them:

- Committed reads of a register agree in every run exactly when the threshold is all acceptors
  (`PaxosReads.ReadsAgreeIffAll`). A smaller majority is enough for agreement on the chosen value, but a commit carries
  no value and can reach an acceptor before the accept does. The factory passes the number of acceptors.
- `append` also counts acknowledgements given after a seal. An answered append can be lost to a later version exactly
  when the replicas that acknowledged it unsealed can miss a majority and there is more than one replica
  (`LogLateAcks.LostIff`); otherwise it is durable (`LogSafety.Durability`).
- A read returns what a replica stores, acknowledged or not, and a reconfiguration can give the id to the next version.
  Reads of an id made after that id or a later one was acknowledged agree exactly when the unsealed acknowledging
  replicas, all of them counted, cannot miss a majority (`LogReads.ReadsDifferIff`). The target of `sync` is the
  sequencer's counter, which no acknowledgement bounds, so nodes agree on what they applied as far as acknowledgements
  reach (`ReplicatedApply.ReplicasAgree`).
- The index by log id finds the owner of an id only while the stored end indexes stay open
  (`MetadataStore.IndexIsExact`, `MetadataStore.ClosedRangesMislead`); a reconfiguration always writes them open, so
  from an open bootstrap the lookup is a scan of the chain in every run (`LogSafety.LookupIsScan`).
- The consecutive-id assertion of the apply loop can fail in some run exactly when the readable ids hold an applicable
  batch that follows neither the start nor another applicable one (`OrderedApply.MayAbortIff`): from the default start
  behind an unknown command (`OrderedApply.DefaultStartMayAbortIff`), from any other with a known batch at id 1
  (`OrderedApply.OtherStartsMayAbort`).
- A metadata append can report success although its register decided another node's config
  (`MetadataRefinement.AdoptedValueIsReported`).
- A key is recovered only when its values are nonempty and do not begin with the separator
  (`KeySerializer.RoundTrip`).
- Waiting for zero successes depends on the order of the outcomes (`QuorumWait.WaitForNone`).

## Model

| member | source | states |
|---|---|---|
| Ballots.TotalOrder | wor/paxos/Common.cc:9-27 | the two hand-written comparisons are the strict and the weak half of one total order |
| Acceptor.FreshGrantsAll | wor/paxos/LocalAcceptor.cc:130-134 | a fresh instance refuses no ballot of a register |
| Acceptor.Prepare | wor/paxos/LocalAcceptor.cc:19-44 | a prepare is granted exactly when its ballot is strictly above the promise, carries the accepted proposal if there is one, and leaves the accepted value and the commit flag alone |
| Acceptor.Accept | wor/paxos/LocalAcceptor.cc:46-71 | an accept is taken exactly when its ballot is not below the promise; a taken one becomes promise and accepted proposal, a refused one changes nothing; promises never fall |
| Acceptor.Commit | wor/paxos/LocalAcceptor.cc:73-94 | a commit is granted at any ballot, changes nothing but the flag, and answers true exactly the first time |
| Acceptor.CommittedValue | wor/paxos/LocalAcceptor.cc:104-114 | an answer exactly when committed: the accepted value, or the empty string when nothing was accepted |
| Acceptor.LocalAcceptor.GetOrCreate | wor/paxos/LocalAcceptor.cc:116-144 | an instance is read back as stored or created fresh, other instances untouched |
| Acceptor.LocalAcceptor.PrepareCall | wor/paxos/LocalAcceptor.cc:19-44 | for every stored instance the call is granted exactly when the ballot is above its promise, reports its accepted proposal if it has one, and leaves every other instance alone |
| Acceptor.LocalAcceptor.AcceptCall | wor/paxos/LocalAcceptor.cc:46-71 | for every stored instance the call is taken exactly when the ballot is not below its promise, and then holds the proposal |
| Acceptor.LocalAcceptor.CommitCall | wor/paxos/LocalAcceptor.cc:73-94 | the commit flag is raised without looking at any ballot; true only for the first commit |
| Acceptor.LocalAcceptor.GetCommittedValue | wor/paxos/LocalAcceptor.cc:104-114 | answers the accepted value once committed, the empty string when nothing was accepted |
| Proposer.Tally | wor/paxos/ProposerImpl.h:44-65 | the loop collects exactly the promising acceptors, in order, and exactly the values they reported |
| Proposer.SelectHighest | wor/paxos/ProposerImpl.h:71-78 | the selected proposal is one of the reported ones with a highest ballot, none only when none was reported |
| Proposer.ProposerState.CollectPromises | wor/paxos/ProposerImpl.h:29-83 | true exactly when a threshold promised; the accept targets are replaced either way, the selected proposal only on success |
| Proposer.ProposerState.EnoughAccepts | wor/paxos/ProposerImpl.h:94-104 | true exactly when a threshold of the promising acceptors accepted |
| Proposer.FirstCommitted | wor/paxos/ProposerImpl.h:115-126 | a read returns the first committed answer in acceptor order and nothing only if there is none |
| Proposer.RegisterState.NextBallot | wor/paxos/PaxosWriteOnceRegister.h:21-25 | each lock uses the next minor id under the register's own major id |
| PaxosSafety.StepInv | wor/paxos/ProposerImpl.h:29-126 | every step of the protocol keeps the invariant on promises, grants, writes, votes and commits |
| PaxosSafety.RunInv | wor/paxos/ProposerImpl.h:29-126 | the invariant holds in every state of every run with any majority threshold |
| PaxosSafety.OneGrantee | wor/paxos/LocalAcceptor.cc:24-28 | two grants of one ballot belong to one register object, because a promise strictly rises |
| PaxosSafety.OneValuePerBallot | wor/paxos/LocalAcceptor.cc:24-28 | all values accepted at one ballot are equal although ballots are shared by register objects |
| PaxosSafety.GrantSeesChosen | wor/paxos/ProposerImpl.h:47-80 | a grant above a chosen ballot selects a proposal at that ballot or above |
| PaxosSafety.VotesFollow | wor/paxos/ProposerImpl.h:85-104 | every accept at or above a chosen ballot carries the chosen value |
| PaxosSafety.Agreement | wor/paxos/ProposerImpl.h:29-113 | in every run, values accepted by a threshold at any ballots, seen at any two moments, are equal |
| PaxosSafety.BallotExclusivity | wor/paxos/LocalAcceptor.cc:24-28 | over a whole run a ballot is granted at most once, to one register object with one selection |
| PaxosSafety.CommittedIsChosen | wor/paxos/ProposerImpl.h:94-113 | with the threshold at all acceptors, what a committed acceptor answers is a chosen value |
| PaxosSafety.WriteOnceReads | wor/paxos/LocalAcceptor.cc:46-114 | with the threshold at all acceptors, any two committed reads at any acceptors and times return one value |
| PaxosSafety.StaleWriteIsHarmless | wor/paxos/ProposerImpl.h:30-113 | once a later lock was tried, a write with an earlier lock changes no acceptor, is acknowledged by none and sends no commit |
| PaxosValidity.WriteSends | wor/paxos/ProposerImpl.h:85-104 | a write sends the adopted value if its register selected one, and exactly the caller's payload if not, to exactly the acceptors that promised |
| PaxosValidity.LockOutcome | wor/paxos/ProposerImpl.h:44-82 | a prepare replaces the targets by the acceptors that promised either way, and grants the lock and the selection only with a threshold |
| PaxosValidity.VotesAreWritten | wor/paxos/ProposerImpl.h:85-104 | in every run each accepted value is a payload that a caller wrote earlier through a register with nothing to adopt |
| PaxosValidity.ChosenIsWritten | wor/paxos/ProposerImpl.h:85-113 | so is each chosen value |
| PaxosValidity.ReadsAreWritten | wor/paxos/ProposerImpl.h:115-126 | with the threshold at all acceptors, so is what each committed read returns |
| PaxosAdoption.AdoptionHappens | wor/paxos/ProposerImpl.h:71-89 | for every number of acceptors and threshold a run where a later lock selects a value accepted earlier and a write of another value makes an acceptor take it again |
| PaxosReads.ReadsMayDiffer | wor/paxos/ProposerImpl.h:106-110 | for every threshold below the number of acceptors, a run with two committed reads that differ |
| PaxosReads.ReadsAgreeIffAll | wor/WORFactory.cc:29-30 | among majority thresholds, some run has differing committed reads if and only if the threshold leaves an acceptor out |
| MetadataStore.InMemoryMetadataStore.GetConfigOf | log/impl/InMemoryMetadataStore.cc:42-57 | a config by version; version 0 always answers the default |
| MetadataStore.InMemoryMetadataStore.GetConfigUsingLogId | log/impl/InMemoryMetadataStore.cc:12-40 | the walk down the index finds the config with the greatest key whose range contains the id, or none when none does |
| MetadataStore.InMemoryMetadataStore.GetCurrentVersionId | log/impl/InMemoryMetadataStore.cc:59-67 | the greatest version, 0 when empty |
| MetadataStore.InMemoryMetadataStore.CompareAndAppendRange | log/impl/InMemoryMetadataStore.cc:76-103 | a config that extends the last version is installed, closes its predecessor and is indexed; any other leaves the store unchanged |
| MetadataStore.AcceptedIff | log/impl/InMemoryMetadataStore.cc:76-103 | a config is accepted exactly when it extends the last version, or names no predecessor of an empty chain |
| MetadataStore.AppendKeepsChain | log/impl/InMemoryMetadataStore.cc:76-103 | appending keeps versions consecutive, ends equal to next starts, and the index made of the latest config per start |
| MetadataStore.AppendKeepsOrder | log/impl/InMemoryMetadataStore.cc:91-99 | appending a start not below the last keeps starts non-decreasing |
| MetadataStore.OwnerIsStable | log/impl/InMemoryMetadataStore.cc:91-99 | one append does not change which version owns an id below the new start |
| MetadataStore.OwnerIsUnique | log/impl/InMemoryMetadataStore.cc:91-99 | at most one version owns an id, also among empty versions that share a start |
| MetadataStore.IndexIsExact | log/impl/InMemoryMetadataStore.cc:12-40 | the lookup returns the owner of an id if and only if the id is below the end that the owner was indexed with |
| MetadataStore.IndexAgreesWithChain | log/impl/InMemoryMetadataStore.cc:12-40 | on the open-ended configs that a reconfiguration writes, the lookup agrees with a scan of the chain |
| MetadataStore.ClosedRangesMislead | log/impl/InMemoryMetadataStore.cc:96-98 | a store reached by two appends, one with a closed range, where the lookup returns the wrong version |
| MetadataReplication.MetadataNode.Sync | statemachine/MetadataStoreStateMachine.h:103-136 | sync applies consecutive registers as written and stops exactly at the first one unwritten or unparsable, and the node then works with the highest version in its store |
| MetadataReplication.MetadataNode.AppendConfig | statemachine/MetadataStoreStateMachine.h:35-95 | append applies every value read on the way in order, ends at the first register read after a write was answered with true or holding its own payload, answers whether that last value extended the chain, and if so works with it |
| MetadataReplication.MetadataNode.ApplyValue | statemachine/MetadataStoreStateMachine.h:131-133 | one value is appended or refused, the config asked for again is the highest version's, an accepted one is that config |
| MetadataReplication.AcceptedIsNewest | log/impl/PersistentMetadataStore.h:17-33 | a config that was accepted is the one worked with from then on |
| MetadataReplication.NodesHoldNewest | log/impl/PersistentMetadataStore.h:17-33 | in every run every node works with the highest version in its store |
| MetadataReplication.AppliedByNode | statemachine/MetadataStoreStateMachine.h:124-133 | in every run applying a register's value appends it to the node's store and makes it its config, or leaves the store alone |
| MetadataReplication.MembersAgree | statemachine/MetadataStoreStateMachine.h:43-49 | a node's next register, when someone opened it, has the acceptors of that node's config |
| MetadataReplication.StepInv | statemachine/MetadataStoreStateMachine.h:35-136 | every step of nodes and registers keeps the invariant tying histories to committed reads |
| MetadataRefinement.RegistersAreApart | wor/WORFactory.cc:17-33 | in every run different registers have different ballots and are filed under different keys |
| MetadataRefinement.StoreStep | log/impl/PersistentMetadataStore.h:44-94 | from one moment of a run to the next the most advanced store stays or one accepted compare-and-append is added |
| MetadataRefinement.SyncCatchesUp | statemachine/MetadataStoreStateMachine.h:103-136 | a node whose sync found no committed acceptor for its next register has every value that any node had applied when the sync began |
| MetadataRefinement.SyncIsCurrent | log/impl/PersistentMetadataStore.h:53-67 | the store read after a sync is the most advanced store as it was at some moment between the sync's beginning and end |
| MetadataRefinement.AppendIsOwnIff | log/impl/PersistentMetadataStore.h:69-82 | an append answers and acts like compare-and-append of the caller's config if and only if that config was decided or both are refused |
| MetadataRefinement.AdoptedValueIsReported | statemachine/MetadataStoreStateMachine.h:53-91 | a concrete append that reports its config as accepted while another one was installed |
| MetadataReplication.MetadataAgreement | statemachine/MetadataStoreStateMachine.h:35-136 | in every run histories are prefixes of one chain, equal lengths mean equal stores and configs, and no register is used with two sets of acceptors |
| CompletionQueue.OrderedCompletionQueue.CompleteAllBelow | log/utils/OrderedCompletionQueue.h:21-42 | completes what is below the bound and then the run above it, and raises the index |
| CompletionQueue.OrderedCompletionQueue.Add | log/utils/OrderedCompletionQueue.h:58-65 | inserts one promise and completes the run at the index unless asked to defer |
| CompletionQueue.OrderedCompletionQueue.GetRangeEligibleForCompletion | log/utils/OrderedCompletionQueue.h:67-78 | the range that a completion would cover, changing nothing |
| CompletionQueue.OrderedCompletionQueue.CheckAndCompleteAfterCurrentIndex | log/utils/OrderedCompletionQueue.h:83-101 | completes exactly the consecutive run at the index; a smaller leftover key blocks it |
| CompletionQueue.InsertEntries | log/utils/OrderedCompletionQueue.h:60-61 | an added promise is filed with its own result, replacing one with its id, and all others stay |
| CompletionQueue.LeftoverBlocks | log/utils/OrderedCompletionQueue.h:83-101 | an entry below the index blocks completion and the eligible range |
| CompletionQueue.QueueSpec | log/utils/OrderedCompletionQueue.h:21-101 | after any in-order use the index is the least id at or above the largest bound never added, and the pending ids are the added ones at or above it |
| CompletionQueue.OrderDoesNotMatter | log/utils/OrderedCompletionQueue.h:21-101 | two uses with the same adds and bounds in any order end in the same queue |
| CompletionQueue.DeferredIsAdd | log/impl/RocksNanoLog.cc:72-79 | deferred add, range query and completion below the range end in the queue of a plain add |
| NanoLogs.Append | log/impl/InMemoryNanoLog.cc:34-65 | exactly when an append is refused as sealed, refused as occupied, taken as present, or enqueued; a refused one changes nothing |
| NanoLogs.AppendHonoursCommit | log/impl/InMemoryNanoLog.cc:58-61 | an append that is stored with a commit index leaves the index at or above it and nothing waiting below it |
| NanoLogs.AppendIndex | log/impl/InMemoryNanoLog.cc:58-61 | a stored append leaves the index at the least id, from the old index or the commit index on, that is not waiting |
| NanoLogs.AppendCovers | log/impl/InMemoryNanoLog.cc:34-65 | an append only adds its own entry, the index passes an id only if it is stored or below the sender's commit index, and a completed id is stored and below the index |
| NanoLogs.InMemoryNanoLog.AppendEntry | log/impl/InMemoryNanoLog.cc:34-65 | refused when sealed unless copying; an occupied slot is an error for an append and a success for a copy; otherwise stored and queued |
| NanoLogs.InMemoryNanoLog.GetLogEntry | log/impl/InMemoryNanoLog.cc:67-75 | the stored entry or not found |
| NanoLogs.InMemoryNanoLog.Seal | log/impl/InMemoryNanoLog.cc:77-81 | seals and answers the current index |
| NanoLogs.CompleteDeferred | log/impl/RocksNanoLog.cc:72-79 | the persistent log's path without a commit index ends in the queue of a plain add and persists its index as the end |
| LogSafety.StepInv | log/impl/VirtualLogImpl.cc:94-225 | every step of appends, seals, copies, installs and starts keeps the invariant of the log |
| LogSafety.RunInv | log/impl/VirtualLogImpl.cc:94-225 | the invariant holds in every state of every run |
| LogSafety.CommitIndexInvariant | log/impl/SequencerImpl.cc:56-88 | each id from a version's start to a replica's index is stored there or on a majority, and all ids below a commit index sent are on a majority |
| LogSafety.LogAgreement | log/impl/VirtualLogImpl.cc:149-165 | whenever two replicas are looked at, in the same state or at two moments, they hold one payload at one version and id |
| LogSafety.NoGaps | log/impl/VirtualLogImpl.cc:110-183 | of a closed version every id from its start to the next start is stored on a majority |
| LogSafety.ChainShape | log/impl/InMemoryMetadataStore.cc:76-103 | in every run versions are consecutive, ends equal next starts, starts never decrease and all indexed ends but the bootstrap's are open |
| LogSafety.InstallWrites | log/impl/VirtualLogImpl.cc:194-214 | an accepted reconfiguration writes the next version, from the copied end, open ended, with its target's sequencer and replicas, and closes the one before |
| LogSafety.InstallAcceptedIff | log/impl/VirtualLogImpl.cc:210-224 | it is accepted exactly when no later version is there, and a refused one leaves the chain alone |
| LogSafety.NoIdSkipped | log/impl/SequencerImpl.cc:44-100 | in every run the ids assigned in a version are exactly those from its start up to its sequencer's counter |
| LogSafety.OwnerNeverChanges | log/impl/InMemoryMetadataStore.cc:91-99 | over a whole run the owner of an id below the last start never changes |
| LogSafety.LookupIsScan | log/impl/InMemoryMetadataStore.cc:12-40 | from a bootstrap config with an open end, in every state of every run the lookup by id is a scan of the chain |
| LogSafety.SealedFromStart | log/impl/ReplicaImpl.cc:88-116 | no seal ever reports less than its version's start |
| LogSafety.CopyingNeverStuck | log/impl/VirtualLogImpl.cc:120-155 | at every round of re-replication some sealed member holds the entry that is fetched |
| LogSafety.Durability | log/impl/SequencerImpl.cc:43-90 | once append was answered and the replicas that acknowledged it unsealed meet every majority, its id lies below every later version's start and the quorum keeps storing its payload |
| LogSafety.ReadsAgree | log/impl/VirtualLogImpl.cc:45-92 | of an id at or below an acknowledged one, any two reads that look it up after the acknowledgement return one payload |
| LogSafety.SafeReadsAgree | log/impl/VirtualLogImpl.cc:45-92 | the same for reads that each have an acknowledgement of their own |
| LogSafety.DurableReads | log/impl/VirtualLogImpl.cc:45-92 | any later read of an acknowledged id that returns an entry returns its payload, whatever reconfigurations happened |
| LogLateAcks.LosingRun | log/impl/VirtualLogImpl.cc:157-183 | for every number of replicas above one and every number of unsealed acknowledgements that can miss a majority, a run with exactly that many that loses the answered append |
| LogLateAcks.LostIff | log/impl/SequencerImpl.cc:56-88 | an append answered with exactly m unsealed acknowledgements can be lost to a later version if and only if m of n replicas can miss a majority and n is above one |
| LogReads.DifferingRun | log/impl/VirtualLogImpl.cc:45-92 | for every such number of replicas and acknowledgements, a run with exactly that many acknowledgements and two different reads of one id |
| LogReads.SafeReadHappens | log/impl/VirtualLogImpl.cc:45-92 | for every number of replicas a run with a read after an acknowledgement, so that the agreement of such reads is about something |
| LogReads.ReadsDifferIff | log/impl/VirtualLogImpl.cc:45-92 | reads of an id after exactly m unsealed acknowledgements of it or a later id can differ in some run if and only if m of n replicas can miss a majority |
| LogNodes.SequencerImpl.AppendEntry | log/impl/SequencerImpl.cc:43-90 | an append always uses up one id, succeeds exactly when a quorum of answers do, raises the commit index to its id only then, and is never answered without replicas |
| LogNodes.SequencerImpl.TakeId | log/impl/SequencerImpl.cc:44 | ids are handed out once each, in order |
| LogNodes.SequencerImpl.Start | log/impl/SequencerImpl.cc:92-100 | counter and commit index are both set to the version's start |
| LogNodes.SequencerImpl.LatestAppendPosition | log/impl/SequencerImpl.cc:37-41 | one below the next id |
| LogNodes.ProtocolAssign | log/impl/SequencerImpl.cc:44 | the protocol's step that assigns an id raises the counter by one and records the payload under it |
| LogNodes.ProtocolAdvance | log/impl/SequencerImpl.cc:80-85 | the commit index may advance exactly when a quorum answered, then reaches at least that id and never falls |
| LogNodes.ReplicaErrors | log/impl/ReplicaImpl.cc:34-116 | exactly when an append or a seal is refused for want of a config, and that nothing changes then |
| LogNodes.ReplicaImpl.Open | log/impl/ReplicaImpl.cc:43-58 | a version's log is found or created with its config's start, and missing configs are reported |
| LogNodes.ReplicaImpl.AppendEntry | log/impl/ReplicaImpl.cc:34-64 | an append changes the log of one version only, creating it first when needed |
| LogNodes.ReplicaImpl.GetLogEntry | log/impl/ReplicaImpl.cc:66-79 | an entry of an existing version's log, else not found |
| LogNodes.ReplicaImpl.Seal | log/impl/ReplicaImpl.cc:88-116 | seals the version's log, created empty at its start when unseen, and answers its index; needs the config even when the log is there |
| LogNodes.ProtocolAppend | log/impl/ReplicaImpl.cc:34-64 | in every run the delivery step of the log protocol is the replica's append, and it finds its config |
| LogNodes.ProtocolSeal | log/impl/ReplicaImpl.cc:88-116 | in every run the sealing step of the log protocol is the replica's seal, finds its config, and reports no less than the version's start |
| LogNodes.SealBounds | log/impl/VirtualLogImpl.cc:110-116 | the loop over the sealed replicas computes the least and greatest reported end |
| QuorumWait.Waiter.OnResult | log/utils/FutureUtils.h:70-88 | one callback keeps counters, failures and promise in step with the futures seen |
| QuorumWait.AnyNSuccessful | log/utils/FutureUtils.h:50-92 | with n at least 1 and some future, a value exactly when n succeed and otherwise an exception naming the failures; without futures it never settles |
| QuorumWait.QuorumWaitIsExact | log/utils/FutureUtils.h:69-88 | at every moment a value exactly when n succeeded so far, an exception exactly when all finished and fewer did |
| QuorumWait.FailedAt | log/utils/FutureUtils.h:76-77 | the exception names every failed future, in the order of their failures |
| QuorumWait.WaitForLess | log/utils/FutureUtils.h:81-85 | waiting for fewer than none never gives a value |
| QuorumWait.OrderDoesNotMatter | log/utils/FutureUtils.h:69-88 | the kind of outcome is the same for every order of the same results |
| QuorumWait.WaitForNone | log/utils/FutureUtils.h:81-85 | waiting for none gives a value exactly when the first future to finish failed |
| OrderedApply.StepInv | statemachine/VirtualLogStateMachine.h:53-171 | every step of producer, fetches, consumer, tasks and callers keeps the invariant of a node |
| OrderedApply.InOrderApply | statemachine/VirtualLogStateMachine.h:146-171 | in every run a node applies log ids 1, 2, 3 and so on, in order and nothing else, and holds their replay |
| OrderedApply.AssertionIsExact | statemachine/VirtualLogStateMachine.h:161-163 | the consecutive-id assertion has failed if and only if some applicable batch follows neither the start nor another applicable one |
| OrderedApply.DefaultStartNeverAborts | statemachine/VirtualLogStateMachine.h:24-31 | from the default start, with known commands, it never fails and the last applied id counts the tasks |
| OrderedApply.OtherStartsAbort | statemachine/VirtualLogStateMachine.h:24-31 | from any other start, a run that got to a known batch at id 1 has failed it |
| OrderedApply.MayAbortIff | statemachine/VirtualLogStateMachine.h:161-163 | a run that fails the assertion exists if and only if the readable ids 1 to some k hold an applicable batch out of order |
| OrderedApply.OtherStartsMayAbort | statemachine/VirtualLogStateMachine.h:24-31 | from any other start with a known batch at id 1 such a run exists |
| OrderedApply.DefaultStartMayAbortIff | statemachine/VirtualLogStateMachine.h:146-171 | from the default start such a run exists if and only if a known batch comes right behind an unknown one |
| OrderedApply.PromisesGetTheirOwnResult | statemachine/VirtualLogStateMachine.h:151-160 | a fulfilled promise carries the result of its own id applied to the counters just before it |
| OrderedApply.TaskAnswersAll | statemachine/VirtualLogStateMachine.h:154-160 | a task whose batch can be applied answers every promise that waits for its id with its result, keeps all other answers, and clears the id |
| OrderedApply.FailedTaskAnswersNone | statemachine/VirtualLogStateMachine.h:150-151 | a batch that throws answers nobody and its callers go on waiting |
| OrderedApply.NoPromiseIsLost | statemachine/VirtualLogStateMachine.h:53-88 | in every run each registered promise is fulfilled or still waits under its id |
| OrderedApply.SyncWaitsIff | statemachine/VirtualLogStateMachine.h:78-84 | a sync waits exactly when its id is above the last applied one |
| OrderedApply.SyncSees | statemachine/VirtualLogStateMachine.h:78-80 | from the default start a sync that does not wait finds the counters replayed up to its id |
| OrderedApply.EachIdFetchedOnce | statemachine/VirtualLogStateMachine.h:119-142 | no two fetches of a node are for one id |
| OrderedApply.NodesAgree | statemachine/VirtualLogStateMachine.h:146-171 | of two nodes whose own fetches return equal batches the shorter history is a prefix, and equal lengths mean equal counters |
| ReplicatedApply.FetchesAgree | statemachine/VirtualLogStateMachine.h:121-139 | up to any k, fetches of different nodes return equal batches when they read one run of the log after those ids or later ones were acknowledged |
| ReplicatedApply.ReplicasAgree | statemachine/VirtualLogStateMachine.h:146-171 | as far as such fetches reach two nodes apply the same batches, and equal lengths within that mean equal counters, across any reconfigurations and whatever was fetched beyond |
| ReplicatedApply.AnswersAgree | statemachine/VirtualLogStateMachine.h:151-160 | callers that wait for one id get one answer, whichever node they asked, when both nodes fetched up to that id after acknowledgements |
| OrderedApply.CountersAreSums | applications/counter/CounterApp.cc:83-110 | each counter is the signed sum of its key's entries in the ids applied so far |
| OrderedApply.ProducerReachesTarget | statemachine/VirtualLogStateMachine.h:111-142 | once woken the producer starts a fetch for every id up to the target |
| OrderedApply.FetchAllReaches | statemachine/VirtualLogStateMachine.h:119-142 | the producer's loop is a series of single fetch steps of the state machine |
| OrderedApply.FlatMapSequential.Add | log/utils/FlatMapSequential.h:56-79 | a started fetch goes to the back of the list |
| OrderedApply.FlatMapSequential.PopFront | log/utils/FlatMapSequential.h:42-45 | the consumer takes the front of the list |
| OrderedApply.FlatMapSequential.Complete | log/utils/FlatMapSequential.h:59-65 | a fetch's result settles its own future only |
| OrderedApply.FlatMapSequential.Await | log/utils/FlatMapSequential.h:48-50 | the consumer gets the result of the future it took, or its failure |
| OrderedApply.VirtualLogStateMachine.Take | log/utils/FlatMapSequential.h:25-46 | the consumer performs the state machine's take step |
| OrderedApply.VirtualLogStateMachine.Hand | statemachine/VirtualLogStateMachine.h:146-170 | a result becomes the next task of the single thread; a broken fetch ends the loop |
| OrderedApply.VirtualLogStateMachine.Register | statemachine/VirtualLogStateMachine.h:56-62 | a caller's promise is filed under its id and the target rises to it |
| OrderedApply.VirtualLogStateMachine.Sync | statemachine/VirtualLogStateMachine.h:71-88 | nothing to wait for exactly when the id is already applied |
| OrderedApply.VirtualLogStateMachine.Produce | statemachine/VirtualLogStateMachine.h:108-144 | one fetch per id up to the target, in order |
| OrderedApply.VirtualLogStateMachine.RunTask | statemachine/VirtualLogStateMachine.h:150-167 | a task performs the state machine's apply step: every promise of its id gets the batch's result and other answers stay; a throwing batch answers nobody |
| OrderedApply.VirtualLogStateMachine.Conclude | statemachine/VirtualLogStateMachine.h:152-164 | all promises of the id get the result, then the order is checked |
| Counter.AppliedIsSum | applications/counter/CounterApp.cc:83-110 | a batch of known commands moves each counter by its signed sum and creates exactly the keys it names |
| Counter.AppliedPartly | applications/counter/CounterApp.cc:86-106 | an unknown command stops a batch half way: earlier entries have moved the counters, its own key exists, later ones have no effect |
| Counter.ReportedValues | applications/counter/CounterApp.cc:87-101 | the i-th reported value is the running value of its key after i+1 entries |
| Counter.AppliedOk | applications/counter/CounterApp.cc:102-105 | a batch fails if and only if it holds an unknown command |
| Counter.CounterApp.Apply | applications/counter/CounterApp.cc:83-110 | the loop changes the counters as `Applied` says, also up to the entry that throws, and counts the log id only on success |
| Counter.Serialize | applications/counter/CounterApp.cc:56-81 | one known command per operation, in order, with the operation's signed effect |
| KeySerializer.EscapeString | applications/mydb/backend/KeySerializer.cc:53-64 | every separator is doubled and nothing else changes |
| KeySerializer.ParseToken | applications/mydb/backend/KeySerializer.cc:148-167 | reads one token and moves behind its separator |
| KeySerializer.TokenOfEscape | applications/mydb/backend/KeySerializer.cc:148-167 | an escaped text is read back in full, whatever separators it contains or ends in |
| KeySerializer.PrimaryKey | applications/mydb/backend/KeySerializer.cc:169-186 | prints the tokens of a primary key |
| KeySerializer.ColumnKey | applications/mydb/backend/KeySerializer.cc:228-232 | a primary key with a column id becomes the column key |
| KeySerializer.SecondaryIndexKey | applications/mydb/backend/KeySerializer.cc:234-266 | prints the tokens of a key of the first index with the id |
| KeySerializer.ParseKey | applications/mydb/backend/KeySerializer.cc:66-146 | the parser's loop and its token states |
| KeySerializer.PadRoundTrip | applications/mydb/backend/KeySerializer.cc:45-47 | a padded 32-bit id parses back and needs no escaping |
| KeySerializer.PadWidth | applications/mydb/backend/KeySerializer.cc:45-47 | four digits, or as many as a longer number has, without leading zeros then |
| KeySerializer.NumberIff | applications/mydb/backend/KeySerializer.cc:80-90 | a text parses as a number exactly when it is its decimal digits, perhaps behind zeros |
| KeySerializer.PartsAt | applications/mydb/backend/KeySerializer.cc:178-183 | column ids and values take turns in the order of the columns |
| KeySerializer.FindIsFirst | applications/mydb/backend/KeySerializer.cc:97-102 | of several indexes with one id the first is taken |
| KeySerializer.UnknownIndexSteps | applications/mydb/backend/KeySerializer.cc:97-103 | an index that the table does not have counts as one without columns |
| KeySerializer.ParsedHeader | applications/mydb/backend/KeySerializer.cc:78-105 | a key parses only if its first three tokens are numbers, and reports the first two as its ids |
| KeySerializer.LastColumnCounts | applications/mydb/backend/KeySerializer.cc:121-123 | behind the primary parts every token must be a number and the last one is the column id |
| KeySerializer.ParsedIsGood | applications/mydb/backend/KeySerializer.cc:66-167 | from no text at all does the parser report a value that is empty or starts with the separator |
| KeySerializer.RoundTrip | applications/mydb/backend/KeySerializer.cc:53-266 | parsing a printed key gives back ids, values and column id if and only if all values are nonempty, none starts with the separator, the primary index has id 0, a column key has at least one value, and a secondary key has a nonzero index id and at least one value |
| KeySerializer.KeysAreInjective | applications/mydb/backend/KeySerializer.cc:169-266 | two recoverable keys of one table with equal text are the same key, across all three kinds |
| KeySerializer.KeysNameTheirTable | applications/mydb/backend/KeySerializer.cc:169-266 | keys with nonempty values not starting with the separator never have equal text when their tables or databases differ |
| CycleDetection.Dfs.Visit | applications/mydb/experimental/Dfs.cc:31-62 | the recursion terminates, extends the path by following the relation and reports a found cycle or a walk that ends, with the colours and path it leaves |
| CycleDetection.Dfs.GetCycle | applications/mydb/experimental/Dfs.cc:16-29 | a nonempty answer exactly when following the relation revisits a transaction; it is a walk from the start whose last element is its only repeat; asking again gives the same |
| CycleDetection.EndsIffNoRevisit | applications/mydb/experimental/Dfs.cc:43-61 | on a finite relation a walk either ends or revisits, never both |
| CycleDetection.LassoIsUnique | applications/mydb/experimental/Dfs.cc:43-53 | the path reported is the only one of its kind from its start |

## Left out

- gRPC clients and servers, and the acceptor client that drops the body of a prepare reply: every acceptor is a local one.
- RocksDB recovery, write-ahead logs and failed puts: the key-value store is a reliable map.
- Threads, executors, timeouts and cancellation, other than as loss, delay and order of steps.
- LogSafety.Durability: needs unsealed acknowledgements that meet every majority, because it is false for fewer (`LogLateAcks.LostIff`).
- LogSafety.ReadsAgree: for ids at or below an acknowledged one, because it is false for fewer acknowledgements (`LogReads.ReadsDifferIff`).
- ReplicatedApply.ReplicasAgree: as far as fetches look their id up after it or a later one was acknowledged; a `sync` target can lie beyond, where reads may differ.
- PaxosSafety.WriteOnceReads: for a threshold of all acceptors, because it is false below (`PaxosReads.ReadsAgreeIffAll`).
- Which caller's value a successful `write` or `append` stored: `propose` may return true for an adopted value, so results are about the register's value.
- Progress: retry loops, an id added below the queue's index, and a promise registered after its id was applied may wait for ever.
- The commit acknowledgement of `propose` (true only for the first commit somewhere) is not part of the register state machine, which sends commits and forgets them.
- The sealing path of RocksNanoLog, its stored end index under a commit index, and the fact that its copying append refuses an occupied slot: replicas use the in-memory nano log.
- The seal test of InMemoryNanoLog outside the mutex: append is one atomic step.
- Log trim, failure detector, health checks, metrics, registry and factories.
- Overflow of 64-bit ids, counters and lock numbers.
- The order in which `multimap::find` picks among equal keys: it is taken to return the first.
- Whitespace that the number conversion of the key parser tolerates: a number is digits only.
- KeySerializer.SecondaryIndexKey: an id without an index, or other than one value per index column, is outside the model, as the code asserts both; so are more primary values than primary columns, for which the code has no column id.
- OrderedApply.InOrderApply: about the ids handed to the apply loop; how fresh the value of `VirtualLog::sync` is, is not modelled.
- CounterApp snapshots, and its mutex held across waiting calls.
- Transactions, locks and resources around the cycle search: only the relation of who waits for whom is its input, with distinct nonempty ids.
- `RocksReaderWriter`, Arrow tables, the query planner, the row serializer, `TwoPhaseCommit`, `TxnCoordinator`, `RocksStateMachine` and `ConflictDetector`.
