# TEE Guardian: a verified model

TEE Guardian is a cluster of attested nodes. Each node keeps its Raft state in a directory that
must survive a killed process, forms a cluster with peers it has attested, registers confidential
virtual machines in a two-phase challenge protocol, and learns about other guardians by gossip.
This project models those four parts in Dafny and proves what the code guarantees about them.

**The Raft store** (`LogNames`, `StoreTypes`, `Directory`, `StoreOps`, `StoreTheorems`,
`StoreFailures`, `StoreLog`, `StoreCounterexamples`, `Recovery`, `Store`). An operation of `PersistentGuardianStore` is a list of
steps: write a file through a temporary file and a rename, remove a log file, flush, or change the
cache. A run is any sequence of operations that finish, stop at a failed file-system call, or are
killed between any two file-system calls and followed by a new start. The theorems speak about
every run. The class in `Store` performs the operations in place, and each method is proved to do
exactly its steps, to stop only where a step can fail, and to leave the directory, after every
single file-system call, in a state the theorems allow (`Performed`).

**Cluster formation** (`Health`, `Formation`, `FormationTheorems`, `FormationWorstCase`,
`LocalMoves`, `Simulation`, `Coordinator`). The nodes form a transition system in which every health query is a step of its
own, so scans of different nodes interleave and can be out of date when they end. The classes in
`Coordinator` are the state machine of one node. `Simulation` proves that each of its rounds is a
legal run of that system, whatever the other nodes do between its queries, and carries the
theorems on who may initialise, in what order and how often over to the class.

**The attestation registry** (`RegistrySpec`, `RegistryTheorems`, `RegistryOutcomes`,
`PeerRegistry`). The pending and verified maps, the event stream and the two protocol phases, as a
function of calls and clock readings, with what each call answers and changes, and the theorems
over all sequences of calls; the class refines that function.

**Gossip cache and quote parser** (`Gossip`, `QuoteSignature`). The latest-advertisement merge, the
nested signature section of a version 4 TDX quote, and DER extension values.

Where a promise does not hold of the code, the exact condition is proved, and a run that breaks it
is given:

- `docs/bootstrap_sequence.md` promises that mutual readiness prevents a split brain. With
  everybody trusting everybody and every query answered, the code lets at most n - 2 of n nodes
  initialise clusters of their own, and for every n from 3 on some interleaving reaches that number
  (`BootstrapOrderAndBound`, `BoundIsReached`). A single bootstrapper is guaranteed exactly when
  n is at most 3 (`SingleBootstrapperExactly`).
- A restart forgets the purge point, and brings back entries that could not be unlinked.
  `RestartKeepsLastLogId` says, after any run, exactly when `last_log_id` survives it; while no I/O
  call has failed that is when the log is not empty or nothing was purged since the store was
  opened (`CleanRestartKeepsLastLogId`). It does not in `RestartForgetsPurged` and
  `NewStoreComesBack`.
- `truncate` deletes upwards, so a crash inside it can leave a hole. `TruncateCrash` says exactly
  when; `TruncateLeavesHole` is a run with one. An error inside it can leave one in the cache and
  one on disk; `FailedTruncate` says exactly when, and `NewStoreHolesCache` is a run.
- A `purge` that fails leaves an entry on disk that the cache has lost. Going on with another purge
  without a restart leaves a hole on disk unless it deletes none of the cached entries or all of
  them (`PurgeAfterFailedPurge`); `NewStoreLeavesHole` is a run with one.
- A crash between the data and the state machine of `install_snapshot` can part the two, and one
  between its metadata and its data can leave the new metadata with the old data.
  `InterruptedInstall` and `InterruptedInstallSnapshot` say exactly when; `InstallPartsData` and
  `InstallMixesSnapshots` are such runs.
- `cleanup_expired` is not quite invisible. `CleanupInvisible` says exactly which later replies it
  changes: counts of later cleanups, and which error an expired verification is refused with
  (`LapsedVerificationDiffers`). A direct `complete_verification`, which does not look at the
  expiry time, sees it too: `CompletionSeesCleanup` says exactly when, and
  `LapsedCompletionDiffers` shows it.
- `register_tee` reports an expiry of a minute from now also for a challenge that is older.
  `ReportedExpiryExactly` says when the report is right; in `SecondReportIsLate` it is not.

Every lemma switches Dafny's automatic induction off, so each proof is the one written down.

## Model

| member | source | states |
|---|---|---|
| LogNames.FilenameRoundTrip | crates/consensus/src/persistent_storage.rs:144-152 | every 64-bit index, also past eight hex digits, is read back from its file name |
| LogNames.FilenameInjective | crates/consensus/src/persistent_storage.rs:144-146 | no two indices share a file name |
| LogNames.TempNeverParses | crates/consensus/src/persistent_storage.rs:149-152 | a temporary file is never taken for a log entry |
| LogNames.FilenameShape | crates/consensus/src/persistent_storage.rs:144-146 | a file name is the lower-case hex digits of the index, zeros in front up to eight, and ".bin" |
| LogNames.FromDigitsExactly | crates/consensus/src/persistent_storage.rs:149-152 | the digit loop accepts exactly the strings of hex digits of either case whose value fits 64 bits, and yields it |
| LogNames.ParseExactly | crates/consensus/src/persistent_storage.rs:149-152 | a name is that of a log entry exactly if it is such digits, after an optional plus sign, and ".bin" |
| StoreTypes.LogIdOrder | crates/consensus/src/persistent_storage.rs:487-503 | the comparison in the assertion of `purge` is a total order: term first, then node, then index |
| Recovery.TemporaryFilesAreInvisible | crates/consensus/src/persistent_storage.rs:224-325 | any two directories that differ only in temporary files, good or bad, load alike: both or neither, and to the same caches |
| Recovery.LoadableExactly | crates/consensus/src/persistent_storage.rs:224-325 | a directory loads exactly if each file recovery looks at can be decoded and each log record carries the index of its name; no other file matters |
| Recovery.RestoredExactly | crates/consensus/src/persistent_storage.rs:224-325 | each part of a restored cache is what its file holds, or the default without it; the snapshot is there exactly with both its files |
| StoreOps.AppliedExactly | crates/consensus/src/persistent_storage.rs:554-583 | applying a batch keeps the data, moves to the id of the last entry and takes the membership of the last change, or keeps the old one without a change |
| StoreOps.IndexedExactly | crates/consensus/src/persistent_storage.rs:447-470 | a batch puts in the log, for each index, the last of its entries that has it |
| StoreOps.StopRefines | crates/consensus/src/persistent_storage.rs:106-133 | wherever an operation is stopped, also inside a write, recovery sees exactly the steps completed before |
| StoreTheorems.CrashAtomicity | crates/consensus/src/persistent_storage.rs:106-627 | killed at any file-system call of any operation after any run, the store opens again and holds the old or the new value of what was replaced, the log with a prefix of the batch added, or the log without an ascending initial segment of the deleted keys |
| StoreTheorems.RecoveryRefinesMemory | crates/consensus/src/persistent_storage.rs:199-325 | after every run with no I/O failure since the last opening, opening the directory rebuilds the cache except for the purge point and the snapshot counter |
| StoreTheorems.PurgePointIsSinceOpen | crates/consensus/src/persistent_storage.rs:487-503 | after any run, failures included, the cache has a purge point exactly when something was purged since the store was opened |
| StoreTheorems.CounterCountsBuilds | crates/consensus/src/persistent_storage.rs:511-541 | after any run the counter in the snapshot ids is the number of snapshots begun since the store was opened, finished or not |
| StoreTheorems.SnapshotIdsDiffer | crates/consensus/src/persistent_storage.rs:511-541 | two snapshots begun without a restart in between have different ids |
| StoreFailures.RestartKeepsLastLogId | crates/consensus/src/persistent_storage.rs:412-419 | after any run, failures included, a restart keeps `last_log_id` if and only if: with nothing on disk, nothing was purged since opening; with entries on disk but none cached, the purge point is the last of them; otherwise the last entry on disk is cached |
| StoreFailures.CleanRestartKeepsLastLogId | crates/consensus/src/persistent_storage.rs:412-419 | with no I/O failure since opening, a restart keeps it if and only if the log is non-empty or nothing was purged since |
| StoreFailures.FailureContainment | crates/consensus/src/persistent_storage.rs:447-503 | after every operation of every run, finished or failed, the cached log is a sub-map of the log on disk |
| StoreFailures.FailedSaveChangesNothing | crates/consensus/src/persistent_storage.rs:421-441 | a failed save of the vote or the committed id changes neither the cache nor any file recovery looks at |
| StoreFailures.SnapshotDataIsCurrent | crates/consensus/src/persistent_storage.rs:554-572 | in every run whose snapshot installations all finish, data.bin, if there, decodes to the current application data |
| StoreFailures.TornSnapshotIsBenign | crates/consensus/src/persistent_storage.rs:511-541 | a crash inside `build_snapshot` recovers no snapshot, or one with the data the interrupted one would have stored |
| StoreFailures.InterruptedInstall | crates/consensus/src/persistent_storage.rs:591-627 | after any run whose installations finished, an interrupted installation recovers with snapshot data and state machine in agreement if and only if it did not stop between their two writes, or the data did not change |
| StoreFailures.InterruptedInstallSnapshot | crates/consensus/src/persistent_storage.rs:591-627 | after any run, an interrupted installation recovers the snapshot there was, none, or the new one if and only if it did not stop between metadata and data, no data was there, or one of the two stays the same |
| StoreLog.LogHasNoGaps | crates/consensus/src/persistent_storage.rs:447-503 | used as Raft uses it, over any crashes, restarts and errors, with no truncation stopped where TruncateCrash finds a hole and a restart after a failed deletion: the log on disk is always an interval; the cached log is the same one, lies above the purge point and ends at `last_log_id`, except right after a failed deletion, before the restart |
| StoreLog.LogIsContiguous | crates/consensus/src/persistent_storage.rs:447-503 | in such a run, while the store has not been restarted and the last event is not a failed deletion, the log begins exactly above the purge point |
| StoreLog.CrashKeepsContiguity | crates/consensus/src/persistent_storage.rs:447-503 | a crash inside `append` or `purge`, after any such run that does not end in a failed deletion, leaves a log without gaps on disk |
| StoreLog.TruncateCrash | crates/consensus/src/persistent_storage.rs:472-485 | a crash inside `truncate`, after any such run that does not end in a failed deletion, removes an ascending initial segment of the cut range, and leaves a hole if and only if some cut keys are gone, some are not, and an entry below the cut remains |
| StoreLog.FailedTruncate | crates/consensus/src/persistent_storage.rs:472-485 | after such a run, a truncation that fails leaves the disk one entry more than the cache, and in each of the two a hole if and only if some cut keys are gone from it, some are not, and an entry below the cut remains |
| StoreLog.FailedPurge | crates/consensus/src/persistent_storage.rs:487-503 | after such a run, a purge that fails leaves two intervals, on disk from the key it stopped at and in the cache from the next one |
| StoreLog.PurgeAfterFailedPurge | crates/consensus/src/persistent_storage.rs:487-503 | a purge after one that failed, without a restart, leaves the disk without a hole if and only if it deletes none of the cached entries or all of them |
| StoreCounterexamples.RestartForgetsPurged | crates/consensus/src/persistent_storage.rs:487-503 | append entry 0, purge it, restart: `last_log_id` is gone |
| StoreCounterexamples.FailedTruncateComesBack | crates/consensus/src/persistent_storage.rs:472-485 | after any such run with two entries, a truncation whose unlink fails is undone by a restart, with the log non-empty and nothing purged |
| StoreCounterexamples.NewStoreComesBack | crates/consensus/src/persistent_storage.rs:472-485 | the same, on a new store with two entries |
| StoreCounterexamples.TruncateLeavesHole | crates/consensus/src/persistent_storage.rs:472-485 | append entries 0 to 2, die half-way through truncating from 1: a hole |
| StoreCounterexamples.NewStoreHolesCache | crates/consensus/src/persistent_storage.rs:472-485 | append entries 0 to 2, fail to unlink entry 1 in truncating from 1: a hole in the cache |
| StoreCounterexamples.NewStoreLeavesHole | crates/consensus/src/persistent_storage.rs:487-503 | append entries 0 to 2, purge up to 1 with a failed unlink, purge again: a hole on disk |
| StoreCounterexamples.InstallPartsData | crates/consensus/src/persistent_storage.rs:591-627 | die inside the first installation of a new store: the recovered snapshot has data the recovered state machine has not |
| StoreCounterexamples.InstallMixesSnapshots | crates/consensus/src/persistent_storage.rs:591-627 | install a snapshot in a new store, die between metadata and data of another: the metadata of the second with the data of the first |
| StoreLog.AppliedConcat | crates/consensus/src/persistent_storage.rs:554-583 | applying a log in two parts is applying it whole |
| StoreLog.SnapshotEqualsReplay | crates/consensus/src/persistent_storage.rs:511-627 | apply a prefix, build a snapshot, install it in a store in any state, apply the rest: the state machine of applying the whole log |
| Store.PersistentGuardianStore.Open | crates/consensus/src/persistent_storage.rs:199-221 | a new store over a directory opens exactly if the directory is loadable, with a cache the directory restores, and with the one it stands for if a store wrote it |
| Store.PersistentGuardianStore.AtomicWrite | crates/consensus/src/persistent_storage.rs:106-133 | on success the target holds the new content, flushed before the rename if it was to be, and the temporary file is gone; on failure, and after every call on the way, the target is untouched and at most a partial temporary file was added; it fails exactly if one of its calls does |
| Store.PersistentGuardianStore.Persist | crates/consensus/src/persistent_storage.rs:338-360 | a write done on behalf of an operation advances it by one step or stops it there, passing only crash points; everything but log entries is flushed on the way |
| Store.PersistentGuardianStore.DeleteLogEntry | crates/consensus/src/persistent_storage.rs:363-369 | removes the file of an entry if there is one, as one step of the operation, or stops it there |
| Store.PersistentGuardianStore.FsyncLogEntries | crates/consensus/src/persistent_storage.rs:372-378 | flushes everything written so far, changing nothing, or stops the operation |
| Store.PersistentGuardianStore.LoadState | crates/consensus/src/persistent_storage.rs:224-325 | succeeds exactly on loadable directories; every part of the cache is then what its file holds, with an entry for exactly the indices the log names stand for, read from such a file; on a directory a store wrote, the cache is what the disk stands for |
| Store.PersistentGuardianStore.GetLogState | crates/consensus/src/persistent_storage.rs:412-419 | the last log id is that of the entry with the greatest index, or the purge point when the log is empty |
| Store.PersistentGuardianStore.SaveVote | crates/consensus/src/persistent_storage.rs:434-441 | performs its steps and fails exactly if a call fails; on success, and only then, the new vote is flushed and cached |
| Store.PersistentGuardianStore.SaveCommitted | crates/consensus/src/persistent_storage.rs:421-428 | performs its steps and fails exactly if a call fails; on success, and only then, the new committed id is flushed and cached |
| Store.PersistentGuardianStore.Append | crates/consensus/src/persistent_storage.rs:447-470 | performs its steps and fails exactly if a call fails; on success the batch is merged into the log, later entries of one index winning, and the flush came after all writes |
| Store.PersistentGuardianStore.Truncate | crates/consensus/src/persistent_storage.rs:472-485 | performs its steps and fails exactly if a call fails; on success exactly the entries below the given index remain |
| Store.PersistentGuardianStore.Purge | crates/consensus/src/persistent_storage.rs:487-503 | performs its steps and fails exactly if a call fails; the purge point moves even on failure; on success exactly the entries above it remain |
| Store.PersistentGuardianStore.Apply | crates/consensus/src/persistent_storage.rs:554-583 | performs its steps and fails exactly if a call fails; even then the cached state machine has the data it had, the id of the last entry and the membership of the last change with its id; one response per entry |
| Store.PersistentGuardianStore.BuildSnapshot | crates/consensus/src/persistent_storage.rs:511-541 | performs its steps and fails exactly if a call fails; returns the data, last id and membership of the current state machine under an id with the advanced counter, and caches it exactly on success |
| Store.PersistentGuardianStore.InstallSnapshot | crates/consensus/src/persistent_storage.rs:591-627 | performs its steps; undecodable data is refused with nothing changed; otherwise it fails exactly if a call fails, the state machine is that of the snapshot, which is cached exactly on success |
| Store.PersistentGuardianStore.PerformedIsEvent | crates/consensus/src/persistent_storage.rs:421-627 | every call of an operation, returned or failed, is one event of the runs the theorems quantify over |
| Store.PersistentGuardianStore.EveryPassedDirectoryRecovers | crates/consensus/src/persistent_storage.rs:106-503 | each directory a call passes through after any run opens again with an outcome CrashAtomicity allows |
| Health.ReadyMeansPristine | crates/common/src/api/types.rs:145-156 | a health answer says mutually ready exactly when the node has no membership, trusts enough peers and trusts the asker |
| Health.StatusExactly | crates/consensus/src/raft_node.rs:270-291 | for each status, exactly when a node reports it, from learners, voters and leader |
| Health.HealthExactly | crates/guardian/src/api_server.rs:130-145 | the answer has the status, the term, the number of voters and each trusted peer once in ascending order; it says in a cluster exactly if there are voters, leader exactly if the node leads |
| FormationTheorems.StepKeepsSettled | crates/consensus/src/raft_node.rs:156-186 | a node that has a membership keeps one, and only a node without one can initialise |
| FormationTheorems.ReadyExactly | crates/consensus/src/coordinator.rs:406-428 | ready are the node itself with two trusted peers, and exactly the trusted peers whose answer says bootstrapping, no cluster, two trusted peers and this node among them |
| FormationTheorems.ElectsExactly | crates/consensus/src/coordinator.rs:241-259 | a node wins exactly if it is the lowest of three or more ready ones |
| FormationTheorems.FoundExactly | crates/consensus/src/coordinator.rs:208-239 | a scan ends early exactly on an answer from a leader of a cluster, or, while waiting, from any member of one |
| FormationTheorems.NoOvertaking | crates/consensus/src/coordinator.rs:261-297 | in every run, when a node is about to initialise, each lower-numbered peer that answered its last scan, trusted it and had two peers had left the bootstrapping state, and still has |
| FormationTheorems.NoTwinElection | crates/consensus/src/coordinator.rs:406-428 | two nodes that trust each other and have no membership never both elect themselves from one state |
| FormationTheorems.InitialMembership | crates/consensus/src/coordinator.rs:278-286 | the members handed to OpenRaft are the bootstrapper and the ready peers still trusted; they are the ready set, three at least, exactly when no ready peer was revoked since the scan |
| FormationTheorems.InitialiserIsNext | crates/consensus/src/coordinator.rs:271-277 | in complete trust with every query answered, in every interleaving, a node about to initialise is below two others and above only nodes that have a membership |
| FormationTheorems.BootstrapOrderAndBound | crates/consensus/src/coordinator.rs:261-297 | in complete trust with every query answered, in every interleaving, nodes initialise in strictly increasing order and at most n - 2 of them, none if there are fewer than three |
| FormationWorstCase.BoundIsReached | crates/consensus/src/coordinator.rs:241-297 | for every n from 3 on, some such interleaving lets all but the two highest nodes initialise |
| FormationWorstCase.SingleBootstrapperExactly | crates/consensus/src/coordinator.rs:241-297 | at most one initialisation in every such interleaving if and only if there are no more than three nodes |
| Simulation.ScanIsRun | crates/consensus/src/coordinator.rs:406-428 | a scan whose answers the peers gave while the other nodes took any steps is a legal run of Formation, and ends with exactly those answers seen |
| Simulation.RoundIsRun | crates/consensus/src/coordinator.rs:168-189 | a round of a coordinator, with answers given in the course of any steps of the others, is a legal run of Formation made of those steps and its own, and ends where the round does; it is calm if the round is |
| Simulation.CoordinatorsInitialiseInOrder | crates/consensus/src/coordinator.rs:261-297 | in complete trust with every query answered, after any run and any round of a coordinator, the initialisations so far are in increasing order of node id and at most n - 2, and one the round made is the last |
| Simulation.CoordinatorIsNext | crates/consensus/src/coordinator.rs:261-297 | in complete trust with every query answered, a coordinator whose round initialises is below two others and above only nodes that have a membership by then |
| Simulation.CoordinatorDoesNotOvertake | crates/consensus/src/coordinator.rs:261-297 | when a coordinator's round initialises a cluster, after any run and whatever the others do meanwhile, each lower-numbered peer that answered, trusted it and had two peers said it was no longer bootstrapping |
| Coordinator.TrustedPeerRegistry.GetTrustedNodes | crates/bootstrap/src/trusted_peers.rs:163-165 | the trusted ids, each once, in ascending order |
| Coordinator.TrustedPeerRegistry.GetRaftAddresses | crates/bootstrap/src/trusted_peers.rs:170-172 | the Raft address of every trusted peer and of no other |
| Coordinator.RaftNode.InitializeCluster | crates/consensus/src/raft_node.rs:156-186 | routes to all given peers; succeeds exactly if OpenRaft agrees and the node has no membership, and then the voters are the given peers and itself; otherwise the membership stays |
| Coordinator.RaftNode.AddPeer | crates/consensus/src/raft_node.rs:195-226 | routes to the peer; taken as learner and as voter, it becomes a voter and no longer a learner; taken as learner only, it stays one; nothing else changes |
| Coordinator.RaftNode.RemovePeer | crates/consensus/src/raft_node.rs:231-251 | succeeds exactly if the peer is no voter, or OpenRaft agrees and it is not the last one; then voters and routes lose exactly that peer, otherwise nothing changes |
| Coordinator.RaftCoordinator.BuildMutualReadySet | crates/consensus/src/coordinator.rs:406-428 | the loop builds the ready set of Formation from the answers received |
| Coordinator.RaftCoordinator.HandleWaitingForPeers | crates/consensus/src/coordinator.rs:195-206 | moves on exactly with two trusted peers |
| Coordinator.RaftCoordinator.HandleCheckingCluster | crates/consensus/src/coordinator.rs:208-239 | joins the lowest-numbered trusted peer that answers as a leader of a cluster, routes to it and waits 300 seconds; coordinates a bootstrap exactly if no trusted peer answers so |
| Coordinator.RaftCoordinator.HandleCoordinatingBootstrap | crates/consensus/src/coordinator.rs:241-259 | stays below three ready nodes, bootstraps if elected, otherwise waits 60 seconds, as Formation decides |
| Coordinator.RaftCoordinator.HandleBootstrapping | crates/consensus/src/coordinator.rs:261-297 | a node that wins the re-check routes to exactly the ready peers still trusted and calls OpenRaft: it becomes active exactly if OpenRaft agrees and there was no membership, with the voters of InitialMembership; one that does not win changes neither routes nor membership |
| Coordinator.RaftCoordinator.CallInitialize | crates/consensus/src/coordinator.rs:278-297 | initialises with the current addresses of the ready peers still trusted, and reports what OpenRaft does |
| Coordinator.RaftCoordinator.HandleWaitingForBootstrap | crates/consensus/src/coordinator.rs:299-333 | timeout first; then joins the lowest-numbered peer that answers from inside a cluster and waits 300 seconds; exactly if there is none, takes over when elected, else waits on |
| Coordinator.RaftCoordinator.HandleJoining | crates/consensus/src/coordinator.rs:335-355 | gives up at the deadline and becomes active exactly as a full member |
| Coordinator.RaftCoordinator.HandleClusterActive | crates/consensus/src/coordinator.rs:357-399 | a leader routes to exactly the trusted peers that are neither members nor added before, and remembers as added, and gains as voters, exactly those OpenRaft takes both times; those it takes once become learners; anyone else changes nothing |
| Coordinator.RaftCoordinator.Step | crates/consensus/src/coordinator.rs:168-189 | the state moves only along the state diagram, by a move RoundIsRun turns into a run of Formation, setting and keeping the deadlines; a node without a membership gains one only from a successful bootstrap or as an active leader |
| RegistryTheorems.EventReplay | crates/peer_registry/src/registry.rs:112-295 | after every sequence of calls no instance is both pending and verified, folding the event history gives the verified map, and every record is of its instance and of the namespace last registered |
| RegistryTheorems.AcceptedExactly | crates/peer_registry/src/verifier.rs:168-246 | evidence is accepted if and only if a pending record of its instance exists in the same namespace, is unexpired, and its challenge is in the verified quote of that instance |
| RegistryTheorems.SingleUse | crates/peer_registry/src/verifier.rs:168-246 | if no challenge is drawn twice, no two acceptances in any sequence of calls rest on the same challenge or the same evidence |
| RegistryTheorems.ChallengeStability | crates/peer_registry/src/registry.rs:112-192 | an issued challenge is what every later registration and look-up returns until it expires, unless it is completed or rejected |
| RegistryTheorems.CleanupInvisible | crates/peer_registry/src/registry.rs:330-344 | a cleanup at any moment changes no later event, acceptance or verified record, provided no record expired by then is completed directly; a later reply changes if and only if it is the count of a cleanup or the error of a verification while a dropped record would still be there |
| RegistryTheorems.CompletionSeesCleanup | crates/peer_registry/src/registry.rs:210-246 | a direct completion answers differently after a cleanup if and only if the record had expired |
| RegistryTheorems.LapsedCompletionDiffers | crates/peer_registry/src/registry.rs:210-246 | register, let the challenge expire, complete directly: verified without a cleanup in between, not with one |
| RegistryTheorems.LapsedVerificationDiffers | crates/peer_registry/src/verifier.rs:168-246 | register, let the challenge expire, verify: refused either way, with one error before a cleanup and another after |
| RegistryTheorems.ReportedExpiryExactly | crates/peer_registry/src/verifier.rs:77-157 | the reported expiry is that of the challenge if and only if the challenge is new and lives a minute, or an older one ends just then |
| RegistryTheorems.SecondReportIsLate | crates/peer_registry/src/verifier.rs:77-157 | phase 1 twice with the same evidence within a minute: the second answer repeats the challenge and reports a later expiry than it has |
| RegistryOutcomes.RegisterExactly | crates/peer_registry/src/registry.rs:112-182 | an instance collides exactly if verified; a challenge still open is handed out again with nothing changed; otherwise the record, lifetime and event of a new one |
| RegistryOutcomes.GrantedExactly | crates/peer_registry/src/verifier.rs:77-157 | phase 1 grants exactly if platform and id are readable, a TDX id is not zero, the signature holds, the measurement is trusted and the instance is not verified; each error exactly for its own failed check, with the registry unchanged |
| RegistryOutcomes.GrantedChallenge | crates/peer_registry/src/verifier.rs:77-157 | what is granted: the open challenge of the signed instance, or the new one, pending for the signed measurement and platform; expiry reported a minute ahead |
| RegistryOutcomes.CompletedExactly | crates/peer_registry/src/registry.rs:210-246 | completion moves exactly that record, keeping namespace and address, and sends the one event; without a pending record nothing happens |
| RegistryOutcomes.AcceptedCompletes | crates/peer_registry/src/verifier.rs:168-246 | an accepted phase 2 has taken exactly that instance from pending to verified, with measurement, status or "Unknown", platform and time, sent the one event, and answers with measurement and status of the quote |
| RegistryOutcomes.Phase2Refusals | crates/peer_registry/src/verifier.rs:168-246 | each error of phase 2 exactly for its failed checks, with the registry unchanged |
| RegistryOutcomes.LookUpExactly | crates/peer_registry/src/registry.rs:189-192 | a look-up changes nothing and finds a challenge exactly while it is open |
| RegistryOutcomes.RejectedExactly | crates/peer_registry/src/registry.rs:249-265 | a rejection drops at most that pending record and always sends its event |
| RegistryOutcomes.RevokedExactly | crates/peer_registry/src/registry.rs:268-295 | a revocation drops exactly that verified record, with its event, and says whether there was one |
| RegistryOutcomes.CleanedExactly | crates/peer_registry/src/registry.rs:330-344 | a cleanup keeps exactly the records that are not expired challenges, unchanged, and counts the others |
| PeerRegistry.PeerRegistry.Register | crates/peer_registry/src/registry.rs:112-182 | collision, existing challenge, or a new pending record and its event, as the registry function says |
| PeerRegistry.PeerRegistry.GetPendingChallenge | crates/peer_registry/src/registry.rs:189-192 | the challenge of an unexpired pending record, changing nothing |
| PeerRegistry.PeerRegistry.CompleteVerification | crates/peer_registry/src/registry.rs:210-246 | moves the record from pending to verified with one event, or does nothing if it is not pending |
| PeerRegistry.PeerRegistry.Reject | crates/peer_registry/src/registry.rs:249-265 | drops the pending record and always sends the event |
| PeerRegistry.PeerRegistry.Revoke | crates/peer_registry/src/registry.rs:268-295 | drops a verified record with one event, and says whether there was one |
| PeerRegistry.PeerRegistry.CleanupExpired | crates/peer_registry/src/registry.rs:330-344 | keeps exactly the unexpired records and counts the others, in whatever order they are visited |
| PeerRegistry.PeerRegistry.RegisterTee | crates/peer_registry/src/verifier.rs:77-157 | does what the registry function says, so that GrantedExactly and GrantedChallenge hold of it |
| PeerRegistry.PeerRegistry.VerifyTee | crates/peer_registry/src/verifier.rs:168-246 | does what the registry function says, so that AcceptedExactly, AcceptedCompletes and Phase2Refusals hold of it |
| Gossip.CachedExactly | crates/bootstrap/src/gossip/cache.rs:36-50 | exactly the advertised nodes are in the cache |
| Gossip.EarliestOfMaximalTimestamp | crates/bootstrap/src/gossip/cache.rs:36-50 | after any arrivals the entry of a node is its earliest-received advertisement of maximal timestamp |
| Gossip.MergeIsOrderIndependent | crates/bootstrap/src/gossip/cache.rs:36-50 | with distinct timestamps per node, order and repetition of arrivals do not matter |
| Gossip.FormatExactly | crates/bootstrap/src/gossip/types.rs:89-111 | the format is valid exactly with two fields of 64 hex digits of either case and a time at most five minutes ahead |
| Gossip.AgeExactly | crates/bootstrap/src/gossip/manager.rs:245-250 | an advertisement is too old exactly from an hour after the configured age |
| Gossip.ValidatedExactly | crates/bootstrap/src/gossip/manager.rs:240-274 | each outcome exactly for its failed check, and the cache takes the advertisement in exactly if it passes all of them, is of another node and is newer than what is known |
| Gossip.ShortcutIsInvisible | crates/bootstrap/src/gossip/manager.rs:240-274 | over any history, skipping the evidence check for known advertisements never changes the cache |
| Gossip.ShortcutHidesExactly | crates/bootstrap/src/gossip/manager.rs:240-274 | the skip changes an answer exactly for a stale advertisement with bad evidence |
| Gossip.GossipedPeerCache.AddVerified | crates/bootstrap/src/gossip/cache.rs:36-50 | an entry gives way only to a strictly newer advertisement |
| Gossip.PeerGossipManager.ValidateAndAddAdvertisement | crates/bootstrap/src/gossip/manager.rs:240-274 | format, age, own id, known, evidence, then the cache, in this order |
| QuoteSignature.NestedRoundTrip | crates/certificates/src/quote_certs_parse.rs:70-97 | the payload nested in type 6 data comes back whatever the size of the authentication data |
| QuoteSignature.NestedIsEncoded | crates/certificates/src/quote_certs_parse.rs:70-97 | whatever yields a nested payload is such an encoding, with trailing bytes ignored |
| QuoteSignature.CodesExactly | crates/certificates/src/quote_certs.rs:38-49 | the codes 1 to 7 stand for the seven types, and no other number for any |
| QuoteSignature.CertDataExactly | crates/certificates/src/quote_certs_parse.rs:60-97 | leaf and chain go to the PEM stage as they are, type 6 with its nested payload or as an error, the other types have no certificates |
| QuoteSignature.ParsedExactly | crates/certificates/src/quote_certs_parse.rs:16-58 | on any bytes and offset: too short exactly if the section, what it announces or its header does not fit; otherwise where each field is read, and a chain exactly if its data is there and parses |
| QuoteSignature.SignatureRoundTrip | crates/certificates/src/quote_certs_parse.rs:16-58 | an encoded signature section anywhere in a quote gives back signature, key and size, and exactly the embedded payload goes to the PEM stage |
| QuoteSignature.ParseQeReportCertData | crates/certificates/src/quote_certs_parse.rs:70-97 | the walk with a moving position never reads out of bounds and agrees with Nested on all bytes |
| QuoteSignature.BigEndianSplits | crates/certificates/src/quote_certs_parse.rs:236-269 | the value of octets is positional, most significant first |
| QuoteSignature.DecodeExtensionValue | crates/certificates/src/quote_certs_parse.rs:236-269 | DER integers of up to eight octets decode to their exact unsigned value although the loop works modulo 2^64; other tags as their text or hex |

## Left out

- OpenRaft (elections, replication, quorum) enters by contract only: `initialize` succeeds only on a node without a membership, `change_membership` never leaves a cluster without voters, and a membership once there does not vanish. Whether it agrees to a call is a parameter.
- Power loss: log entries are written without fsync, so the theorems are about killed processes; of a flush the model knows that it comes before the rename, or after the writes of a batch, and that it can fail.
- I/O errors while reading in `load_state` and the creation of directories; the sort of the loaded entries before they go into a map, which keeps the order of files that stand for one index.
- bincode and JSON are pairs of functions with decode after encode the identity, and a failure to serialise is a failure of the write; the snapshot id is a pair, not the string formatted from it; `apply` returns the number of responses, which carry no data.
- The flush of the parent directory at the end of `atomic_write`, whose failure the code ignores.
- Concurrent clones of the store, and interleavings of the lock scopes inside one registry method: each method is one step.
- Clocks are parameters; Formation allows a timeout at any moment, the coordinator class compares with its deadlines; sleeps and jitter are left out.
- The coordinator class takes the answers of a scan as given and the registry as fixed during a handler, except for changes of trust between scan and initialisation; changes at any moment are in Formation. A peer revoked between its answer and the look-up of its address counts as not having answered, as the loops treat it.
- The two reads of the health handler are one step, and its server error is an unanswered query.
- Signature checks, SHA-256, base64, UTF-8, PEM and X.509 are parameters, as are random draws and the answer of the measurement registry.
- The event channel is its full history: the capacity of the broadcast channel and lagging receivers are left out.
- Overflow of the quote offset on the platform's word size.
- The HTTP servers and routers, gossip networking, TDX and SNP backends, the attestation event handler, the command-line tool, Nix files, and read-only accessors, which would only add easy members.
