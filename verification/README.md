# Verification of the distributed-sync services and the idempotent aggregator

The repository holds a toolkit of distributed services (a Raft-replicated lock
manager, a PBFT replica, a queue on a consistent hash ring, a MESI-style cache)
and an event aggregator whose workers drop duplicates. This project models their
core in Dafny and proves what each of them keeps over every run.

How it is laid out, one group of modules per component:

- **Raft** (`Raft*.dfy`). `RaftProgram.RaftNode` is the node as the program has
  it: fields changed in place, handlers as methods, loops where the source has
  loops. `RaftHandlers` and `RaftLog` say in closed form what each handler must
  leave behind; every method is proved equal to its function. `RaftCluster` is
  the cluster as a state machine: any number of nodes, one atomic step per
  handler, and a network that never forgets a message, so each message may be
  delivered late, repeatedly, in any order, or never. A recorded history (votes,
  leaders and their logs, acknowledgements, commits) carries the safety argument
  of sections 5.2 to 5.4 of "In Search of an Understandable Consensus Algorithm"
  (Ongaro and Ousterhout, 2014). `RaftTheorems` has the results. `RaftProgress` and
  `RaftService` have the runs in which Raft does its work: logs are brought up to the
  leader's, commands are committed and applied. `RaftRules` tells what one step does in
  terms of terms, votes and logs.
  `RaftUncoveredCommit` and `RaftStaleSuccess` have runs that show why two
  assumptions on deliveries are needed (see below), `RaftPairs` shows that two nodes
  need neither, and `RaftSizes` puts the two together.
- **PBFT** (`Pbft*.dfy`). The normal case of one replica, a cluster in which
  faulty replicas may send anything under their own id, agreement (section 4.2 of
  "Practical Byzantine Fault Tolerance", Castro and Liskov, 1999), the exact cluster
  sizes at which the program's replicas agree (`PbftBounds`), for every other size
  the run in which they do not (`PbftDisagreement`), and when a correct primary's
  requests are served (`PbftProgress`). Both kinds of run are made of the rounds in
  `PbftRounds`; `PbftRules` tells what one message does.
- **Locks** (`Lock*.dfy`, `WaitForGraph.dfy`, `DeadlockTheorems.dfy`). The lock
  table, its in-place program, what each command does and how long a granted lock
  lasts (`LockOutcomes`), the depth-first search for a deadlock, agreement of
  replicas, and termination of deadlock resolution. `LockTheorems.LockServiceAgrees`
  joins the table to the Raft theorem.
- **Hash ring** (`Ring*.dfy`, `HashRing.dfy`) and **queue** (`LocalQueue.dfy`,
  `QueueService.dfy`, `QueueTheorems.dfy`, `QueueDelivery.dfy`, with
  `OrderedDicts.dfy`).
- **Cache** (`Cache*.dfy`): the two eviction policies, a node, and coherence of a
  cluster at two levels. In `CacheTheorems` and `CacheOwners` an operation is one step. In
  `CacheMessages` every handler is one, and what it sends waits in the receiver's
  queue; `CacheFreshness` says what readers may then rely on, `CacheOperations` proves
  whole operations to be runs of that finer machine, and `CacheSurprises` has the runs
  in which overlapping operations go wrong.
- **Aggregator** (`Dedup*.dfy`): the table, the stream with its consumer group, a
  step machine of any number of workers that may crash between any two awaits, and
  one round of the worker loop as a program that is proved to be a run of it.
  `DedupRepeats` has the interruptions that make an entry count twice, `DedupAudit`
  what the audit log tells, `DedupProgress` how the backlog is emptied.

`dafny verify dfyconfig.toml` checks everything.

## The two assumptions on Raft deliveries

The handlers are modelled exactly as they are written. They differ from the paper
in two places, and the architecture document's claim of Leader Completeness and
State Machine Safety (tugas-3/docs/architecture.md:66-71) holds only when neither
matters:

- A leader counts a success whatever term it comes from
  (tugas-3/src/consensus/raft.py:368-379). The first assumption, `FreshSuccess`, is
  that a leader receives no success of an earlier term.
- A follower caps its commit index by its own last index
  (tugas-3/src/consensus/raft.py:351-353), not by the end of the batch it has just
  matched, while batches are cut at fifty entries
  (tugas-3/src/consensus/raft.py:282). The second assumption, `CoveredCommit`, is
  that the commit index a follower takes over lies within what the message matched.

`RaftTheorems.LeaderCompleteness` and `RaftTheorems.StateMachineSafety` are proved
for every run that meets both. Neither can be dropped:
`RaftStaleSuccess.StaleSuccessIsUnsafe` is a run of five nodes in which only the
first fails, `RaftUncoveredCommit.UncoveredCommitIsUnsafe` one of any cluster of at
least three in which only the second fails, and in both two nodes apply different
commands at one position. Without them State Machine Safety holds on every run of a
cluster if and only if it has at most two nodes (`RaftSizes.SafetySizes`). Election
Safety, Leader Append-Only and Log Matching need no assumption.

## Where the code and its documents disagree

The code is followed in each case.

- tugas-3/docs/algorithms.md:115-116 calls PBFT safe for f up to (n-1)/3. With the
  quorums the code computes, the correct replicas agree on every run with at most
  that many faulty ones exactly when n is 3f + 1 or n is at most three, where f is
  zero (`PbftBounds.AgreementSizes`). At every other size an equivocating primary
  splits the correct replicas (`PbftBounds.CampsDisagree`; with five of them,
  `PbftBounds.FiveReplicasDisagree`). Under a correct primary they agree at any size.
- tugas-3/docs/algorithms.md:79-80 calls the cache linearizable for a single key
  because a write invalidates all copies before it succeeds. `put` only queues the
  invalidations and returns, so a peer may hit its old copy afterwards
  (`CacheSurprises.PutIsNotSeen`), and two puts that cross wipe out both values
  (`CacheSurprises.CrossedPutsAreLost`). A read that misses caches its answer without
  looking again, so an answer that a put has overtaken stays for good
  (`CacheSurprises.OvertakenAnswerStays`). Message by message, the copies of a key
  stay coherent exactly if every put and delete of it finds no line on another node
  and every answer still fits when it is cached (`CacheMessages.CoherentIffTimely`);
  a copy is stale only while its invalidation waits exactly if no answer is cached
  after it has been overtaken and no needed invalidation is lost
  (`CacheFreshness.CurrentIffCareful`).
- tugas-3/docs/architecture.md:130-131 says an invalidated line is evicted unless it
  was modified, and the comment at tugas-3/src/nodes/cache_node.py:300 agrees. The
  state is overwritten before it is compared, so the line always goes.
- The table at tugas-3/docs/architecture.md:120-125 has a miss end in E or S. A copy
  only ever comes from a peer, which reports it as shared, so no line is ever
  exclusive between operations.
- uas/report.md:157-160 states that once the backlog is empty `received` is
  `unique_processed` plus `duplicate_dropped`. That is so exactly when as many
  commits were repeats as events were counted and never published
  (`DedupTheorems.ReceivedAddsUp`). A worker that crashes between commit and
  acknowledgement breaks it (`DedupTheorems.CrashCountsTwice`), so does a publisher
  that dies between counting and publishing (`DedupTheorems.LostEventIsCounted`), and
  the two may cancel out (`DedupTheorems.LossHidesRepeat`). With neither lost events
  nor claims of entries that a live worker has in hand, the sum is right exactly when
  no worker was interrupted between a commit and its acknowledgement
  (`DedupRepeats.StatisticsAreInterruptions`).

## Model

| member | source | states |
|---|---|---|
| `RaftProgram.RaftNode.StepDown` | tugas-3/src/consensus/raft.py:117-123 | a later term clears the vote; an equal one keeps it; the node follows either way |
| `RaftProgram.RaftNode.StartCandidacy` | tugas-3/src/consensus/raft.py:125-133 | the term goes up by one and the node's only vote is its own |
| `RaftProgram.RaftNode.TakeLeadership` | tugas-3/src/consensus/raft.py:135-144 | every peer's next index is the log's length and its match index is -1, nothing else changes |
| `RaftProgram.RaftNode.Tick` | tugas-3/src/consensus/raft.py:180-210 | an election timeout sends one vote request per peer, with the last entry's index and term |
| `RaftProgram.RaftNode.HandleRequestVote` | tugas-3/src/consensus/raft.py:212-250 | a vote is granted exactly to an up-to-date candidate of at least the node's term that no other candidate has got the vote before |
| `RaftProgram.RaftNode.HandleVoteResponse` | tugas-3/src/consensus/raft.py:252-265 | only grants of the candidate's own term count; a majority makes it leader and sends a heartbeat to all |
| `RaftProgram.RaftNode.SendAppendEntries` | tugas-3/src/consensus/raft.py:271-298 | the message names the entry before the peer's next index and carries at most fifty entries from there |
| `RaftProgram.RaftNode.MergeEntries` | tugas-3/src/consensus/raft.py:328-349 | the entry-by-entry loop computes the closed form of the merge |
| `RaftProgram.RaftNode.HandleAppendEntries` | tugas-3/src/consensus/raft.py:300-366 | refusal of old terms and of missing previous entries; otherwise the merged log, the capped commit index and the matched index in the reply |
| `RaftProgram.RaftNode.ApplyEntries` | tugas-3/src/consensus/raft.py:399-415 | the callback sees exactly the commands between the last applied index and the commit index, in order |
| `RaftProgram.RaftNode.RecomputeCommitIndex` | tugas-3/src/consensus/raft.py:383-397 | the commit index becomes the highest own-term entry a majority has matched, or stays |
| `RaftProgram.RaftNode.HandleAppendResponse` | tugas-3/src/consensus/raft.py:368-381 | successes of any term set the match index, move the next index behind it and may commit; failures take the next index down, never below zero |
| `RaftProgram.RaftNode.Submit` | tugas-3/src/consensus/raft.py:417-436 | a leader appends one entry of its term at the end and sends it out; any other node refuses |
| `RaftLog.MergeOutcome` | tugas-3/src/consensus/raft.py:328-349 | the log is unchanged exactly when every term of the batch already matches in its place; any other merge ends the log with the batch |
| `RaftLog.MergedTerms` | tugas-3/src/consensus/raft.py:328-349 | the log before the batch is kept, and the batch's terms are in place after it: no gap |
| `RaftLog.MergeIsIdempotent` | tugas-3/src/consensus/raft.py:328-349 | delivering the same batch again at once changes nothing |
| `RaftLog.MergeKeepsAgreement` | tugas-3/src/consensus/raft.py:328-349 | a merge with a piece of a log keeps every prefix the two logs already share |
| `RaftElection.MajorityNamesLeader` | tugas-3/src/consensus/raft.py:252-265 | a majority of votes in a term that has a leader can only name that leader |
| `RaftElection.WinnerHas` | tugas-3/src/consensus/raft.py:212-250 | whoever wins a term holds every entry that a majority of an earlier term acknowledged or still may |
| `RaftCluster.PerformInv` | tugas-3/src/consensus/raft.py:212-436 | every step of every node, on any message ever sent, keeps the cluster invariant and rewrites no past vote, leader or acknowledgement |
| `RaftCluster.RunInv` | tugas-3/src/consensus/raft.py:212-436 | the invariant holds after every run from the initial cluster |
| `RaftTheorems.ElectionSafety` | tugas-3/src/consensus/raft.py:117-144 | two leaders of one term, at any two moments of a run, are the same node |
| `RaftTheorems.LeaderAppendOnly` | tugas-3/src/consensus/raft.py:417-427 | while a node leads a term its log grows only at its end, by entries of that term |
| `RaftTheorems.LogMatchingHolds` | tugas-3/src/consensus/raft.py:271-353 | equal terms at an index mean equal logs up to it, commands included, and every entry's index is its position |
| `RaftTheorems.LeadersHaveChosen` | tugas-3/src/consensus/raft.py:212-250 | with no assumption: what a majority acknowledged in the entry's own term is in the log of every later leader |
| `RaftTheorems.LeaderCompleteness` | tugas-3/docs/architecture.md:66-71 | the committed part of any node's log is in the log of every leader of its term or a later one, then or later |
| `RaftTheorems.StateMachineSafety` | tugas-3/docs/architecture.md:66-71 | the command sequences two nodes have applied, at any two moments, are prefixes of one another |
| `RaftTheorems.RunApplies` | tugas-3/src/consensus/raft.py:399-415 | no run takes back a command once applied |
| `RaftStaleSuccess.StaleSuccessIsUnsafe` | tugas-3/src/consensus/raft.py:368-379 | a run of five nodes, all commits covered, in which a stale success makes two nodes apply different commands |
| `RaftUncoveredCommit.UncoveredCommitIsUnsafe` | tugas-3/src/consensus/raft.py:351-353 | for any cluster of at least three nodes and any two of them, a run with all successes fresh in which the cap by the own last index makes the two apply different commands |
| `RaftPairs.PairRun` | tugas-3/src/consensus/raft.py:300-397 | in a cluster of two, on every run: everything either node has committed, applied or seen matched lies in a prefix that both logs share |
| `RaftSizes.SafetySizes` | tugas-3/docs/architecture.md:66-71 | with no assumption on deliveries, State Machine Safety holds on every run of a cluster if and only if it has at most two nodes |
| `RaftProgress.NextAfterSuccess` | tugas-3/src/consensus/raft.py:374-379 | after a success that matched up to entry i the next message to that peer names entry i and carries up to fifty entries from i + 1 on; messages to other peers differ in the commit index only |
| `RaftProgress.NextAfterRefusal` | tugas-3/src/consensus/raft.py:380-381 | after a refusal the next message to that peer starts one entry earlier, never before the first; nothing else changes |
| `RaftProgress.NewLeaderAsks` | tugas-3/src/consensus/raft.py:135-144 | whoever becomes leader sends every peer at once a message that names the last entry of its log and carries none |
| `RaftService.ReplicationCompletes` | tugas-3/src/consensus/raft.py:271-415 | from every reachable state with a leader: sends and replies between it and any other nodes not in a later term bring each of their logs to the leader's, and the match index to its last entry; a log that already starts with the leader's stays; if the last entry is of the leader's term and they make a majority, all of them commit and apply the whole log |
| `RaftService.CommandsAreServed` | tugas-3/src/consensus/raft.py:125-436 | in every cluster of at least two nodes, for any node and any list of commands: a run in which that node is elected and after which every node has applied exactly these commands, in order |
| `RaftRules.LaterTermIsAdopted` | tugas-3/src/consensus/raft.py:117-123 | a message of a later term makes whoever heeds it a follower in that term with no vote for anybody but its sender; in other roles vote and append responses change nothing |
| `RaftRules.EarlierTermIsRefused` | tugas-3/src/consensus/raft.py:212-313 | a request of an earlier term is refused under the node's own term and changes nothing; so does an earlier vote response |
| `RaftRules.VoteOutcome` | tugas-3/src/consensus/raft.py:220-250 | a vote is given exactly if the candidate's log ends in a later term, or in the same one and no earlier, and the node has voted for nobody else in that term; every request is answered |
| `RaftRules.LeaderIsKnown` | tugas-3/src/consensus/raft.py:311-318 | whoever takes a message of a leader follows it in its term and knows it as the leader |
| `RaftRules.SubmitOutcome` | tugas-3/src/consensus/raft.py:417-436 | in every reachable state: a leader's log gains the command as its last entry, nothing else of it changes, and every other node is sent what it still lacks at once; on any other node nothing happens |
| `PbftReplica.PbftNode.Submit` | tugas-3/src/consensus/pbft.py:85-125 | the primary assigns the next number, logs the request and sends the same pre-prepare to all peers; others refuse |
| `PbftReplica.PbftNode.HandlePrePrepare` | tugas-3/src/consensus/pbft.py:136-178 | only the primary's proposal with a matching digest is taken, and never over another digest for the number |
| `PbftReplica.PbftNode.HandlePrepare` | tugas-3/src/consensus/pbft.py:180-212 | a prepare with the digest of the replica's own entry is counted under its sender; at 2f or more of them, if the sender's commit is not in yet, a replica with the proposal adds its own commit and broadcasts it, again at each such prepare |
| `PbftReplica.PbftNode.HandleCommit` | tugas-3/src/consensus/pbft.py:214-247 | with 2f + 1 matching commits the request is executed, once per number |
| `PbftAgreement.RunInv` | tugas-3/src/consensus/pbft.py:136-247 | over every run with arbitrary forged messages: no correct replica's digest or request for a number ever changes, a commit vote counted under a correct id means that replica has the same digest logged, and what is committed has its votes |
| `PbftAgreement.CorrectInBoth` | tugas-3/src/consensus/pbft.py:214-230 | two quorums of 2f + 1 out of 3f + 1 share a replica that is not faulty |
| `PbftAgreement.PrimaryRules` | tugas-3/src/consensus/pbft.py:85-178 | as long as the primary is correct, every logged request is the primary's own for its number, whatever the faulty replicas send and however many there are |
| `PbftAgreement.Agreement` | tugas-3/src/consensus/pbft.py:136-247 | two correct replicas that execute under one number execute the same request, each only once: at the sizes 3f + 1 and up to three with at most f faulty replicas, even under an equivocating primary, and at any size under a correct one |
| `PbftBounds.SafeSizes` | tugas-3/src/consensus/pbft.py:46-72 | overlap of quorums only: any two of the computed size share a correct replica exactly when n is one more than a multiple of three |
| `PbftBounds.AgreementSizes` | tugas-3/docs/algorithms.md:115-116 | for every cluster with different ids and an injective digest: the correct replicas agree on every run with at most (n-1)/3 faulty ones if and only if n is 3f + 1 or at most three |
| `PbftBounds.CampsDisagree` | tugas-3/src/consensus/pbft.py:136-247 | wherever f faulty replicas, the primary among them, leave room for two camps of f + 1 correct ones, a run in which each camp executes a request of its own under number 1 |
| `PbftBounds.FiveReplicasDisagree` | tugas-3/src/consensus/pbft.py:136-247 | a run of five replicas, one faulty, in which two correct ones execute different requests under number 1 |
| `PbftProgress.RequestsAreServed` | tugas-3/src/consensus/pbft.py:85-247 | under a correct primary with at least three and at least 2f + 1 correct replicas: for every list of requests a run without forged messages that starts with the submission of the first and after which every correct replica has executed them all, in order, from number 1 |
| `PbftProgress.ServedIffEnough` | tugas-3/src/consensus/pbft.py:85-247 | with the faulty replicas silent, a run in which every correct replica executes a request exists if and only if the primary is correct and the correct replicas are at least three and at least 2f + 1 |
| `PbftRules.OtherProposalsAreIgnored` | tugas-3/src/consensus/pbft.py:142-153 | a proposal of another view, of another sender, or under a digest that is not its request's changes nothing anywhere |
| `PbftRules.ProposalOutcome` | tugas-3/src/consensus/pbft.py:155-178 | in every reachable state the primary's proposal is logged unless its number is taken, the replica's own prepare is counted, and it goes to every other replica |
| `PbftRules.PrepareOutcome` | tugas-3/src/consensus/pbft.py:184-212 | in every reachable state: the commit is added and sent to every other replica exactly with the proposal in, 2f prepares and no commit of the sender yet; otherwise nothing is sent |
| `LockManager.LockManagerNode.PromoteWaiters` | tugas-3/src/nodes/lock_manager.py:240-264 | the loop admits exactly the longest prefix of the queue that fits together, and nobody else |
| `LockManager.LockManagerNode.DoAcquire` | tugas-3/src/nodes/lock_manager.py:176-216 | granted to a free lock or shared on shared; otherwise an edge to every other holder and one place in the queue |
| `LockManager.LockManagerNode.DoRelease` | tugas-3/src/nodes/lock_manager.py:218-230 | the holder goes, a freed lock clears the client from the wait-for graph, and waiters are promoted |
| `LockManager.LockManagerNode.DoReleaseAll` | tugas-3/src/nodes/lock_manager.py:232-238 | releases in some order of the client's set, counting successes |
| `LockManager.LockManagerNode.ApplyCommand` | tugas-3/src/nodes/lock_manager.py:159-174 | every command takes the table to what the step relation allows, with its reply |
| `LockManager.DeadlockDetector.AddWait` | tugas-3/src/nodes/lock_manager.py:72-75 | one edge more, never from a client to itself |
| `LockManager.DeadlockDetector.RemoveClient` | tugas-3/src/nodes/lock_manager.py:77-83 | the client is neither waiting nor waited for, and no client waits for nobody |
| `LockManager.DeadlockDetector.DetectCycle` | tugas-3/src/nodes/lock_manager.py:89-120 | a list is returned exactly when the graph has a cycle, and it is one |
| `LockManager.DeadlockDetector.SelectVictim` | tugas-3/src/nodes/lock_manager.py:122-124 | the first client of maximal age on the list |
| `LockManager.LockManagerNode.DetectionRound` | tugas-3/src/nodes/lock_manager.py:335-346 | a leader submits the abort of a youngest client of a cycle exactly when there is a deadlock |
| `WaitForGraph.CycleSearch.Reconstruct` | tugas-3/src/nodes/lock_manager.py:98-106 | following the parents from a gray client gives a closed walk along real edges that repeats only its ends |
| `WaitForGraph.CycleSearch.Dfs` | tugas-3/src/nodes/lock_manager.py:95-112 | a cycle, or the client and all it leads to are black, numbered downwards along every edge; ends by the count of white clients |
| `WaitForGraph.CycleSearch.Run` | tugas-3/src/nodes/lock_manager.py:114-120 | sound and complete: a cycle exactly when one exists |
| `WaitForGraph.NumberingExcludesCycles` | tugas-3/src/nodes/lock_manager.py:95-120 | a numbering that every edge descends excludes every closed walk |
| `WaitForGraph.ClosedWalkHasCycle` | tugas-3/src/nodes/lock_manager.py:89-120 | wherever there is a closed walk there is one that repeats nobody |
| `LockTable.AppliedInv` | tugas-3/src/nodes/lock_manager.py:159-264 | every command keeps the table's invariant: exclusion, the exact reverse index, no double waiting, no grantable head |
| `LockTheorems.LocksAreSafe` | tugas-3/src/nodes/lock_manager.py:176-264 | after any command sequence an exclusive holder is alone, the reverse index is exact, nobody waits twice, and a queue means a held lock whose head does not fit |
| `LockOutcomes.AcquireOutcome` | tugas-3/src/nodes/lock_manager.py:176-216 | granted exactly if nobody holds the lock or all share it and it is asked for shared, and then in the mode asked for, with queue, other holders and graph as before; otherwise holders stay, the client gets an edge to every other holder and one place in the queue, the last if it had none; the first request sets its age |
| `LockOutcomes.ReleaseOutcome` | tugas-3/src/nodes/lock_manager.py:218-264 | the front of the queue comes in as far as it fits, one exclusive or all shared, each in its own mode; a last holder leaves the wait-for graph with its age and all edges among others stay; otherwise graph and ages do not change |
| `LockOutcomes.ReleaseAllOutcome` | tugas-3/src/nodes/lock_manager.py:232-264 | the same for every lock the client held and for no other; the client leaves the graph and every edge and age of others stays |
| `LockOutcomes.GrantedIsHeld` | tugas-3/src/nodes/lock_manager.py:159-264 | after any command sequence: a client whose request was granted holds the lock in the mode it asked for until a release or abort of its own |
| `LockOutcomes.ExclusiveIsAlone` | tugas-3/src/nodes/lock_manager.py:159-264 | after any command sequence: an exclusive lock that was granted excludes every other holder until its holder frees it |
| `LockTheorems.ReleaseAllIs` | tugas-3/src/nodes/lock_manager.py:232-238 | the reply is the size of the client's set, and the result does not depend on the order of release |
| `LockTheorems.KeepsOnlyWhatItQueuedFor` | tugas-3/src/nodes/lock_manager.py:232-264 | after releasing everything a client holds a resource only if it was itself queued on it |
| `LockTheorems.ReplicasStep` | tugas-3/src/nodes/lock_manager.py:159-174 | one command on two replicas that agree: they agree again and give the same reply, whatever order and clock each has |
| `LockTheorems.ReplicasAgree` | tugas-3/src/nodes/lock_manager.py:159-174 | the same command list gives the same locks, waiters, wait-for edges and replies on every replica |
| `LockTheorems.LockServiceAgrees` | tugas-3/src/nodes/lock_manager.py:127-174 | on a careful Raft run, nodes that have applied equally many commands have the same lock table and gave the same replies |
| `DeadlockTheorems.MoveShrinks` | tugas-3/src/nodes/lock_manager.py:218-238 | with no acquire a step adds no edge; a detection picks a waiting client, and the abort, applied later, takes it out of the graph |
| `DeadlockTheorems.RoundsAreBounded` | tugas-3/src/nodes/lock_manager.py:335-346 | detections that pick a victim not already being aborted, plus clients still waiting for themselves, never exceed those that waited at first, whatever releases come between a detection and its abort |
| `DeadlockTheorems.AwaitedRoundsAreBounded` | tugas-3/src/nodes/lock_manager.py:335-346 | a detector whose submissions do not time out makes at most as many rounds as clients waited at first |
| `DeadlockTheorems.DeadlocksAreCleared` | tugas-3/src/nodes/lock_manager.py:335-346 | from every table detecting and aborting in turn leads to one without a deadlock, in at most as many rounds as clients wait |
| `RingOrder.BisectRight` | tugas-3/src/nodes/queue_node.py:58 | the binary search finds the first point after the given one |
| `RingOrder.SortedIsUnique` | tugas-3/src/nodes/queue_node.py:52-58 | a sorted ring is determined by its points and their multiplicity |
| `HashRing.ConsistentHashRing.AddNode` | tugas-3/src/nodes/queue_node.py:52-58 | the ring stays the sorted list of the members' points, the new node's included |
| `HashRing.ConsistentHashRing.RemoveNode` | tugas-3/src/nodes/queue_node.py:60-64 | the node's points go, all others stay in order |
| `HashRing.ConsistentHashRing.GetNode` | tugas-3/src/nodes/queue_node.py:66-73 | the first node clockwise from the key, also past the end of the ring; none on an empty ring |
| `HashRing.ConsistentHashRing.GetNNodes` | tugas-3/src/nodes/queue_node.py:75-94 | the walk ends and returns the first n distinct nodes in order of appearance, from any start index and for any n |
| `HashRing.PlacementIsMembership` | tugas-3/src/nodes/queue_node.py:52-64 | two histories of additions and removals with the same members give the identical ring |
| `RingTheorems.NodesAgreeOnPlacement` | tugas-3/src/nodes/queue_node.py:181-186 | nodes that add the same cluster in different orders agree on every primary and every replica list |
| `RingTheorems.ReplicasAre` | tugas-3/src/nodes/queue_node.py:75-94 | min(n, members) different members, headed by the primary |
| `RingTheorems.DistinctInOrder` | tugas-3/src/nodes/queue_node.py:84-94 | the nodes come in the order in which they first appear clockwise |
| `RingTheorems.StartIsFirstLargerHash` | tugas-3/src/nodes/queue_node.py:69-72 | with names below the sentinel a key starts at the first point with a larger hash |
| `RingTheorems.PointsAreVirtualNodes` | tugas-3/src/nodes/queue_node.py:52-58 | the ring has a point at the hash of every node's name with every virtual node's number, and no other; different numbers are written differently |
| `RingTheorems.RemovalDisruptsOnlyItsKeys` | tugas-3/src/nodes/queue_node.py:60-94 | without node b a key's n nodes are its n + 1 nodes of before with b struck out, cut to n |
| `RingTheorems.AdditionMovesKeysOnlyToIt` | tugas-3/src/nodes/queue_node.py:52-94 | a new node becomes the primary of a key or leaves its primary alone, and replica lists change only by it |
| `RingTheorems.AdditionUndone` | tugas-3/src/nodes/queue_node.py:52-64 | adding a node and removing it again restores the identical ring |
| `QueueService.QueueNode.constructor` | tugas-3/src/nodes/queue_node.py:170-206 | an empty node whose ring has exactly the peers and itself |
| `QueueService.QueueNode.StoreLocal` | tugas-3/src/nodes/queue_node.py:316-319 | the message goes to the end of its own queue |
| `QueueService.QueueNode.PopLocal` | tugas-3/src/nodes/queue_node.py:351-366 | the first visible message goes into flight and the rest keep their cyclic order around it; with none visible nothing changes |
| `QueueService.QueueNode.RequeueExpired` | tugas-3/src/nodes/queue_node.py:410-422 | every overdue message goes from flight to the end of its queue, one after the other |
| `QueueService.QueueNode.OnPeerFailure` | tugas-3/src/nodes/queue_node.py:250-261 | the failed peer's replicas become messages of this node |
| `QueueService.QueueNode.Ack` | tugas-3/src/nodes/queue_node.py:380-398 | a message in flight is forgotten and counted, its own replica dropped, and exactly the other replica nodes are told |
| `QueueService.QueueNode.HandleReplicate` | tugas-3/src/nodes/queue_node.py:326-330 | the replica is kept under its id |
| `QueueService.QueueNode.HandleAck` | tugas-3/src/nodes/queue_node.py:400-403 | the replica of the id is dropped |
| `QueueService.QueueNode.Dequeue` | tugas-3/src/nodes/queue_node.py:332-349 | expiry first, then a delivery from the local queue; with none there every peer is asked, in order |
| `QueueService.QueueNode.HandleDequeue` | tugas-3/src/nodes/queue_node.py:368-378 | a peer is served from the local queue without an expiry first |
| `QueueService.QueueNode.Enqueue` | tugas-3/src/nodes/queue_node.py:263-314 | a new message is placed on the nodes the ring names, here or by packets, and the two placement counters go up; refused on an empty ring |
| `QueueTheorems.PlacementReachesAll` | tugas-3/src/nodes/queue_node.py:285-306 | the first node of the list queues the message and every other one mirrors it, by exactly the packets to nodes other than the sender |
| `QueueTheorems.MessagesStay` | tugas-3/src/nodes/queue_node.py:316-422 | over any interleaving an id once queued or in flight stays so, with its content, until that id is acknowledged on this node |
| `QueueTheorems.AcknowledgedIsGone` | tugas-3/src/nodes/queue_node.py:380-398 | an acknowledged id that was stored once is neither queued nor in flight any more; the node's mirror forgets it only if the message lists the node as a replica; no other id is affected |
| `QueueTheorems.DeliveriesAddUp` | tugas-3/src/nodes/queue_node.py:351-422 | over any run the unaccounted deliveries are exactly those of ids that were in flight already |
| `QueueTheorems.StatisticsAddUp` | tugas-3/src/nodes/queue_node.py:351-422 | dequeued is acked plus redelivered plus in flight exactly when no id was delivered while in flight, in particular when each is stored once |
| `QueueTheorems.ExpiryIs` | tugas-3/src/nodes/queue_node.py:410-422 | closed form of expiry: the overdue messages of a queue follow its old contents in order, and exactly the others stay in flight |
| `QueueDelivery.PopOutcome` | tugas-3/src/nodes/queue_node.py:351-366 | a pop returns the first visible message with one delivery more and has it in flight under its id; every expiry up to the end of the visibility timeout leaves it there, and a later one puts it back at the end of its queue |
| `QueueDelivery.VisibilityTimeout` | tugas-3/src/nodes/queue_node.py:351-422 | over any run after a delivery in which no id is stored twice: the message is not delivered again before its acknowledgement or an expiry past the timeout, and such an expiry puts it back at the end of its queue |
| `QueueDelivery.FirstInFirstOut` | tugas-3/src/nodes/queue_node.py:316-366 | with nothing hidden, pops return what was queued and then what was stored, in that order |
| `QueueDelivery.NoticeForgets` | tugas-3/src/nodes/queue_node.py:386-403 | an acknowledgement is told to every replica node but the node itself, and whoever is told drops its mirror of that id and nothing else |
| `QueueTheorems.FailureIs` | tugas-3/src/nodes/queue_node.py:250-261 | closed form of a peer's failure: exactly its replicas leave the mirror, and they join the ends of their queues in order, with this node as their primary |
| `CacheService.CacheNode.EnsureCapacity` | tugas-3/src/nodes/cache_node.py:151-164 | victims leave one by one until a line fits or the policy has none |
| `CacheService.CacheNode.GetBegin` | tugas-3/src/nodes/cache_node.py:166-180 | a valid line answers at once and counts as a use; a miss waits for a future of its own and every peer is sent a fetch |
| `CacheService.CacheNode.GetEnd` | tugas-3/src/nodes/cache_node.py:180-197 | an answered read caches its answer after making room; one without gives up, changes no line, and takes the key's latest future with it |
| `CacheService.CacheNode.HandleResponse` | tugas-3/src/nodes/cache_node.py:282-292 | an answer goes to the latest future of its key, whichever read that belongs to, and only once |
| `CacheService.CacheNode.Put` | tugas-3/src/nodes/cache_node.py:199-220 | the line is modified, with the next version, the policy is told of an insert or a use, and every peer is sent an invalidation |
| `CacheService.CacheNode.Delete` | tugas-3/src/nodes/cache_node.py:222-227 | the line and its policy entry go, the reply says whether there was one, and every peer is sent an invalidation |
| `CacheService.CacheNode.HandleFetch` | tugas-3/src/nodes/cache_node.py:257-280 | a valid copy becomes shared and is sent to whoever asked, marked shared unless it was exclusive |
| `CacheService.CacheNode.HandleInvalidate` | tugas-3/src/nodes/cache_node.py:294-303 | the line goes, whatever its state, and with it its policy entry |
| `CacheService.LRUPolicy.Evict` | tugas-3/src/nodes/cache_node.py:67-71 | the oldest key of the order leaves; none from an empty order |
| `CacheService.LFUPolicy.Evict` | tugas-3/src/nodes/cache_node.py:87-92 | the first key with the smallest count leaves; none from an empty table |
| `CachePolicy.LruVictimIsOldest` | tugas-3/src/nodes/cache_node.py:52-71 | after any calls the victim is the key whose last insert or access is oldest |
| `CachePolicy.LfuVictimIsLeastUsed` | tugas-3/src/nodes/cache_node.py:74-92 | after any calls the cache makes, the victim has the fewest uses since it came in |
| `CacheTheorems.RoomIs` | tugas-3/src/nodes/cache_node.py:151-164 | making room evicts lines only, no more of them than is needed for one more line, and keeps policy and cache in step |
| `CacheTheorems.PoliciesAgree` | tugas-3/src/nodes/cache_node.py:151-227 | after any run the policy knows exactly the cached keys and the size is at most the limit, for a limit of at least one |
| `CacheTheorems.NoRoomIsOverfull` | tugas-3/src/nodes/cache_node.py:151-164 | with a limit below one the size passes it as soon as something is put |
| `CacheVictims.VictimAfterRun` | tugas-3/src/nodes/cache_node.py:52-92 | after any run of operations a node's next victim is the cached key whose last insert or access in that run is oldest (LRU), or the one used least in it since it came in (LFU) |
| `CacheVictims.OpReplayed` | tugas-3/src/nodes/cache_node.py:151-227 | the calls one operation makes on a node's policy, evictions included, always access known keys, insert new ones, and give the node's new policy |
| `CacheTheorems.CachesAreCoherent` | tugas-3/src/nodes/cache_node.py:166-303 | after any run of whole operations all copies are the last value put and of one version, a modified copy is alone, and no line is exclusive or invalid |
| `CacheTheorems.ReadsReturnLastPut` | tugas-3/src/nodes/cache_node.py:166-197 | with whole operations: a read finds a value exactly when some node has a copy, and it is the last one put since the last delete |
| `CacheOwners.ModifiedIsOwned` | tugas-3/src/nodes/cache_node.py:166-303 | after any run of whole operations a line is modified exactly if its node put the key last and nobody has asked its peers for it since |
| `CacheOwners.PutOutcome` | tugas-3/src/nodes/cache_node.py:199-220 | a put leaves the writer with the only line of the key, modified, one version above the line it had |
| `CacheOwners.AnswerOutcome` | tugas-3/src/nodes/cache_node.py:257-280 | a fetch is answered exactly from a valid copy, with its value and version, flagged shared unless the copy was exclusive, and leaves the copy shared |
| `CacheTheorems.WritesAreRead` | tugas-3/src/nodes/cache_node.py:199-227 | once every peer has handled the invalidation: after a put every node reads the new value, after a delete none reads any |
| `CacheReads.SentIsQueued` | tugas-3/src/nodes/cache_node.py:229-250 | a node whose peers are all the others sends exactly the messages that the machine puts into their queues: an invalidation to each at a put or delete, a fetch to each at a miss |
| `CacheReads.LatestReadIsAnswered` | tugas-3/src/nodes/cache_node.py:240-292 | in every reachable state: a read that misses and is answered next returns and caches the answer, an earlier read of the key that still waited gets nothing, and later answers are dropped |
| `CacheMessages.FillIsCoherent` | tugas-3/src/nodes/cache_node.py:177-197 | caching an answer on coherent caches leaves them coherent if and only if it is marked shared, its value is still the last one put, and every other copy of the key is shared and has its version |
| `CacheMessages.WriteIsCoherent` | tugas-3/src/nodes/cache_node.py:199-220 | a put on coherent caches leaves them coherent, before its invalidations are handled, if and only if no other node has a line of the key |
| `CacheMessages.EraseIsCoherent` | tugas-3/src/nodes/cache_node.py:222-227 | the same for a delete |
| `CacheMessages.CoherentIffTimely` | tugas-3/src/nodes/cache_node.py:166-303 | message by message, over any run: the copies of a key stay coherent if and only if every put and delete of it finds no line elsewhere and every answer about it fits when it is cached |
| `CacheFreshness.CurrentIffCareful` | tugas-3/src/nodes/cache_node.py:166-303 | over any run: every copy has the last value put or its invalidation waits in its node's queue, all along, if and only if no overtaken answer is cached and no invalidation of a stale copy is lost |
| `CacheFreshness.HitIsCurrent` | tugas-3/src/nodes/cache_node.py:166-175 | as long as that holds, a hit on a node with no invalidation of the key in its queue returns the last value put |
| `CacheFreshness.CoherentReadsAreLast` | tugas-3/src/nodes/cache_node.py:166-197 | while the copies of a key stay coherent, every hit and every completed miss of it returns the last value put |
| `CacheFreshness.FreeWritesAreCoherent` | tugas-3/src/nodes/cache_node.py:166-303 | if every put and delete of a key finds no line elsewhere and no answer about it under way, its copies stay coherent and every read returns the last value put, with late answers, time-outs and losses anywhere |
| `CacheFreshness.UndisturbedReadIsCoherent` | tugas-3/src/nodes/cache_node.py:166-197 | the same while nobody writes the key, from a state in which its copies are coherent and the answers under way agree with them |
| `CacheOperations.OperationsAreRun` | tugas-3/src/nodes/cache_node.py:166-303 | any row of whole operations is a run of the machine of messages, with the same caches and the same last values whenever nothing is under way |
| `CacheSurprises.PutIsNotSeen` | tugas-3/docs/algorithms.md:79-80 | from empty caches on any two nodes: put, read elsewhere, put again, and the next read over there returns the first value |
| `CacheSurprises.OvertakenAnswerStays` | tugas-3/src/nodes/cache_node.py:180-197 | from empty caches on any two nodes: an answer that a put overtakes is cached, and the node goes on reading the old value with nothing left in its queue |
| `CacheSurprises.CrossedPutsAreLost` | tugas-3/src/nodes/cache_node.py:199-220 | from empty caches on any two nodes: two puts that cross invalidate each other, and no node has a line of the key |
| `DedupService.Database.ProcessEvent` | uas/aggregator/app/db.py:57-92 | one transaction: the first event of a key is stored and counted as unique, any other as duplicate, each with an audit row |
| `DedupService.Database.IncrReceived` | uas/aggregator/app/db.py:50-55 | the received counter goes up by the number of events |
| `DedupService.Broker.Publish` | uas/aggregator/app/broker.py:47-49 | the event becomes the stream's last entry |
| `DedupService.Broker.ReadGroup` | uas/aggregator/app/broker.py:51-58 | the next entries nobody has had become pending under the worker |
| `DedupService.Broker.ClaimStale` | uas/aggregator/app/broker.py:60-77 | stale entries change owner and stay pending |
| `DedupService.Broker.Ack` | uas/aggregator/app/broker.py:79-81 | exactly the pending ones of the listed entries become acknowledged |
| `DedupService.ClaimRound` | uas/aggregator/app/consumer.py:20-26 | on every fifth idle round the claimed entries are processed and acknowledged one by one up to the first failure, which ends the round |
| `DedupService.ReadRound` | uas/aggregator/app/consumer.py:28-46 | a batch is processed entry by entry and exactly the entries that did not fail are acknowledged together |
| `DedupService.WorkerRound` | uas/aggregator/app/consumer.py:18-50 | one undisturbed round is a run of the step machine, with exactly these commits and acknowledgements |
| `DedupTheorems.StepKeeps` | uas/aggregator/app/consumer.py:18-50 | every step of every worker, crashes and failures included, keeps the invariant and takes nothing back |
| `DedupTheorems.ExactlyOnceEffect` | uas/aggregator/app/db.py:57-92 | after any run: one row and one "new" audit row per stored key, unique is the number of rows, unique plus duplicate the number of commits, and no entry acknowledged before its key is stored |
| `DedupTheorems.DrainedMeansStored` | uas/aggregator/app/consumer.py:18-46 | when every entry is acknowledged the stored keys are exactly the published keys and unique is their number |
| `DedupTheorems.NothingIsForgotten` | uas/aggregator/app/consumer.py:18-46 | every entry is unread, claimable or acknowledged |
| `DedupAudit.StepCommits` | uas/aggregator/app/consumer.py:18-46 | a step commits one entry under its own worker's name, with one audit row, the row of the table only if the key is new, and the right counter; any other step leaves the table as it is |
| `DedupAudit.AuditTellsAll` | uas/aggregator/app/db.py:57-92 | after any run the audit log has a row for every commit in order, marked new exactly if no earlier row has its key; the table has the events of the new rows, numbered in that order, and the counters count the new rows and the others |
| `DedupProgress.OwnersAre` | uas/aggregator/app/broker.py:51-77 | a claim hands exactly the stale entries to the worker, a read exactly the next ones that nobody had, at most fifty |
| `DedupProgress.IdleCounts` | uas/aggregator/app/consumer.py:17-32 | a worker counts its empty reads since the last that brought something or since it started, and nothing else moves the count |
| `DedupProgress.BacklogDrains` | uas/aggregator/app/consumer.py:18-50 | from every reachable state a worker at the top of its loop has a run of its own without failures after which every published entry is acknowledged and its key stored |
| `DedupTheorems.RowsStay` | uas/aggregator/app/db.py:57-92 | a stored row is never overwritten or removed |
| `DedupTheorems.ReceivedAddsUp` | uas/report.md:157-160 | when every entry is acknowledged and no publisher is between counting and publishing: received is unique plus duplicate exactly when the commits are as many as the entries plus the events counted and never published |
| `DedupTheorems.ReceivedAddsUpWithoutLoss` | uas/report.md:157-160 | in such a system, if no event was lost so: exactly when no entry was committed twice |
| `DedupTheorems.CrashCountsTwice` | uas/aggregator/app/consumer.py:21-24 | a worker that crashes between commit and acknowledgement makes one event count twice |
| `DedupTheorems.LostEventIsCounted` | uas/aggregator/app/main.py:80-82 | a publisher that dies between counting and publishing makes received too large, with no entry committed twice |
| `DedupTheorems.LossHidesRepeat` | uas/aggregator/app/main.py:80-82 | a lost event and a repeated commit cancel out, so the sum is right although an entry was committed twice |
| `DedupRepeats.RepeatsAreInterruptions` | uas/aggregator/app/consumer.py:18-46 | if claims take only what no worker has in hand, then once all is acknowledged no entry was committed twice exactly when no crash, error after a commit or failed acknowledgement parted a commit from its acknowledgement |
| `DedupRepeats.StatisticsAreInterruptions` | uas/report.md:157-160 | if besides no request failed with events still to publish: received is unique plus duplicate in the drained system exactly when there was no such interruption |

## Left out

- LeaderCompleteness: assumes fresh successes and covered commits on every delivery, because without them it is false of these handlers (see the runs above). A run that breaks them may still be safe by luck; that converse is not stated.
- StateMachineSafety: assumes the same two conditions, for the same reason; `SafetySizes` has the clusters that need none.
- LockServiceAgrees: inherits the two conditions from StateMachineSafety.
- Agreement: with a faulty primary it assumes 3f + 1 replicas or at most three, as it is false at every other size (`AgreementSizes`), and an injective digest; the digest is a truncated hash.
- CachesAreCoherent: speaks of whole operations, each with all its messages handled before the next, as do ReadsReturnLastPut and WritesAreRead; `CoherentIffTimely` and `CurrentIffCareful` have the exact conditions when messages wait.
- FreeWritesAreCoherent: its condition on answers under way is not a necessary one, as such an answer may be lost or ignored; the exact condition is that of `CoherentIffTimely`.
- RepeatsAreInterruptions: leaves out claims of entries that a live worker has in hand, after which an entry may or may not be committed twice.
- RoundsAreBounded: counts a second detection of a client whose abort is still under way as no new victim, because `submit` gives up after five seconds and the detector may look again.
- MessagesStay: each operation of the queue node is one step, though the source awaits its log between two effects of `ack`.
- ReplicasStep: compares tables up to clocks; which clients have an age agrees, the values of the ages need not, as every node reads its own clock.
- ReplicasAgree: the same, over whole command lists.
- PoliciesAgree: with a limit below one the bound proved is one line, which is what the code keeps.
- Timers, random election timeouts, heartbeat intervals, asyncio scheduling and logging: a timeout or a delivery is a step that may be taken at any time.
- In Raft and PBFT message delay, loss and duplication are one thing: a message stays in the network and may be delivered at any time, any number of times, or never. The caches have the in-process bus as it is, one queue in order per receiver, whose messages may be lost.
- Every cache node has all the others as its peers.
- Crashes of Raft and PBFT nodes: the persistent state is never written to disk by the source, so a restart is not modelled.
- The futures that `submit` resolves by log index, and the client loops with their timeouts; after a leader change a future may carry the result of another command.
- Sender ids inside Raft payloads are taken to equal the sender of the message, as every sender writes them.
- A PBFT request's timestamp and client are folded into one request value; view change does not exist in the source.
- Early PBFT messages are dropped by the code and therefore by the model; execution in sequence order is not promised by either.
- Leases of locks and their expiry loop: an expiry is an ordinary release command. Request ids of waiters are left out.
- The wait-for graph is not claimed to mirror the lock table: one release erases the client's edges for all resources.
- Iteration order of sets and of the wait-for dictionary is arbitrary in the model; the results hold for every order.
- Hash functions are uninterpreted. The ring needs no absence of collisions; balance of load is not stated.
- A remote dequeue stores the delivered message at the requester as if newly enqueued; the two nodes are modelled one at a time, so the copy is only seen as a store of an id.
- Queue log files, their replay and the Redis mirror; replay does not forget acknowledged messages.
- Cache metrics, the access time and access count of a line, and the state-change message nobody acts on.
- Which stream entries count as stale is the stream's choice and any pending entry may be claimed; entries that cannot be decoded are not produced by the publisher and are left out.
- Database isolation: a transaction is one step, as the unique constraint makes it.
- The failure detector, HTTP servers, the demo, benchmarks, the earlier single-worker aggregator under `uts`, and the practical exercises: plumbing, or simpler than what is here.
- ReplicationCompletes: says how far the nodes apply, not what they had applied before; that it is the same commands is StateMachineSafety, under its two conditions. It excludes a leader that talks to nobody, which never commits, as the commit index is computed only on a response.
- RequestsAreServed: the faulty replicas are silent; what they may spoil by sending is the subject of Agreement.
- VisibilityTimeout: assumes that no id is stored twice, as a node that queues a replica of a message in flight delivers it again.
- That elections, consensus and lock acquisition do come about is not promised by the code and not stated; for Raft and PBFT the runs in which they do are there, and the conditions under which there are any.
