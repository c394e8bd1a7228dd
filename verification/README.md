# Verified model of a message broker's core

This project models the parts of the ChimeraMQ broker whose correctness is hard to see from the code, and proves what
they promise. `dafny verify dfyconfig.toml` checks all of it (Dafny 4.11).

- **Raft consensus** (`Raft*.dfy`, `LogCodec.dfy`, `Metadata*.dfy`).
  `RaftHandlers` has one function for each lock hold of a node; the class in `RaftNode.dfy`, with its log in
  `RaftLog.dfy`, computes those functions step by step. `RaftProtocol` is a cluster of nodes with messages that may be
  lost, repeated and reordered, and with crashes; a run is any sequence of its steps.
  `RaftElection` and `RaftMatching` prove Election Safety and Log Matching over all runs. `RaftSafety`,
  `RaftCompleteness` and `RaftTheorems` prove Leader Completeness and State Machine Safety over all guarded runs (see
  below). `RaftIntegrity` proves that nothing is applied that was not proposed, `RaftSteps` what each delivered message
  does, `RaftCatchUp` that fast rollback converges. `RaftStaleAnswer` and `RaftStaleSend`, on top of `RaftScenario`, show
  that both halves of the
  guard are needed. The reference is the extended Raft paper of Ongaro and Ousterhout, sections 5.2 to 5.4 and Figure 3.
- **Consumer groups** (`GroupLayouts.dfy`, `Sticky*.dfy`, `ConsumerGroup.dfy`, `GroupRuns.dfy`): the three
  partition allocators, that sticky allocation moves as little as possible (.project/SPECIFICATION.md:650), and whole
  runs of joins, leaves, expiries and rebalances.
- **Priority dispatcher** (`Priority*.dfy`):
  work conservation, no overtaking and conservation of messages over whole runs.
- **Formats** (`Bytes.dfy`, `Envelope*.dfy`, `ColdArchive*.dfy`, `ColdArchiver.dfy`): the envelope codec against
  a value, the cold archive against a map.
- **Matchers** (`TopicMatch.dfy`, `Exchange.dfy`): the backtracking topic matcher against the meaning of its patterns
  (AMQP 0-9-1, section 3.1.3.3), and the MQTT filter matcher (MQTT 3.1.1, section 4.7.1) against both.
- **Streams and flow** (`EventWindows.dfy`, `WindowedJoin.dfy`, `TokenBucket.dfy`): windows, the windowed join and
  the token bucket.

## What turned out not to hold

The model keeps what the code does; each of these has a lemma that shows it, and where there is a sharp boundary
between what holds and what does not, the lemma gives it as an if-and-only-if.

- `replicateLog` checks that the node leads only once, before its first send (internal/cluster/raft/node.go:428), and
  does not compare terms again when an answer returns (internal/cluster/raft/node.go:453-480). A leader that lost and
  regained leadership in between takes an old answer for a new one and commits an entry that a later leader
  overwrites: `RaftStaleAnswer.UnguardedRunsAreUnsafe` is such a run of five nodes. A leader that lost its place and
  part of its log in the middle of a round sends a request from beyond its log, with which a follower skips a committed
  command for good: `RaftStaleSend.LateSendsAreUnsafe`. The safety theorems are for runs in which a node that sends or
  uses an answer is still the leader of the term it started the round in (`RaftProtocol.OnTerm`). Election Safety and
  Log Matching hold without that.
- Deleting topic `a` also forgets the partitions of a topic called `a:b` (`MetadataFsm.StepRepresents`,
  `MetadataFsm.ColonsCollide`).
- Sticky rebalancing does not balance: a newcomer gets nothing as long as nobody holds more than target + 1
  (`ConsumerGroups.NewcomersStarve`, `ConsumerGroups.NewcomerExample`). `StickyResults.StickyBalanced` says exactly when
  the result is balanced. A member whose name is empty is taken for "nobody" and may stop the steal loop early
  (`StickyResults.NamelessHoards`, `StickyResults.HiddenExample`); `StickyResults.StickyEnds` says exactly when.
- A dispatcher consumer whose ID is empty is taken for "nobody" as well, and its messages are also queued
  (`PriorityRuns.NamelessDuplicates`; `PriorityRuns.AcceptedExactlyOnce` says exactly when). Raising a consumer's limit
  does not flush (`PriorityRuns.RaisedLimit`, `PriorityRuns.LimitConserving`).
- A cold archive loses its last segment unless the highest offset of the metadata has an entry or the entries fill
  whole segments (`ColdArchiveProofs.NothingLost`, `ColdArchiveProofs.TailIsLost`). A segment that starts at 4 GB is
  looked for in the wrong place (`ColdArchiveProofs.IndexFits`, `ColdArchiveProofs.WrappedSegmentLost`).
- A message with a header key longer than 65535 bytes is accepted and does not come back (`EnvelopeProofs.LongKeyLost`,
  `EnvelopeProofs.RoundTrip`).
- The MQTT matcher and the topic matcher differ on filters with `#` inside or a level called `*`
  (`TopicMatch.MatchersAgree` has the exact class of filters).
- An event with a negative time may enter a fixed window that does not contain it (`EventWindows.FixedMisses`,
  `EventWindows.FixedContains`), and enters at most one sliding window (`EventWindows.SlidingExactly`).

## Model

| member | source | states |
|---|---|---|
| `RaftElection.ElectionSafety` | internal/cluster/raft/node.go:294-366 | in every run, two leaders of one term, at any two moments, are the same node |
| `RaftElection.ElectionPreserved` | internal/cluster/raft/node.go:579-612 | every step keeps the election invariant: one vote per term, counted voters are distinct peers that voted, leaders have a majority |
| `RaftElection.MajoritiesMeet` | internal/cluster/raft/node.go:314-319 | two quorums of size (n+1)/2+1 with n peers have a common member |
| `RaftElection.LeaderStaysInRuns` | internal/cluster/raft/node.go:362-391 | the recorded leader of a term never changes later in a run |
| `RaftMatching.LogMatching` | internal/cluster/raft/node.go:535-559 | in every run, logs with the same term at an index, on any two nodes at any two moments, are equal up to there and numbered without gaps |
| `RaftMatching.RequestMatching` | internal/cluster/raft/node.go:437-450 | the same between a log and an AppendEntries in flight, down to the entry before the request |
| `RaftMatching.MergeResult` | internal/cluster/raft/node.go:544-559 | merging the rest of a leader's log into a log that agrees before it gives the leader's log, or the longer log if it already agreed |
| `RaftMatching.MatchingPreserved` | internal/cluster/raft/node.go:376-381 | every step, guarded or not, keeps the matching invariant |
| `RaftMatching.LogsGrowInRuns` | internal/cluster/raft/node.go:162-187 | the log of a term's leader is only ever appended to while it leads |
| `RaftSafety.SafetyPreserved` | internal/cluster/raft/node.go:426-503 | every guarded step keeps the safety invariant |
| `RaftSafety.SafetyInRuns` | internal/cluster/raft/node.go:426-576 | the election, matching and safety invariants hold at every moment of every guarded run |
| `RaftSafety.ConflictIndexBound` | internal/cluster/raft/node.go:652-665 | the conflict index is at least 1 and never beyond the probed index |
| `RaftSafety.CommandsSplit` | internal/cluster/raft/node.go:506-514 | applying in two batches gives the same commands as applying in one |
| `RaftCompleteness.Complete` | internal/cluster/raft/node.go:595-608 | what a quorum has acknowledged in a term is in the log of the leader of every later term |
| `RaftTheorems.StateMachineSafety` | internal/cluster/raft/node.go:506-514 | in every guarded run no two nodes, at any two moments, apply different entries at an index |
| `RaftTheorems.AppliedIsPrefix` | internal/cluster/raft/node.go:506-514 | the commands one node has applied are a prefix of those of any node that is further on |
| `RaftTheorems.CommittedPrefixesAgree` | internal/cluster/raft/node.go:486-503 | the committed prefixes of any two nodes, at any two moments, agree |
| `RaftTheorems.LeaderCompleteness` | internal/cluster/raft/node.go:595-608 | a leader whose term is at least that of a node has everything the node took as committed |
| `RaftTheorems.RequestsReachCommit` | internal/cluster/raft/node.go:434-450 | every AppendEntries in flight reaches at least to the commit index it carries |
| `RaftTheorems.CommitIndexNeverRegresses` | internal/cluster/raft/node.go:565-573 | unless a node restarts its commit index never decreases, and never passes its last log index |
| `RaftIntegrity.AppliedWasProposed` | internal/cluster/raft/node.go:162-187 | in every run, what a node hands to its state machine is a command that was proposed before to the leader of that term and took that place in its log |
| `RaftIntegrity.CommandsExactly` | internal/cluster/raft/node.go:510-512 | what is applied of a stretch of log is exactly its command entries |
| `RaftIntegrity.CommandsInOrder` | internal/cluster/raft/node.go:506-514 | of a stretch of log each command entry is applied once, in the order of the log |
| `RaftIntegrity.HighestExactly` | internal/cluster/raft/node.go:486-503 | the commit index moves to the highest entry of the leader's own term that a majority has, and to no other |
| `RaftIntegrity.ConflictExactly` | internal/cluster/raft/node.go:651-665 | the conflict index is where the run of equal terms begins that holds the last entry up to the probed index |
| `RaftSteps.HigherTermWins` | internal/cluster/raft/node.go:461-465 | a delivered request or answer of a higher term makes any node a follower of that term; an answer changes nothing else and leaves no vote |
| `RaftSteps.TermsNeverFall` | internal/cluster/raft/node.go:394-402 | in every run, once a node has handled a message of some term it is never again of a lower one |
| `RaftSteps.NoLeaderOfOldTerm` | internal/cluster/raft/node.go:461-465 | in every run no node leads a term after it has heard of a later one |
| `RaftSteps.VoteExactly` | internal/cluster/raft/node.go:579-612 | a vote is granted if and only if the node is free to vote in that term and the candidate's log is not behind; what a refusal leaves alone |
| `RaftSteps.CountExactly` | internal/cluster/raft/node.go:346-356 | a reply counts if and only if it is a vote for the election the node still stands in; the vote that makes it more than half elects it |
| `RaftSteps.SubmitExactly` | internal/cluster/raft/node.go:162-187 | a leader takes a proposal as the next entry of its log, and nobody else takes one |
| `RaftSteps.LearnExactly` | internal/cluster/raft/node.go:467-478 | what a leader learns from an answer of its term about that peer, and that it learns nothing about others |
| `RaftSteps.AdvanceExactly` | internal/cluster/raft/node.go:486-514 | the commit index moves to the highest committable entry if there is one beyond it, and everything up to there is applied |
| `RaftSteps.AcceptExactly` | internal/cluster/raft/node.go:517-576 | a request is accepted if and only if it is of no lower term and the entry before it agrees; how far the commit index rises; what a refusal reports |
| `RaftCatchUp.Refused` | internal/cluster/raft/node.go:471-478 | a refusal leaves both logs alone and strictly lowers nextIndex |
| `RaftCatchUp.AcceptedLog` | internal/cluster/raft/node.go:544-559 | the request that is accepted makes the follower equal to the leader on all the leader's indices |
| `RaftCatchUp.CatchUp` | internal/cluster/raft/node.go:437-480 | for any follower log that matches the leader's, the loop of attempts ends, with fewer refusals than the first nextIndex |
| `RaftStaleAnswer.UnguardedRunsAreUnsafe` | internal/cluster/raft/node.go:453-480 | a run in which only answers are used off their term and two nodes apply different entries at index 2 |
| `RaftStaleSend.LateSendsAreUnsafe` | internal/cluster/raft/node.go:437-451 | a run in which only sends are off their term and two nodes that have applied equally far have applied different commands, one of them beyond its log |
| `RaftLogStore.RaftLog.Append` | internal/cluster/raft/log.go:71-75 | appends, and keeps the log contiguous if the entry has the next index |
| `RaftLogStore.RaftLog.LastIndex` | internal/cluster/raft/log.go:78-89 | the index of the last entry, or firstIndex - 1 |
| `RaftLogStore.RaftLog.LastTerm` | internal/cluster/raft/log.go:92-99 | the term of the last entry, or 0 |
| `RaftLogStore.RaftLog.Get` | internal/cluster/raft/log.go:102-117 | an entry exactly for the indices of the log, and then the one with that index |
| `RaftLogStore.RaftLog.Range` | internal/cluster/raft/log.go:120-144 | the existing entries from one index up to another |
| `RaftLogStore.RaftLog.TruncateAfter` | internal/cluster/raft/log.go:147-159 | keeps exactly the entries up to the index, and contiguity |
| `RaftLogStore.RaftLog.TermAt` | internal/cluster/raft/log.go:186-193 | the term at an index of the log, 0 elsewhere |
| `RaftNodes.RaftNode.StartElection` | internal/cluster/raft/node.go:294-336 | refines the election step, with the vote request it sends |
| `RaftNodes.RaftNode.HandleRequestVote` | internal/cluster/raft/node.go:579-612 | refines the vote step: reply and new state |
| `RaftNodes.RaftNode.HandleVoteReply` | internal/cluster/raft/node.go:339-356 | refines counting a vote; a reply of a higher term makes the node a follower of that term without a vote |
| `RaftNodes.RaftNode.BecomeLeader` | internal/cluster/raft/node.go:362-391 | refines taking over, with the no-op entry, and keeps the log contiguous |
| `RaftNodes.RaftNode.BecomeFollower` | internal/cluster/raft/node.go:394-402 | refines stepping down |
| `RaftNodes.RaftNode.Propose` | internal/cluster/raft/node.go:162-187 | refines appending a command; refused unless leader |
| `RaftNodes.RaftNode.BuildAppend` | internal/cluster/raft/node.go:437-450 | refines building the request for one peer |
| `RaftNodes.RaftNode.HandleAppendReply` | internal/cluster/raft/node.go:455-480 | refines the reaction to an answer; one of a higher term makes the node a follower of that term without a vote |
| `RaftNodes.RaftNode.CountReplicas` | internal/cluster/raft/node.go:490-496 | counts the node and the peers whose matchIndex reaches the index |
| `RaftNodes.RaftNode.AdvanceCommitIndex` | internal/cluster/raft/node.go:486-503 | refines moving the commit index to the highest entry of the current term on a majority |
| `RaftNodes.RaftNode.ApplyCommitted` | internal/cluster/raft/node.go:506-514 | refines applying the committed commands, in order, once each |
| `RaftNodes.RaftNode.FindConflictIndex` | internal/cluster/raft/node.go:652-665 | refines the search for the first index of the conflicting term |
| `RaftNodes.RaftNode.HandleAppendEntries` | internal/cluster/raft/node.go:517-576 | refines the follower's step: reply, merged log, commit index, applied entries; entries numbered on from within the log keep it contiguous |
| `LogCodec.EncodeLog` | internal/cluster/raft/log_binary.go:23-57 | the buffer filled by the moving offset is the encoding |
| `LogCodec.DecodeLog` | internal/cluster/raft/log_binary.go:60-118 | the loop computes the decoding function |
| `LogCodec.RoundTrip` | internal/cluster/raft/log_binary.go:23-118 | a log comes back from its bytes if and only if it fits the fixed-width fields |
| `LogCodec.CutDecodes` | internal/cluster/raft/log_binary.go:60-118 | any prefix of an encoding: the whole decodes to the log, every shorter one is refused |
| `LogCodec.TruncationDetected` | internal/cluster/raft/log_binary.go:84-109 | every strict prefix of an encoding is refused |
| `Bytes.BigEndianDigit` | internal/cluster/raft/log_binary.go:32-39 | in a field of w bytes the most significant byte comes first |
| `MetadataFsm.MetadataFSM.ApplyCommand` | internal/cluster/raft/fsm.go:74-95 | refines the state machine's step for every command; fails exactly on malformed ones |
| `MetadataFsm.MetadataFSM.SweepAssignments` | internal/cluster/raft/fsm.go:118-125 | deleting while walking the map in any order removes exactly the swept keys |
| `MetadataFsm.MetadataFSM.ApplyJoinGroup` | internal/cluster/raft/fsm.go:140-161 | the member is in the group with these topics, and other groups are as they were |
| `MetadataFsm.MetadataFSM.ApplyLeaveGroup` | internal/cluster/raft/fsm.go:163-180 | the member goes, the others stay, and the group goes exactly with its last member; other groups are as they were |
| `MetadataFsm.MetadataFSM.GetAssignment` | internal/cluster/raft/fsm.go:201-205 | looks up the key of topic and partition |
| `MetadataFsm.KeyInjective` | internal/cluster/raft/fsm.go:135-136 | a key determines topic and partition, whatever the topic is called |
| `MetadataFsm.SweptExactly` | internal/cluster/raft/fsm.go:118-123 | deleting a topic sweeps exactly the keys of that topic and of topics that extend it with a colon |
| `MetadataFsm.LookupIsLatest` | internal/cluster/raft/fsm.go:108-138 | after any commands a lookup gives the latest assignment of the pair that no later delete covers, if and only if there is one |
| `MetadataFsm.StepRepresents` | internal/cluster/raft/fsm.go:108-138 | string keys and pair keys stay in step over a command if and only if it deletes no topic that an assigned one extends with a colon |
| `MetadataFsm.ReplayRepresents` | internal/cluster/raft/fsm.go:108-138 | over colon-free topics the index is a map keyed by pairs, for every run and query |
| `MetadataFsm.ColonsCollide` | internal/cluster/raft/fsm.go:118-123 | deleting `a` forgets `a:b` |
| `MetadataMeaning.MemberIsLatest` | internal/cluster/raft/fsm.go:140-180 | after any commands a member is in a group if and only if some join of it has no later leave, with the topics of the last join |
| `MetadataMeaning.GroupExists` | internal/cluster/raft/fsm.go:153-178 | after any commands a group exists if and only if it has a member |
| `MetadataMeaning.TopicIsLatest` | internal/cluster/raft/fsm.go:97-117 | after any commands a topic has an entry if and only if that is its last creation and no later delete names it |
| `MetadataMeaning.ItoaIsDecimal` | internal/cluster/raft/fsm.go:249-251 | partition numbers in keys are decimal, without leading zeros |
| `MetadataReplicas.ReplicasAgree` | internal/cluster/raft/node.go:506-514 | nodes that have applied equally far hold the same metadata, at any moments of any guarded run |
| `MetadataReplicas.ReplicaBehind` | internal/cluster/raft/node.go:506-514 | the metadata of a node further on follows from an earlier one by the commands in between |
| `ConsumerGroups.ConsumerGroup.Rebalance` | internal/engine/stream/consumer_group.go:157-197 | from any state: an empty group ends without assignments, any other with every partition owned by exactly one member, as its strategy allocates; it is the rebalancing step of the runs below |
| `ConsumerGroups.ConsumerGroup.RebalanceRange` | internal/engine/stream/consumer_group.go:199-217 | member i holds exactly the interval from i*q+min(i,r) on; lists and map are inverse and cover all partitions |
| `ConsumerGroups.ConsumerGroup.RebalanceRoundRobin` | internal/engine/stream/consumer_group.go:219-225 | member i holds exactly the partitions congruent to i, in order |
| `ConsumerGroups.ConsumerGroup.RebalanceSticky` | internal/engine/stream/consumer_group.go:230-291 | the four phases compute the sticky allocation; the open-ended loop ends |
| `ConsumerGroups.ConsumerGroup.MemberWithFewest` | internal/engine/stream/consumer_group.go:293-304 | the first member with the shortest list |
| `ConsumerGroups.ConsumerGroup.Extremes` | internal/engine/stream/consumer_group.go:263-279 | the fullest member above target + 1 and the emptiest below target, in one scan |
| `ConsumerGroups.ConsumerGroup.SortedNames` | internal/engine/stream/consumer_group.go:183-187 | the member names, sorted, whatever order the map is walked in |
| `ConsumerGroups.ConsumerGroup.Join` | internal/engine/stream/consumer_group.go:62-70 | undisturbed, a join ends with the newcomer among the members and every partition owned by exactly one of them; it is two steps of the runs below |
| `ConsumerGroups.ConsumerGroup.Leave` | internal/engine/stream/consumer_group.go:73-78 | the one that left owns nothing, the others own everything; two steps of the runs below |
| `ConsumerGroups.ConsumerGroup.HeartbeatTick` | internal/engine/stream/consumer_group.go:312-327 | nobody overdue is left; if anybody was, the others own everything, else nothing changes |
| `ConsumerGroups.ConsumerGroup.DropExpired` | internal/engine/stream/consumer_group.go:313-324 | removes exactly the members whose last heartbeat is too old, as a step of the runs below |
| `ConsumerGroups.FairShares` | internal/engine/stream/consumer_group.go:199-225 | under Range and RoundRobin the first n mod m members hold one partition more than the others |
| `ConsumerGroups.CongruentSize` | internal/engine/stream/consumer_group.go:219-225 | a member's round-robin list has k / m partitions, and one more for the first k mod m members |
| `ConsumerGroups.CongruentMember` | internal/engine/stream/consumer_group.go:219-225 | the list holds exactly the partitions that leave i when divided by m |
| `ConsumerGroups.Deterministic` | internal/engine/stream/consumer_group.go:183-196 | the allocation does not depend on the order in which the member map is walked |
| `GroupLayouts.SortedUnique` | internal/engine/stream/consumer_group.go:187-187 | a set of names has one sorted listing |
| `GroupLayouts.LessMeans` | internal/engine/stream/consumer_group.go:187-187 | the order of names: a proper beginning comes first, else the first difference decides |
| `StickyLayout.FullestFacts` | internal/engine/stream/consumer_group.go:267-279 | what the scan finds is the longest list above target + 1, if any |
| `StickyLayout.EmptiestFacts` | internal/engine/stream/consumer_group.go:267-279 | what the scan finds is the shortest list below target, if any |
| `StickyResults.FewestIsFirst` | internal/engine/stream/consumer_group.go:293-304 | of several members with the shortest list the first is chosen |
| `StickyResults.FullestIsFirst` | internal/engine/stream/consumer_group.go:267-274 | of several fullest members the first is stolen from |
| `StickyResults.EmptiestIsFirst` | internal/engine/stream/consumer_group.go:275-278 | of several emptiest members the first is stolen for |
| `StickyLayout.StealSums` | internal/engine/stream/consumer_group.go:285-289 | a theft takes one from the total excess over target + 1 and one from the total deficit below target, and keeps the total |
| `StickyLayout.StealKeeps` | internal/engine/stream/consumer_group.go:285-289 | a theft keeps lists and map inverse |
| `StickyLayout.LevelKeeps` | internal/engine/stream/consumer_group.go:259-290 | the steal loop keeps lists and map inverse, stops, only shortens lists down to target + 1 or lengthens them up to target, and lowers excess and deficit alike |
| `StickyLayout.StickyCovers` | internal/engine/stream/consumer_group.go:230-291 | every partition ends with exactly one owner, a member |
| `StickyResults.StickyEnds` | internal/engine/stream/consumer_group.go:262-290 | for every group: the steal loop ends with nobody above target + 1 or nobody below target if and only if no member without a name hides what is left to do |
| `StickyResults.LevelEnds` | internal/engine/stream/consumer_group.go:262-290 | the loop runs until nobody is above, or nobody below, the bounds that a member without a name may shift; each theft lowers all sums by one |
| `StickyResults.NamelessHoards` | internal/engine/stream/consumer_group.go:281-283 | a member without a name that held everything keeps everything, and the loop does not get where it wants |
| `StickyResults.HiddenExample` | internal/engine/stream/consumer_group.go:281-283 | three partitions held by a member without a name: another one gets none although the target is 1 |
| `StickyResults.FillSums` | internal/engine/stream/consumer_group.go:252-257 | giving out orphaned partitions leaves the excess over target + 1 alone and lowers the deficit below target one by one |
| `StickyResults.StickyKeeps` | internal/engine/stream/consumer_group.go:236-242 | a partition leaves an owner that stays only if that owner held more than target + 1 before the call; it keeps at least target + 1, all of them from before |
| `StickyResults.StickyBalanced` | internal/engine/stream/consumer_group.go:227-229 | the result is balanced if and only if the excess over target + 1 among the previous holdings is what the orphaned partitions leave of the deficit below target, and a member without a name is neither above nor below |
| `StickyMoves.StickyMovesLeast` | internal/engine/stream/consumer_group.go:259-290 | the steal loop moves no more partitions than any other way, from the same start, to end with nobody above target + 1 or nobody below target |
| `StickyMoves.AtLeast` | internal/engine/stream/consumer_group.go:259-290 | every such way moves at least the smaller of the excess over target + 1 and the deficit below target |
| `StickyMoves.LevelChanges` | internal/engine/stream/consumer_group.go:285-289 | the loop changes at most one owner for each unit of excess it removes |
| `ConsumerGroups.NewcomersStarve` | internal/engine/stream/consumer_group.go:271-271 | if all owners stay and none holds more than target + 1, nothing moves |
| `ConsumerGroups.NewcomerExample` | internal/engine/stream/consumer_group.go:271-271 | two partitions held by one member: a second one gets none |
| `GroupRuns.EveryPartitionOwned` | internal/engine/stream/consumer_group.go:62-78 | in every run, after each rebalance of a non-empty group every partition has exactly one owner, a member; at all times all partitions are assigned or none |
| `GroupRuns.OwnersStick` | internal/engine/stream/consumer_group.go:230-291 | from one sticky rebalance to the next a partition leaves a remaining owner only if that owner held more than target + 1, and the owner ends with at least target + 1 of them |
| `PriorityDispatchers.PriorityDispatcher.TryDispatchToConsumer` | internal/engine/queue/priority.go:95-119 | refines one walk round the ring |
| `PriorityDispatchers.PriorityDispatcher.FlushQueued` | internal/engine/queue/priority.go:122-134 | refines flushing all levels from the highest down |
| `PriorityDispatchers.PriorityDispatcher.DispatchMessage` | internal/engine/queue/priority.go:54-92 | refines dispatch; where work is conserved, a consumer with room whose limit reaches the priority gets the message, and if there is none it waits at the end of the queue of its priority |
| `PriorityMeaning.DispatchMeans` | internal/engine/queue/priority.go:54-92 | the same of the function, without reference to levels |
| `PriorityMeaning.AlwaysInPlace` | internal/engine/queue/priority.go:85-89 | in every run each waiting message is in the queue of the priority, up to 9, that it was accepted with |
| `PriorityMeaning.ServedByPriority` | internal/engine/queue/priority.go:121-147 | in every run, of two waiting messages within reach of a joining consumer, the one of the lower priority is not handed out before the other |
| `PriorityMeaning.RemoveMeans` | internal/engine/queue/priority.go:150-163 | the first consumer of that name goes with its limit; the others keep order, messages and limits |
| `PriorityDispatchers.PriorityDispatcher.AddConsumer` | internal/engine/queue/priority.go:137-147 | refines joining, with its flush |
| `PriorityDispatchers.PriorityDispatcher.RemoveConsumer` | internal/engine/queue/priority.go:150-163 | refines leaving, and keeps the ring index valid |
| `PriorityDispatchers.PriorityDispatcher.SetConsumerMaxPriority` | internal/engine/queue/priority.go:44-51 | refines setting a limit, cut to 9 |
| `PriorityFacts.ScanFacts` | internal/engine/queue/priority.go:95-119 | the first consumer in ring order that takes the level gets the message and the turn passes on behind it; else nothing changes but the turn |
| `PriorityFacts.TryFacts` | internal/engine/queue/priority.go:95-119 | an attempt fails, and then changes nothing, exactly if no consumer takes the level |
| `PriorityFacts.FlushQueueFacts` | internal/engine/queue/priority.go:124-131 | a level is served first in, first out, until nobody takes it; what remains is a suffix |
| `PriorityFacts.FlushFacts` | internal/engine/queue/priority.go:122-134 | after a flush nobody takes a level that has messages waiting |
| `PriorityFacts.FlushHonoursPriority` | internal/engine/queue/priority.go:122-134 | a consumer that gets a message in a flush can take none of the higher levels that still have one waiting |
| `PriorityFacts.DispatchIsSimple` | internal/engine/queue/priority.go:71-91 | where work is conserved the flush inside Dispatch does nothing: first taker or queue |
| `PriorityRuns.RunsKeep` | internal/engine/queue/priority.go:54-163 | in every run: valid ring index, nobody with room can take a waiting level, nobody exceeds its prefetch, each accepted offset is in exactly one queue or consumer, present or gone |
| `PriorityRuns.NothingOvertaken` | internal/engine/queue/priority.go:71-74 | in every run, a consumer that gets a message from Dispatch could take nothing that was waiting, at any level |
| `PriorityRuns.FlushLoad` | internal/engine/queue/priority.go:122-134 | a flush neither loses nor doubles a message |
| `PriorityRuns.LimitConserving` | internal/engine/queue/priority.go:44-51 | a new limit keeps work conserved if and only if no waiting level comes within reach of that consumer while it has room |
| `PriorityRuns.RaisedLimit` | internal/engine/queue/priority.go:44-51 | raising a limit from 1 to 9 leaves a waiting message of level 5 to a consumer with room |
| `PriorityRuns.AcceptedExactlyOnce` | internal/engine/queue/priority.go:71-91 | where work is conserved, a fresh message is put in exactly one place if and only if nobody takes its level or the first consumer in ring order that does has a name |
| `PriorityRuns.NamelessDuplicates` | internal/engine/queue/priority.go:72-91 | a new dispatcher that a consumer without a name has joined: the first message is not in exactly one place |
| `ColdArchiver.Collect` | internal/storage/cold/archive.go:84-109 | the merged map holds, for each offset, the cell of the last table that has it; and the bounds |
| `ColdArchiveProofs.LatestExactly` | internal/storage/cold/archive.go:91-109 | the cell of an offset is that of the last table that holds it |
| `ColdArchiveProofs.BoundsExactly` | internal/storage/cold/archive.go:93-98 | the bounds are those of some table and include those of all |
| `ColdArchiver.WriteSegments` | internal/storage/cold/archive.go:115-166 | data and index are those of the entries cut into segments |
| `ColdArchiver.Create` | internal/storage/cold/archive.go:75-216 | fails exactly if no table holds anything; else the bytes of the file |
| `ColdArchiver.OpenFile` | internal/storage/cold/archive.go:220-280 | computes the opening function, with its refusals |
| `ColdArchiver.GetValue` | internal/storage/cold/archive.go:283-333 | computes the reading function |
| `ColdArchiveProofs.PackFacts` | internal/storage/cold/archive.go:125-166 | segments keep the order of the entries; what is left over is none if the highest offset has an entry, else the count modulo 1000 |
| `ColdArchiveProofs.OpenBack` | internal/storage/cold/archive.go:182-189 | an archive of any size opens with the bounds and the index it was written with, as far as its 32-bit segment count reaches |
| `ColdArchiveProofs.IndexFits` | internal/storage/cold/archive.go:151-162 | what the index says of a segment is right if and only if the segment starts below 4 GB and is shorter than that |
| `ColdArchiveProofs.WrappedSegmentLost` | internal/storage/cold/archive.go:162-162 | a segment that starts at 4 GB cannot be read |
| `ColdArchiveProofs.ScanFinds` | internal/storage/cold/archive.go:308-329 | scanning a segment finds the entry of the offset, or nothing |
| `ColdArchiveProofs.ArchiveIsMap` | internal/storage/cold/archive.go:75-333 | create, open and Get answer every offset like the merged map, except for entries of an unclosed last segment |
| `ColdArchiveProofs.NothingLost` | internal/storage/cold/archive.go:148-165 | every entry can be read back if and only if the highest offset has one or the count is a multiple of 1000 |
| `ColdArchiveProofs.TailIsLost` | internal/storage/cold/archive.go:148-165 | a table with one entry below its upper bound: the entry is not found |
| `EnvelopeCodec.Marshal` | internal/message/codec.go:20-167 | the encoding of the envelope, or a refusal on the limits; nothing of the recycled buffer shows |
| `EnvelopeCodec.MarshalHeadersTo` | internal/message/headers.go:34-45 | writes the headers in walking order and nothing before them |
| `EnvelopeCodec.Unmarshal` | internal/message/codec.go:176-287 | computes the decoding function, with its refusals |
| `EnvelopeCodec.UnmarshalHeaders` | internal/message/headers.go:48-76 | computes the header decoding function |
| `EnvelopeProofs.HeadersRoundTrip` | internal/message/headers.go:34-76 | in whatever order headers are written, the same map comes back |
| `EnvelopeProofs.RoundTrip` | internal/message/codec.go:20-287 | an accepted message comes back as what is carried of it, for every header order, if and only if no header key is longer than 65535 bytes |
| `EnvelopeProofs.TruncationDetected` | internal/message/codec.go:247-283 | every strict prefix of an accepted message is refused |
| `EnvelopeProofs.HeaderLayout` | internal/message/headers.go:7-7 | length of the key, key, length of the value, value |
| `EnvelopeProofs.FlagBits` | internal/message/codec.go:92-109 | the five flags say whether there are headers, a routing key, a trace, a time to live and a delivery time |
| `EnvelopeProofs.LongKeyLost` | internal/message/headers.go:37-39 | a message with one longer key is accepted and comes back as something else |
| `EnvelopeProofs.DecodedKeysFit` | internal/message/headers.go:55-60 | decoded keys are never longer than 65535 bytes |
| `EnvelopeProofs.DeliveryBack` | internal/message/codec.go:236-245 | the shared eight bytes give back the time to live, else the delivery time, else the counters |
| `TopicMatch.MatchParts` | internal/engine/exchange/exchange.go:155-186 | the backtracking matcher ends and decides the word-by-word match |
| `TopicMatch.MatchMeans` | internal/engine/exchange/exchange.go:138-140 | word by word is the same as: the key can be cut into pieces, one for each word of the pattern |
| `TopicMatch.TopicMatches` | internal/engine/exchange/exchange.go:141-153 | topicMatch decides the meaning of the pattern; both shortcuts agree |
| `TopicMatch.SplitJoins` | internal/engine/exchange/exchange.go:149-150 | splitting undoes joining and leaves no separator in a word |
| `TopicMatch.FilterMatches` | internal/protocol/mqtt/topics.go:37-72 | the two-index loop decides the level-by-level match |
| `TopicMatch.FilterMeans` | internal/protocol/mqtt/topics.go:33-36 | a filter matches exactly if the levels match one by one up to the end of both, or up to a `#` with the topic going on or nothing but `#` after it |
| `TopicMatch.MatchersAgree` | internal/protocol/mqtt/topics.go:37-72 | for every filter string: the MQTT matcher means the same as the exchange pattern with `+` for `*` on all topic strings if and only if the filter is portable |
| `TopicMatch.JoinSplits` | internal/protocol/mqtt/topics.go:38-39 | every list of words without separators is what some string splits into |
| `TopicMatch.UsualFilters` | internal/protocol/mqtt/topics.go:33-36 | filters with `#` only last and no level called `*` are portable |
| `Exchanges.Exchange.RouteTopic` | internal/engine/exchange/exchange.go:110-118 | the destinations of all bindings whose pattern means the key, each once, in the order of the bindings |
| `Exchanges.RouteAfterBind` | internal/engine/exchange/exchange.go:50-58 | after a bind the answer is the old one, followed by the new destination exactly if its pattern means the key |
| `Exchanges.RouteAfterUnbind` | internal/engine/exchange/exchange.go:61-70 | after an unbind the answer lacks that destination once, at its place, exactly if its pattern means the key |
| `Exchanges.Exchange.Unbind` | internal/engine/exchange/exchange.go:61-70 | only the first such binding goes |
| `EventWindows.SlidingExactly` | internal/processing/window.go:135-166 | an event at a time from 0 on enters exactly the windows opened at multiples of slide that contain it, at a negative time only one that opens then, and each once |
| `EventWindows.FixedContains` | internal/processing/window.go:116-120 | the fixed window contains the event if and only if the time is not negative or a multiple of the size |
| `EventWindows.FixedMisses` | internal/processing/window.go:116-120 | one nanosecond before 0 a window is opened that does not contain the event |
| `EventWindows.InsertConserves` | internal/processing/window.go:204-221 | an insertion keeps the balance of inserted, emitted and open events and bytes, per window and key |
| `EventWindows.EmitConserves` | internal/processing/window.go:84-89 | so does an emission |
| `EventWindows.InsertPeaks` | internal/processing/window.go:218-220 | an insertion keeps that every open state knows the greatest time of its events |
| `EventWindows.WindowManager.AddEvent` | internal/processing/window.go:60-72 | inserts into exactly the windows of the event, and keeps the balance |
| `EventWindows.WindowManager.FirstStart` | internal/processing/window.go:142-148 | walking back from the latest window gives the same windows as going up from 0 |
| `EventWindows.WindowManager.Tick` | internal/processing/window.go:75-92 | emits states of exactly the windows that are over, leaves the others alone, and keeps the balance |
| `EventWindows.WindowManager.CloseAll` | internal/processing/window.go:102-114 | at the end every inserted event has been emitted, with its bytes in order of arrival |
| `WindowedJoin.JoinOp.AddLeft` | internal/processing/join.go:61-90 | joins with the first close record of the key or buffers; no buffered pair is joinable, emitted pairs are close and of one key, each record is in exactly one place |
| `WindowedJoin.JoinOp.AddRight` | internal/processing/join.go:93-122 | the same from the other side |
| `WindowedJoin.JoinOp.Tick` | internal/processing/join.go:125-133 | exactly the fresh records of each key are left, and only old ones have expired |
| `WindowedJoin.ExpireRecords` | internal/processing/join.go:148-163 | keeps exactly the fresh records of each key, in order, and accounts for the others |
| `WindowedJoin.KeptOrExpired` | internal/processing/join.go:150-155 | every record of a list is either kept or expired |
| `WindowedJoin.CloseMeans` | internal/processing/join.go:165-170 | close means that the times differ by no more than the window, either way |
| `WindowedJoin.PushMeans` | internal/processing/join.go:85-89 | a buffered record is the last of its key |
| `WindowedJoin.DropMeans` | internal/processing/join.go:75-78 | the other records of the key keep their order |
| `TokenBucket.RateLimit.AllowOne` | internal/flow/controller.go:326-351 | refines one call of the limiter; it refuses exactly if no token is left and none comes |
| `TokenBucket.RefillExactly` | internal/flow/controller.go:334-344 | after k whole seconds a bucket holds the smaller of the maximum and its tokens plus k times the rate |
| `TokenBucket.RefusedExactly` | internal/flow/controller.go:334-350 | a call is refused if and only if no token is left and no whole second has passed since the last refill, or the limit is zero |
| `TokenBucket.BurstFromCreation` | internal/flow/controller.go:315-351 | from creation on the first calls, up to the limit, are all allowed |
| `TokenBucket.BurstLater` | internal/flow/controller.go:326-351 | calls that begin a second or more after the last refill are allowed up to the smaller of the maximum and the rate |
| `TokenBucket.CallsBound` | internal/flow/controller.go:326-351 | tokens stay within 0 and max, and allowed calls plus tokens never exceed the start plus rate times the whole seconds |
| `TokenBucket.BoundFromCreation` | internal/flow/controller.go:315-351 | over time T from creation at most max + rate * floor(T) calls are allowed |
| `TokenBucket.BoundInRun` | internal/flow/controller.go:326-351 | over any later stretch of time T at most max + rate * (floor(T) + 1) |

## Left out

- Raft snapshots and log compaction: the log starts at index 1 and terms are at least 1. A snapshot is labelled with the last log index and not with the applied one (internal/cluster/raft/snapshot.go:50-57), so the safety theorems are for runs without snapshots.
- Raft liveness, timers and election timeouts; a single-node leader never advances its commit index (internal/cluster/raft/node.go:314-319).
- Raft persistence and transports: a restarted node keeps term, vote and log; a failed RPC is a message that is never delivered. On the error path replicateLog unlocks its mutex and continues its loop without locking again (internal/cluster/raft/node.go:456-459); the model has no lock to misuse.
- Raft configuration: the peers of a node are all other nodes, once each (internal/cluster/manager.go:71-77), and no node has an empty name, which the source would take for "no vote".
- RaftProtocol.OnTerm: the guard is an assumption on runs. It is proved to be sufficient for commit safety, and for each of its two halves a run without it is shown to be unsafe; which unguarded runs happen to be safe is not characterised.
- Machine integers: offsets, terms, indices, times and counts are unbounded, so that no counter wraps around. The archive loops do not end in the source for an offset of 2^64-1. Widths are modelled where bytes are written.
- JSON decoding of metadata commands is a parameter; JSON snapshots of the metadata are not modelled.
- ConsumerGroups.ConsumerGroup: a member's record is split into two maps, and committed offsets and the offset store are not modelled.
- PriorityDispatchers.PriorityDispatcher: consumers are values in the dispatcher's list; that the queue engine refers to the same consumers is not captured. In-flight entries have no times, and are never freed, as nothing in the repository frees them.
- The acknowledgement tracker, the plain dispatcher and the delay scheduler of the queue engine.
- Compression in the cold tier, and the inside of SSTables: a table is its bounds and its answers.
- ColdArchiveProofs.ArchiveIsMap: for archives whose segments all start below 4 GB and are shorter than that, where the index is right; where it is wrong, what a misplaced segment reads depends on the bytes of the values, which may look like entries.
- ColdArchiveProofs.NothingLost: for the same archives.
- Buffer pool growth and the zero-copy payload of the envelope codec; the content type of an envelope, which is not encoded.
- Direct, fanout and headers exchanges; MQTT topic mapping and retained messages. The MQTT rule that a leading wildcard does not match a topic that begins with `$` is not in the code, and so not in the model.
- Session windows: a new session overwrites a window with the same opening time (internal/processing/window.go:195-201).
- Key extractors of the join; its records carry their key.
- Slow-consumer tracking and memory limits of the flow controller.
- STOMP, AMQP, MQTT, WebSocket and gRPC servers, gossip, geo-replication, authentication, storage engines, metrics, command line and user interface.
