/** The safety invariant holds in every state of every guarded run. */
module RaftSafety {
  import Bytes
  import opened RaftTypes
  import opened RaftHandlers
  import opened RaftProtocol
  import opened RaftElectionInv
  import opened RaftMatchingInv
  import opened RaftSafetyInv
  import opened RaftGrowth
  import RaftElection
  import RaftMatching
  import RaftCompleteness

  // ----- putting the invariant together after a step of n -----

  lemma Assemble(s: Cluster, s': Cluster, n: NodeId, b: Node, d: Diary)
    requires SafetyInv(s) && n in s.nodes && n in s.diaries
    requires s'.nodes == s.nodes[n := b] && s'.diaries == s.diaries[n := d]
    requires DiaryGrows(s.diaries[n], d) && VotesStay(s.diaries[n], d, s.leaders, n)
    requires LogsGrow(s.logs, s'.logs) && LeadersGrow(s.leaders, s'.leaders)
    requires NodeSafe(s'.diaries, s'.leaders, s'.logs, d, b)
    requires forall u :: u in d.votes && u !in s.diaries[n].votes ==> VoteSafe(s'.diaries, s'.leaders, s'.logs, n, u)
    requires forall u :: u in d.bids && u !in s.diaries[n].bids ==> Good(d.bids[u], s'.logs) && Sorted(d.bids[u]) && Bounded(d.bids[u], u - 1)
    requires LeaderLogs(s'.diaries, s'.leaders, s'.logs)
    requires MessagesSafe(s')
    ensures SafetyInv(s')
  {
    hide NodeSafe, VoteSafe, NodesSafe, VotesSafe, BidsSafe, LeaderLogs, MessagesSafe, LogsGrow, LeadersGrow, Good, Sorted, Bounded, VotesStay;
    OneGrows(s.diaries, n, d);
    NodesGrow(s.diaries, s.leaders, s'.leaders, s.logs, s'.logs, s.nodes, n, b, d);
    VotesGrow(s.diaries, s.leaders, s'.leaders, s.logs, s'.logs, n, d);
    BidsGrow(s.diaries, s.logs, s'.logs, n, d);
  }

  lemma GrowsToo(s: Cluster)
    ensures LogsGrow(s.logs, s.logs) && LeadersGrow(s.leaders, s.leaders)
  {
  }

  lemma LeaderLogsKept(ds: Diaries, leaders: Leaders, logs: Logs, n: NodeId, d: Diary)
    requires n in ds && DiaryGrows(ds[n], d) && LeaderLogs(ds, leaders, logs)
    ensures LeaderLogs(ds[n := d], leaders, logs)
  {
    hide Sorted, Bounded, Agree;
  }

  // A step that changes n and its diary, but neither leaders nor their logs.
  lemma DiaryPreserves(s: Cluster, s': Cluster, n: NodeId, b: Node, d: Diary)
    requires SafetyInv(s) && n in s.nodes && n in s.diaries
    requires s'.nodes == s.nodes[n := b] && s'.diaries == s.diaries[n := d] && s'.leaders == s.leaders && s'.logs == s.logs
    requires DiaryGrows(s.diaries[n], d) && VotesStay(s.diaries[n], d, s.leaders, n)
    requires NodeSafe(s'.diaries, s'.leaders, s'.logs, d, b)
    requires forall u :: u in d.votes && u !in s.diaries[n].votes ==> VoteSafe(s'.diaries, s'.leaders, s'.logs, n, u)
    requires forall u :: u in d.bids && u !in s.diaries[n].bids ==> Good(d.bids[u], s'.logs) && Sorted(d.bids[u]) && Bounded(d.bids[u], u - 1)
    requires MessagesSafe(s')
    ensures SafetyInv(s')
  {
    hide NodeSafe, VoteSafe, NodesSafe, VotesSafe, BidsSafe, LeaderLogs, MessagesSafe, LogsGrow, LeadersGrow, Good, Sorted, Bounded, VotesStay;
    GrowsToo(s);
    LeaderLogsKept(s.diaries, s.leaders, s.logs, n, d);
    Assemble(s, s', n, b, d);
  }

  lemma SelfStay(d: Diary, leaders: Leaders, n: NodeId)
    ensures DiaryGrows(d, d) && VotesStay(d, d, leaders, n)
  {
  }

  // A step that changes only n.
  lemma NodePreserves(s: Cluster, s': Cluster, n: NodeId, b: Node)
    requires SafetyInv(s) && n in s.nodes && n in s.diaries
    requires s'.nodes == s.nodes[n := b] && s'.diaries == s.diaries && s'.leaders == s.leaders && s'.logs == s.logs
    requires NodeSafe(s.diaries, s.leaders, s.logs, s.diaries[n], b)
    requires MessagesSafe(s')
    ensures SafetyInv(s')
  {
    hide NodeSafe, VoteSafe, NodesSafe, VotesSafe, BidsSafe, LeaderLogs, MessagesSafe;
    assert s.diaries == s.diaries[n := s.diaries[n]];
    SelfStay(s.diaries[n], s.leaders, n);
    DiaryPreserves(s, s', n, b, s.diaries[n]);
  }

  // ----- stepping down, stopping, restarting -----

  lemma DownSafe(ds: Diaries, leaders: Leaders, logs: Logs, d: Diary, a: Node, b: Node)
    requires NodeSafe(ds, leaders, logs, d, a)
    requires b.log == a.log && b.term >= a.term && (b.role == Follower || b.role == Shutdown || (b.role == Candidate && a.role == Candidate && b.term == a.term))
    requires b.commitIndex == a.commitIndex && b.lastApplied == a.lastApplied && b.applied == a.applied
    ensures NodeSafe(ds, leaders, logs, d, b)
  {
    hide KeepsAcks, Settled;
    assert LogsGrow(logs, logs);
    assert DiariesGrow(ds, ds);
    KeepsAcksGrows(logs, logs, d.acked, a.log, a.log, a.term, b.term);
    SettledGrows(ds, ds, logs, logs, a.log, a.log, a.commitIndex, a.term, b.term);
  }

  lemma RestartSafe(ds: Diaries, leaders: Leaders, logs: Logs, d: Diary, a: Node)
    requires NodeSafe(ds, leaders, logs, d, a)
    ensures NodeSafe(ds, leaders, logs, d, Restart(a))
  {
    hide KeepsAcks;
  }

  // ----- elections -----

  lemma StandSafe(ds: Diaries, leaders: Leaders, logs: Logs, d: Diary, a: Node)
    requires NodeSafe(ds, leaders, logs, d, a)
    ensures var c := a.(role := Candidate, term := a.term + 1, votedFor := Some(a.id), votesReceived := 1);
            NodeSafe(ds, leaders, logs, d.(bids := d.bids[a.term + 1 := a.log]), c)
  {
    hide KeepsAcks, Settled;
    assert LogsGrow(logs, logs);
    assert DiariesGrow(ds, ds);
    KeepsAcksGrows(logs, logs, d.acked, a.log, a.log, a.term, a.term + 1);
    SettledGrows(ds, ds, logs, logs, a.log, a.log, a.commitIndex, a.term, a.term + 1);
  }

  lemma StandVote(ds: Diaries, leaders: Leaders, logs: Logs, n: NodeId, d: Diary, a: Node)
    requires n in ds && NodeAcks(logs, ds[n], a) && Good(a.log, logs) && Sorted(a.log)
    requires d.votes == ds[n].votes[a.term + 1 := n] && d.voteLogs == ds[n].voteLogs[a.term + 1 := a.log]
    requires d.bids == ds[n].bids[a.term + 1 := a.log] && d.acked == ds[n].acked
    ensures VoteSafe(ds[n := d], leaders, logs, n, a.term + 1)
  {
    hide KeepsAcks, Good;
  }

  // The diary of a node that has just stood.
  function StoodDiary(d: Diary, a: Node): Diary {
    ElectDiary(d, a).(acked := d.acked)
  }

  function Stood(s: Cluster, n: NodeId): Cluster
    requires n in s.nodes && n in s.diaries
  {
    var a := s.nodes[n];
    s.(nodes := s.nodes[n := a.(role := Candidate, term := a.term + 1, votedFor := Some(a.id), votesReceived := 1)],
       diaries := s.diaries[n := StoodDiary(s.diaries[n], a)],
       voteRequests := s.voteRequests + {VoteRequest(a.term + 1, n, |a.log|, LastTerm(a.log))})
  }

  lemma StandStays(servers: set<NodeId>, d: Diary, leaders: Leaders, n: NodeId, a: Node)
    requires NodeOk(servers, d, leaders, n, a) && NodeBid(leaders, d, a)
    ensures VotesStay(d, StoodDiary(d, a), leaders, n) && DiaryGrows(d, StoodDiary(d, a))
    ensures forall u :: u in StoodDiary(d, a).bids && u !in d.bids ==> u == a.term + 1
    ensures forall u :: u in StoodDiary(d, a).votes && u !in d.votes ==> u == a.term + 1
  {
  }

  lemma MessagesWith(s: Cluster, s': Cluster)
    requires MessagesSafe(s) && DiariesGrow(s.diaries, s'.diaries) && LogsGrow(s.logs, s'.logs)
    requires forall q :: q in s'.voteRequests ==> q in s.voteRequests || VoteRequestSafe(s'.diaries, q)
    requires forall r :: r in s'.rounds ==> r in s.rounds || RoundSafe(s'.diaries, s'.logs, r)
    requires forall m :: m in s'.appends ==> m in s.appends || RequestSafe(s'.diaries, s'.logs, m.req)
    requires forall r :: r in s'.appendReplies ==> r in s.appendReplies || ReplySafe(s'.diaries, s'.logs, r)
    ensures MessagesSafe(s')
  {
    hide VoteRequestSafe, RoundSafe, RequestSafe, ReplySafe, LogsGrow, DiariesGrow;
    MessagesGrow(s, s'.diaries, s'.logs);
  }

  lemma StoodPreserves(s: Cluster, n: NodeId)
    requires ElectionInv(s) && MatchingInv(s) && SafetyInv(s) && n in s.servers && n in s.nodes && n in s.diaries
    ensures SafetyInv(Stood(s, n))
  {
    hide NodesSafe, VotesSafe, BidsSafe, LeaderLogs, MessagesSafe, Good, KeepsAcks, ReplyOk, CountsOk, LeadersOk,
         NodeOk, VoteSafe, NodeAcks, NodeCommit, NodeProgress, AllGood, AppendsOk, Sorted, Bounded, VotesStay, DiaryGrows, LogsGrow;
    var a := s.nodes[n];
    var s' := Stood(s, n);
    var d := StoodDiary(s.diaries[n], a);
    NodeFacts(s, n);
    RaftElection.LeaderKnown(s, n);
    StandStays(s.servers, s.diaries[n], s.leaders, n, a);
    OneGrows(s.diaries, n, d);
    GrowsToo(s);
    OtherNode(s.diaries, s'.diaries, s.leaders, s.leaders, s.logs, s.logs, s.diaries[n], a);
    StandSafe(s'.diaries, s.leaders, s.logs, s.diaries[n], a);
    DiaryIrrelevant(s'.diaries, s.leaders, s.logs, s.diaries[n].(bids := d.bids), d, s'.nodes[n]);
    StandVote(s.diaries, s.leaders, s.logs, n, d, a);
    assert VoteRequestSafe(s'.diaries, VoteRequest(a.term + 1, n, |a.log|, LastTerm(a.log)));
    MessagesWith(s, s');
    StandBid(a);
    DiaryPreserves(s, s', n, s'.nodes[n], d);
  }

  lemma StandBid(a: Node)
    requires Bounded(a.log, a.term)
    ensures Bounded(a.log, (a.term + 1) - 1)
  {
  }

  // NodeSafe reads acknowledgements and bids, not votes.
  lemma DiaryIrrelevant(ds: Diaries, leaders: Leaders, logs: Logs, d: Diary, d': Diary, c: Node)
    requires NodeSafe(ds, leaders, logs, d, c) && d'.acked == d.acked && d'.bids == d.bids
    ensures NodeSafe(ds, leaders, logs, d', c)
  {
    hide KeepsAcks, Settled, Sorted, Bounded;
  }

  lemma NodeFacts(s: Cluster, n: NodeId)
    requires ElectionInv(s) && MatchingInv(s) && SafetyInv(s) && n in s.servers
    ensures n in s.nodes && n in s.diaries
    ensures NodeOk(s.servers, s.diaries[n], s.leaders, n, s.nodes[n])
    ensures NodeLog(s.logs, s.nodes[n])
    ensures NodeSafe(s.diaries, s.leaders, s.logs, s.diaries[n], s.nodes[n])
  {
    hide NodeOk, CountsOk, LeadersOk, ReplyOk, AllGood, Good, AppendsOk, NodeSafe, VotesSafe, BidsSafe, LeaderLogs, MessagesSafe;
  }

  // ----- a leader writes an entry of its term -----

  lemma WriteNode(ds: Diaries, ds': Diaries, leaders: Leaders, leaders': Leaders, logs: Logs, logs': Logs, d: Diary, a: Node, b: Node, e: LogEntry)
    requires NodeSafe(ds, leaders, logs, d, a) && DiariesGrow(ds, ds') && LogsGrow(logs, logs')
    requires b.term == a.term && b.role == Leader && b.log == a.log + [e] && e.term == b.term
    requires b.commitIndex == a.commitIndex && b.lastApplied == a.lastApplied && b.applied == a.applied
    requires b.term in logs' && logs'[b.term] == b.log && (b.term in logs ==> logs[b.term] == a.log)
    requires NodeProgress(ds', b)
    ensures NodeSafe(ds', leaders', logs', d.(acked := AckedWith(d.acked, b)), b)
  {
    hide Settled, NodeProgress, DiariesGrow;
    SettledGrows(ds, ds', logs, logs', a.log, b.log, a.commitIndex, a.term, b.term);
    assert a.log[..a.lastApplied] == b.log[..b.lastApplied];
    WriteAcks(logs, logs', d.acked, a, b);
  }

  lemma WriteAcks(logs: Logs, logs': Logs, acked: map<nat, nat>, a: Node, b: Node)
    requires LogsGrow(logs, logs') && KeepsAcks(logs, acked, a.log, a.term) && Agree(a.log, b.log, |a.log|)
    requires forall t :: t in acked ==> t <= a.term && t in logs && acked[t] <= |logs[t]|
    requires b.term == a.term && b.role == Leader && b.term in logs' && logs'[b.term] == b.log
    ensures KeepsAcks(logs', AckedWith(acked, b), b.log, b.term)
  {
    hide Overruled;
    KeepsAcksGrows(logs, logs', acked, a.log, b.log, a.term, b.term);
  }

  lemma WriteLeaderLogs(ds: Diaries, leaders: Leaders, logs: Logs, n: NodeId, d': Diary, a: Node, b: Node, e: LogEntry)
    requires n in ds && d'.bids == ds[n].bids && LeaderLogs(ds, leaders, logs)
    requires b.log == a.log + [e] && e.term == b.term && Sorted(a.log) && Bounded(a.log, b.term)
    requires if b.term in leaders then leaders[b.term] == n && b.term in logs && logs[b.term] == a.log
             else b.term in d'.bids && d'.bids[b.term] == a.log
    ensures LeaderLogs(ds[n := d'], leaders[b.term := n], logs[b.term := b.log])
  {
    if b.term in leaders { assert LeaderLog(ds[n].bids, a.log, b.term); }
    assert LeaderLog(d'.bids, b.log, b.term);
  }

  lemma WritePreserves(s: Cluster, s': Cluster, n: NodeId, b: Node, e: LogEntry)
    requires SafetyInv(s) && n in s.nodes && n in s.diaries && NodeSafe(s.diaries, s.leaders, s.logs, s.diaries[n], s.nodes[n])
    requires VotesBelow(s.diaries[n], b.term)
    requires b.term == s.nodes[n].term && b.role == Leader && b.log == s.nodes[n].log + [e] && e.term == b.term
    requires b.commitIndex == s.nodes[n].commitIndex && b.lastApplied == s.nodes[n].lastApplied && b.applied == s.nodes[n].applied
    requires if b.term in s.leaders then s.leaders[b.term] == n && b.term in s.logs && s.logs[b.term] == s.nodes[n].log
             else b.term !in s.logs && b.term in s.diaries[n].bids && s.diaries[n].bids[b.term] == s.nodes[n].log
    requires s'.nodes == s.nodes[n := b] && s'.diaries == s.diaries[n := s.diaries[n].(acked := AckedWith(s.diaries[n].acked, b))]
    requires s'.leaders == s.leaders[b.term := n] && s'.logs == s.logs[b.term := b.log]
    requires s'.voteRequests == s.voteRequests && s'.rounds == s.rounds && s'.appends == s.appends
    requires s'.appendReplies == s.appendReplies
    requires NodeProgress(s'.diaries, b)
    ensures SafetyInv(s')
  {
    hide NodesSafe, VotesSafe, BidsSafe, LeaderLogs, MessagesSafe, VoteSafe, NodeAcks, NodeCommit, NodeProgress;
    var a := s.nodes[n];
    var d := s.diaries[n].(acked := AckedWith(s.diaries[n].acked, b));
    WriteStays(s.diaries[n], d, s.leaders, n, b);
    OneGrows(s.diaries, n, d);
    WriteGrows(s.leaders, s.logs, n, a, b, e);
    WriteNode(s.diaries, s'.diaries, s.leaders, s'.leaders, s.logs, s'.logs, s.diaries[n], a, b, e);
    BoundedHere(s.leaders, s.diaries[n], a);
    WriteLeaderLogs(s.diaries, s.leaders, s.logs, n, d, a, b, e);
    MessagesWith(s, s');
    Assemble(s, s', n, b, d);
  }

  predicate VotesBelow(d: Diary, t: nat) {
    forall u :: u in d.votes ==> u <= t
  }

  lemma BoundedHere(leaders: Leaders, d: Diary, c: Node)
    requires NodeBid(leaders, d, c)
    ensures Sorted(c.log) && Bounded(c.log, c.term)
  {
  }

  lemma WriteStays(d: Diary, d': Diary, leaders: Leaders, n: NodeId, b: Node)
    requires d' == d.(acked := AckedWith(d.acked, b)) && VotesBelow(d, b.term)
    ensures DiaryGrows(d, d') && VotesStay(d, d', leaders, n)
  {
  }

  lemma WriteGrows(leaders: Leaders, logs: Logs, n: NodeId, a: Node, b: Node, e: LogEntry)
    requires b.log == a.log + [e]
    requires if b.term in leaders then leaders[b.term] == n && b.term in logs && logs[b.term] == a.log else b.term !in logs
    ensures LogsGrow(logs, logs[b.term := b.log]) && LeadersGrow(leaders, leaders[b.term := n])
  {
  }

  lemma NewLeaderProgress(ds: Diaries, c: Node)
    ensures c.role == Candidate ==> NodeProgress(ds, BecomeLeader(c))
  {
  }

  lemma ProgressGrows(ds: Diaries, ds': Diaries, a: Node, b: Node)
    requires NodeProgress(ds, a) && DiariesGrow(ds, ds') && b.role == a.role && b.term == a.term && |b.log| >= |a.log|
    requires b.matchIndex == a.matchIndex && b.nextIndex == a.nextIndex
    ensures NodeProgress(ds', b)
  {
  }

  lemma Below(servers: set<NodeId>, d: Diary, leaders: Leaders, n: NodeId, c: Node)
    requires NodeOk(servers, d, leaders, n, c)
    ensures VotesBelow(d, c.term)
  {
  }

  lemma ElectPreserves(s: Cluster, n: NodeId)
    requires ElectionInv(s) && MatchingInv(s) && SafetyInv(s) && n in s.servers && n in s.nodes && n in s.diaries
    ensures SafetyInv(ElectStep(s, n))
  {
    hide ElectionInv, SafetyInv, AllGood, NodeLogs, AppendsOk, RoundsOk, VotesBelow, NodeSafe;
    var a := s.nodes[n];
    var s1, s' := Stood(s, n), ElectStep(s, n);
    StoodPreserves(s, n);
    RaftElection.ElectFresh(s, n);
    if StartElection(a).role != Leader {
      assert s' == s1;
    } else {
      SafeNode(s1, n);
      StoodBelow(s, n);
      NewLeaderProgress(s'.diaries, s1.nodes[n]);
      assert s'.nodes == s1.nodes[n := StartElection(a)];
      assert s'.diaries == s1.diaries[n := s1.diaries[n].(acked := AckedWith(s1.diaries[n].acked, StartElection(a)))];
      WritePreserves(s1, s', n, StartElection(a), NoOp(|a.log| + 1, a.term + 1));
    }
  }

  lemma StoodBelow(s: Cluster, n: NodeId)
    requires ElectionInv(s) && n in s.servers && n in s.nodes && n in s.diaries
    ensures VotesBelow(StoodDiary(s.diaries[n], s.nodes[n]), s.nodes[n].term + 1)
  {
    hide CountsOk, LeadersOk, ReplyOk;
    assert NodeOk(s.servers, s.diaries[n], s.leaders, n, s.nodes[n]);
  }

  lemma SafeNode(s: Cluster, n: NodeId)
    requires SafetyInv(s) && n in s.nodes && n in s.diaries
    ensures NodeSafe(s.diaries, s.leaders, s.logs, s.diaries[n], s.nodes[n])
  {
    hide NodeSafe, VotesSafe, BidsSafe, LeaderLogs, MessagesSafe;
  }

  // A counted vote.
  function Tallied(s: Cluster, n: NodeId, r: VoteReply): Cluster
    requires n in s.nodes && n in s.diaries
  {
    var a := s.nodes[n];
    var d := s.diaries[n];
    s.(nodes := s.nodes[n := a.(votesReceived := a.votesReceived + 1)],
       diaries := s.diaries[n := CountDiary(d, a, r).(acked := d.acked)],
       returned := s.returned + {(r.req.term, n, r.from)})
  }

  lemma TallyStays(servers: set<NodeId>, d: Diary, leaders: Leaders, n: NodeId, a: Node, r: VoteReply)
    requires NodeOk(servers, d, leaders, n, a)
    ensures VotesStay(d, CountDiary(d, a, r).(acked := d.acked), leaders, n)
    ensures DiaryGrows(d, CountDiary(d, a, r).(acked := d.acked))
  {
  }

  lemma TalliedPreserves(s: Cluster, n: NodeId, r: VoteReply)
    requires ElectionInv(s) && MatchingInv(s) && SafetyInv(s) && Enabled(s, GetVoteReply(n, r)) && Counts(s.nodes[n], r)
    ensures SafetyInv(Tallied(s, n, r))
  {
    hide NodesSafe, VotesSafe, BidsSafe, LeaderLogs, MessagesSafe, VoteSafe, NodeSafe, NodeOk, CountsOk, LeadersOk, ReplyOk,
         VotesStay, DiaryGrows, MatchingInv, LogsGrow, DiariesGrow;
    var a, d0 := s.nodes[n], s.diaries[n];
    var s' := Tallied(s, n, r);
    var b, d := s'.nodes[n], s'.diaries[n];
    NodeFacts(s, n);
    TallyStays(s.servers, d0, s.leaders, n, a, r);
    OneGrows(s.diaries, n, d);
    GrowsToo(s);
    OtherNode(s.diaries, s'.diaries, s.leaders, s.leaders, s.logs, s.logs, d0, a);
    DownSafe(s'.diaries, s.leaders, s.logs, d0, a, b);
    DiaryIrrelevant(s'.diaries, s.leaders, s.logs, d0, d, b);
    MessagesWith(s, s');
    DiaryPreserves(s, s', n, b, d);
  }

  lemma VoteReplyPreserves(s: Cluster, n: NodeId, r: VoteReply)
    requires ElectionInv(s) && MatchingInv(s) && SafetyInv(s) && Enabled(s, GetVoteReply(n, r))
    ensures SafetyInv(VoteReplyStep(s, n, r))
  {
    hide ElectionInv, SafetyInv, AllGood, NodeLogs, AppendsOk, RoundsOk, VotesBelow, NodeOk, NodeCommit, NodeProgress, KeepsAcks, Good, Sorted, Bounded;
    var a := s.nodes[n];
    var b := HandleVoteReply(a, r.req, r.resp);
    var s' := VoteReplyStep(s, n, r);
    NodeFacts(s, n);
    RaftElection.ReplyFresh(s, n, r);
    Below(s.servers, s.diaries[n], s.leaders, n, a);
    if Counts(a, r) {
      var s1 := Tallied(s, n, r);
      TalliedPreserves(s, n, r);
      if b.role == Leader {
        SafeNode(s1, n);
        NewLeaderProgress(s'.diaries, s1.nodes[n]);
        assert VotesBelow(s1.diaries[n], a.term) by { BelowSame(s.diaries[n], s1.diaries[n], a.term); }
        assert s'.nodes == s1.nodes[n := b];
        assert s'.diaries == s1.diaries[n := s1.diaries[n].(acked := AckedWith(s1.diaries[n].acked, b))];
        WritePreserves(s1, s', n, b, NoOp(|a.log| + 1, a.term));
      } else {
        assert s' == s1;
      }
    } else {
      assert s'.leaders == s.leaders && s'.logs == s.logs;
      assert s'.diaries == s.diaries;
      assert MessagesSafe(s') by { MessagesOf(s); MessagesEqual(s, s'); }
      if r.resp.term > a.term { DownSafe(s.diaries, s.leaders, s.logs, s.diaries[n], a, b); }
      NodePreserves(s, s', n, b);
    }
  }

  lemma BelowSame(d: Diary, d': Diary, t: nat)
    requires VotesBelow(d, t) && d'.votes == d.votes
    ensures VotesBelow(d', t)
  {
  }

  lemma MessagesOf(s: Cluster)
    requires SafetyInv(s)
    ensures MessagesSafe(s)
  {
    hide NodesSafe, VotesSafe, BidsSafe, LeaderLogs, MessagesSafe;
  }

  lemma MessagesEqual(s: Cluster, s': Cluster)
    requires MessagesSafe(s) && s'.diaries == s.diaries && s'.logs == s.logs
    requires s'.voteRequests == s.voteRequests && s'.rounds == s.rounds && s'.appends == s.appends
    requires s'.appendReplies == s.appendReplies
    ensures MessagesSafe(s')
  {
    hide VoteRequestSafe, RoundSafe, RequestSafe, ReplySafe;
  }

  lemma SubmitPreserves(s: Cluster, n: NodeId, data: seq<Bytes.byte>)
    requires ElectionInv(s) && MatchingInv(s) && SafetyInv(s) && n in s.servers && n in s.nodes && n in s.diaries
    ensures SafetyInv(SubmitStep(s, n, data))
  {
    hide ElectionInv, SafetyInv, AllGood, NodeLogs, AppendsOk, RoundsOk, VotesBelow, NodeOk, NodeCommit, NodeProgress, NodeAcks, NodeBid, Good;
    var a := s.nodes[n];
    var s' := SubmitStep(s, n, data);
    NodeFacts(s, n);
    RaftElection.LeaderKnown(s, n);
    Below(s.servers, s.diaries[n], s.leaders, n, a);
    if a.role == Leader {
      var b := Propose(a, data);
      var d := s.diaries[n].(acked := AckedWith(s.diaries[n].acked, b));
      WriteStays(s.diaries[n], d, s.leaders, n, b);
      OneGrows(s.diaries, n, d);
      ProgressGrows(s.diaries, s'.diaries, a, b);
      assert s.leaders == s.leaders[b.term := n];
      WritePreserves(s, s', n, b, LogEntry(|a.log| + 1, a.term, ENTRY_COMMAND, data));
    } else {
      assert s'.diaries == s.diaries;
      MessagesOf(s);
      MessagesEqual(s, s');
      NodePreserves(s, s', n, a);
    }
  }

  // ----- votes -----

  lemma KeepsAcksBelow(logs: Logs, acked: map<nat, nat>, log: Log, u: nat)
    requires KeepsAcks(logs, acked, log, u) && u !in logs
    ensures KeepsAcks(logs, acked, log, u - 1)
  {
    var v: int := u - 1;
    forall t, n: nat | t in acked && t <= v && n <= acked[t] ensures Kept(logs, log, t, v, n) {
      assert Kept(logs, log, t, u, n);
    }
  }

  // A first vote in the term of the request.
  lemma NewVote(s: Cluster, n: NodeId, q: VoteRequest)
    requires ElectionInv(s) && MatchingInv(s) && SafetyInv(s) && Enabled(s, GetVoteRequest(n, q))
    requires HandleRequestVote(s.nodes[n], q).1.granted && q.term !in s.diaries[n].votes
    ensures VoteSafe(s.diaries[n := VoteDiary(s.diaries[n], s.nodes[n], q)], s.leaders, s.logs, n, q.term)
  {
    hide NodeOk, ReplyOk, NodesSafe, VotesSafe, BidsSafe, LeaderLogs, KeepsAcks, Good, AllGood, AppendsOk, NodeCommit, NodeProgress, CountsOk, LeadersOk, Init;
    var a, d := s.nodes[n], s.diaries[n];
    NodeFacts(s, n);
    assert VoteRequestSafe(s.diaries, q) by { VoteRequestOf(s, q); }
    var u, c := q.term, q.candidate;
    if u in s.leaders {
      if s.leaders[u] == c { NotCounted(s, n, u); }
      assert Late(s.diaries[n := VoteDiary(d, a, q)], s.leaders, u, n, c);
    } else {
      assert LogsGrow(s.logs, s.logs);
      KeepsAcksGrows(s.logs, s.logs, d.acked, a.log, a.log, a.term, u);
      KeepsAcksBelow(s.logs, d.acked, a.log, u);
    }
  }

  lemma VoteRequestOf(s: Cluster, q: VoteRequest)
    requires SafetyInv(s) && q in s.voteRequests
    ensures VoteRequestSafe(s.diaries, q)
  {
    hide NodesSafe, VotesSafe, BidsSafe, LeaderLogs;
  }

  // A node that has not voted in a term was not counted by its leader.
  lemma NotCounted(s: Cluster, n: NodeId, u: nat)
    requires ElectionInv(s) && n in s.diaries && u in s.leaders && u !in s.diaries[n].votes
    ensures s.leaders[u] in s.diaries && u in s.diaries[s.leaders[u]].counted && n !in s.diaries[s.leaders[u]].counted[u]
  {
    hide NodeOk, ReplyOk;
    var c := s.leaders[u];
    assert CountOk(s.returned, s.diaries, u, c, s.diaries[c].counted[u]);
  }

  lemma VoteStays(d: Diary, a: Node, q: VoteRequest, leaders: Leaders, n: NodeId)
    ensures VotesStay(d, VoteDiary(d, a, q), leaders, n) && DiaryGrows(d, VoteDiary(d, a, q))
    ensures VoteDiary(d, a, q).acked == d.acked && VoteDiary(d, a, q).bids == d.bids
    ensures forall u :: u in VoteDiary(d, a, q).votes && u !in d.votes ==>
              u == q.term && HandleRequestVote(a, q).1.granted
  {
  }

  lemma VoteRequestPreserves(s: Cluster, n: NodeId, q: VoteRequest)
    requires ElectionInv(s) && MatchingInv(s) && SafetyInv(s) && Enabled(s, GetVoteRequest(n, q))
    ensures SafetyInv(VoteRequestStep(s, n, q))
  {
    hide ElectionInv, MatchingInv, NodesSafe, VotesSafe, BidsSafe, LeaderLogs, MessagesSafe, NodeOk, NodeLog, NodeSafe, VoteSafe,
         VotesStay, DiaryGrows, LogsGrow, DiariesGrow, VoteDiary;
    var a, d0 := s.nodes[n], s.diaries[n];
    var b, d := HandleRequestVote(a, q).0, VoteDiary(d0, a, q);
    var s' := VoteRequestStep(s, n, q);
    NodeFacts(s, n);
    VoteStays(d0, a, q, s.leaders, n);
    OneGrows(s.diaries, n, d);
    GrowsToo(s);
    OtherNode(s.diaries, s'.diaries, s.leaders, s.leaders, s.logs, s.logs, d0, a);
    if b.role == Leader {
      DiaryIrrelevant(s'.diaries, s.leaders, s.logs, d0, d, a);
      SameButVote(s'.diaries, s.leaders, s.logs, d, a, b);
    } else {
      DownSafe(s'.diaries, s.leaders, s.logs, d0, a, b);
      DiaryIrrelevant(s'.diaries, s.leaders, s.logs, d0, d, b);
    }
    forall u | u in d.votes && u !in d0.votes ensures VoteSafe(s'.diaries, s'.leaders, s'.logs, n, u) {
      NewVote(s, n, q);
    }
    MessagesWith(s, s');
    DiaryPreserves(s, s', n, b, d);
  }

  lemma SameButVote(ds: Diaries, leaders: Leaders, logs: Logs, d: Diary, a: Node, b: Node)
    requires NodeSafe(ds, leaders, logs, d, a) && b == a.(votedFor := b.votedFor)
    ensures NodeSafe(ds, leaders, logs, d, b)
  {
    hide KeepsAcks, Settled, Sorted, Bounded, Commands;
  }

  // ----- rounds -----

  lemma BeginRoundPreserves(s: Cluster, n: NodeId)
    requires ElectionInv(s) && MatchingInv(s) && SafetyInv(s) && Enabled(s, BeginRound(n))
    ensures SafetyInv(BeginRoundStep(s, n))
  {
    hide ElectionInv, MatchingInv, NodesSafe, VotesSafe, BidsSafe, LeaderLogs, NodeOk, NodeAcks, NodeBid, NodeProgress, Settled,
         RequestSafe, ReplySafe, Good;
    NodeFacts(s, n);
    assert RoundSafe(s.diaries, s.logs, Round(n, s.nodes[n].term, s.nodes[n].commitIndex));
  }

  lemma BuildFits(logs: Logs, a: Node, peer: NodeId, commit: nat)
    requires peer in a.nextIndex && a.nextIndex[peer] <= |a.log| + 1 && commit <= |a.log|
    requires a.term in logs && logs[a.term] == a.log
    ensures Fits(logs, BuildAppend(a, peer, a.term, commit))
  {
    var q := BuildAppend(a, peer, a.term, commit);
    assert q.prevLogIndex + |q.entries| == |a.log|;
    assert a.log[..|a.log|] == a.log;
  }

  lemma RoundOf(s: Cluster, r: Round)
    requires SafetyInv(s) && r in s.rounds
    ensures RoundSafe(s.diaries, s.logs, r)
  {
    hide NodesSafe, VotesSafe, BidsSafe, LeaderLogs, VoteRequestSafe, RoundSafe, RequestSafe, ReplySafe;
  }

  lemma SendPreserves(s: Cluster, n: NodeId, peer: NodeId, round: Round)
    requires ElectionInv(s) && MatchingInv(s) && SafetyInv(s) && Enabled(s, SendAppend(n, peer, round))
    requires OnTerm(s, SendAppend(n, peer, round))
    ensures SafetyInv(SendStep(s, n, peer, round))
  {
    hide ElectionInv, MatchingInv, SafetyInv, NodeOk, NodeAcks, NodeBid, NodeCommit, Settled, Good, Fits, MessagesSafe, BuildAppend, LogsGrow, DiariesGrow;
    var a := s.nodes[n];
    var s' := SendStep(s, n, peer, round);
    NodeFacts(s, n);
    RoundOf(s, round);
    MessagesOf(s);
    BuildFits(s.logs, a, peer, round.commit);
    BuildCommit(a, peer, round.term, round.commit);
    assert RequestSafe(s.diaries, s.logs, BuildAppend(a, peer, round.term, round.commit));
    GrowsToo(s);
    SelfGrows(s.diaries);
    MessagesWith(s, s');
    assert s.nodes == s.nodes[n := a];
    NodePreserves(s, s', n, a);
  }

  lemma BuildCommit(a: Node, peer: NodeId, term: nat, commit: nat)
    requires peer in a.nextIndex
    ensures BuildAppend(a, peer, term, commit).leaderCommit == commit && BuildAppend(a, peer, term, commit).term == term
  {
  }

  // ----- AppendEntries -----

  // The log after an accepted request: the old one, or the leader's up to the request's end.
  predicate Accepted(log: Log, lead: Log, end: nat, log': Log) {
    && end <= |lead| && Agree(log', lead, end)
    && (log' == log || (log' == lead[..end] && !(end <= |log| && Agree(log, lead[..end], end))))
  }

  lemma AppendAccepts(logs: Logs, log: Log, q: AppendRequest)
    requires AllGood(logs) && Good(log, logs) && Fits(logs, q)
    requires q.prevLogIndex > 0 ==> TermAt(log, q.prevLogIndex) == q.prevLogTerm
    ensures Accepted(log, logs[q.term], q.prevLogIndex + |q.entries|, Merge(log, q.prevLogIndex, q.entries))
  {
    hide Good;
    var end := q.prevLogIndex + |q.entries|;
    var full := logs[q.term][..end];
    RaftMatching.GoodPrefix(logs[q.term], logs, end);
    RaftMatching.CheckPasses(log, q, full, logs);
    RaftMatching.GoodMatching(log, full, logs);
    RaftMatching.MergeResult(log, full, q.prevLogIndex);
  }

  lemma AcceptKeeps(logs: Logs, log: Log, log': Log, t: nat, u: nat, bound: nat, end: nat, n: nat)
    requires t in logs && u in logs && t <= bound <= u && Accepted(log, logs[u], end, log') && Kept(logs, log, t, bound, n)
    ensures Kept(logs, log', t, u, n)
  {
    if Agree(log, logs[t], n) && log' != log {
      var full := logs[u][..end];
      if k :| 0 <= k < n && k < end && log[k] != full[k] {
        assert logs[u][k] != logs[t][k];
        assert Conflict(logs[u], logs[t], n);
        assert t < u;
      } else if n <= end {
        assert Agree(log', logs[t], n);
      }
    }
  }

  lemma AcceptAcks(logs: Logs, acked: map<nat, nat>, log: Log, log': Log, u: nat, bound: nat, end: nat)
    requires u in logs && bound <= u && Accepted(log, logs[u], end, log') && KeepsAcks(logs, acked, log, bound)
    requires forall t :: t in acked ==> t <= bound && t in logs && acked[t] <= |logs[t]|
    ensures KeepsAcks(logs, Acked(acked, u, end), log', u)
    ensures forall t :: t in Acked(acked, u, end) ==> t <= u && t in logs && Acked(acked, u, end)[t] <= |logs[t]|
  {
    hide Overruled;
    var acked' := Acked(acked, u, end);
    forall t, n: nat | t in acked' && t <= u && n <= acked'[t] ensures t in logs && Kept(logs, log', t, u, n) {
      if t in acked && n <= acked[t] {
        assert Kept(logs, log, t, bound, n);
        AcceptKeeps(logs, log, log', t, u, bound, end, n);
      }
    }
  }

  // A leader of a later or equal term has every settled prefix.
  lemma LeaderHas(s: Cluster, log: Log, n: nat, bound: nat, u: nat)
    requires ElectionInv(s) && MatchingInv(s) && SafetyInv(s)
    requires Settled(s.diaries, s.logs, log, n, bound) && u in s.leaders && u in s.logs && bound <= u && n <= |log|
    ensures Agree(log, s.logs[u], n)
  {
    hide ElectionInv, MatchingInv, SafetyInv;
    if n > 0 {
      var t: nat, i: nat :| t <= bound && n <= i && Committed(s.diaries, s.logs, t, i) && Agree(log, s.logs[t], n);
      if t < u { RaftCompleteness.Complete(s, t, i, u); }
    }
  }

  // Accepting a request never touches the part of the log that leader and follower share.
  lemma AcceptPrefix(log: Log, lead: Log, end: nat, log': Log, n: nat)
    requires Accepted(log, lead, end, log') && Agree(log, lead, n)
    ensures Agree(log, log', n)
  {
    if log' != log && end < n {
      assert Agree(log, lead[..end], end);
    }
  }

  lemma {:induction false} CommandsSplit(a: Log, i: nat, j: nat)
    requires i <= j <= |a|
    ensures Commands(a[..j]) == Commands(a[..i]) + Commands(a[i..j])
    decreases j
  {
    if i == j {
      assert a[i..j] == [];
    } else {
      CommandsSplit(a, i, j - 1);
      assert a[..j][..j - 1] == a[..j - 1];
      assert a[i..j][..j - i - 1] == a[i..j - 1];
    }
  }

  lemma ApplySettled(ds: Diaries, logs: Logs, c: Node, commit: nat)
    requires c.lastApplied <= commit <= |c.log| && Settled(ds, logs, c.log, commit, c.term)
    requires c.applied == Commands(c.log[..c.lastApplied])
    ensures NodeCommit(ds, logs, ApplyCommitted(c.(commitIndex := commit)))
  {
    hide Settled;
    CommandsSplit(c.log, c.lastApplied, commit);
  }

  lemma AcceptCommit(s: Cluster, ds': Diaries, a: Node, q: AppendRequest, c: Node)
    requires ElectionInv(s) && MatchingInv(s) && SafetyInv(s) && DiariesGrow(s.diaries, ds')
    requires NodeCommit(s.diaries, s.logs, a) && RequestSafe(s.diaries, s.logs, q) && q.term in s.leaders
    requires c.term == q.term >= a.term && c.commitIndex == a.commitIndex && c.lastApplied == a.lastApplied && c.applied == a.applied
    requires Accepted(a.log, s.logs[q.term], q.prevLogIndex + |q.entries|, c.log)
    ensures NodeCommit(ds', s.logs, WithCommit(c, q))
  {
    hide ElectionInv, MatchingInv, SafetyInv, Settled, DiariesGrow;
    var lead, end := s.logs[q.term], q.prevLogIndex + |q.entries|;
    LeaderHas(s, a.log, a.commitIndex, a.term, q.term);
    AcceptPrefix(a.log, lead, end, c.log, a.commitIndex);
    assert a.log[..a.lastApplied] == c.log[..c.lastApplied];
    assert LogsGrow(s.logs, s.logs);
    if q.leaderCommit > c.commitIndex {
      SettledGrows(s.diaries, ds', s.logs, s.logs, lead, c.log, q.leaderCommit, q.term, q.term);
      ApplySettled(ds', s.logs, c, q.leaderCommit);
    } else {
      SettledGrows(s.diaries, ds', s.logs, s.logs, a.log, c.log, a.commitIndex, a.term, q.term);
    }
  }

  // The node after the consistency check has passed.
  function Continued(a: Node, q: AppendRequest): Node {
    (if q.term > a.term then StepDown(a, q.term) else a).(log := Merge(a.log, q.prevLogIndex, q.entries))
  }

  function WithCommit(c: Node, q: AppendRequest): Node {
    if q.leaderCommit > c.commitIndex then ApplyCommitted(c.(commitIndex := Min(q.leaderCommit, q.prevLogIndex + |q.entries|))) else c
  }

  // An accepted request, in two moves: the log, then the commit index.
  lemma AcceptShape(a: Node, q: AppendRequest)
    requires HandleAppendEntries(a, q).1.success
    ensures q.term >= a.term && (q.prevLogIndex > 0 ==> TermAt(a.log, q.prevLogIndex) == q.prevLogTerm)
    ensures HandleAppendEntries(a, q).0 == WithCommit(Continued(a, q), q)
    ensures Continued(a, q).term == q.term && ((Continued(a, q).role == a.role && q.term == a.term) || Continued(a, q).role == Follower)
  {
  }

  // Committing changes none of what the other parts of NodeSafe read.
  lemma CommitOnly(ds: Diaries, leaders: Leaders, logs: Logs, d: Diary, c: Node, q: AppendRequest)
    requires NodeAcks(logs, d, c) && NodeBid(leaders, d, c) && NodeProgress(ds, c) && NodeCommit(ds, logs, WithCommit(c, q))
    ensures NodeSafe(ds, leaders, logs, d, WithCommit(c, q))
  {
    hide KeepsAcks, Sorted, Bounded, NodeCommit, Commands;
  }

  lemma AcceptNode(s: Cluster, n: NodeId, q: AppendRequest)
    requires ElectionInv(s) && MatchingInv(s) && SafetyInv(s) && n in s.servers && n in s.nodes && n in s.diaries
    requires RequestSafe(s.diaries, s.logs, q) && q.term in s.leaders && s.leaders[q.term] != n
    requires HandleAppendEntries(s.nodes[n], q).1.success
    ensures var d := AppendDiary(s.diaries[n], s.nodes[n], q);
            NodeSafe(s.diaries[n := d], s.leaders, s.logs, d, HandleAppendEntries(s.nodes[n], q).0)
    ensures DiaryGrows(s.diaries[n], AppendDiary(s.diaries[n], s.nodes[n], q))
  {
    hide ElectionInv, MatchingInv, SafetyInv, Settled, AllGood, Good, KeepsAcks, NodeOk, LeaderLog, LeaderLogs, DiariesGrow, Fits, NodeCommit,
         Sorted, Bounded, Accepted, Merge, HandleAppendEntries, WithCommit;
    var a := s.nodes[n];
    var d := AppendDiary(s.diaries[n], a, q);
    var c := Continued(a, q);
    var end := q.prevLogIndex + |q.entries|;
    NodeFacts(s, n);
    RaftElection.LeaderKnown(s, n);
    LeaderLogFacts(s, q.term);
    AcceptShape(a, q);
    AppendAccepts(s.logs, a.log, q);
    AcceptAcks(s.logs, s.diaries[n].acked, a.log, c.log, q.term, a.term, end);
    AcceptSorted(a.log, s.logs[q.term], end, c.log, a.term, q.term);
    OneGrows(s.diaries, n, d);
    AcceptCommit(s, s.diaries[n := d], a, q, c);
    CommitOnly(s.diaries[n := d], s.leaders, s.logs, d, c, q);
  }

  lemma AcceptSorted(log: Log, lead: Log, end: nat, log': Log, t: nat, u: nat)
    requires Accepted(log, lead, end, log') && Sorted(log) && Bounded(log, t) && t <= u && Sorted(lead) && Bounded(lead, u)
    ensures Sorted(log') && Bounded(log', u)
  {
  }

  lemma LeaderLogFacts(s: Cluster, u: nat)
    requires MatchingInv(s) && SafetyInv(s) && u in s.leaders
    ensures u in s.logs && Sorted(s.logs[u]) && Bounded(s.logs[u], u) && AllGood(s.logs)
  {
    hide NodesSafe, VotesSafe, BidsSafe, MessagesSafe, AllGood, Good, NodeLogs, AppendsOk, RoundsOk, Sorted, Bounded;
  }

  lemma AppendStays(servers: set<NodeId>, d: Diary, leaders: Leaders, n: NodeId, a: Node, q: AppendRequest)
    requires NodeOk(servers, d, leaders, n, a)
    ensures VotesStay(d, AppendDiary(d, a, q), leaders, n)
    ensures AppendDiary(d, a, q).votes == d.votes && AppendDiary(d, a, q).bids == d.bids
  {
  }

  lemma {:induction false} ConflictIndexBound(log: Log, index: nat)
    ensures 1 <= ConflictIndex(log, index) && (index >= 1 ==> ConflictIndex(log, index) <= index)
  {
    if index > 0 { ConflictIndexBound(log, index - 1); }
  }

  lemma RefuseNode(ds: Diaries, leaders: Leaders, logs: Logs, d: Diary, a: Node, q: AppendRequest)
    requires NodeSafe(ds, leaders, logs, d, a) && !HandleAppendEntries(a, q).1.success
    ensures NodeSafe(ds, leaders, logs, d, HandleAppendEntries(a, q).0)
    ensures HandleAppendEntries(a, q).1.conflictIndex <= q.prevLogIndex
  {
    hide NodeSafe;
    ConflictIndexBound(a.log, q.prevLogIndex);
    if q.term > a.term { DownSafe(ds, leaders, logs, d, a, HandleAppendEntries(a, q).0); }
  }

  lemma AppendPreserves(s: Cluster, n: NodeId, m: Sent)
    requires ElectionInv(s) && MatchingInv(s) && SafetyInv(s) && Enabled(s, GetAppend(n, m))
    ensures SafetyInv(AppendStep(s, n, m.req))
  {
    hide ElectionInv, MatchingInv, NodesSafe, VotesSafe, BidsSafe, LeaderLogs, MessagesSafe, NodeOk, NodeLog, VoteSafe, NodeAcks, NodeBid, NodeProgress, NodeCommit,
         VotesStay, LogsGrow, DiariesGrow, Settled, Fits;
    var q := m.req;
    var a := s.nodes[n];
    var (b, r) := HandleAppendEntries(a, q);
    var d := AppendDiary(s.diaries[n], a, q);
    var s' := AppendStep(s, n, q);
    NodeFacts(s, n);
    RequestFacts(s, m);
    AppendStays(s.servers, s.diaries[n], s.leaders, n, a, q);
    GrowsToo(s);
    if r.success {
      AcceptNode(s, n, q);
      OneGrows(s.diaries, n, d);
    } else {
      SelfStay(s.diaries[n], s.leaders, n);
      OneGrows(s.diaries, n, d);
      OtherNode(s.diaries, s'.diaries, s.leaders, s.leaders, s.logs, s.logs, d, a);
      RefuseNode(s'.diaries, s.leaders, s.logs, d, a, q);
    }
    assert ReplySafe(s'.diaries, s.logs, AppendReply(n, q, r));
    MessagesWith(s, s');
    DiaryPreserves(s, s', n, b, d);
  }

  lemma RequestFacts(s: Cluster, m: Sent)
    requires MatchingInv(s) && SafetyInv(s) && m in s.appends
    ensures RequestSafe(s.diaries, s.logs, m.req) && m.req.term in s.leaders && s.leaders[m.req.term] != m.to
  {
    hide NodesSafe, VotesSafe, BidsSafe, LeaderLogs, AllGood, Good, NodeLogs, RequestSafe;
    assert SentOk(s.leaders, s.logs, m);
  }

  // ----- answers to AppendEntries, and the commit index -----

  lemma {:induction false} FewElements(peers: seq<NodeId>)
    ensures |Elements(peers)| <= |peers|
  {
    if peers != [] {
      var k := |peers| - 1;
      FewElements(peers[..k]);
      assert Elements(peers) == Elements(peers[..k]) + {peers[k]};
    }
  }

  function HoldersOf(peers: seq<NodeId>, matchIndex: map<NodeId, nat>, index: nat): set<NodeId> {
    set p | p in peers && p in matchIndex && matchIndex[p] >= index
  }

  // Counting over a list without repetitions counts a set.
  lemma {:induction false} ReplicasCount(peers: seq<NodeId>, matchIndex: map<NodeId, nat>, index: nat)
    requires |Elements(peers)| == |peers|
    ensures Replicas(peers, matchIndex, index) == |HoldersOf(peers, matchIndex, index)|
  {
    if peers != [] {
      var k := |peers| - 1;
      var p, front := peers[k], peers[..k];
      FewElements(front);
      assert Elements(peers) == Elements(front) + {p};
      assert p !in Elements(front);
      ReplicasCount(front, matchIndex, index);
      var own := if p in matchIndex && matchIndex[p] >= index then {p} else {};
      assert HoldersOf(peers, matchIndex, index) == HoldersOf(front, matchIndex, index) + own;
    }
  }

  lemma {:induction false} HighestFacts(n: Node, index: nat)
    ensures var c := HighestReplicated(n, index);
            c == n.commitIndex ||
            (n.commitIndex < c <= index && TermAt(n.log, c) == n.term
             && Replicas(n.peers, n.matchIndex, c) + 1 > (|n.peers| + 1) / 2)
  {
    if index > n.commitIndex { HighestFacts(n, index - 1); }
  }

  lemma QuorumHolds(servers: set<NodeId>, ds: Diaries, logs: Logs, d: Diary, c: Node, index: nat)
    requires ds.Keys == servers && c.id in servers && ds[c.id] == d && PeersOf(servers, c.id, c.peers)
    requires c.role == Leader && NodeProgress(ds, c) && NodeAcks(logs, d, c) && 1 <= index <= |c.log|
    requires Replicas(c.peers, c.matchIndex, index) + 1 > (|c.peers| + 1) / 2
    ensures 2 * |Ackers(ds, c.term, index)| > |ds.Keys|
  {
    hide KeepsAcks;
    var holders := HoldersOf(c.peers, c.matchIndex, index);
    assert |Elements(c.peers)| == |c.peers|;
    ReplicasCount(c.peers, c.matchIndex, index);
    forall p | p in holders ensures p in Ackers(ds, c.term, index) && p != c.id {
      assert p in Elements(c.peers);
    }
    RaftElection.SubsetSize(holders + {c.id}, Ackers(ds, c.term, index));
    assert |holders + {c.id}| == |holders| + 1;
  }

  lemma AdvanceSafe(servers: set<NodeId>, ds: Diaries, leaders: Leaders, logs: Logs, d: Diary, c: Node)
    requires ds.Keys == servers && c.id in servers && ds[c.id] == d && PeersOf(servers, c.id, c.peers)
    requires NodeSafe(ds, leaders, logs, d, c) && c.role == Leader && c.term in logs && logs[c.term] == c.log && c.term >= 1
    ensures NodeSafe(ds, leaders, logs, d, AdvanceCommitIndex(c))
  {
    hide KeepsAcks, Sorted, Bounded, PeersOf, Commands, Replicas, Ackers;
    HighestFacts(c, |c.log|);
    var i := HighestReplicated(c, |c.log|);
    if i > c.commitIndex {
      QuorumHolds(servers, ds, logs, d, c, i);
      assert Committed(ds, logs, c.term, i);
      assert Settled(ds, logs, c.log, i, c.term);
      ApplySettled(ds, logs, c, i);
    }
  }

  lemma AnswerSafe(s: Cluster, n: NodeId, r: AppendReply)
    requires n in s.nodes && n in s.diaries && r.from in s.nodes[n].nextIndex
    requires ElectionInv(s) && MatchingInv(s) && SafetyInv(s) && Enabled(s, GetAppendReply(n, r)) && OnTerm(s, GetAppendReply(n, r))
    ensures NodeSafe(s.diaries, s.leaders, s.logs, s.diaries[n], HandleAppendReply(s.nodes[n], r.from, r.req, r.resp))
  {
    hide ElectionInv, MatchingInv, SafetyInv, KeepsAcks, Sorted, Bounded, Settled, Good, Commands, AdvanceCommitIndex, PeersOf;
    var a := s.nodes[n];
    NodeFacts(s, n);
    if r.resp.term > a.term {
      DownSafe(s.diaries, s.leaders, s.logs, s.diaries[n], a, StepDown(a, r.resp.term));
    } else {
      ReplyFacts(s, r);
      RaftElection.LeaderKnown(s, n);
      DiaryKeys(s);
      if r.resp.success {
        var end := r.req.prevLogIndex + |r.req.entries|;
        var m := a;
        if r.req.entries != [] {
          m := a.(nextIndex := a.nextIndex[r.from := end + 1], matchIndex := a.matchIndex[r.from := end]);
          assert r.req.entries[|r.req.entries| - 1].index == end by { LastIndexOf(a.log, s.logs, r.req, end); }
        }
        assert NodeSafe(s.diaries, s.leaders, s.logs, s.diaries[n], m);
        AdvanceSafe(s.servers, s.diaries, s.leaders, s.logs, s.diaries[n], m);
      }
    }
  }

  lemma LastIndexOf(log: Log, logs: Logs, q: AppendRequest, end: nat)
    requires Good(log, logs) && end == q.prevLogIndex + |q.entries| <= |log| && Carries(q, log[..end]) && q.entries != []
    ensures q.entries[|q.entries| - 1].index == end
  {
    assert Rooted(log, logs, end - 1);
  }

  lemma ReplyFacts(s: Cluster, r: AppendReply)
    requires SafetyInv(s) && r in s.appendReplies
    ensures ReplySafe(s.diaries, s.logs, r)
  {
    hide NodesSafe, VotesSafe, BidsSafe, LeaderLogs, ReplySafe;
  }

  lemma DiaryKeys(s: Cluster)
    requires ElectionInv(s)
    ensures s.diaries.Keys == s.servers
  {
    hide NodeOk, CountsOk, LeadersOk, ReplyOk;
  }

  lemma AppendReplyPreserves(s: Cluster, n: NodeId, r: AppendReply)
    requires n in s.nodes && r.from in s.nodes[n].nextIndex
    requires ElectionInv(s) && MatchingInv(s) && SafetyInv(s) && Enabled(s, GetAppendReply(n, r)) && OnTerm(s, GetAppendReply(n, r))
    ensures SafetyInv(AppendReplyStep(s, n, r))
  {
    hide ElectionInv, MatchingInv, SafetyInv, LogsGrow, DiariesGrow, NodeAcks, NodeBid, NodeProgress, NodeCommit, MessagesSafe, HandleAppendReply;
    var a := s.nodes[n];
    var b := HandleAppendReply(a, r.from, r.req, r.resp);
    DiaryKeys(s);
    AnswerSafe(s, n, r);
    GrowsToo(s);
    SelfGrows(s.diaries);
    MessagesOf(s);
    MessagesWith(s, AppendReplyStep(s, n, r));
    NodePreserves(s, AppendReplyStep(s, n, r), n, b);
  }

  lemma SelfGrows(ds: Diaries)
    ensures DiariesGrow(ds, ds)
  {
  }

  // ----- all steps -----

  lemma SafetyPreserved(s: Cluster, step: Step)
    requires ElectionInv(s) && MatchingInv(s) && SafetyInv(s) && Enabled(s, step) && OnTerm(s, step)
    ensures SafetyInv(Do(s, step))
  {
    hide ElectionInv, MatchingInv, SafetyInv, NodeOk, NodeLog, NodeSafe, MessagesSafe, Restart;
    var n := step.n;
    var a := s.nodes[n];
    NodeFacts(s, n);
    MessagesOf(s);
    match step {
      case Elect(_) => ElectPreserves(s, n);
      case GetVoteRequest(_, q) => VoteRequestPreserves(s, n, q);
      case GetVoteReply(_, r) => VoteReplyPreserves(s, n, r);
      case Submit(_, data) => SubmitPreserves(s, n, data);
      case BeginRound(_) => BeginRoundPreserves(s, n);
      case SendAppend(_, peer, round) => SendPreserves(s, n, peer, round);
      case GetAppend(_, m) => AppendPreserves(s, n, m);
      case GetAppendReply(_, r) => AppendReplyPreserves(s, n, r);
      case Crash(_) =>
        RestartSafe(s.diaries, s.leaders, s.logs, s.diaries[n], a);
        MessagesEqual(s, Do(s, step));
        NodePreserves(s, Do(s, step), n, Restart(a));
      case Stop(_) =>
        DownSafe(s.diaries, s.leaders, s.logs, s.diaries[n], a, a.(role := Shutdown));
        MessagesEqual(s, Do(s, step));
        NodePreserves(s, Do(s, step), n, a.(role := Shutdown));
    }
  }

  lemma InitNode(ds: Diaries, i: NodeId, peers: seq<NodeId>)
    ensures NodeSafe(ds, map[], map[], Diary(map[], map[], map[], map[], map[]), Blank(i, peers))
  {
  }

  lemma InitSafety(s: Cluster)
    requires Init(s)
    ensures SafetyInv(s)
  {
    hide NodeSafe, PeersOf, Blank;
    forall i | i in s.nodes && i in s.diaries ensures NodeSafe(s.diaries, s.leaders, s.logs, s.diaries[i], s.nodes[i]) {
      InitNode(s.diaries, i, s.nodes[i].peers);
    }
  }

  lemma {:induction false} SafetyInRuns(states: seq<Cluster>, steps: seq<Step>, k: nat)
    requires GuardedRun(states, steps) && k < |states|
    ensures ElectionInv(states[k]) && MatchingInv(states[k]) && SafetyInv(states[k])
  {
    hide ElectionInv, MatchingInv, SafetyInv, Init;
    RaftMatching.MatchingInRuns(states, steps, k);
    if k == 0 {
      InitSafety(states[0]);
    } else {
      SafetyInRuns(states, steps, k - 1);
      SafetyPreserved(states[k - 1], steps[k - 1]);
    }
  }
}
