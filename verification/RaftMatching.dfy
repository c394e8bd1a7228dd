/** Log Matching: two logs with the same term at the same index are equal up to it. It needs no guard. */
module RaftMatching {
  import Bytes
  import opened RaftTypes
  import opened RaftHandlers
  import opened RaftProtocol
  import opened RaftElectionInv
  import opened RaftMatchingInv
  import RaftElection

  lemma GoodGrows(log: Log, logs: map<nat, Log>, logs': map<nat, Log>)
    requires Good(log, logs) && LogsGrow(logs, logs')
    ensures Good(log, logs')
  {
    forall k | 0 <= k < |log| ensures Rooted(log, logs', k) {
      assert Rooted(log, logs, k);
    }
  }

  // Two good logs with the same term at index k agree up to k.
  lemma GoodAgree(a: Log, b: Log, logs: map<nat, Log>, k: nat)
    requires Good(a, logs) && Good(b, logs) && k < |a| && k < |b| && a[k].term == b[k].term
    ensures Agree(a, b, k + 1)
  {
    assert Rooted(a, logs, k) && Rooted(b, logs, k);
  }

  lemma GoodPrefix(log: Log, logs: map<nat, Log>, n: nat)
    requires Good(log, logs) && n <= |log|
    ensures Good(log[..n], logs)
  {
    forall k | 0 <= k < n ensures Rooted(log[..n], logs, k) {
      assert Rooted(log, logs, k);
    }
  }

  lemma GoodMatching(a: Log, b: Log, logs: map<nat, Log>)
    requires Good(a, logs) && Good(b, logs)
    ensures Matching(a, b)
  {
    forall k | 0 <= k < |a| && k < |b| && a[k].term == b[k].term ensures Agree(a, b, k + 1) {
      GoodAgree(a, b, logs, k);
    }
  }

  // What the append loop computes: the follower's log if it has it all, else the leader's piece.
  lemma {:induction false} MergeResult(log: Log, full: Log, prev: nat)
    requires Matching(log, full) && prev <= |full| && Agree(log, full, prev)
    ensures Merge(log, prev, full[prev..]) == if |full| <= |log| && Agree(log, full, |full|) then log else full
    decreases |full| - prev
  {
    if prev < |full| {
      var entries := full[prev..];
      assert entries[1..] == full[prev + 1..];
      if prev < |log| && log[prev].term == entries[0].term {
        MergeResult(log, full, prev + 1);
      } else {
        var cut := full[..prev + 1];
        MergeResult(cut, full, prev + 1);
        if prev < |log| { assert log[..prev] + [entries[0]] == cut; } else { assert log + [entries[0]] == cut; }
        if |full| == prev + 1 { assert cut == full; }
      }
    }
  }

  // A request that passes the consistency check continues the follower's log.
  lemma CheckPasses(log: Log, q: AppendRequest, full: Log, logs: map<nat, Log>)
    requires Good(log, logs) && Good(full, logs) && Carries(q, full)
    requires q.prevLogIndex > 0 ==> TermAt(log, q.prevLogIndex) == q.prevLogTerm
    ensures Agree(log, full, q.prevLogIndex) && q.entries == full[q.prevLogIndex..]
  {
    assert q.entries == full[q.prevLogIndex..];
    if q.prevLogIndex > 0 {
      assert Rooted(full, logs, q.prevLogIndex - 1);
      GoodAgree(log, full, logs, q.prevLogIndex - 1);
    }
  }

  lemma MergeGood(log: Log, q: AppendRequest, logs: map<nat, Log>)
    requires Good(log, logs) && RequestOk(q, logs)
    requires q.prevLogIndex > 0 ==> TermAt(log, q.prevLogIndex) == q.prevLogTerm
    ensures Good(Merge(log, q.prevLogIndex, q.entries), logs)
  {
    if !Hollow(q) {
      var full :| Carries(q, full) && Good(full, logs);
      CheckPasses(log, q, full, logs);
      GoodMatching(log, full, logs);
      MergeResult(log, full, q.prevLogIndex);
    }
  }

  lemma AppendGood(logs: map<nat, Log>, a: Node, q: AppendRequest)
    requires NodeLog(logs, a) && RequestOk(q, logs)
    requires q.term == a.term ==> a.role != Leader
    ensures NodeLog(logs, HandleAppendEntries(a, q).0)
  {
    hide Good;
    if q.term >= a.term && !(q.prevLogIndex > 0 && TermAt(a.log, q.prevLogIndex) != q.prevLogTerm) {
      MergeGood(a.log, q, logs);
    }
  }

  lemma BuildGood(logs: map<nat, Log>, a: Node, peer: NodeId, t: nat, commit: nat)
    requires Good(a.log, logs) && peer in a.nextIndex
    ensures RequestOk(BuildAppend(a, peer, t, commit), logs)
  {
    var q := BuildAppend(a, peer, t, commit);
    if q.prevLogIndex <= |a.log| {
      assert Carries(q, a.log);
    } else {
      assert Hollow(q);
    }
  }

  // A leader that adds an entry to its log.
  lemma LeaderWrites(logs: map<nat, Log>, a: Log, t: nat, e: LogEntry)
    requires Good(a, logs) && AllGood(logs) && e.index == |a| + 1 && e.term == t && t >= 1
    requires t !in logs || logs[t] == a
    ensures LogsGrow(logs, logs[t := a + [e]]) && AllGood(logs[t := a + [e]]) && Good(a + [e], logs[t := a + [e]])
  {
    var b := a + [e];
    var logs' := logs[t := b];
    forall u | u in logs ensures u in logs' && Agree(logs[u], logs'[u], |logs[u]|) {
    }
    forall k | 0 <= k < |b| ensures Rooted(b, logs', k) {
      if k < |a| { assert Rooted(a, logs, k); }
    }
    forall u | u in logs' ensures Good(logs'[u], logs') {
      if u != t { GoodGrows(logs[u], logs, logs'); }
    }
  }

  lemma OthersGrow(logs: map<nat, Log>, logs': map<nat, Log>, nodes: map<NodeId, Node>, n: NodeId, b: Node)
    requires NodeLogs(logs, nodes) && LogsGrow(logs, logs') && NodeLog(logs', b) && n in nodes
    requires forall i :: i in nodes && i != n && nodes[i].role == Leader && nodes[i].term in logs ==> logs'[nodes[i].term] == logs[nodes[i].term]
    ensures NodeLogs(logs', nodes[n := b])
  {
    hide Good;
    var nodes' := nodes[n := b];
    forall i | i in nodes' ensures NodeLog(logs', nodes'[i]) {
      if i != n {
        assert NodeLog(logs, nodes[i]);
        GoodGrows(nodes[i].log, logs, logs');
      }
    }
  }

  lemma AppendsGrow(leaders: map<nat, NodeId>, leaders': map<nat, NodeId>, logs: map<nat, Log>, logs': map<nat, Log>, appends: set<Sent>)
    requires AppendsOk(leaders, logs, appends) && LogsGrow(logs, logs') && LeadersGrow(leaders, leaders')
    ensures AppendsOk(leaders', logs', appends)
  {
    hide Good;
    forall m | m in appends ensures SentOk(leaders', logs', m) {
      assert SentOk(leaders, logs, m);
      if !Hollow(m.req) {
        var full :| Carries(m.req, full) && Good(full, logs);
        GoodGrows(full, logs, logs');
      }
    }
  }

  lemma InitMatching(s: Cluster)
    requires Init(s)
    ensures MatchingInv(s)
  {
    forall i | i in s.nodes ensures NodeLog(s.logs, s.nodes[i]) {
      assert s.nodes[i] == Blank(i, s.nodes[i].peers);
    }
  }

  // Another leader of the same term would be the same node.
  lemma OtherLeaders(s: Cluster, n: NodeId, t: nat, logs': map<nat, Log>)
    requires ElectionInv(s) && (t !in s.leaders || s.leaders[t] == n) && s.leaders.Keys == s.logs.Keys
    requires forall u :: u in s.logs && u != t ==> u in logs' && logs'[u] == s.logs[u]
    ensures forall i :: i in s.nodes && i != n && s.nodes[i].role == Leader && s.nodes[i].term in s.logs ==>
              s.nodes[i].term in logs' && logs'[s.nodes[i].term] == s.logs[s.nodes[i].term]
  {
    hide CountsOk, LeadersOk, ReplyOk;
    forall i | i in s.nodes && i != n && s.nodes[i].role == Leader && s.nodes[i].term in s.logs
      ensures s.nodes[i].term in logs' && logs'[s.nodes[i].term] == s.logs[s.nodes[i].term]
    {
      assert NodeOk(s.servers, s.diaries[i], s.leaders, i, s.nodes[i]);
    }
  }

  // A step in which n writes an entry as the leader of its term.
  lemma WritePreserves(s: Cluster, s': Cluster, n: NodeId, b: Node, e: LogEntry)
    requires ElectionInv(s) && MatchingInv(s) && n in s.nodes && b.id == n
    requires b.role == Leader && b.log == s.nodes[n].log + [e] && e.index == |s.nodes[n].log| + 1 && e.term == b.term >= 1
    requires b.term !in s.leaders || (s.leaders[b.term] == n && s.logs[b.term] == s.nodes[n].log)
    requires s'.nodes == s.nodes[n := b] && s'.logs == s.logs[b.term := b.log] && s'.leaders == s.leaders[b.term := n]
    requires s'.appends == s.appends && s'.rounds == s.rounds
    ensures MatchingInv(s')
  {
    hide ElectionInv, Good, AllGood, SentOk;
    assert NodeLog(s.logs, s.nodes[n]);
    LeaderWrites(s.logs, s.nodes[n].log, b.term, e);
    OtherLeaders(s, n, b.term, s'.logs);
    OthersGrow(s.logs, s'.logs, s.nodes, n, b);
    AppendsGrow(s.leaders, s'.leaders, s.logs, s'.logs, s.appends);
  }

  lemma QuietPreserves(s: Cluster, s': Cluster, n: NodeId, b: Node)
    requires MatchingInv(s) && n in s.nodes && NodeLog(s.logs, b)
    requires s'.nodes == s.nodes[n := b] && s'.logs == s.logs && s'.leaders == s.leaders
    requires s'.appends == s.appends && s'.rounds == s.rounds
    ensures MatchingInv(s')
  {
    hide AllGood, AppendsOk, RoundsOk, NodeLog;
  }

  lemma ElectPreserves(s: Cluster, n: NodeId)
    requires ElectionInv(s) && MatchingInv(s) && n in s.servers && n in s.nodes && n in s.diaries
    ensures MatchingInv(ElectStep(s, n))
  {
    hide ElectionInv, AllGood, AppendsOk, RoundsOk, Good;
    var a := s.nodes[n];
    var b := StartElection(a);
    RaftElection.ElectFresh(s, n);
    assert NodeLog(s.logs, a);
    if b.role == Leader {
      WritePreserves(s, ElectStep(s, n), n, b, NoOp(|a.log| + 1, a.term + 1));
    } else {
      QuietPreserves(s, ElectStep(s, n), n, b);
    }
  }

  lemma VoteReplyPreserves(s: Cluster, n: NodeId, r: VoteReply)
    requires ElectionInv(s) && MatchingInv(s) && Enabled(s, GetVoteReply(n, r))
    ensures MatchingInv(VoteReplyStep(s, n, r))
  {
    hide ElectionInv, AllGood, AppendsOk, RoundsOk, Good;
    var a := s.nodes[n];
    var b := HandleVoteReply(a, r.req, r.resp);
    var s' := VoteReplyStep(s, n, r);
    RaftElection.ReplyFresh(s, n, r);
    assert NodeLog(s.logs, a);
    if b.role == Leader && a.role != Leader {
      WritePreserves(s, s', n, b, NoOp(|a.log| + 1, a.term));
    } else {
      assert b.role == Leader ==> s'.logs == s.logs && s'.leaders == s.leaders;
      QuietPreserves(s, s', n, b);
    }
  }

  lemma SubmitPreserves(s: Cluster, n: NodeId, data: seq<Bytes.byte>)
    requires ElectionInv(s) && MatchingInv(s) && n in s.servers && n in s.nodes && n in s.diaries
    ensures MatchingInv(SubmitStep(s, n, data))
  {
    hide ElectionInv, AllGood, AppendsOk, RoundsOk, Good;
    var a := s.nodes[n];
    var s' := SubmitStep(s, n, data);
    RaftElection.LeaderKnown(s, n);
    assert NodeLog(s.logs, a);
    if a.role == Leader {
      assert s.leaders == s.leaders[a.term := n];
      WritePreserves(s, s', n, Propose(a, data), LogEntry(|a.log| + 1, a.term, ENTRY_COMMAND, data));
    } else {
      QuietPreserves(s, s', n, a);
    }
  }

  lemma SendPreserves(s: Cluster, n: NodeId, peer: NodeId, round: Round)
    requires ElectionInv(s) && MatchingInv(s) && Enabled(s, SendAppend(n, peer, round))
    ensures MatchingInv(SendStep(s, n, peer, round))
  {
    hide ElectionInv, AllGood, Good;
    var a := s.nodes[n];
    RaftElection.LeaderKnown(s, n);
    assert NodeLog(s.logs, a);
    BuildGood(s.logs, a, peer, round.term, round.commit);
    assert SentOk(s.leaders, s.logs, Sent(peer, BuildAppend(a, peer, round.term, round.commit)));
  }

  lemma GetAppendPreserves(s: Cluster, n: NodeId, m: Sent)
    requires ElectionInv(s) && MatchingInv(s) && Enabled(s, GetAppend(n, m))
    ensures MatchingInv(AppendStep(s, n, m.req))
  {
    hide ElectionInv, AllGood, Good;
    var a := s.nodes[n];
    RaftElection.LeaderKnown(s, n);
    assert SentOk(s.leaders, s.logs, m);
    assert NodeLog(s.logs, a);
    AppendGood(s.logs, a, m.req);
    QuietPreserves(s, AppendStep(s, n, m.req), n, HandleAppendEntries(a, m.req).0);
  }

  lemma ReplyKeepsLog(a: Node, p: NodeId, q: AppendRequest, r: AppendResponse)
    requires p in a.nextIndex
    ensures var b := HandleAppendReply(a, p, q, r); b.log == a.log && (b.role == Leader ==> a.role == Leader && b.term == a.term)
  {
  }

  lemma MatchingPreserved(s: Cluster, step: Step)
    requires ElectionInv(s) && MatchingInv(s) && Enabled(s, step)
    ensures MatchingInv(Do(s, step))
  {
    hide ElectionInv, AllGood, AppendsOk, Good, NodeOk, CountsOk, LeadersOk, ReplyOk;
    var n := step.n;
    var a := s.nodes[n];
    assert NodeLog(s.logs, a);
    RaftElection.LeaderKnown(s, n);
    match step {
      case Elect(_) => ElectPreserves(s, n);
      case GetVoteRequest(_, q) => QuietPreserves(s, VoteRequestStep(s, n, q), n, HandleRequestVote(a, q).0);
      case GetVoteReply(_, r) => VoteReplyPreserves(s, n, r);
      case Submit(_, data) => SubmitPreserves(s, n, data);
      case BeginRound(_) =>
      case SendAppend(_, peer, round) => SendPreserves(s, n, peer, round);
      case GetAppend(_, m) => GetAppendPreserves(s, n, m);
      case GetAppendReply(_, r) =>
        ReplyKeepsLog(a, r.from, r.req, r.resp);
        QuietPreserves(s, AppendReplyStep(s, n, r), n, HandleAppendReply(a, r.from, r.req, r.resp));
      case Crash(_) => QuietPreserves(s, Do(s, step), n, Restart(a));
      case Stop(_) => QuietPreserves(s, Do(s, step), n, a.(role := Shutdown));
    }
  }

  lemma {:induction false} MatchingInRuns(states: seq<Cluster>, steps: seq<Step>, k: nat)
    requires Run(states, steps) && k < |states|
    ensures ElectionInv(states[k]) && MatchingInv(states[k])
  {
    hide ElectionInv, MatchingInv, Init;
    RaftElection.ElectionInRuns(states, steps, k);
    if k == 0 {
      InitMatching(states[0]);
    } else {
      MatchingInRuns(states, steps, k - 1);
      MatchingPreserved(states[k - 1], steps[k - 1]);
    }
  }

  lemma SelfGrows(logs: map<nat, Log>)
    ensures LogsGrow(logs, logs)
  {
  }

  lemma GrowsTwice(a: map<nat, Log>, b: map<nat, Log>, c: map<nat, Log>)
    requires LogsGrow(a, b) && LogsGrow(b, c)
    ensures LogsGrow(a, c)
  {
    forall t | t in a ensures t in c && Agree(a[t], c[t], |a[t]|) {
      assert Agree(a[t], b[t], |a[t]|);
      assert Agree(b[t], c[t], |b[t]|);
    }
  }

  lemma LogsGrowInStep(s: Cluster, step: Step)
    requires ElectionInv(s) && MatchingInv(s) && Enabled(s, step)
    ensures LogsGrow(s.logs, Do(s, step).logs)
  {
    hide ElectionInv, AllGood, Good, AppendsOk;
    var n := step.n;
    var a := s.nodes[n];
    assert NodeLog(s.logs, a);
    match step {
      case Elect(_) => RaftElection.ElectFresh(s, n);
      case GetVoteReply(_, r) => RaftElection.ReplyFresh(s, n, r);
      case _ =>
    }
  }

  lemma {:induction false} LogsGrowInRuns(states: seq<Cluster>, steps: seq<Step>, j: nat, k: nat)
    requires Run(states, steps) && j <= k < |states|
    ensures LogsGrow(states[j].logs, states[k].logs)
  {
    hide ElectionInv, MatchingInv, Init, LogsGrow;
    if j == k {
      SelfGrows(states[j].logs);
    } else {
      LogsGrowInRuns(states, steps, j, k - 1);
      MatchingInRuns(states, steps, k - 1);
      LogsGrowInStep(states[k - 1], steps[k - 1]);
      GrowsTwice(states[j].logs, states[k - 1].logs, states[k].logs);
    }
  }

  // A node's log at any moment is good with respect to the leader logs of any later moment.
  lemma GoodLater(states: seq<Cluster>, steps: seq<Step>, j: nat, k: nat, a: NodeId)
    requires Run(states, steps) && j <= k < |states| && a in states[j].nodes
    ensures Good(states[j].nodes[a].log, states[k].logs)
  {
    hide ElectionInv, AllGood, Good, AppendsOk, Init;
    MatchingInRuns(states, steps, j);
    assert NodeLog(states[j].logs, states[j].nodes[a]);
    LogsGrowInRuns(states, steps, j, k);
    GoodGrows(states[j].nodes[a].log, states[j].logs, states[k].logs);
  }

  // Log Matching, for the logs of any two nodes at any two moments of any run. Index i counts from 1.
  lemma LogMatching(states: seq<Cluster>, steps: seq<Step>, j: nat, k: nat, a: NodeId, b: NodeId, i: nat)
    requires Run(states, steps) && j < |states| && k < |states| && a in states[j].nodes && b in states[k].nodes
    requires 1 <= i <= |states[j].nodes[a].log| && i <= |states[k].nodes[b].log|
    requires states[j].nodes[a].log[i - 1].term == states[k].nodes[b].log[i - 1].term
    ensures states[j].nodes[a].log[..i] == states[k].nodes[b].log[..i]
    ensures forall x :: 0 <= x < i ==> states[j].nodes[a].log[x].index == x + 1
  {
    hide Run;
    var last := if j <= k then k else j;
    GoodLater(states, steps, j, last, a);
    GoodLater(states, steps, k, last, b);
    GoodAgree(states[j].nodes[a].log, states[k].nodes[b].log, states[last].logs, i - 1);
    forall x | 0 <= x < i ensures states[j].nodes[a].log[x].index == x + 1 {
      assert Rooted(states[j].nodes[a].log, states[last].logs, x);
    }
  }

  // Log Matching between a node and a request in flight that share an entry's index and term.
  lemma RequestMatching(states: seq<Cluster>, steps: seq<Step>, k: nat, a: NodeId, m: Sent, x: nat)
    requires Run(states, steps) && k < |states| && a in states[k].nodes && m in states[k].appends
    requires x < |m.req.entries| && m.req.prevLogIndex + x < |states[k].nodes[a].log|
    requires states[k].nodes[a].log[m.req.prevLogIndex + x].term == m.req.entries[x].term
    ensures states[k].nodes[a].log[m.req.prevLogIndex..m.req.prevLogIndex + x + 1] == m.req.entries[..x + 1]
    ensures m.req.prevLogIndex > 0 ==> TermAt(states[k].nodes[a].log, m.req.prevLogIndex) == m.req.prevLogTerm
  {
    hide Run, ElectionInv, AllGood;
    MatchingInRuns(states, steps, k);
    assert NodeLog(states[k].logs, states[k].nodes[a]);
    assert SentOk(states[k].leaders, states[k].logs, m);
    var log := states[k].nodes[a].log;
    var full :| Carries(m.req, full) && Good(full, states[k].logs);
    assert full[m.req.prevLogIndex + x] == m.req.entries[x];
    GoodAgree(log, full, states[k].logs, m.req.prevLogIndex + x);
  }
}
