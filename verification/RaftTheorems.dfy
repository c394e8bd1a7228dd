/** What the cluster promises, stated over whole runs. */
module RaftTheorems {
  import opened RaftTypes
  import opened RaftHandlers
  import opened RaftProtocol
  import opened RaftElectionInv
  import opened RaftMatchingInv
  import opened RaftSafetyInv
  import opened RaftGrowth
  import RaftElection
  import RaftMatching
  import RaftCompleteness
  import RaftSafety

  // Two settled prefixes never disagree.
  lemma SettledAgree(s: Cluster, a: Log, m: nat, aBound: nat, b: Log, n: nat, bBound: nat)
    requires ElectionInv(s) && MatchingInv(s) && SafetyInv(s) && m <= n <= |b| && m <= |a|
    requires Settled(s.diaries, s.logs, a, m, aBound) && Settled(s.diaries, s.logs, b, n, bBound)
    ensures Agree(a, b, m)
  {
    hide ElectionInv, MatchingInv, SafetyInv;
    if m > 0 {
      var t: nat, i: nat :| t <= aBound && m <= i && Committed(s.diaries, s.logs, t, i) && Agree(a, s.logs[t], m);
      var u: nat, j: nat :| u <= bBound && n <= j && Committed(s.diaries, s.logs, u, j) && Agree(b, s.logs[u], n);
      Keys(s);
      if t < u { RaftCompleteness.Complete(s, t, i, u); }
      if u < t { RaftCompleteness.Complete(s, u, j, t); }
    }
  }

  lemma Keys(s: Cluster)
    requires MatchingInv(s)
    ensures s.leaders.Keys == s.logs.Keys
  {
    hide AllGood, NodeLogs, AppendsOk, RoundsOk;
  }

  lemma DiariesGrowInStep(s: Cluster, step: Step)
    requires ElectionInv(s) && MatchingInv(s) && SafetyInv(s) && Enabled(s, step)
    ensures DiariesGrow(s.diaries, Do(s, step).diaries)
  {
    hide ElectionInv, MatchingInv, SafetyInv, KeepsAcks, NodeCommit, NodeProgress, Sorted, Bounded, HandleAppendEntries, HandleVoteReply, NodeLog, NodeOk, ElectDiary, DiariesGrow;
    var n := step.n;
    RaftSafety.NodeFacts(s, n);
    RaftSafety.SelfGrows(s.diaries);
    var d, a := s.diaries[n], s.nodes[n];
    match step {
      case Elect(_) =>
        GrowsOnElect(s.leaders, d, a);
        OneGrows(s.diaries, n, ElectDiary(d, a));
      case GetVoteRequest(_, q) => OneGrows(s.diaries, n, VoteDiary(d, a, q));
      case GetVoteReply(_, r) => OneGrows(s.diaries, n, CountDiary(d, a, r));
      case Submit(_, data) => OneGrows(s.diaries, n, d.(acked := AckedWith(d.acked, Propose(a, data))));
      case GetAppend(_, m) => OneGrows(s.diaries, n, AppendDiary(d, a, m.req));
      case _ =>
    }
  }

  lemma GrowsOnElect(leaders: Leaders, d: Diary, a: Node)
    requires NodeBid(leaders, d, a)
    ensures DiaryGrows(d, ElectDiary(d, a))
  {
    hide Sorted, Bounded, StartElection;
  }

  lemma DiariesGrowTwice(a: Diaries, b: Diaries, c: Diaries)
    requires DiariesGrow(a, b) && DiariesGrow(b, c)
    ensures DiariesGrow(a, c)
  {
    forall v | v in a ensures DiaryGrows(a[v], c[v]) {
      assert DiaryGrows(a[v], b[v]) && DiaryGrows(b[v], c[v]);
    }
  }

  lemma {:induction false} DiariesGrowInRuns(states: seq<Cluster>, steps: seq<Step>, j: nat, k: nat)
    requires GuardedRun(states, steps) && j <= k < |states|
    ensures DiariesGrow(states[j].diaries, states[k].diaries)
  {
    hide ElectionInv, MatchingInv, SafetyInv, Init, DiariesGrow;
    if j == k {
      RaftSafety.SelfGrows(states[j].diaries);
    } else {
      DiariesGrowInRuns(states, steps, j, k - 1);
      RaftSafety.SafetyInRuns(states, steps, k - 1);
      DiariesGrowInStep(states[k - 1], steps[k - 1]);
      DiariesGrowTwice(states[j].diaries, states[k - 1].diaries, states[k].diaries);
    }
  }

  // What a node took as committed at one moment is settled at every later one.
  lemma SettledLater(states: seq<Cluster>, steps: seq<Step>, j: nat, k: nat, a: NodeId)
    requires GuardedRun(states, steps) && j <= k < |states| && a in states[j].nodes
    ensures var c := states[j].nodes[a];
            c.lastApplied <= c.commitIndex <= |c.log| && c.applied == Commands(c.log[..c.lastApplied])
            && Settled(states[k].diaries, states[k].logs, c.log, c.commitIndex, c.term)
  {
    hide MatchingInv, NodeOk, CountsOk, LeadersOk, ReplyOk, LeaderLogs, VotesSafe, BidsSafe, MessagesSafe, Settled, Init, DiariesGrow, LogsGrow, NodeAcks, NodeBid, NodeProgress;
    RaftSafety.SafetyInRuns(states, steps, j);
    var c := states[j].nodes[a];
    assert NodeSafe(states[j].diaries, states[j].leaders, states[j].logs, states[j].diaries[a], c);
    DiariesGrowInRuns(states, steps, j, k);
    RaftMatching.LogsGrowInRuns(states, steps, j, k);
    SettledGrows(states[j].diaries, states[k].diaries, states[j].logs, states[k].logs, c.log, c.log, c.commitIndex, c.term, c.term);
  }

  // The committed prefixes of any two nodes, at any two moments, agree.
  lemma CommittedPrefixesAgree(states: seq<Cluster>, steps: seq<Step>, j: nat, k: nat, a: NodeId, b: NodeId)
    requires GuardedRun(states, steps) && j < |states| && k < |states| && a in states[j].nodes && b in states[k].nodes
    requires states[j].nodes[a].commitIndex <= states[k].nodes[b].commitIndex
    ensures var m := states[j].nodes[a].commitIndex;
            Agree(states[j].nodes[a].log, states[k].nodes[b].log, m)
  {
    hide GuardedRun, ElectionInv, MatchingInv, SafetyInv, Settled;
    var last := if j <= k then k else j;
    RaftSafety.SafetyInRuns(states, steps, last);
    SettledLater(states, steps, j, last, a);
    SettledLater(states, steps, k, last, b);
    var c, d := states[j].nodes[a], states[k].nodes[b];
    SettledAgree(states[last], c.log, c.commitIndex, c.term, d.log, d.commitIndex, d.term);
  }

  // State Machine Safety: no two nodes, at any two moments, have applied different entries at index i.
  lemma StateMachineSafety(states: seq<Cluster>, steps: seq<Step>, j: nat, k: nat, a: NodeId, b: NodeId, i: nat)
    requires GuardedRun(states, steps) && j < |states| && k < |states| && a in states[j].nodes && b in states[k].nodes
    requires 1 <= i <= states[j].nodes[a].lastApplied && i <= states[k].nodes[b].lastApplied
    ensures i <= |states[j].nodes[a].log| && i <= |states[k].nodes[b].log|
    ensures states[j].nodes[a].log[i - 1] == states[k].nodes[b].log[i - 1]
  {
    hide GuardedRun, Settled;
    SettledLater(states, steps, j, j, a);
    SettledLater(states, steps, k, k, b);
    if states[j].nodes[a].commitIndex <= states[k].nodes[b].commitIndex {
      CommittedPrefixesAgree(states, steps, j, k, a, b);
    } else {
      CommittedPrefixesAgree(states, steps, k, j, b, a);
    }
  }

  // The commands a node has fed to its state machine are a prefix of those of any node that is further on.
  lemma AppliedIsPrefix(states: seq<Cluster>, steps: seq<Step>, j: nat, k: nat, a: NodeId, b: NodeId)
    requires GuardedRun(states, steps) && j < |states| && k < |states| && a in states[j].nodes && b in states[k].nodes
    requires states[j].nodes[a].lastApplied <= states[k].nodes[b].lastApplied
    ensures states[j].nodes[a].applied <= states[k].nodes[b].applied
  {
    hide GuardedRun, Settled;
    SettledLater(states, steps, j, j, a);
    SettledLater(states, steps, k, k, b);
    var c, d := states[j].nodes[a], states[k].nodes[b];
    forall x | 0 <= x < c.lastApplied ensures c.log[x] == d.log[x] {
      StateMachineSafety(states, steps, j, k, a, b, x + 1);
    }
    assert c.log[..c.lastApplied] == d.log[..c.lastApplied];
    RaftSafety.CommandsSplit(d.log, c.lastApplied, d.lastApplied);
  }

  // Leader Completeness: whoever leads a term at least as late as that of a node has all that the node took as committed.
  lemma LeaderCompleteness(states: seq<Cluster>, steps: seq<Step>, j: nat, k: nat, a: NodeId, b: NodeId)
    requires GuardedRun(states, steps) && j <= k < |states| && a in states[j].nodes && b in states[k].nodes
    requires states[k].nodes[b].role == Leader && states[k].nodes[b].term >= states[j].nodes[a].term
    ensures var m := states[j].nodes[a].commitIndex;
            m <= |states[j].nodes[a].log| && m <= |states[k].nodes[b].log|
            && states[j].nodes[a].log[..m] == states[k].nodes[b].log[..m]
  {
    hide GuardedRun, Settled, SafetyInv, NodeOk, CountsOk, LeadersOk, ReplyOk, AllGood, AppendsOk, RoundsOk, Good;
    RaftSafety.SafetyInRuns(states, steps, k);
    SettledLater(states, steps, j, k, a);
    var c, d := states[j].nodes[a], states[k].nodes[b];
    assert NodeLog(states[k].logs, d);
    RaftSafety.LeaderHas(states[k], c.log, c.commitIndex, c.term, d.term);
  }

  lemma RequestCommit(a: Node, q: AppendRequest)
    requires q.leaderCommit <= q.prevLogIndex + |q.entries|
    ensures HandleAppendEntries(a, q).0.commitIndex >= a.commitIndex
  {
    hide Merge;
  }

  lemma ReplyCommit(a: Node, p: NodeId, q: AppendRequest, r: AppendResponse)
    requires p in a.nextIndex
    ensures HandleAppendReply(a, p, q, r).commitIndex >= a.commitIndex
  {
  }

  // Every request in flight reaches at least to the commit index it carries.
  lemma RequestsReachCommit(states: seq<Cluster>, steps: seq<Step>, k: nat, m: Sent)
    requires GuardedRun(states, steps) && k < |states| && m in states[k].appends
    ensures m.req.prevLogIndex + |m.req.entries| >= m.req.leaderCommit
  {
    hide GuardedRun, ElectionInv, MatchingInv, SafetyInv, Settled;
    RaftSafety.SafetyInRuns(states, steps, k);
    RaftSafety.RequestFacts(states[k], m);
  }

  // Unless it restarts, a node's commit index never goes back; and it never passes the end of the log.
  lemma CommitIndexNeverRegresses(states: seq<Cluster>, steps: seq<Step>, k: nat, i: NodeId)
    requires GuardedRun(states, steps) && k < |steps| && i in states[k].nodes && steps[k] != Crash(i)
    ensures i in states[k + 1].nodes
    ensures states[k].nodes[i].commitIndex <= states[k + 1].nodes[i].commitIndex <= |states[k + 1].nodes[i].log|
  {
    hide Settled, Init, HandleAppendEntries, HandleAppendReply;
    var s, step := states[k], steps[k];
    match step {
      case GetAppend(_, m) =>
        RequestsReachCommit(states, steps, k, m);
        RequestCommit(s.nodes[step.n], m.req);
      case GetAppendReply(_, r) => ReplyCommit(s.nodes[step.n], r.from, r.req, r.resp);
      case _ =>
    }
    SettledLater(states, steps, k + 1, k + 1, i);
  }
}
