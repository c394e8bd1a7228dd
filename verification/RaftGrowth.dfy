/** What was established stays established as diaries and leader logs grow. */
module RaftGrowth {
  import opened RaftTypes
  import opened RaftHandlers
  import opened RaftProtocol
  import opened RaftElectionInv
  import opened RaftMatchingInv
  import opened RaftSafetyInv
  import RaftElection
  import RaftMatching

  lemma OneGrows(ds: Diaries, n: NodeId, d: Diary)
    requires n in ds && DiaryGrows(ds[n], d)
    ensures DiariesGrow(ds, ds[n := d])
  {
  }

  lemma CommittedGrows(ds: Diaries, ds': Diaries, logs: Logs, logs': Logs, t: nat, n: nat)
    requires DiariesGrow(ds, ds') && LogsGrow(logs, logs') && Committed(ds, logs, t, n)
    ensures Committed(ds', logs', t, n)
  {
    RaftElection.SubsetSize(Ackers(ds, t, n), Ackers(ds', t, n));
  }

  lemma SettledGrows(ds: Diaries, ds': Diaries, logs: Logs, logs': Logs, log: Log, log': Log, n: nat, bound: nat, bound': nat)
    requires DiariesGrow(ds, ds') && LogsGrow(logs, logs')
    requires Settled(ds, logs, log, n, bound) && bound <= bound' && Agree(log, log', n)
    ensures Settled(ds', logs', log', n, bound')
  {
    hide DiariesGrow;
    if n > 0 {
      var t: nat, i: nat :| t <= bound && n <= i && Committed(ds, logs, t, i) && Agree(log, logs[t], n);
      CommittedGrows(ds, ds', logs, logs', t, i);
      assert Agree(log', logs'[t], n);
    }
  }

  lemma KeptGrows(logs: Logs, logs': Logs, log: Log, log': Log, t: nat, bound: int, bound': int, n: nat)
    requires LogsGrow(logs, logs') && t in logs && Kept(logs, log, t, bound, n)
    requires bound <= bound' && Agree(log, log', |log|)
    ensures Kept(logs', log', t, bound', n)
  {
    if !Agree(log, logs[t], n) {
      var w :| t < w <= bound && w in logs && Conflict(logs[w], logs[t], n);
      assert Conflict(logs'[w], logs'[t], n);
    }
  }

  lemma KeepsAcksGrows(logs: Logs, logs': Logs, acked: map<nat, nat>, log: Log, log': Log, bound: int, bound': int)
    requires LogsGrow(logs, logs') && KeepsAcks(logs, acked, log, bound) && bound <= bound' && Agree(log, log', |log|)
    requires forall t :: t in acked && t <= bound' ==> t <= bound
    ensures KeepsAcks(logs', acked, log', bound')
  {
    hide Kept;
    forall t | t in acked && t <= bound' ensures t in logs' {
      assert t in logs;
    }
    forall t, n: nat | t in acked && t <= bound' && n <= acked[t] ensures Kept(logs', log', t, bound', n) {
      assert Kept(logs, log, t, bound, n);
      KeptGrows(logs, logs', log, log', t, bound, bound', n);
    }
  }

  lemma OtherNode(ds: Diaries, ds': Diaries, leaders: Leaders, leaders': Leaders, logs: Logs, logs': Logs, d: Diary, c: Node)
    requires DiariesGrow(ds, ds') && LeadersGrow(leaders, leaders') && LogsGrow(logs, logs')
    requires NodeSafe(ds, leaders, logs, d, c)
    ensures NodeSafe(ds', leaders', logs', d, c)
  {
    hide KeepsAcks, Settled;
    KeepsAcksGrows(logs, logs', d.acked, c.log, c.log, c.term, c.term);
    SettledGrows(ds, ds', logs, logs', c.log, c.log, c.commitIndex, c.term, c.term);
  }

  lemma VoteGrows(ds: Diaries, leaders: Leaders, leaders': Leaders, logs: Logs, logs': Logs, n: NodeId, d': Diary, v: NodeId, u: nat)
    requires n in ds && DiaryGrows(ds[n], d') && LeadersGrow(leaders, leaders') && LogsGrow(logs, logs')
    requires VotesStay(ds[n], d', leaders, n)
    requires v in ds && u in ds[v].votes && VoteSafe(ds, leaders, logs, v, u)
    ensures VoteSafe(ds[n := d'], leaders', logs', v, u)
  {
    hide KeepsAcks, Good, UpToDate;
    var ds' := ds[n := d'];
    var log := ds[v].voteLogs[u];
    RaftMatching.GoodGrows(log, logs, logs');
    if !Late(ds, leaders, u, v, ds[v].votes[u]) {
      KeepsAcksSame(logs, ds[v].acked, ds'[v].acked, log, u - 1);
      KeepsAcksGrows(logs, logs', ds'[v].acked, log, log, u - 1, u - 1);
    }
  }

  lemma KeepsAcksSame(logs: Logs, acked: map<nat, nat>, acked': map<nat, nat>, log: Log, bound: int)
    requires KeepsAcks(logs, acked, log, bound)
    requires forall t :: t in acked' && t <= bound ==> t in acked && acked'[t] == acked[t]
    ensures KeepsAcks(logs, acked', log, bound)
  {
    hide Kept;
  }

  lemma VotesGrow(ds: Diaries, leaders: Leaders, leaders': Leaders, logs: Logs, logs': Logs, n: NodeId, d': Diary)
    requires n in ds && DiaryGrows(ds[n], d') && LeadersGrow(leaders, leaders') && LogsGrow(logs, logs')
    requires VotesStay(ds[n], d', leaders, n) && VotesSafe(ds, leaders, logs)
    requires forall u :: u in d'.votes && u !in ds[n].votes ==> VoteSafe(ds[n := d'], leaders', logs', n, u)
    ensures VotesSafe(ds[n := d'], leaders', logs')
  {
    hide VoteSafe, LogsGrow, LeadersGrow, DiaryGrows;
    var ds' := ds[n := d'];
    forall v, u | v in ds' && u in ds'[v].votes ensures VoteSafe(ds', leaders', logs', v, u) {
      if u in ds[v].votes {
        assert VoteSafe(ds, leaders, logs, v, u);
        VoteGrows(ds, leaders, leaders', logs, logs', n, d', v, u);
      }
    }
  }

  lemma BidsGrow(ds: Diaries, logs: Logs, logs': Logs, n: NodeId, d': Diary)
    requires n in ds && DiaryGrows(ds[n], d') && LogsGrow(logs, logs') && BidsSafe(ds, logs)
    requires forall u :: u in d'.bids && u !in ds[n].bids ==> Good(d'.bids[u], logs') && Sorted(d'.bids[u]) && Bounded(d'.bids[u], u - 1)
    ensures BidsSafe(ds[n := d'], logs')
  {
    hide Good, Sorted, Bounded, LogsGrow;
    var ds' := ds[n := d'];
    forall c, u | c in ds' && u in ds'[c].bids
      ensures Good(ds'[c].bids[u], logs') && Sorted(ds'[c].bids[u]) && Bounded(ds'[c].bids[u], u - 1)
    {
      if u in ds[c].bids { RaftMatching.GoodGrows(ds[c].bids[u], logs, logs'); }
    }
  }

  lemma FitsGrows(logs: Logs, logs': Logs, q: AppendRequest)
    requires LogsGrow(logs, logs') && Fits(logs, q)
    ensures Fits(logs', q)
  {
    var end := q.prevLogIndex + |q.entries|;
    assert logs[q.term][..end] == logs'[q.term][..end];
  }

  lemma RequestGrows(ds: Diaries, ds': Diaries, logs: Logs, logs': Logs, q: AppendRequest)
    requires DiariesGrow(ds, ds') && LogsGrow(logs, logs') && RequestSafe(ds, logs, q)
    ensures RequestSafe(ds', logs', q)
  {
    hide Settled, DiariesGrow;
    FitsGrows(logs, logs', q);
    SettledGrows(ds, ds', logs, logs', logs[q.term], logs'[q.term], q.leaderCommit, q.term, q.term);
  }

  lemma RoundGrows(ds: Diaries, ds': Diaries, logs: Logs, logs': Logs, r: Round)
    requires DiariesGrow(ds, ds') && LogsGrow(logs, logs') && RoundSafe(ds, logs, r)
    ensures RoundSafe(ds', logs', r)
  {
    hide Settled, DiariesGrow;
    SettledGrows(ds, ds', logs, logs', logs[r.term], logs'[r.term], r.commit, r.term, r.term);
  }

  lemma ReplyGrows(ds: Diaries, ds': Diaries, logs: Logs, logs': Logs, r: AppendReply)
    requires DiariesGrow(ds, ds') && LogsGrow(logs, logs') && ReplySafe(ds, logs, r)
    ensures ReplySafe(ds', logs', r)
  {
    hide Fits;
    FitsGrows(logs, logs', r.req);
  }

  // All messages stay sound.
  lemma MessagesGrow(s: Cluster, ds': Diaries, logs': Logs)
    requires MessagesSafe(s) && DiariesGrow(s.diaries, ds') && LogsGrow(s.logs, logs')
    ensures MessagesSafe(s.(diaries := ds', logs := logs'))
  {
    hide RoundSafe, RequestSafe, ReplySafe, LogsGrow;
    forall r | r in s.rounds ensures RoundSafe(ds', logs', r) { RoundGrows(s.diaries, ds', s.logs, logs', r); }
    forall m | m in s.appends ensures RequestSafe(ds', logs', m.req) { RequestGrows(s.diaries, ds', s.logs, logs', m.req); }
    forall r | r in s.appendReplies ensures ReplySafe(ds', logs', r) { ReplyGrows(s.diaries, ds', s.logs, logs', r); }
  }

  // The other nodes after a step of n.
  lemma NodesGrow(ds: Diaries, leaders: Leaders, leaders': Leaders, logs: Logs, logs': Logs, nodes: map<NodeId, Node>,
                  n: NodeId, b: Node, d': Diary)
    requires n in nodes && n in ds && NodesSafe(ds, leaders, logs, nodes)
    requires DiariesGrow(ds, ds[n := d']) && LeadersGrow(leaders, leaders') && LogsGrow(logs, logs')
    requires NodeSafe(ds[n := d'], leaders', logs', d', b)
    ensures NodesSafe(ds[n := d'], leaders', logs', nodes[n := b])
  {
    hide NodeSafe, DiariesGrow, LeadersGrow, LogsGrow;
    var ds', nodes' := ds[n := d'], nodes[n := b];
    forall i | i in nodes' && i in ds' ensures NodeSafe(ds', leaders', logs', ds'[i], nodes'[i]) {
      if i != n {
        assert NodeSafe(ds, leaders, logs, ds[i], nodes[i]);
        OtherNode(ds, ds', leaders, leaders', logs, logs', ds[i], nodes[i]);
      }
    }
  }
}
