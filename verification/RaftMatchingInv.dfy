/** The invariant behind Log Matching: every log is, up to each of its entries, the log of that entry's leader. */
module RaftMatchingInv {
  import opened RaftTypes
  import opened RaftHandlers
  import opened RaftProtocol

  predicate Agree(a: Log, b: Log, n: nat) {
    n <= |a| && n <= |b| && forall j :: 0 <= j < n ==> a[j] == b[j]
  }

  // Log Matching between two logs.
  predicate Matching(a: Log, b: Log) {
    forall k :: 0 <= k < |a| && k < |b| && a[k].term == b[k].term ==> Agree(a, b, k + 1)
  }

  // Entry k of the log was written by the leader of its term, on top of what precedes it here.
  predicate Rooted(log: Log, logs: map<nat, Log>, k: nat)
    requires k < |log|
  {
    log[k].index == k + 1 && log[k].term >= 1 && log[k].term in logs && Agree(log, logs[log[k].term], k + 1)
  }

  ghost predicate Good(log: Log, logs: map<nat, Log>) {
    forall k :: 0 <= k < |log| ==> Rooted(log, logs, k)
  }

  ghost predicate AllGood(logs: map<nat, Log>) {
    forall t :: t in logs ==> Good(logs[t], logs)
  }

  // The request is a piece of the log full: the entry before it and everything after.
  predicate Carries(q: AppendRequest, full: Log) {
    && |full| == q.prevLogIndex + |q.entries|
    && (forall j :: 0 <= j < |q.entries| ==> q.entries[j] == full[q.prevLogIndex + j])
    && (q.prevLogIndex > 0 ==> full[q.prevLogIndex - 1].term == q.prevLogTerm)
  }

  // A leader whose log was cut short below nextIndex sends nothing, after an entry it does not have.
  predicate Hollow(q: AppendRequest) {
    q.prevLogIndex > 0 && q.prevLogTerm == 0 && q.entries == []
  }

  ghost predicate RequestOk(q: AppendRequest, logs: map<nat, Log>) {
    Hollow(q) || exists full :: Carries(q, full) && Good(full, logs)
  }

  ghost predicate FromLeader(leaders: map<nat, NodeId>, t: nat, n: NodeId) {
    t in leaders && leaders[t] == n
  }

  ghost predicate NodeLog(logs: map<nat, Log>, c: Node) {
    && Good(c.log, logs)
    && (c.role == Leader ==> c.term in logs && logs[c.term] == c.log)
  }

  ghost predicate NodeLogs(logs: map<nat, Log>, nodes: map<NodeId, Node>) {
    forall i :: i in nodes ==> NodeLog(logs, nodes[i])
  }

  ghost predicate SentOk(leaders: map<nat, NodeId>, logs: map<nat, Log>, m: Sent) {
    FromLeader(leaders, m.req.term, m.req.leader) && m.to != m.req.leader && RequestOk(m.req, logs)
  }

  ghost predicate AppendsOk(leaders: map<nat, NodeId>, logs: map<nat, Log>, appends: set<Sent>) {
    forall m :: m in appends ==> SentOk(leaders, logs, m)
  }

  ghost predicate RoundsOk(leaders: map<nat, NodeId>, rounds: set<Round>) {
    forall r :: r in rounds ==> FromLeader(leaders, r.term, r.node)
  }

  ghost predicate MatchingInv(s: Cluster) {
    && s.leaders.Keys == s.logs.Keys
    && AllGood(s.logs)
    && NodeLogs(s.logs, s.nodes)
    && AppendsOk(s.leaders, s.logs, s.appends)
    && RoundsOk(s.leaders, s.rounds)
  }

  // Leaders are never replaced within a term and their logs only grow.
  ghost predicate LogsGrow(logs: map<nat, Log>, logs': map<nat, Log>) {
    forall t :: t in logs ==> t in logs' && Agree(logs[t], logs'[t], |logs[t]|)
  }

  ghost predicate LeadersGrow(leaders: map<nat, NodeId>, leaders': map<nat, NodeId>) {
    forall t :: t in leaders ==> t in leaders' && leaders'[t] == leaders[t]
  }
}
