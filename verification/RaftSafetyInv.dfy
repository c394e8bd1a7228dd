/** The invariant behind Leader Completeness and State Machine Safety, for guarded runs. */
module RaftSafetyInv {
  import opened RaftTypes
  import opened RaftHandlers
  import opened RaftProtocol
  import opened RaftElectionInv
  import opened RaftMatchingInv

  type Logs = map<nat, Log>
  type Leaders = map<nat, NodeId>

  predicate Sorted(log: Log) {
    forall i, j :: 0 <= i <= j < |log| ==> log[i].term <= log[j].term
  }

  predicate Bounded(log: Log, t: int) {
    forall i :: 0 <= i < |log| ==> log[i].term <= t
  }

  ghost predicate Conflict(a: Log, b: Log, n: nat) {
    exists k :: 0 <= k < n && k < |a| && k < |b| && a[k] != b[k]
  }

  // A later leader, of a term up to bound, disagrees with the leader of t below n.
  ghost predicate Overruled(logs: Logs, t: nat, bound: int, n: nat)
    requires t in logs
  {
    exists w :: t < w <= bound && w in logs && Conflict(logs[w], logs[t], n)
  }

  ghost predicate Kept(logs: Logs, log: Log, t: nat, bound: int, n: nat)
    requires t in logs
  {
    Agree(log, logs[t], n) || Overruled(logs, t, bound, n)
  }

  // What a node acknowledged is still in the log, unless a later leader overruled it.
  ghost predicate KeepsAcks(logs: Logs, acked: map<nat, nat>, log: Log, bound: int) {
    forall t :: t in acked && t <= bound ==> t in logs && forall n: nat :: n <= acked[t] ==> Kept(logs, log, t, bound, n)
  }

  // A majority has acknowledged entry n of the leader of t, an entry of that leader's own term.
  ghost predicate Committed(ds: Diaries, logs: Logs, t: nat, n: nat) {
    && t in logs && 1 <= n <= |logs[t]| && logs[t][n - 1].term == t
    && 2 * |Ackers(ds, t, n)| > |ds.Keys|
  }

  function Ackers(ds: Diaries, t: nat, n: nat): set<NodeId> {
    set v | v in ds && t in ds[v].acked && ds[v].acked[t] >= n
  }

  // The first n entries of log are committed, by a leader of a term up to bound.
  ghost predicate Settled(ds: Diaries, logs: Logs, log: Log, n: nat, bound: nat) {
    n == 0 || exists t: nat, i: nat :: t <= bound && n <= i && Committed(ds, logs, t, i) && Agree(log, logs[t], n)
  }

  ghost predicate LeaderLog(bids: map<nat, Log>, log: Log, u: nat) {
    && u in bids && Agree(bids[u], log, |bids[u]|)
    && Sorted(log) && Bounded(log, u)
    && (forall k :: |bids[u]| <= k < |log| ==> log[k].term == u)
  }

  ghost predicate LeaderLogs(ds: Diaries, leaders: Leaders, logs: Logs) {
    forall u :: u in leaders ==> leaders[u] in ds && u in logs && LeaderLog(ds[leaders[u]].bids, logs[u], u)
  }

  // A vote that could not help the leader of its term any more.
  ghost predicate Late(ds: Diaries, leaders: Leaders, u: nat, v: NodeId, c: NodeId) {
    u in leaders && (leaders[u] != c || (c in ds && u in ds[c].counted && v !in ds[c].counted[u]))
  }

  ghost predicate VoteSafe(ds: Diaries, leaders: Leaders, logs: Logs, v: NodeId, u: nat)
    requires v in ds && u in ds[v].votes
  {
    var c := ds[v].votes[u];
    && u in ds[v].voteLogs && c in ds && u in ds[c].bids
    && var log := ds[v].voteLogs[u];
       && UpToDate(LastTerm(ds[c].bids[u]), |ds[c].bids[u]|, log)
       && Good(log, logs) && Sorted(log)
       && (Late(ds, leaders, u, v, c) || KeepsAcks(logs, ds[v].acked, log, u - 1))
  }

  ghost predicate VotesSafe(ds: Diaries, leaders: Leaders, logs: Logs) {
    forall v, u :: v in ds && u in ds[v].votes ==> VoteSafe(ds, leaders, logs, v, u)
  }

  ghost predicate BidsSafe(ds: Diaries, logs: Logs) {
    forall c, u :: c in ds && u in ds[c].bids ==>
      Good(ds[c].bids[u], logs) && Sorted(ds[c].bids[u]) && Bounded(ds[c].bids[u], u - 1)
  }

  ghost predicate NodeAcks(logs: Logs, d: Diary, c: Node) {
    && (forall t :: t in d.acked ==> t <= c.term && t in logs && d.acked[t] <= |logs[t]|)
    && KeepsAcks(logs, d.acked, c.log, c.term)
    && (c.role == Leader ==> c.term in d.acked && d.acked[c.term] >= |c.log|)
  }

  ghost predicate NodeBid(leaders: Leaders, d: Diary, c: Node) {
    && Sorted(c.log) && Bounded(c.log, c.term)
    && (forall u :: u in d.bids ==> u <= c.term)
    && (c.role == Candidate ==> c.term in d.bids && (c.term in leaders || c.log == d.bids[c.term]))
  }

  ghost predicate NodeCommit(ds: Diaries, logs: Logs, c: Node) {
    && c.lastApplied <= c.commitIndex <= |c.log|
    && Settled(ds, logs, c.log, c.commitIndex, c.term)
    && c.applied == Commands(c.log[..c.lastApplied])
  }

  // A leader's view of how far its peers are.
  ghost predicate NodeProgress(ds: Diaries, c: Node) {
    c.role == Leader ==>
      && (forall p :: p in c.matchIndex && c.matchIndex[p] > 0 ==>
            p in ds && c.term in ds[p].acked && ds[p].acked[c.term] >= c.matchIndex[p])
      && (forall p :: p in c.nextIndex ==> c.nextIndex[p] <= |c.log| + 1)
  }

  ghost predicate NodeSafe(ds: Diaries, leaders: Leaders, logs: Logs, d: Diary, c: Node) {
    NodeAcks(logs, d, c) && NodeBid(leaders, d, c) && NodeCommit(ds, logs, c) && NodeProgress(ds, c)
  }

  ghost predicate NodesSafe(ds: Diaries, leaders: Leaders, logs: Logs, nodes: map<NodeId, Node>) {
    forall i :: i in nodes && i in ds ==> NodeSafe(ds, leaders, logs, ds[i], nodes[i])
  }

  ghost predicate VoteRequestSafe(ds: Diaries, q: VoteRequest) {
    && q.candidate in ds && q.term in ds[q.candidate].bids
    && q.lastLogIndex == |ds[q.candidate].bids[q.term]| && q.lastLogTerm == LastTerm(ds[q.candidate].bids[q.term])
  }

  ghost predicate RoundSafe(ds: Diaries, logs: Logs, r: Round) {
    r.term in logs && r.commit <= |logs[r.term]| && Settled(ds, logs, logs[r.term], r.commit, r.term)
  }

  // The request is a piece of its own leader's log that reaches at least to the commit index it carries.
  ghost predicate Fits(logs: Logs, q: AppendRequest) {
    var end := q.prevLogIndex + |q.entries|;
    q.term in logs && q.leaderCommit <= end <= |logs[q.term]| && Carries(q, logs[q.term][..end])
  }

  ghost predicate RequestSafe(ds: Diaries, logs: Logs, q: AppendRequest) {
    Fits(logs, q) && Settled(ds, logs, logs[q.term], q.leaderCommit, q.term)
  }

  ghost predicate ReplySafe(ds: Diaries, logs: Logs, r: AppendReply) {
    && Fits(logs, r.req) && r.from in ds
    && (r.resp.success ==>
          r.req.term in ds[r.from].acked && ds[r.from].acked[r.req.term] >= r.req.prevLogIndex + |r.req.entries|)
    && (!r.resp.success ==> r.resp.conflictIndex <= r.req.prevLogIndex)
  }

  ghost predicate MessagesSafe(s: Cluster) {
    && (forall q :: q in s.voteRequests ==> VoteRequestSafe(s.diaries, q))
    && (forall r :: r in s.rounds ==> RoundSafe(s.diaries, s.logs, r))
    && (forall m :: m in s.appends ==> RequestSafe(s.diaries, s.logs, m.req))
    && (forall r :: r in s.appendReplies ==> ReplySafe(s.diaries, s.logs, r))
  }

  ghost predicate SafetyInv(s: Cluster) {
    && LeaderLogs(s.diaries, s.leaders, s.logs)
    && VotesSafe(s.diaries, s.leaders, s.logs)
    && BidsSafe(s.diaries, s.logs)
    && NodesSafe(s.diaries, s.leaders, s.logs, s.nodes)
    && MessagesSafe(s)
  }

  // Diaries only grow.
  ghost predicate DiaryGrows(d: Diary, d': Diary) {
    && (forall t :: t in d.acked ==> t in d'.acked && d'.acked[t] >= d.acked[t])
    && (forall u :: u in d.bids ==> u in d'.bids && d'.bids[u] == d.bids[u])
  }

  ghost predicate DiariesGrow(ds: Diaries, ds': Diaries) {
    ds'.Keys == ds.Keys && forall v :: v in ds ==> DiaryGrows(ds[v], ds'[v])
  }

  // The moving node's old votes: what it acknowledges from now on is of a later term.
  ghost predicate VotesStay(d: Diary, d': Diary, leaders: Leaders, n: NodeId) {
    && (forall u :: u in d.votes ==> u in d'.votes && d'.votes[u] == d.votes[u])
    && (forall u :: u in d.votes && u in d.voteLogs ==> u in d'.voteLogs && d'.voteLogs[u] == d.voteLogs[u])
    && (forall u, t :: u in d.votes && t in d'.acked && t < u ==> t in d.acked && d'.acked[t] == d.acked[t])
    && (forall u :: u in leaders && leaders[u] == n && u in d.counted ==> u in d'.counted && d'.counted[u] == d.counted[u])
  }
}
