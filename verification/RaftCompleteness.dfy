/** Leader Completeness: what a majority acknowledged is in the log of every later leader. */
module RaftCompleteness {
  import opened RaftTypes
  import opened RaftHandlers
  import opened RaftProtocol
  import opened RaftElectionInv
  import opened RaftMatchingInv
  import opened RaftSafetyInv
  import RaftElection

  // A candidate at least as up to date as a log that holds a committed entry holds it too,
  // provided every leader in between does.
  lemma UpToDateHolds(logs: Logs, bid: Log, log: Log, t: nat, n: nat)
    requires Good(bid, logs) && Good(log, logs) && Sorted(log) && t in logs && n >= 1 && t >= 1
    requires Agree(log, logs[t], n) && logs[t][n - 1].term == t
    requires UpToDate(LastTerm(bid), |bid|, log)
    requires LastTerm(bid) > t && LastTerm(bid) in logs ==>
               Agree(logs[LastTerm(bid)], logs[t], n) && Sorted(logs[LastTerm(bid)])
    ensures Agree(bid, logs[t], n)
  {
    assert log[n - 1].term == t;
    assert LastTerm(log) >= t;
    assert |bid| > 0;
    var x := LastTerm(bid);
    assert Rooted(bid, logs, |bid| - 1);
    if x == LastTerm(log) {
      assert Rooted(log, logs, |log| - 1);
    } else if |bid| < n {
      assert false;
    }
  }

  lemma {:induction false} Complete(s: Cluster, t: nat, n: nat, u: nat)
    requires ElectionInv(s) && MatchingInv(s) && SafetyInv(s)
    requires Committed(s.diaries, s.logs, t, n) && u in s.leaders && t < u
    ensures u in s.logs && Agree(s.logs[u], s.logs[t], n)
    decreases u
  {
    hide Good, NodeOk, CountsOk, ReplyOk, NodesSafe, MessagesSafe, BidsSafe, UpToDate, LastTerm;
    var ds, logs := s.diaries, s.logs;
    var c := s.leaders[u];
    var voters := ds[c].counted[u];
    assert voters <= ds.Keys by { LeaderVoters(s, u); }
    var v := RaftElection.MajoritiesMeet(ds.Keys, Ackers(ds, t, n), voters);
    LeaderVoter(s, u, v);
    assert VoteSafe(ds, s.leaders, logs, v, u);
    var log, bid := ds[v].voteLogs[u], ds[c].bids[u];
    forall w | t < w < u && w in logs ensures Agree(logs[w], logs[t], n) && Sorted(logs[w]) {
      Complete(s, t, n, w);
    }
    assert Kept(logs, log, t, u - 1, n);
    assert Agree(log, logs[t], n);
    BidFacts(s, c, u);
    LeaderTerm(s, t);
    UpToDateHolds(logs, bid, log, t, n);
  }

  lemma LeaderVoters(s: Cluster, u: nat)
    requires ElectionInv(s) && u in s.leaders
    ensures s.leaders[u] in s.diaries && u in s.diaries[s.leaders[u]].counted
    ensures s.diaries[s.leaders[u]].counted[u] <= s.diaries.Keys
  {
    hide NodeOk, ReplyOk;
    var c := s.leaders[u];
    assert CountOk(s.returned, s.diaries, u, c, s.diaries[c].counted[u]);
  }

  lemma LeaderVoter(s: Cluster, u: nat, v: NodeId)
    requires ElectionInv(s) && u in s.leaders && s.leaders[u] in s.diaries && u in s.diaries[s.leaders[u]].counted
    requires v in s.diaries[s.leaders[u]].counted[u]
    ensures VotedFor(s.diaries, u, v, s.leaders[u])
  {
    hide NodeOk, ReplyOk;
    var c := s.leaders[u];
    assert CountOk(s.returned, s.diaries, u, c, s.diaries[c].counted[u]);
  }

  lemma LeaderTerm(s: Cluster, t: nat)
    requires ElectionInv(s) && MatchingInv(s) && t in s.logs
    ensures t >= 1
  {
    hide NodeOk, ReplyOk, AllGood, NodeLogs, AppendsOk, CountsOk;
  }

  lemma BidFacts(s: Cluster, c: NodeId, u: nat)
    requires SafetyInv(s) && c in s.diaries && u in s.diaries[c].bids && u >= 1
    ensures Good(s.diaries[c].bids[u], s.logs)
    ensures LastTerm(s.diaries[c].bids[u]) < u
  {
    hide Good, NodesSafe, MessagesSafe, VotesSafe, LeaderLogs;
  }
}
