/** The invariant behind Election Safety. */
module RaftElectionInv {
  import opened RaftTypes
  import opened RaftHandlers
  import opened RaftProtocol

  type Diaries = map<NodeId, Diary>

  ghost predicate NodeOk(servers: set<NodeId>, d: Diary, leaders: map<nat, NodeId>, i: NodeId, c: Node) {
    && c.id == i && PeersOf(servers, i, c.peers)
    && (forall t :: t in d.votes ==> t <= c.term)
    && (forall t :: t in d.counted ==> t <= c.term)
    && c.votedFor == (if c.term in d.votes then Some(d.votes[c.term]) else None)
    && (c.role == Candidate ==>
          && c.term >= 1 && c.votedFor == Some(i)
          && c.term in d.counted && c.votesReceived == |d.counted[c.term]|
          && (c.term in leaders ==> leaders[c.term] != i))
    && (c.role == Leader ==> c.term in leaders && leaders[c.term] == i)
  }

  ghost predicate VotedFor(ds: Diaries, t: nat, v: NodeId, c: NodeId) {
    v in ds && t in ds[v].votes && ds[v].votes[t] == c
  }

  ghost predicate CountOk(returned: set<(nat, NodeId, NodeId)>, ds: Diaries, t: nat, c: NodeId, voters: set<NodeId>) {
    forall v :: v in voters ==> VotedFor(ds, t, v, c) && (v == c || (t, c, v) in returned)
  }

  ghost predicate CountsOk(returned: set<(nat, NodeId, NodeId)>, ds: Diaries) {
    forall c, t :: c in ds && t in ds[c].counted ==> CountOk(returned, ds, t, c, ds[c].counted[t])
  }

  ghost predicate LeadersOk(size: nat, ds: Diaries, leaders: map<nat, NodeId>) {
    forall t :: t in leaders ==>
      && t >= 1 && leaders[t] in ds
      && t in ds[leaders[t]].counted && 2 * |ds[leaders[t]].counted[t]| > size
  }

  ghost predicate ReplyOk(ds: Diaries, r: VoteReply) {
    && r.from in ds && r.from != r.req.candidate
    && (r.resp.granted ==> VotedFor(ds, r.req.term, r.from, r.req.candidate))
  }

  ghost predicate ElectionInv(s: Cluster) {
    && s.nodes.Keys == s.servers && s.diaries.Keys == s.servers
    && (forall i :: i in s.servers ==> NodeOk(s.servers, s.diaries[i], s.leaders, i, s.nodes[i]))
    && CountsOk(s.returned, s.diaries)
    && LeadersOk(|s.servers|, s.diaries, s.leaders)
    && (forall r :: r in s.voteReplies ==> ReplyOk(s.diaries, r))
  }

  ghost predicate Extends(leaders: map<nat, NodeId>, leaders': map<nat, NodeId>, n: NodeId) {
    && (forall t :: t in leaders ==> t in leaders' && leaders'[t] == leaders[t])
    && (forall t :: t in leaders' ==> t in leaders || leaders'[t] == n)
  }

  // Votes are never taken back.
  ghost predicate VotesKept(d: Diary, d': Diary) {
    forall t :: t in d.votes ==> t in d'.votes && d'.votes[t] == d.votes[t]
  }
}
