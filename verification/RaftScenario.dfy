/**
 Building runs of a cluster of five nodes, one exchange at a time, in which one half of the guard OnTerm
 may be given up.
 */
module RaftScenario {
  import opened RaftTypes
  import opened RaftHandlers
  import opened RaftProtocol
  import RaftMatching

  // Which half of the guard OnTerm is given up.
  datatype Lapse = LateSend | LateAnswer

  predicate Lapsed(lapse: Lapse, step: Step) {
    match lapse
    case LateSend => step.SendAppend?
    case LateAnswer => step.GetAppendReply?
  }

  // A run in which all steps but those of one kind are guarded.
  ghost predicate LapsingRun(lapse: Lapse, states: seq<Cluster>, steps: seq<Step>) {
    Run(states, steps) && forall i :: 0 <= i < |steps| ==> OnTerm(states[i], steps[i]) || Lapsed(lapse, steps[i])
  }

  ghost predicate Reached(lapse: Lapse, s: Cluster) {
    exists states, steps :: LapsingRun(lapse, states, steps) && states[|steps|] == s
  }

  lemma Take(lapse: Lapse, s: Cluster, step: Step) returns (s': Cluster)
    requires Reached(lapse, s) && Enabled(s, step) && (OnTerm(s, step) || Lapsed(lapse, step))
    ensures s' == Do(s, step) && Reached(lapse, s')
  {
    hide Do, Enabled, Init, OnTerm, Lapsed;
    s' := Do(s, step);
    var states, steps :| LapsingRun(lapse, states, steps) && states[|steps|] == s;
    var states', steps' := states + [s'], steps + [step];
    forall i | 0 <= i < |steps'|
      ensures Enabled(states'[i], steps'[i]) && states'[i + 1] == Do(states'[i], steps'[i])
      ensures OnTerm(states'[i], steps'[i]) || Lapsed(lapse, steps'[i])
    {
      if i < |steps| { assert states'[i] == states[i] && states'[i + 1] == states[i + 1] && steps'[i] == steps[i]; }
    }
    assert LapsingRun(lapse, states', steps');
  }

  // What does not change: every node knows its name and four others.
  ghost predicate Named(n: Node, i: NodeId) { n.id == i && |n.peers| == 4 }

  ghost predicate Five(s: Cluster) {
    && s.nodes.Keys == s.servers && s.diaries.Keys == s.servers
    && forall i :: i in s.servers ==> Named(s.nodes[i], i)
  }

  lemma StillFive(s: Cluster, s': Cluster, n: NodeId)
    requires Five(s) && n in s.servers && s'.servers == s.servers && s'.diaries.Keys == s.diaries.Keys
    requires n in s'.nodes && s'.nodes == s.nodes[n := s'.nodes[n]] && Named(s'.nodes[n], n)
    ensures Five(s')
  {
    hide Named;
  }

  predicate SameTraffic(s: Cluster, s': Cluster) {
    s'.servers == s.servers && s.rounds <= s'.rounds && s.appends <= s'.appends && s.appendReplies <= s'.appendReplies
  }

  function Voter(n: Node, t: nat, c: NodeId): Node {
    n.(role := Follower, term := t, votedFor := Some(c))
  }

  function Stander(a: Node, votes: nat): Node {
    a.(role := Candidate, term := a.term + 1, votedFor := Some(a.id), votesReceived := votes)
  }

  function Winner(a: Node): Node { BecomeLeader(Stander(a, 3)) }

  lemma Asks(lapse: Lapse, s: Cluster, c: NodeId) returns (s': Cluster)
    requires Reached(lapse, s) && Five(s) && c in s.servers
    ensures Reached(lapse, s') && Five(s') && SameTraffic(s, s') && s'.returned == s.returned
    ensures var a := s.nodes[c];
            && s'.nodes == s.nodes[c := Stander(a, 1)]
            && VoteRequest(a.term + 1, c, |a.log|, LastTerm(a.log)) in s'.voteRequests
  {
    hide Reached;
    s' := Take(lapse, s, Elect(c));
    assert Named(s.nodes[c], c);
    assert StartElection(s.nodes[c]) == Stander(s.nodes[c], 1);
    hide Five;
    StillFive(s, s', c);
  }

  lemma Votes(lapse: Lapse, s: Cluster, q: VoteRequest, v: NodeId) returns (s': Cluster)
    requires Reached(lapse, s) && Five(s) && v in s.servers && q in s.voteRequests && q.candidate != v
    requires s.nodes[v].term < q.term && UpToDate(q.lastLogTerm, q.lastLogIndex, s.nodes[v].log)
    ensures Reached(lapse, s') && Five(s') && SameTraffic(s, s') && s'.returned == s.returned && s'.voteRequests == s.voteRequests
    ensures s'.nodes == s.nodes[v := Voter(s.nodes[v], q.term, q.candidate)]
    ensures VoteReply(v, q, VoteResponse(q.term, true)) in s'.voteReplies && s.voteReplies <= s'.voteReplies
  {
    hide Reached, UpToDate;
    s' := Take(lapse, s, GetVoteRequest(v, q));
    assert Named(s.nodes[v], v);
    hide Five;
    StillFive(s, s', v);
  }

  lemma Counted(lapse: Lapse, s: Cluster, c: NodeId, r: VoteReply) returns (s': Cluster)
    requires Reached(lapse, s) && Five(s) && c in s.servers && r in s.voteReplies && r.req.candidate == c && r.resp == VoteResponse(r.req.term, true)
    requires (r.req.term, c, r.from) !in s.returned && s.nodes[c].role == Candidate && s.nodes[c].term == r.req.term
    ensures Reached(lapse, s') && Five(s') && SameTraffic(s, s') && s'.returned == s.returned + {(r.req.term, c, r.from)} && s'.voteReplies == s.voteReplies
    ensures var m := s.nodes[c].(votesReceived := s.nodes[c].votesReceived + 1);
            s'.nodes == s.nodes[c := if m.votesReceived >= 3 then BecomeLeader(m) else m]
  {
    hide Reached;
    s' := Take(lapse, s, GetVoteReply(c, r));
    assert Named(s.nodes[c], c);
    hide Five;
    StillFive(s, s', c);
  }

  // Candidate c stands, and v and w vote for it.
  lemma Polls(lapse: Lapse, s: Cluster, c: NodeId, v: NodeId, w: NodeId, q: VoteRequest) returns (s': Cluster)
    requires Reached(lapse, s) && Five(s) && {c, v, w} <= s.servers && c != v && c != w && v != w
    requires q == VoteRequest(s.nodes[c].term + 1, c, |s.nodes[c].log|, LastTerm(s.nodes[c].log))
    requires s.nodes[v].term < q.term && s.nodes[w].term < q.term
    requires UpToDate(q.lastLogTerm, q.lastLogIndex, s.nodes[v].log) && UpToDate(q.lastLogTerm, q.lastLogIndex, s.nodes[w].log)
    ensures Reached(lapse, s') && Five(s') && SameTraffic(s, s') && s'.returned == s.returned
    ensures VoteReply(v, q, VoteResponse(q.term, true)) in s'.voteReplies && VoteReply(w, q, VoteResponse(q.term, true)) in s'.voteReplies
    ensures s'.nodes == s.nodes[c := Stander(s.nodes[c], 1)][v := Voter(s.nodes[v], q.term, c)][w := Voter(s.nodes[w], q.term, c)]
  {
    hide Reached, UpToDate, LastTerm, Named;
    var s1 := Asks(lapse, s, c);
    var s2 := Votes(lapse, s1, q, v);
    s' := Votes(lapse, s2, q, w);
  }

  // Candidate c is elected by v and w.
  lemma Wins(lapse: Lapse, s: Cluster, c: NodeId, v: NodeId, w: NodeId) returns (s': Cluster)
    requires Reached(lapse, s) && Five(s) && {c, v, w} <= s.servers && c != v && c != w && v != w
    requires var a := s.nodes[c];
             && s.nodes[v].term <= a.term && s.nodes[w].term <= a.term
             && UpToDate(LastTerm(a.log), |a.log|, s.nodes[v].log) && UpToDate(LastTerm(a.log), |a.log|, s.nodes[w].log)
             && (a.term + 1, c, v) !in s.returned && (a.term + 1, c, w) !in s.returned
    ensures Reached(lapse, s') && Five(s') && SameTraffic(s, s')
    ensures var t := s.nodes[c].term + 1;
            && s'.returned == s.returned + {(t, c, v), (t, c, w)}
            && s'.nodes == s.nodes[c := Winner(s.nodes[c])][v := Voter(s.nodes[v], t, c)][w := Voter(s.nodes[w], t, c)]
  {
    hide Reached, UpToDate, LastTerm, Named, BecomeLeader, Five;
    FiveNodes(s);
    var a := s.nodes[c];
    var q := VoteRequest(a.term + 1, c, |a.log|, LastTerm(a.log));
    var s3 := Polls(lapse, s, c, v, w, q);
    FiveNodes(s3);
    var s4 := Counted(lapse, s3, c, VoteReply(v, q, VoteResponse(q.term, true)));
    FiveNodes(s4);
    assert s4.nodes[c] == Stander(a, 2);
    s' := Counted(lapse, s4, c, VoteReply(w, q, VoteResponse(q.term, true)));
    assert s'.nodes[c] == Winner(a);
    assert s'.nodes == s3.nodes[c := Winner(a)];
    Overwritten(s.nodes, c, v, w, Stander(a, 1), Winner(a), Voter(s.nodes[v], q.term, c), Voter(s.nodes[w], q.term, c));
  }

  lemma FiveNodes(s: Cluster)
    requires Five(s)
    ensures s.nodes.Keys == s.servers
  {
  }

  lemma Overwritten(nodes: map<NodeId, Node>, c: NodeId, v: NodeId, w: NodeId, first: Node, last: Node, a: Node, b: Node)
    requires c != v && c != w
    ensures nodes[c := first][v := a][w := b][c := last] == nodes[c := last][v := a][w := b]
  {
  }

  // A leader sends to a follower, which handles the request at once.
  lemma Delivers(lapse: Lapse, s: Cluster, l: NodeId, f: NodeId) returns (s': Cluster)
    requires Reached(lapse, s) && Five(s) && {l, f} <= s.servers && s.nodes[l].role == Leader
    requires f in s.nodes[l].nextIndex && f in Elements(s.nodes[l].peers)
    ensures Reached(lapse, s') && Five(s') && SameTraffic(s, s') && s'.returned == s.returned
    ensures var q := BuildAppend(s.nodes[l], f, s.nodes[l].term, s.nodes[l].commitIndex);
            && s'.nodes == s.nodes[f := HandleAppendEntries(s.nodes[f], q).0]
            && AppendReply(f, q, HandleAppendEntries(s.nodes[f], q).1) in s'.appendReplies
  {
    hide Reached, HandleAppendEntries, BuildAppend, Elements;
    var round := Round(l, s.nodes[l].term, s.nodes[l].commitIndex);
    var s1 := Take(lapse, s, BeginRound(l));
    var s2 := Take(lapse, s1, SendAppend(l, f, round));
    var q := BuildAppend(s.nodes[l], f, s.nodes[l].term, s.nodes[l].commitIndex);
    s' := Take(lapse, s2, GetAppend(f, Sent(f, q)));
    assert Named(s.nodes[f], f);
    AppendKeepsNames(s.nodes[f], q);
    hide Five;
    StillFive(s, s', f);
  }

  lemma AppendKeepsNames(a: Node, q: AppendRequest)
    ensures HandleAppendEntries(a, q).0.id == a.id && HandleAppendEntries(a, q).0.peers == a.peers
  {
  }

  lemma ReplyKeepsNames(a: Node, p: NodeId, q: AppendRequest, r: AppendResponse)
    requires p in a.nextIndex
    ensures HandleAppendReply(a, p, q, r).id == a.id && HandleAppendReply(a, p, q, r).peers == a.peers
  {
  }

  lemma Proposes(lapse: Lapse, s: Cluster, l: NodeId) returns (s': Cluster)
    requires Reached(lapse, s) && Five(s) && l in s.servers
    ensures Reached(lapse, s') && Five(s') && SameTraffic(s, s') && s'.returned == s.returned
    ensures s'.nodes == s.nodes[l := Propose(s.nodes[l], [])]
  {
    hide Reached;
    s' := Take(lapse, s, Submit(l, []));
    assert Named(s.nodes[l], l);
    hide Five;
    StillFive(s, s', l);
  }

  lemma Hears(lapse: Lapse, s: Cluster, l: NodeId, r: AppendReply) returns (s': Cluster)
    requires Reached(lapse, s) && Five(s) && l in s.servers && r in s.appendReplies && r.req.leader == l && r.from in s.nodes[l].nextIndex
    requires lapse == LateAnswer || (s.nodes[l].role == Leader && s.nodes[l].term == r.req.term)
    ensures Reached(lapse, s') && Five(s') && SameTraffic(s, s') && s'.returned == s.returned
    ensures s'.nodes == s.nodes[l := HandleAppendReply(s.nodes[l], r.from, r.req, r.resp)]
  {
    hide Reached, HandleAppendReply;
    s' := Take(lapse, s, GetAppendReply(l, r));
    assert Named(s.nodes[l], l);
    ReplyKeepsNames(s.nodes[l], r.from, r.req, r.resp);
    hide Five;
    StillFive(s, s', l);
  }

  function PeerList(i: NodeId): seq<NodeId> {
    if i == 1 then [2, 3, 4, 5] else if i == 2 then [1, 3, 4, 5] else if i == 3 then [1, 2, 4, 5]
    else if i == 4 then [1, 2, 3, 5] else [1, 2, 3, 4]
  }

  const X := LogEntry(2, 1, ENTRY_COMMAND, [])

  // The first request of node 1 as leader of term 1, after one proposal.
  const FIRST := AppendRequest(1, 1, 0, 0, [NoOp(1, 1), X], 0)

  const ALL: set<NodeId> := {1, 2, 3, 4, 5}
  const CLEAN := Diary(map[], map[], map[], map[], map[])

  lemma PeersRight(i: NodeId)
    requires i in ALL
    ensures |PeerList(i)| == 4 && PeersOf(ALL, i, PeerList(i))
  {
    assert |ALL| == 5;
    assert Elements(PeerList(i)) == ALL - {i};
  }

  const IDS: seq<NodeId> := [1, 2, 3, 4, 5]

  function BlankNodes(ids: seq<NodeId>): (m: map<NodeId, Node>)
    ensures forall i :: i in m <==> i in ids
    ensures forall i :: i in m ==> m[i] == Blank(i, PeerList(i))
  {
    if ids == [] then map[] else BlankNodes(ids[1..])[ids[0] := Blank(ids[0], PeerList(ids[0]))]
  }

  lemma Begin(lapse: Lapse) returns (s: Cluster)
    ensures Reached(lapse, s) && Five(s) && s.servers == ALL && s.returned == {}
    ensures forall i :: i in ALL ==> i in s.nodes && s.nodes[i] == Blank(i, PeerList(i))
  {
    hide PeersOf, PeerList, Blank, BlankNodes, Uniform;
    s := Cluster(ALL, BlankNodes(IDS), {}, {}, {}, {}, {}, {}, Uniform(IDS, CLEAN), map[], map[]);
    assert forall i :: i in IDS <==> i in ALL;
    assert s.nodes.Keys == ALL && s.diaries.Keys == ALL;
    forall i | i in s.servers ensures Named(s.nodes[i], i) && PeersOf(ALL, i, s.nodes[i].peers) && s.nodes[i] == Blank(i, s.nodes[i].peers) {
      PeersRight(i);
      BlankKnows(i, PeerList(i));
    }
    InitReached(lapse, s);
  }

  lemma BlankKnows(i: NodeId, peers: seq<NodeId>)
    ensures Blank(i, peers).id == i && Blank(i, peers).peers == peers
  {
  }

  lemma InitReached(lapse: Lapse, s: Cluster)
    requires Init(s)
    ensures Reached(lapse, s)
  {
    var none: seq<Step> := [];
    assert LapsingRun(lapse, [s], none) && [s][|none|] == s;
  }

  // A follower with an empty log takes everything.
  lemma MergeAll(entries: Log)
    ensures Merge([], 0, entries) == entries
  {
    assert entries[0..] == entries;
    RaftMatching.MergeResult([], entries, 0);
  }

  lemma Replicas4(peers: seq<NodeId>, m: map<NodeId, nat>, i: nat)
    requires |peers| == 4
    ensures Replicas(peers, m, i) == Has(peers[0], m, i) + Has(peers[1], m, i) + Has(peers[2], m, i) + Has(peers[3], m, i)
  {
    var p3, p2, p1 := peers[..3], peers[..2], peers[..1];
    assert p3[..2] == p2 && p2[..1] == p1 && p1[..0] == [];
    assert Replicas(p1, m, i) == Has(peers[0], m, i);
    assert Replicas(p2, m, i) == Replicas(p1, m, i) + Has(peers[1], m, i);
    assert Replicas(p3, m, i) == Replicas(p2, m, i) + Has(peers[2], m, i);
  }

  function Has(p: NodeId, m: map<NodeId, nat>, i: nat): nat { if p in m && m[p] >= i then 1 else 0 }

  lemma UniformFour(a: NodeId, b: NodeId, c: NodeId, d: NodeId, v: nat)
    ensures Uniform([a, b, c, d], v) == map[a := v, b := v, c := v, d := v]
  {
    var m, n := Uniform([a, b, c, d], v), map[a := v, b := v, c := v, d := v];
    hide Uniform;
    assert forall p :: p in m <==> p in n;
    assert m.Keys == n.Keys;
  }

  lemma Among(p: NodeId, peers: seq<NodeId>, k: nat)
    requires k < |peers| && peers[k] == p
    ensures p in Elements(peers)
  {
  }
}
