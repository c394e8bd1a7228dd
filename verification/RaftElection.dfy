/** Election Safety: at most one node ever leads a term. It holds on every run, guarded or not. */
module RaftElection {
  import Bytes
  import opened RaftTypes
  import opened RaftHandlers
  import opened RaftProtocol
  import opened RaftElectionInv

  lemma SubsetSize<T>(a: set<T>, b: set<T>)
    requires a <= b
    ensures |a| <= |b|
  {
    assert b == a + (b - a);
  }

  // Two majorities share a member.
  lemma MajoritiesMeet(all: set<NodeId>, a: set<NodeId>, b: set<NodeId>) returns (v: NodeId)
    requires a <= all && b <= all && |a| + |b| > |all|
    ensures v in a && v in b
  {
    if a * b == {} {
      assert |a + b| == |a| + |b|;
      SubsetSize(a + b, all);
      assert false;
    }
    v :| v in a * b;
  }

  // A candidate with a majority is the first leader of its term.
  lemma NoOtherLeader(returned: set<(nat, NodeId, NodeId)>, ds: Diaries, leaders: map<nat, NodeId>,
                      i: NodeId, t: nat, voters: set<NodeId>)
    requires LeadersOk(|ds.Keys|, ds, leaders) && CountsOk(returned, ds)
    requires voters <= ds.Keys && 2 * |voters| > |ds.Keys|
    requires forall v :: v in voters && v != i ==> VotedFor(ds, t, v, i)
    requires i in ds && (t in ds[i].votes ==> ds[i].votes[t] == i)
    requires t in leaders ==> leaders[t] != i
    ensures t !in leaders
  {
    if t in leaders {
      var j := leaders[t];
      assert CountOk(returned, ds, t, j, ds[j].counted[t]);
      var v := MajoritiesMeet(ds.Keys, voters, ds[j].counted[t]);
      assert false;
    }
  }

  lemma InitElection(s: Cluster)
    requires Init(s)
    ensures ElectionInv(s)
  {
    hide NodeOk, PeersOf, Blank;
    forall i | i in s.servers ensures NodeOk(s.servers, s.diaries[i], s.leaders, i, s.nodes[i]) {
      InitNode(s.servers, i, s.nodes[i].peers);
    }
  }

  lemma InitNode(servers: set<NodeId>, i: NodeId, peers: seq<NodeId>)
    requires PeersOf(servers, i, peers)
    ensures NodeOk(servers, Diary(map[], map[], map[], map[], map[]), map[], i, Blank(i, peers))
  {
  }

  lemma OtherNode(servers: set<NodeId>, d: Diary, leaders: map<nat, NodeId>, leaders': map<nat, NodeId>, n: NodeId, i: NodeId, c: Node)
    requires NodeOk(servers, d, leaders, i, c) && i != n && Extends(leaders, leaders', n)
    ensures NodeOk(servers, d, leaders', i, c)
  {
  }

  lemma CountsKept(returned: set<(nat, NodeId, NodeId)>, ds: Diaries, returned': set<(nat, NodeId, NodeId)>, n: NodeId, d': Diary)
    requires CountsOk(returned, ds) && returned <= returned' && n in ds && VotesKept(ds[n], d')
    requires forall t :: t in d'.counted && !(t in ds[n].counted && ds[n].counted[t] == d'.counted[t]) ==> CountOk(returned', ds[n := d'], t, n, d'.counted[t])
    ensures CountsOk(returned', ds[n := d'])
  {
    var ds' := ds[n := d'];
    forall c, t | c in ds' && t in ds'[c].counted ensures CountOk(returned', ds', t, c, ds'[c].counted[t]) {
      if c in ds && t in ds[c].counted && ds[c].counted[t] == ds'[c].counted[t] {
        assert CountOk(returned, ds, t, c, ds[c].counted[t]);
        forall v | v in ds'[c].counted[t] ensures VotedFor(ds', t, v, c) {
          assert VotedFor(ds, t, v, c);
        }
      }
    }
  }

  lemma LeadersKept(size: nat, ds: Diaries, leaders: map<nat, NodeId>, n: NodeId, d': Diary)
    requires LeadersOk(size, ds, leaders) && n in ds && d'.counted == ds[n].counted
    ensures LeadersOk(size, ds[n := d'], leaders)
  {
  }

  lemma RepliesKept(ds: Diaries, n: NodeId, d': Diary, replies: set<VoteReply>)
    requires n in ds && VotesKept(ds[n], d') && forall r :: r in replies ==> ReplyOk(ds, r)
    ensures forall r :: r in replies ==> ReplyOk(ds[n := d'], r)
  {
    forall r | r in replies ensures ReplyOk(ds[n := d'], r) {
      assert ReplyOk(ds, r);
    }
  }

  // Everything but the moving node's own part and the parts that talk about its messages.
  lemma Assemble(s: Cluster, s': Cluster, n: NodeId, b: Node, d: Diary)
    requires ElectionInv(s) && n in s.servers && s'.servers == s.servers
    requires s'.nodes == s.nodes[n := b] && s'.diaries == s.diaries[n := d]
    requires Extends(s.leaders, s'.leaders, n)
    requires NodeOk(s.servers, d, s'.leaders, n, b)
    requires CountsOk(s'.returned, s'.diaries)
    requires LeadersOk(|s.servers|, s'.diaries, s'.leaders)
    requires forall r :: r in s'.voteReplies ==> ReplyOk(s'.diaries, r)
    ensures ElectionInv(s')
  {
    hide NodeOk, CountsOk, LeadersOk, ReplyOk, Extends;
    forall i | i in s.servers
      ensures NodeOk(s.servers, s'.diaries[i], s'.leaders, i, s'.nodes[i])
    {
      assert NodeOk(s.servers, s.diaries[i], s.leaders, i, s.nodes[i]);
      if i != n { OtherNode(s.servers, s.diaries[i], s.leaders, s'.leaders, n, i, s.nodes[i]); }
    }
  }

  lemma ElectNode(servers: set<NodeId>, d: Diary, leaders: map<nat, NodeId>, n: NodeId, a: Node)
    requires NodeOk(servers, d, leaders, n, a)
    requires a.term + 1 !in leaders || (leaders[a.term + 1] != n && StartElection(a).role != Leader)
    ensures NodeOk(servers, ElectDiary(d, a), LeadersWith(leaders, StartElection(a)), n, StartElection(a))
  {
  }

  lemma ElectKeeps(servers: set<NodeId>, d: Diary, leaders: map<nat, NodeId>, n: NodeId, a: Node)
    requires NodeOk(servers, d, leaders, n, a)
    ensures VotesKept(d, ElectDiary(d, a))
  {
  }

  // A node that stands alone is the first leader of its new term.
  lemma ElectLeaders(servers: set<NodeId>, returned: set<(nat, NodeId, NodeId)>, ds: Diaries, leaders: map<nat, NodeId>, n: NodeId, a: Node)
    requires ds.Keys == servers && n in servers && NodeOk(servers, ds[n], leaders, n, a)
    requires CountsOk(returned, ds) && LeadersOk(|ds.Keys|, ds, leaders)
    ensures a.term + 1 !in leaders || (leaders[a.term + 1] != n && StartElection(a).role != Leader)
    ensures LeadersOk(|servers|, ds[n := ElectDiary(ds[n], a)], LeadersWith(leaders, StartElection(a)))
    ensures Extends(leaders, LeadersWith(leaders, StartElection(a)), n)
  {
    var t := a.term + 1;
    if StartElection(a).role == Leader {
      NoOtherLeader(returned, ds, leaders, n, t, {n});
    }
  }

  lemma ElectPreserves(s: Cluster, n: NodeId)
    requires ElectionInv(s) && n in s.servers
    ensures ElectionInv(ElectStep(s, n))
  {
    hide NodeOk, CountsOk, LeadersOk, ReplyOk;
    var a := s.nodes[n];
    var d := ElectDiary(s.diaries[n], a);
    assert VotesKept(s.diaries[n], d) by { ElectKeeps(s.servers, s.diaries[n], s.leaders, n, a); }
    ElectLeaders(s.servers, s.returned, s.diaries, s.leaders, n, a);
    ElectNode(s.servers, s.diaries[n], s.leaders, n, a);
    assert CountOk(s.returned, s.diaries[n := d], a.term + 1, n, {n});
    CountsKept(s.returned, s.diaries, s.returned, n, d);
    RepliesKept(s.diaries, n, d, s.voteReplies);
    Assemble(s, ElectStep(s, n), n, StartElection(a), d);
  }

  lemma VoteNode(servers: set<NodeId>, d: Diary, leaders: map<nat, NodeId>, n: NodeId, a: Node, q: VoteRequest)
    requires NodeOk(servers, d, leaders, n, a)
    ensures NodeOk(servers, VoteDiary(d, a, q), leaders, n, HandleRequestVote(a, q).0)
    ensures VotesKept(d, VoteDiary(d, a, q)) && VoteDiary(d, a, q).counted == d.counted
    ensures HandleRequestVote(a, q).1.granted ==> q.term in VoteDiary(d, a, q).votes && VoteDiary(d, a, q).votes[q.term] == q.candidate
  {
  }

  lemma VoteReplyOk(ds: Diaries, n: NodeId, d: Diary, q: VoteRequest, r: VoteResponse)
    requires n in ds && q.candidate != n && (r.granted ==> q.term in d.votes && d.votes[q.term] == q.candidate)
    ensures ReplyOk(ds[n := d], VoteReply(n, q, r))
  {
  }

  lemma VoteRequestPreserves(s: Cluster, n: NodeId, q: VoteRequest)
    requires ElectionInv(s) && n in s.servers && q.candidate != n
    ensures ElectionInv(VoteRequestStep(s, n, q))
  {
    hide NodeOk, CountsOk, LeadersOk, ReplyOk;
    var a := s.nodes[n];
    var d := VoteDiary(s.diaries[n], a, q);
    VoteNode(s.servers, s.diaries[n], s.leaders, n, a, q);
    CountsKept(s.returned, s.diaries, s.returned, n, d);
    RepliesKept(s.diaries, n, d, s.voteReplies);
    VoteReplyOk(s.diaries, n, d, q, HandleRequestVote(a, q).1);
    LeadersKept(|s.servers|, s.diaries, s.leaders, n, d);
    Assemble(s, VoteRequestStep(s, n, q), n, HandleRequestVote(a, q).0, d);
  }

  lemma ReplyCount(servers: set<NodeId>, returned: set<(nat, NodeId, NodeId)>, ds: Diaries,
                   leaders: map<nat, NodeId>, n: NodeId, a: Node, r: VoteReply)
    requires ds.Keys == servers && n in servers && NodeOk(servers, ds[n], leaders, n, a) && CountsOk(returned, ds)
    requires ReplyOk(ds, r) && r.req.candidate == n && (r.req.term, n, r.from) !in returned
    ensures CountsOk(returned + {(r.req.term, n, r.from)}, ds[n := CountDiary(ds[n], a, r)])
    ensures Counts(a, r) ==> CountOk(returned, ds, a.term, n, ds[n].counted[a.term]) && r.from !in ds[n].counted[a.term]
  {
    var d := CountDiary(ds[n], a, r);
    var returned' := returned + {(r.req.term, n, r.from)};
    if Counts(a, r) {
      assert CountOk(returned, ds, a.term, n, ds[n].counted[a.term]);
      forall v | v in d.counted[a.term] ensures VotedFor(ds[n := d], a.term, v, n) {
        assert VotedFor(ds, a.term, v, n);
      }
      assert CountOk(returned', ds[n := d], a.term, n, d.counted[a.term]);
    }
    CountsKept(returned, ds, returned', n, d);
  }

  // With the majority it needs, the candidate is the first leader of its term.
  lemma ReplyWins(servers: set<NodeId>, returned: set<(nat, NodeId, NodeId)>, ds: Diaries,
                  leaders: map<nat, NodeId>, n: NodeId, a: Node, r: VoteReply)
    requires ds.Keys == servers && n in servers && NodeOk(servers, ds[n], leaders, n, a)
    requires CountsOk(returned, ds) && LeadersOk(|ds.Keys|, ds, leaders) && ReplyOk(ds, r) && r.req.candidate == n
    requires Counts(a, r) && CountOk(returned, ds, a.term, n, ds[n].counted[a.term]) && r.from !in ds[n].counted[a.term]
    ensures HandleVoteReply(a, r.req, r.resp).role == Leader ==>
              a.term !in leaders && 2 * |ds[n].counted[a.term] + {r.from}| > |servers|
  {
    hide CountsOk, LeadersOk;
    var voters := ds[n].counted[a.term] + {r.from};
    assert voters <= ds.Keys;
    assert |voters| == |ds[n].counted[a.term]| + 1;
    if HandleVoteReply(a, r.req, r.resp).role == Leader {
      NoOtherLeader(returned, ds, leaders, n, a.term, voters);
    }
  }

  lemma ReplyNode(servers: set<NodeId>, d: Diary, leaders: map<nat, NodeId>, n: NodeId, a: Node, r: VoteReply)
    requires NodeOk(servers, d, leaders, n, a)
    requires Counts(a, r) ==> r.from !in d.counted[a.term]
    requires Counts(a, r) && HandleVoteReply(a, r.req, r.resp).role == Leader ==> a.term !in leaders
    ensures var b := HandleVoteReply(a, r.req, r.resp);
            && NodeOk(servers, CountDiary(d, a, r), LeadersWith(leaders, b), n, b)
            && Extends(leaders, LeadersWith(leaders, b), n)
  {
  }

  lemma ReplyLeaders(servers: set<NodeId>, ds: Diaries, leaders: map<nat, NodeId>, n: NodeId, a: Node, r: VoteReply)
    requires ds.Keys == servers && n in servers && NodeOk(servers, ds[n], leaders, n, a) && LeadersOk(|servers|, ds, leaders)
    requires Counts(a, r) && HandleVoteReply(a, r.req, r.resp).role == Leader ==>
               a.term !in leaders && 2 * |ds[n].counted[a.term] + {r.from}| > |servers|
    ensures LeadersOk(|servers|, ds[n := CountDiary(ds[n], a, r)], LeadersWith(leaders, HandleVoteReply(a, r.req, r.resp)))
  {
    if Counts(a, r) && a.term in leaders {
      assert leaders[a.term] != n;
    }
  }

  lemma VoteReplyPreserves(s: Cluster, n: NodeId, r: VoteReply)
    requires ElectionInv(s) && n in s.servers
    requires r in s.voteReplies && r.req.candidate == n && (r.req.term, n, r.from) !in s.returned
    ensures ElectionInv(VoteReplyStep(s, n, r))
  {
    hide NodeOk, CountsOk, LeadersOk, ReplyOk;
    var a := s.nodes[n];
    assert ReplyOk(s.diaries, r);
    ReplyCount(s.servers, s.returned, s.diaries, s.leaders, n, a, r);
    if Counts(a, r) { ReplyWins(s.servers, s.returned, s.diaries, s.leaders, n, a, r); }
    ReplyNode(s.servers, s.diaries[n], s.leaders, n, a, r);
    ReplyLeaders(s.servers, s.diaries, s.leaders, n, a, r);
    RepliesKept(s.diaries, n, CountDiary(s.diaries[n], a, r), s.voteReplies);
    Assemble(s, VoteReplyStep(s, n, r), n, HandleVoteReply(a, r.req, r.resp), CountDiary(s.diaries[n], a, r));
  }

  // A handler outside elections keeps its term and vote, or moves to a later term without a vote.
  predicate Quiet(a: Node, b: Node) {
    && b.id == a.id && b.peers == a.peers
    && ((&& b.term == a.term && b.votedFor == a.votedFor && b.votesReceived == a.votesReceived
         && (b.role == a.role || b.role == Follower || b.role == Shutdown))
        || (b.term > a.term && b.votedFor == None && b.role == Follower)
        || (b.term == a.term && b.votedFor == a.votedFor && b.role == Follower))
  }

  lemma AppendEntriesQuiet(a: Node, q: AppendRequest)
    ensures Quiet(a, HandleAppendEntries(a, q).0)
  {
  }

  lemma AppendReplyQuiet(a: Node, p: NodeId, q: AppendRequest, r: AppendResponse)
    requires p in a.nextIndex
    ensures Quiet(a, HandleAppendReply(a, p, q, r))
  {
  }

  lemma QuietNode(servers: set<NodeId>, d: Diary, acked: map<nat, nat>, leaders: map<nat, NodeId>, n: NodeId, a: Node, b: Node)
    requires NodeOk(servers, d, leaders, n, a) && Quiet(a, b)
    ensures NodeOk(servers, d.(acked := acked), leaders, n, b)
  {
  }

  lemma QuietPreserves(s: Cluster, s': Cluster, n: NodeId, b: Node, acked: map<nat, nat>)
    requires ElectionInv(s) && n in s.servers && s'.nodes == s.nodes[n := b] && Quiet(s.nodes[n], b)
    requires s'.diaries == s.diaries[n := s.diaries[n].(acked := acked)]
    requires s'.servers == s.servers && s'.leaders == s.leaders && s'.returned == s.returned && s'.voteReplies == s.voteReplies
    ensures ElectionInv(s')
  {
    hide NodeOk, CountsOk, LeadersOk, ReplyOk;
    var d := s.diaries[n].(acked := acked);
    QuietNode(s.servers, s.diaries[n], acked, s.leaders, n, s.nodes[n], b);
    CountsKept(s.returned, s.diaries, s.returned, n, d);
    RepliesKept(s.diaries, n, d, s.voteReplies);
    LeadersKept(|s.servers|, s.diaries, s.leaders, n, d);
    Assemble(s, s', n, b, d);
  }

  lemma SamePreserves(s: Cluster, s': Cluster, n: NodeId, b: Node)
    requires ElectionInv(s) && n in s.servers && s'.nodes == s.nodes[n := b] && Quiet(s.nodes[n], b)
    requires s'.diaries == s.diaries
    requires s'.servers == s.servers && s'.leaders == s.leaders && s'.returned == s.returned && s'.voteReplies == s.voteReplies
    ensures ElectionInv(s')
  {
    hide NodeOk, CountsOk, LeadersOk, ReplyOk;
    assert s.diaries == s.diaries[n := s.diaries[n].(acked := s.diaries[n].acked)];
    QuietPreserves(s, s', n, b, s.diaries[n].acked);
  }

  lemma ElectionPreserved(s: Cluster, step: Step)
    requires ElectionInv(s) && Enabled(s, step)
    ensures ElectionInv(Do(s, step))
  {
    hide NodeOk, CountsOk, LeadersOk, ReplyOk;
    var n := step.n;
    var a := s.nodes[n];
    match step {
      case Elect(_) => ElectPreserves(s, n);
      case GetVoteRequest(_, q) => VoteRequestPreserves(s, n, q);
      case GetVoteReply(_, r) => VoteReplyPreserves(s, n, r);
      case Submit(_, data) =>
        QuietPreserves(s, SubmitStep(s, n, data), n, Propose(a, data), AckedWith(s.diaries[n].acked, Propose(a, data)));
      case BeginRound(_) =>
        assert s.nodes == s.nodes[n := a];
        SamePreserves(s, BeginRoundStep(s, n), n, a);
      case SendAppend(_, p, round) =>
        assert s.nodes == s.nodes[n := a];
        SamePreserves(s, SendStep(s, n, p, round), n, a);
      case GetAppend(_, m) =>
        AppendEntriesQuiet(a, m.req);
        QuietPreserves(s, AppendStep(s, n, m.req), n, HandleAppendEntries(a, m.req).0, AppendDiary(s.diaries[n], a, m.req).acked);
      case GetAppendReply(_, r) =>
        AppendReplyQuiet(a, r.from, r.req, r.resp);
        SamePreserves(s, AppendReplyStep(s, n, r), n, HandleAppendReply(a, r.from, r.req, r.resp));
      case Crash(_) => SamePreserves(s, Do(s, step), n, Restart(a));
      case Stop(_) => SamePreserves(s, Do(s, step), n, a.(role := Shutdown));
    }
  }

  lemma {:induction false} ElectionInRuns(states: seq<Cluster>, steps: seq<Step>, k: nat)
    requires Run(states, steps) && k < |states|
    ensures ElectionInv(states[k])
  {
    hide ElectionInv, Init;
    if k == 0 {
      InitElection(states[0]);
    } else {
      ElectionInRuns(states, steps, k - 1);
      ElectionPreserved(states[k - 1], steps[k - 1]);
    }
  }

  lemma NodeOf(s: Cluster, n: NodeId)
    requires ElectionInv(s) && n in s.servers
    ensures n in s.nodes && n in s.diaries && s.diaries.Keys == s.servers
    ensures NodeOk(s.servers, s.diaries[n], s.leaders, n, s.nodes[n])
    ensures CountsOk(s.returned, s.diaries) && LeadersOk(|s.servers|, s.diaries, s.leaders)
  {
    hide NodeOk, CountsOk, LeadersOk, ReplyOk;
  }

  lemma NodeIs(servers: set<NodeId>, d: Diary, leaders: map<nat, NodeId>, n: NodeId, c: Node)
    requires NodeOk(servers, d, leaders, n, c)
    ensures c.id == n && n !in Elements(c.peers)
    ensures c.role == Leader ==> c.term in leaders && leaders[c.term] == n
    ensures c.role == Candidate ==> c.term >= 1
  {
  }

  lemma ElectFresh(s: Cluster, n: NodeId)
    requires ElectionInv(s) && n in s.servers
    ensures n in s.nodes && n in s.diaries && s.nodes[n].id == n
    ensures StartElection(s.nodes[n]).role == Leader ==> s.nodes[n].term + 1 !in s.leaders
  {
    hide ElectionInv, NodeOk, CountsOk, LeadersOk, LeadersWith, ElectDiary;
    NodeOf(s, n);
    NodeIs(s.servers, s.diaries[n], s.leaders, n, s.nodes[n]);
    ElectLeaders(s.servers, s.returned, s.diaries, s.leaders, n, s.nodes[n]);
  }

  lemma ReplyFresh(s: Cluster, n: NodeId, r: VoteReply)
    requires ElectionInv(s) && Enabled(s, GetVoteReply(n, r))
    ensures var a := s.nodes[n];
            var b := HandleVoteReply(a, r.req, r.resp);
            && a.id == n
            && (a.role == Leader ==> a.term in s.leaders && s.leaders[a.term] == n)
            && (b.role == Leader && a.role != Leader ==> a.role == Candidate && b.term == a.term && a.term >= 1 && a.term !in s.leaders)
  {
    hide ElectionInv, NodeOk, CountsOk, LeadersOk, ReplyOk, CountDiary;
    var a := s.nodes[n];
    NodeOf(s, n);
    NodeIs(s.servers, s.diaries[n], s.leaders, n, a);
    ReplyOf(s, r);
    ReplyCount(s.servers, s.returned, s.diaries, s.leaders, n, a, r);
    if Counts(a, r) { ReplyWins(s.servers, s.returned, s.diaries, s.leaders, n, a, r); }
  }

  lemma ReplyOf(s: Cluster, r: VoteReply)
    requires ElectionInv(s) && r in s.voteReplies
    ensures ReplyOk(s.diaries, r)
  {
    hide NodeOk, CountsOk, LeadersOk, ReplyOk;
  }

  lemma LeaderKnown(s: Cluster, n: NodeId)
    requires ElectionInv(s) && n in s.servers
    ensures n in s.nodes && n in s.diaries && s.nodes[n].id == n && n !in Elements(s.nodes[n].peers)
    ensures s.nodes[n].role == Leader ==>
              s.nodes[n].term >= 1 && s.nodes[n].term in s.leaders && s.leaders[s.nodes[n].term] == n
  {
    hide ElectionInv, NodeOk, CountsOk;
    NodeOf(s, n);
    NodeIs(s.servers, s.diaries[n], s.leaders, n, s.nodes[n]);
  }

  // What was recorded about leaders stays.
  lemma LeaderStays(s: Cluster, step: Step, t: nat)
    requires ElectionInv(s) && Enabled(s, step) && t in s.leaders
    ensures t in Do(s, step).leaders && Do(s, step).leaders[t] == s.leaders[t]
  {
    hide ElectionInv;
    match step {
      case Elect(n) => ElectFresh(s, n);
      case GetVoteReply(n, r) => ReplyFresh(s, n, r);
      case _ =>
    }
  }

  lemma {:induction false} LeaderStaysInRuns(states: seq<Cluster>, steps: seq<Step>, j: nat, k: nat, t: nat)
    requires Run(states, steps) && j <= k < |states| && t in states[j].leaders
    ensures t in states[k].leaders && states[k].leaders[t] == states[j].leaders[t]
  {
    hide ElectionInv, Init;
    if j < k {
      LeaderStaysInRuns(states, steps, j, k - 1, t);
      ElectionInRuns(states, steps, k - 1);
      LeaderStays(states[k - 1], steps[k - 1], t);
    }
  }

  // Election Safety: two nodes that lead the same term, at any two moments of any run, are the same node.
  lemma ElectionSafety(states: seq<Cluster>, steps: seq<Step>, j: nat, k: nat, a: NodeId, b: NodeId)
    requires Run(states, steps) && j < |states| && k < |states|
    requires a in states[j].nodes && states[j].nodes[a].role == Leader
    requires b in states[k].nodes && states[k].nodes[b].role == Leader
    requires states[j].nodes[a].term == states[k].nodes[b].term
    ensures a == b
  {
    hide NodeOk, CountsOk, LeadersOk, ReplyOk, Run;
    var t := states[j].nodes[a].term;
    ElectionInRuns(states, steps, j);
    ElectionInRuns(states, steps, k);
    LeaderKnown(states[j], a);
    LeaderKnown(states[k], b);
    if j <= k { LeaderStaysInRuns(states, steps, j, k, t); } else { LeaderStaysInRuns(states, steps, k, j, t); }
  }
}
