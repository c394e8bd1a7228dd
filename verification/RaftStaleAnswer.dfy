/**
 Without the guard OnTerm, State Machine Safety fails: a run of five nodes in which two nodes apply
 different entries at index 2. Node 1 leads term 1, loses its log as a follower in term 2, leads term 3,
 and only then uses node 2's answer of term 1, which it takes for an acknowledgement of its new log.
 */
module RaftStaleAnswer {
  import opened RaftTypes
  import opened RaftHandlers
  import opened RaftProtocol
  import opened RaftScenario
  import RaftMatching

  ghost predicate At(s: Cluster, i: NodeId, role: Role, term: nat, log: Log) {
    && i in s.servers && i in s.nodes
    && var n := s.nodes[i];
       n.role == role && n.term == term && n.log == log && n.peers == PeerList(i) && n.id == i
       && n.commitIndex == 0 && n.lastApplied == 0
  }

  // The answer to the first request of term 1, which node 1 does not use yet.
  const STALE := AppendReply(2, FIRST, AppendResponse(1, true, 0, 0))

  lemma BlankAt(s: Cluster, i: NodeId)
    requires i in s.servers && i in s.nodes && s.nodes[i] == Blank(i, PeerList(i))
    ensures At(s, i, Follower, 0, [])
  {
  }

  lemma Begins() returns (s: Cluster)
    ensures Reached(LateAnswer, s) && Five(s) && s.servers == ALL && s.returned == {}
    ensures At(s, 1, Follower, 0, []) && At(s, 2, Follower, 0, []) && At(s, 3, Follower, 0, [])
    ensures At(s, 4, Follower, 0, []) && At(s, 5, Follower, 0, [])
  {
    hide Reached, Five, Blank, At;
    s := Begin(LateAnswer);
    BlankAt(s, 1);
    BlankAt(s, 2);
    BlankAt(s, 3);
    BlankAt(s, 4);
    BlankAt(s, 5);
  }

  lemma Phase1() returns (s: Cluster)
    ensures Reached(LateAnswer, s) && Five(s) && s.returned == {(1, 1, 2), (1, 1, 3)} && STALE in s.appendReplies
    ensures At(s, 1, Leader, 1, [NoOp(1, 1), X]) && At(s, 2, Follower, 1, [NoOp(1, 1), X])
    ensures At(s, 3, Follower, 1, []) && At(s, 4, Follower, 0, []) && At(s, 5, Follower, 0, [])
  {
    hide Reached, Five, Merge;
    var s0 := Begins();
    var s1 := Wins(LateAnswer, s0, 1, 2, 3);
    var s2 := Proposes(LateAnswer, s1, 1);
    assert BuildAppend(s2.nodes[1], 2, 1, 0) == FIRST;
    assert 2 in Elements(s2.nodes[1].peers);
    s := Delivers(LateAnswer, s2, 1, 2);
    MergeAll([NoOp(1, 1), X]);
  }

  // Node 4 leads term 2 with the votes of 3 and 5, and replaces node 1's log.
  lemma Phase2(s0: Cluster) returns (s: Cluster)
    requires Reached(LateAnswer, s0) && Five(s0) && s0.returned == {(1, 1, 2), (1, 1, 3)} && STALE in s0.appendReplies
    requires At(s0, 1, Leader, 1, [NoOp(1, 1), X]) && At(s0, 2, Follower, 1, [NoOp(1, 1), X])
    requires At(s0, 3, Follower, 1, []) && At(s0, 4, Follower, 0, []) && At(s0, 5, Follower, 0, [])
    ensures Reached(LateAnswer, s) && Five(s) && s.returned == {(1, 1, 2), (1, 1, 3), (2, 4, 3), (2, 4, 5)} && STALE in s.appendReplies
    ensures At(s, 1, Follower, 2, [NoOp(1, 2)]) && At(s, 2, Follower, 1, [NoOp(1, 1), X])
    ensures At(s, 3, Follower, 2, []) && At(s, 4, Leader, 2, [NoOp(1, 2)]) && At(s, 5, Follower, 2, [])
  {
    hide Reached, Five;
    var s1 := Asks(LateAnswer, s0, 4);
    var s2 := Wins(LateAnswer, s1, 4, 3, 5);
    var q := AppendRequest(2, 4, 0, 0, [NoOp(1, 2)], 0);
    assert BuildAppend(s2.nodes[4], 1, 2, 0) == q;
    s := Delivers(LateAnswer, s2, 4, 1);
    assert Merge([NoOp(1, 1), X], 0, [NoOp(1, 2)]) == [NoOp(1, 2)] by {
      assert [NoOp(1, 2)][0..] == [NoOp(1, 2)];
      RaftMatching.MergeResult([NoOp(1, 1), X], [NoOp(1, 2)], 0);
    }
  }

  // Node 1 after it won term 3 and used the stale answer.
  ghost predicate Misled(n: Node) {
    && n.role == Leader && n.term == 3 && n.log == [NoOp(1, 2), NoOp(2, 3)] && n.id == 1 && n.peers == [2, 3, 4, 5]
    && n.commitIndex == 0 && n.lastApplied == 0
    && 4 in n.nextIndex && n.nextIndex[4] == 2
    && n.matchIndex == map[2 := 2, 3 := 0, 4 := 0, 5 := 0]
  }

  // One holder besides the leader itself is not enough.
  lemma NotYet(m: Node)
    requires |m.log| == 2 && m.log[0].term < m.term && m.commitIndex == 0 && m.peers == [2, 3, 4, 5]
    requires m.matchIndex == map[2 := 2, 3 := 0, 4 := 0, 5 := 0]
    ensures AdvanceCommitIndex(m) == m
  {
    Replicas4(m.peers, m.matchIndex, 2);
    assert HighestReplicated(m, 2) == HighestReplicated(m, 1) == HighestReplicated(m, 0) == 0;
  }

  // Node 1 right after it has won term 3.
  ghost predicate Fresh3(n: Node) {
    && n.role == Leader && n.term == 3 && n.log == [NoOp(1, 2), NoOp(2, 3)] && n.id == 1 && n.peers == [2, 3, 4, 5]
    && n.commitIndex == 0 && n.lastApplied == 0
    && 2 in n.nextIndex && 4 in n.nextIndex && n.nextIndex[4] == 2
    && n.matchIndex == map[2 := 0, 3 := 0, 4 := 0, 5 := 0]
  }

  lemma FreshLeader(a: Node)
    requires a.role == Follower && a.term == 2 && a.log == [NoOp(1, 2)] && a.id == 1 && a.peers == [2, 3, 4, 5]
    requires a.commitIndex == 0 && a.lastApplied == 0
    ensures Fresh3(Winner(a))
  {
    hide Uniform;
    UniformFour(2, 3, 4, 5, 0);
  }

  lemma UsesStale(w: Node)
    requires Fresh3(w)
    ensures Misled(HandleAppendReply(w, 2, FIRST, STALE.resp))
  {
    hide AdvanceCommitIndex;
    var m := w.(nextIndex := w.nextIndex[2 := 3], matchIndex := w.matchIndex[2 := 2]);
    assert m.matchIndex == map[2 := 2, 3 := 0, 4 := 0, 5 := 0];
    NotYet(m);
  }

  const SECOND := AppendRequest(3, 1, 1, 2, [NoOp(2, 3)], 0)

  lemma Commits(n: Node)
    requires Misled(n)
    ensures BuildAppend(n, 4, 3, 0) == SECOND
    ensures var b := HandleAppendReply(n, 4, SECOND, AppendResponse(3, true, 0, 0));
            b.commitIndex == 2 && b.lastApplied == 2 && b.log == n.log && b.id == 1
  {
    var m := n.(nextIndex := n.nextIndex[4 := 3], matchIndex := n.matchIndex[4 := 2]);
    Replicas4(m.peers, m.matchIndex, 2);
  }

  lemma Follows(f: Node)
    requires f.term == 2 && f.log == [NoOp(1, 2)]
    ensures HandleAppendEntries(f, SECOND).1 == AppendResponse(3, true, 0, 0)
  {
    hide Merge;
  }

  // Node 1 leads term 3, uses the stale answer, and commits index 2 with node 4 alone.
  lemma Phase3(s0: Cluster) returns (s: Cluster)
    requires Reached(LateAnswer, s0) && Five(s0) && s0.returned == {(1, 1, 2), (1, 1, 3), (2, 4, 3), (2, 4, 5)} && STALE in s0.appendReplies
    requires At(s0, 1, Follower, 2, [NoOp(1, 2)]) && At(s0, 2, Follower, 1, [NoOp(1, 1), X])
    requires At(s0, 3, Follower, 2, []) && At(s0, 4, Leader, 2, [NoOp(1, 2)]) && At(s0, 5, Follower, 2, [])
    ensures Reached(LateAnswer, s) && Five(s)
    ensures s.returned == {(1, 1, 2), (1, 1, 3), (2, 4, 3), (2, 4, 5), (3, 1, 3), (3, 1, 5)}
    ensures 1 in s.servers && 1 in s.nodes && s.nodes[1].lastApplied == 2 && s.nodes[1].log == [NoOp(1, 2), NoOp(2, 3)]
    ensures At(s, 2, Follower, 1, [NoOp(1, 1), X]) && At(s, 3, Follower, 3, []) && At(s, 5, Follower, 3, [])
  {
    hide Reached, Five, HandleAppendReply, HandleAppendEntries, BuildAppend, Elements, Winner;
    Among(4, [2, 3, 4, 5], 2);
    FreshLeader(s0.nodes[1]);
    UsesStale(Winner(s0.nodes[1]));
    var misled := HandleAppendReply(Winner(s0.nodes[1]), 2, FIRST, STALE.resp);
    Commits(misled);
    Follows(s0.nodes[4]);
    var s1 := Wins(LateAnswer, s0, 1, 3, 5);
    var s2 := Hears(LateAnswer, s1, 1, STALE);
    assert s2.nodes[1] == misled && s2.nodes[4] == s0.nodes[4];
    var s3 := Delivers(LateAnswer, s2, 1, 4);
    s := Hears(LateAnswer, s3, 1, AppendReply(4, SECOND, AppendResponse(3, true, 0, 0)));
  }

  const BEFORE: Log := [NoOp(1, 1), X, NoOp(3, 4)]

  // Node 2 as leader of term 4, with what it knows of nodes 3 and 5.
  ghost predicate Leads(n: Node, next3: nat, match3: nat, next5: nat, match5: nat) {
    && n.role == Leader && n.term == 4 && n.log == BEFORE && n.id == 2 && n.peers == [1, 3, 4, 5]
    && n.commitIndex == 0 && n.lastApplied == 0
    && 3 in n.nextIndex && n.nextIndex[3] == next3 && 5 in n.nextIndex && n.nextIndex[5] == next5
    && n.matchIndex == map[1 := 0, 3 := match3, 4 := 0, 5 := match5]
  }

  lemma LeadsNow(a: Node)
    requires a.term == 3 && a.log == [NoOp(1, 1), X] && a.id == 2 && a.peers == [1, 3, 4, 5]
    requires a.commitIndex == 0 && a.lastApplied == 0
    ensures Leads(Winner(a), 3, 0, 3, 0)
  {
    hide Uniform;
    UniformFour(1, 3, 4, 5, 0);
  }

  // A voter of term 4 with an empty log.
  ghost predicate Bare(s: Cluster, i: NodeId) {
    i in s.servers && i in s.nodes && s.nodes[i].term == 4 && s.nodes[i].log == [] && s.nodes[i].role == Follower
  }

  const PROBE := AppendRequest(4, 2, 2, 1, [NoOp(3, 4)], 0)
  const WHOLE := AppendRequest(4, 2, 0, 0, BEFORE, 0)

  lemma Refuses(f: Node)
    requires f.term == 4 && f.log == [] && f.role == Follower
    ensures HandleAppendEntries(f, PROBE) == (f, AppendResponse(4, false, 1, 0))
  {
    assert ConflictIndex([], 2) == ConflictIndex([], 1) == ConflictIndex([], 0) == 1;
  }

  lemma Accepts(f: Node)
    requires f.term == 4 && f.log == [] && f.role == Follower
    ensures HandleAppendEntries(f, WHOLE).1 == AppendResponse(4, true, 0, 0)
  {
    hide Merge;
  }

  ghost predicate Sender(n: Node, f: NodeId, next: nat) {
    && n.role == Leader && n.term == 4 && n.log == BEFORE && n.id == 2 && n.peers == [1, 3, 4, 5] && n.commitIndex == 0
    && f in n.nextIndex && n.nextIndex[f] == next
  }

  lemma ProbeSent(n: Node, f: NodeId)
    requires Sender(n, f, 3)
    ensures BuildAppend(n, f, 4, 0) == PROBE
    ensures HandleAppendReply(n, f, PROBE, AppendResponse(4, false, 1, 0)) == n.(nextIndex := n.nextIndex[f := 1])
    ensures Sender(n.(nextIndex := n.nextIndex[f := 1]), f, 1)
  {
  }

  lemma WholeSent(n: Node, f: NodeId)
    requires Sender(n, f, 1)
    ensures BuildAppend(n, f, 4, 0) == WHOLE
  {
  }

  // Two exchanges bring a bare follower up to date; node 2 is about to count its answer.
  lemma Pushes(s: Cluster, f: NodeId) returns (s': Cluster)
    requires Reached(LateAnswer, s) && Five(s) && 2 in s.servers && 2 in s.nodes && (f == 3 || f == 5) && Bare(s, f) && Sender(s.nodes[2], f, 3)
    ensures Reached(LateAnswer, s') && Five(s') && s'.servers == s.servers && AppendReply(f, WHOLE, AppendResponse(4, true, 0, 0)) in s'.appendReplies
    ensures f in s'.nodes
    ensures s'.nodes == s.nodes[2 := s.nodes[2].(nextIndex := s.nodes[2].nextIndex[f := 1])][f := s'.nodes[f]]
  {
    hide Reached, Five, HandleAppendEntries, HandleAppendReply, BuildAppend, Elements;
    Among(f, [1, 3, 4, 5], if f == 3 then 1 else 3);
    var n := s.nodes[2];
    ProbeSent(n, f);
    WholeSent(n.(nextIndex := n.nextIndex[f := 1]), f);
    Refuses(s.nodes[f]);
    Accepts(s.nodes[f]);
    var s1 := Delivers(LateAnswer, s, 2, f);
    assert s1.nodes == s.nodes;
    var s2 := Hears(LateAnswer, s1, 2, AppendReply(f, PROBE, AppendResponse(4, false, 1, 0)));
    s' := Delivers(LateAnswer, s2, 2, f);
  }

  // Node 3 alone is not enough; with node 5 index 3 is committed, and so is index 2.
  lemma FirstAnswer(n: Node)
    requires Leads(n, 1, 0, 3, 0)
    ensures Leads(HandleAppendReply(n, 3, WHOLE, AppendResponse(4, true, 0, 0)), 4, 3, 3, 0)
  {
    var m := n.(nextIndex := n.nextIndex[3 := 4], matchIndex := n.matchIndex[3 := 3]);
    assert m.matchIndex == map[1 := 0, 3 := 3, 4 := 0, 5 := 0];
    Replicas4(m.peers, m.matchIndex, 3);
    assert HighestReplicated(m, 3) == HighestReplicated(m, 2) == HighestReplicated(m, 1) == HighestReplicated(m, 0) == 0;
  }

  lemma SecondAnswer(n: Node)
    requires Leads(n, 4, 3, 1, 0)
    ensures var b := HandleAppendReply(n, 5, WHOLE, AppendResponse(4, true, 0, 0));
            b.lastApplied == 3 && b.log == BEFORE
  {
    var m := n.(nextIndex := n.nextIndex[5 := 4], matchIndex := n.matchIndex[5 := 3]);
    Replicas4(m.peers, m.matchIndex, 3);
  }

  // Node 2 leads term 4 with the votes of 3 and 5.
  lemma Phase4(s0: Cluster) returns (s: Cluster)
    requires Reached(LateAnswer, s0) && Five(s0) && s0.returned == {(1, 1, 2), (1, 1, 3), (2, 4, 3), (2, 4, 5), (3, 1, 3), (3, 1, 5)}
    requires 1 in s0.servers && 1 in s0.nodes
    requires At(s0, 2, Follower, 1, [NoOp(1, 1), X]) && At(s0, 3, Follower, 3, []) && At(s0, 5, Follower, 3, [])
    ensures Reached(LateAnswer, s) && Five(s) && 1 in s.servers && 1 in s.nodes && s.nodes[1] == s0.nodes[1]
    ensures 2 in s.servers && 2 in s.nodes && Leads(s.nodes[2], 3, 0, 3, 0) && Bare(s, 3) && Bare(s, 5)
  {
    hide Reached, Five;
    var s1 := Asks(LateAnswer, s0, 2);
    var s2 := Asks(LateAnswer, s1, 2);
    s := Wins(LateAnswer, s2, 2, 3, 5);
    LeadsNow(s2.nodes[2]);
  }

  // Node 2 commits its old log.
  lemma Phase5(s0: Cluster) returns (s: Cluster)
    requires Reached(LateAnswer, s0) && Five(s0) && 1 in s0.servers && 1 in s0.nodes
    requires 2 in s0.servers && 2 in s0.nodes && Leads(s0.nodes[2], 3, 0, 3, 0) && Bare(s0, 3) && Bare(s0, 5)
    ensures Reached(LateAnswer, s) && 1 in s.nodes && s.nodes[1] == s0.nodes[1]
    ensures 2 in s.nodes && s.nodes[2].lastApplied == 3 && s.nodes[2].log == BEFORE
  {
    hide Reached, Five, HandleAppendReply;
    var s1 := Pushes(s0, 3);
    FirstAnswer(s1.nodes[2]);
    var s2 := Hears(LateAnswer, s1, 2, AppendReply(3, WHOLE, AppendResponse(4, true, 0, 0)));
    var s3 := Pushes(s2, 5);
    SecondAnswer(s3.nodes[2]);
    s := Hears(LateAnswer, s3, 2, AppendReply(5, WHOLE, AppendResponse(4, true, 0, 0)));
  }

  // State Machine Safety is false of runs in which only answers are used without the guard.
  lemma UnguardedRunsAreUnsafe() returns (states: seq<Cluster>, steps: seq<Step>)
    ensures LapsingRun(LateAnswer, states, steps)
    ensures var s := states[|steps|];
            && 1 in s.nodes && 2 in s.nodes
            && s.nodes[1].lastApplied >= 2 && s.nodes[2].lastApplied >= 2
            && |s.nodes[1].log| >= 2 && |s.nodes[2].log| >= 2
            && s.nodes[1].log[1] != s.nodes[2].log[1]
  {
    hide Five, Init, Do, Enabled;
    var s1 := Phase1();
    var s2 := Phase2(s1);
    var s3 := Phase3(s2);
    var s4 := Phase4(s3);
    var s5 := Phase5(s4);
    states, steps :| LapsingRun(LateAnswer, states, steps) && states[|steps|] == s5;
  }
}
