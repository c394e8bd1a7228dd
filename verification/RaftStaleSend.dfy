/**
 The other half of the guard is needed as well: a run in which only a late send is off its term and after which two nodes
 that have applied equally far have applied different commands. Node 1 commits a command in term 1 and starts a round
 as leader of term 2; node 2, leader of term 3, cuts node 1's log; node 1 goes on with its round, and the request it
 sends to node 5 lies beyond its own log. Node 5 accepts it, and counts the command it has never seen as applied.
 */
module RaftStaleSend {
  import opened RaftTypes
  import opened RaftHandlers
  import opened RaftProtocol
  import opened RaftScenario
  import RaftMatching

  const OK := AppendResponse(1, true, 0, 0)
  const Y := LogEntry(3, 1, ENTRY_COMMAND, [])
  const Z := LogEntry(4, 1, ENTRY_COMMAND, [])

  // --- node 1 in term 1 ---

  ghost predicate Boss(n: Node, next3: nat, match2: nat) {
    && n.role == Leader && n.term == 1 && n.log == [NoOp(1, 1), X] && n.id == 1 && n.peers == [2, 3, 4, 5]
    && n.commitIndex == 0 && n.lastApplied == 0 && n.applied == []
    && 2 in n.nextIndex && 3 in n.nextIndex && n.nextIndex[3] == next3
    && n.matchIndex == map[2 := match2, 3 := 0, 4 := 0, 5 := 0]
  }

  lemma BossNow()
    ensures var n := Propose(Winner(Blank(1, PeerList(1))), []);
            Boss(n, 1, 0) && n.nextIndex[2] == 1
  {
    hide Uniform;
    UniformFour(2, 3, 4, 5, 0);
  }

  lemma BossSends(n: Node, f: NodeId)
    requires n.log == [NoOp(1, 1), X] && n.id == 1 && f in n.nextIndex && n.nextIndex[f] == 1
    ensures BuildAppend(n, f, 1, 0) == FIRST
  {
  }

  // One answer is not enough,
  lemma FirstAnswer(n: Node)
    requires Boss(n, 1, 0)
    ensures Boss(HandleAppendReply(n, 2, FIRST, OK), 1, 2)
  {
    var m := n.(nextIndex := n.nextIndex[2 := 3], matchIndex := n.matchIndex[2 := 2]);
    assert m.matchIndex == map[2 := 2, 3 := 0, 4 := 0, 5 := 0];
    Replicas4(m.peers, m.matchIndex, 2);
    Replicas4(m.peers, m.matchIndex, 1);
    assert HighestReplicated(m, 2) == HighestReplicated(m, 1) == HighestReplicated(m, 0) == 0;
  }

  // two are, and the command is applied.
  ghost predicate Done(n: Node) {
    && n.role == Leader && n.term == 1 && n.log == [NoOp(1, 1), X] && n.id == 1 && n.peers == [2, 3, 4, 5]
    && n.commitIndex == 2 && n.lastApplied == 2 && n.applied == [X]
  }

  lemma SecondAnswer(n: Node)
    requires Boss(n, 1, 2)
    ensures Done(HandleAppendReply(n, 3, FIRST, OK))
  {
    var m := n.(nextIndex := n.nextIndex[3 := 3], matchIndex := n.matchIndex[3 := 2]);
    Replicas4(m.peers, m.matchIndex, 2);
    assert HighestReplicated(m, 2) == 2;
    var log := [NoOp(1, 1), X];
    assert log[0..2] == log && log[..1] == [NoOp(1, 1)] && log[..1][..0] == [];
    assert Commands(log[..1]) == [];
    assert Commands(log) == [X];
  }

  ghost predicate Copy(n: Node, i: NodeId, term: nat) {
    && n.role == Follower && n.term == term && n.log == [NoOp(1, 1), X] && n.id == i && n.peers == PeerList(i) && n.commitIndex == 0
  }

  lemma Copies(i: NodeId)
    ensures var f := HandleAppendEntries(Voter(Blank(i, PeerList(i)), 1, 1), FIRST);
            Copy(f.0, i, 1) && f.1 == OK
  {
    hide Merge;
    MergeAll([NoOp(1, 1), X]);
  }

  lemma Phase1() returns (s: Cluster)
    ensures Reached(LateSend, s) && Five(s) && s.servers == ALL && s.returned == {(1, 1, 2), (1, 1, 3)}
    ensures {1, 2, 3, 4, 5} <= s.nodes.Keys && Done(s.nodes[1]) && Copy(s.nodes[2], 2, 1) && Copy(s.nodes[3], 3, 1)
    ensures s.nodes[4] == Blank(4, PeerList(4)) && s.nodes[5] == Blank(5, PeerList(5))
  {
    hide Reached, Five, Blank, Winner, HandleAppendEntries, HandleAppendReply, BuildAppend, Elements, UpToDate;
    var s0 := Begin(LateSend);
    FiveNodes(s0);
    BlankVoters();
    var s1 := Wins(LateSend, s0, 1, 2, 3);
    var s2 := Proposes(LateSend, s1, 1);
    BossNow();
    Among(2, [2, 3, 4, 5], 0);
    Among(3, [2, 3, 4, 5], 1);
    BossSends(s2.nodes[1], 2);
    Copies(2);
    Copies(3);
    s := Replicates(s2);
  }

  lemma BlankVoters()
    ensures forall i, j :: Blank(i, PeerList(i)).term == 0 && UpToDate(LastTerm(Blank(i, PeerList(i)).log), |Blank(i, PeerList(i)).log|, Blank(j, PeerList(j)).log)
  {
  }

  // Nodes 2 and 3 take the first request, and node 1 counts their answers.
  lemma Replicates(s: Cluster) returns (s': Cluster)
    requires Reached(LateSend, s) && Five(s) && s.servers == ALL && {1, 2, 3, 4, 5} <= s.nodes.Keys
    requires Boss(s.nodes[1], 1, 0) && s.nodes[1].nextIndex[2] == 1
    requires s.nodes[2] == Voter(Blank(2, PeerList(2)), 1, 1) && s.nodes[3] == Voter(Blank(3, PeerList(3)), 1, 1)
    ensures Reached(LateSend, s') && Five(s') && s'.servers == ALL && s'.returned == s.returned && {1, 2, 3, 4, 5} <= s'.nodes.Keys
    ensures Done(s'.nodes[1]) && Copy(s'.nodes[2], 2, 1) && Copy(s'.nodes[3], 3, 1)
    ensures s'.nodes[4] == s.nodes[4] && s'.nodes[5] == s.nodes[5]
  {
    hide Reached, Five, Blank, Voter, HandleAppendEntries, HandleAppendReply, BuildAppend, Elements;
    Among(2, [2, 3, 4, 5], 0);
    Among(3, [2, 3, 4, 5], 1);
    Copies(2);
    Copies(3);
    BossSends(s.nodes[1], 2);
    var s1 := Delivers(LateSend, s, 1, 2);
    FirstAnswer(s1.nodes[1]);
    var s2 := Hears(LateSend, s1, 1, AppendReply(2, FIRST, OK));
    BossSends(s2.nodes[1], 3);
    var s3 := Delivers(LateSend, s2, 1, 3);
    SecondAnswer(s3.nodes[1]);
    s' := Hears(LateSend, s3, 1, AppendReply(3, FIRST, OK));
  }

  // --- node 1 in term 2 ---

  const LONG: Log := [NoOp(1, 1), X, Y, Z, NoOp(5, 2)]

  ghost predicate Ahead(n: Node) {
    && n.role == Leader && n.term == 2 && n.log == LONG && n.id == 1 && n.peers == [2, 3, 4, 5]
    && n.commitIndex == 2 && n.lastApplied == 2 && n.applied == [X] && 5 in n.nextIndex && n.nextIndex[5] == 5
  }

  function Longer(n: Node): Node { Propose(Propose(n, []), []) }

  lemma AheadNow(n: Node)
    requires Done(n)
    ensures Ahead(Winner(Longer(n)))
    ensures Longer(n).term == 1 && Longer(n).log == [NoOp(1, 1), X, Y, Z]
  {
  }

  const ROUND := Round(1, 2, 2)

  // Two more proposals that go nowhere, an election, and the beginning of a round.
  lemma Phase2(s: Cluster) returns (s': Cluster)
    requires Reached(LateSend, s) && Five(s) && s.servers == ALL && s.returned == {(1, 1, 2), (1, 1, 3)}
    requires {1, 2, 3, 4, 5} <= s.nodes.Keys && Done(s.nodes[1]) && Copy(s.nodes[2], 2, 1) && Copy(s.nodes[3], 3, 1)
    ensures Reached(LateSend, s') && Five(s') && s'.servers == ALL && s'.returned == {(1, 1, 2), (1, 1, 3), (2, 1, 2), (2, 1, 3)}
    ensures {1, 2, 3, 4, 5} <= s'.nodes.Keys && Ahead(s'.nodes[1]) && Copy(s'.nodes[2], 2, 2) && Copy(s'.nodes[3], 3, 2)
    ensures s'.nodes[4] == s.nodes[4] && s'.nodes[5] == s.nodes[5] && ROUND in s'.rounds
  {
    hide Reached, Five, Winner, Propose;
    var s1 := Proposes(LateSend, s, 1);
    var s2 := Proposes(LateSend, s1, 1);
    AheadNow(s.nodes[1]);
    assert s2.nodes[1] == Longer(s.nodes[1]);
    var s3 := Wins(LateSend, s2, 1, 2, 3);
    s' := Starts(s3, 1);
  }

  lemma Starts(s: Cluster, l: NodeId) returns (s': Cluster)
    requires Reached(LateSend, s) && Five(s) && l in s.servers && s.nodes[l].role == Leader
    ensures Reached(LateSend, s') && Five(s') && s'.servers == s.servers && s'.nodes == s.nodes && s'.returned == s.returned
    ensures Round(l, s.nodes[l].term, s.nodes[l].commitIndex) in s'.rounds
  {
    hide Reached;
    s' := Take(LateSend, s, BeginRound(l));
  }

  // --- node 2 in term 3 ---

  const CUT := AppendRequest(3, 2, 2, 1, [NoOp(3, 3)], 0)

  lemma CutSent(a: Node)
    requires Copy(a, 2, 2)
    ensures var w := Winner(a);
            w.role == Leader && w.peers == PeerList(2) && w.id == 2 && w.term == 3 && w.commitIndex == 0 && 1 in w.nextIndex
            && BuildAppend(w, 1, 3, 0) == CUT
  {
  }

  // Node 1 after its log has been cut.
  ghost predicate Short(n: Node) {
    && n.log == [NoOp(1, 1), X, NoOp(3, 3)] && n.id == 1 && n.peers == [2, 3, 4, 5]
    && n.lastApplied == 2 && n.applied == [X] && 5 in n.nextIndex && n.nextIndex[5] == 5
  }

  lemma CutDown(n: Node)
    requires Ahead(n)
    ensures Short(HandleAppendEntries(n, CUT).0)
  {
    var m := StepDown(n, 3);
    var cut := LONG[..2] + [NoOp(3, 3)];
    assert [NoOp(3, 3)][1..] == [];
    assert Merge(LONG, 2, [NoOp(3, 3)]) == Merge(cut, 3, []) == cut;
    assert cut == [NoOp(1, 1), X, NoOp(3, 3)];
  }

  lemma Phase3(s: Cluster) returns (s': Cluster)
    requires Reached(LateSend, s) && Five(s) && s.servers == ALL && s.returned == {(1, 1, 2), (1, 1, 3), (2, 1, 2), (2, 1, 3)}
    requires {1, 2, 3, 4, 5} <= s.nodes.Keys && Ahead(s.nodes[1]) && Copy(s.nodes[2], 2, 2) && Copy(s.nodes[3], 3, 2)
    requires s.nodes[4] == Blank(4, PeerList(4)) && ROUND in s.rounds
    ensures Reached(LateSend, s') && s'.servers == ALL && {1, 2, 3, 4, 5} <= s'.nodes.Keys && s'.diaries.Keys == ALL
    ensures Short(s'.nodes[1]) && s'.nodes[5] == s.nodes[5] && ROUND in s'.rounds
  {
    hide Reached, Five, Winner, HandleAppendEntries, BuildAppend, Elements, Blank;
    BlankFour();
    CutSent(s.nodes[2]);
    CutDown(s.nodes[1]);
    Among(1, PeerList(2), 0);
    var s1 := Wins(LateSend, s, 2, 3, 4);
    s' := Delivers(LateSend, s1, 2, 1);
    FiveDiaries(s');
  }

  lemma BlankFour()
    ensures var b := Blank(4, PeerList(4)); b.term == 0 && b.log == []
  {
  }

  lemma FiveDiaries(s: Cluster)
    requires Five(s)
    ensures s.diaries.Keys == s.servers
  {
  }

  // --- the late send ---

  const HOLLOW := AppendRequest(2, 1, 4, 0, [], 2)

  lemma HollowSent(n: Node)
    requires Short(n)
    ensures BuildAppend(n, 5, 2, 2) == HOLLOW
  {
  }

  lemma HollowTaken()
    ensures var n := HandleAppendEntries(Blank(5, PeerList(5)), HOLLOW).0;
            n.lastApplied == 2 && n.applied == [] && n.log == []
  {
  }

  lemma Phase4(s: Cluster) returns (s': Cluster)
    requires Reached(LateSend, s) && s.servers == ALL && {1, 2, 3, 4, 5} <= s.nodes.Keys && s.diaries.Keys == ALL
    requires Short(s.nodes[1]) && s.nodes[5] == Blank(5, PeerList(5)) && ROUND in s.rounds
    ensures Reached(LateSend, s') && 1 in s'.nodes && 5 in s'.nodes && s'.nodes[1] == s.nodes[1]
    ensures s'.nodes[5] == HandleAppendEntries(Blank(5, PeerList(5)), HOLLOW).0
  {
    hide Reached, HandleAppendEntries, BuildAppend, Elements, Blank;
    HollowSent(s.nodes[1]);
    Among(5, [2, 3, 4, 5], 3);
    var s1 := Take(LateSend, s, SendAppend(1, 5, ROUND));
    s' := Take(LateSend, s1, GetAppend(5, Sent(5, HOLLOW)));
  }

  // With sends alone off their term, replicas that have applied equally far differ, and one of them
  // has applied more than its log holds.
  lemma LateSendsAreUnsafe() returns (states: seq<Cluster>, steps: seq<Step>)
    ensures LapsingRun(LateSend, states, steps)
    ensures var s := states[|steps|];
            && 1 in s.nodes && 5 in s.nodes
            && s.nodes[1].lastApplied == s.nodes[5].lastApplied && s.nodes[1].applied != s.nodes[5].applied
            && s.nodes[5].lastApplied > |s.nodes[5].log|
  {
    hide Five, Init, Do, Enabled, OnTerm, Lapsed, HandleAppendEntries, Blank;
    var s1 := Phase1();
    var s2 := Phase2(s1);
    var s3 := Phase3(s2);
    var s4 := Phase4(s3);
    HollowTaken();
    states, steps :| LapsingRun(LateSend, states, steps) && states[|steps|] == s4;
  }
}
