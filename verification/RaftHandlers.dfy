/**
 The effect of every lock hold of a Raft node, as a function on the node's state.
 The log is a plain sequence: entry number i (counting from 1) is log[i-1].
 */
module RaftHandlers {
  import opened Bytes
  import opened RaftTypes

  datatype Node = Node(
    id: NodeId,
    peers: seq<NodeId>,
    role: Role,
    term: nat,
    votedFor: Option<NodeId>,
    log: seq<LogEntry>,
    commitIndex: nat,
    lastApplied: nat,
    applied: seq<LogEntry>,           // the entries handed to the state machine, in order
    nextIndex: map<NodeId, Position>,
    matchIndex: map<NodeId, nat>,
    votesReceived: nat)

  function Min(a: nat, b: nat): nat { if a < b then a else b }

  // The leader's book-keeping starts with the same value for every peer.
  function Uniform<V>(peers: seq<NodeId>, v: V): (m: map<NodeId, V>)
    ensures forall p :: p in m <==> p in peers
    ensures forall p :: p in m ==> m[p] == v
  {
    if peers == [] then map[] else Uniform(peers[1..], v)[peers[0] := v]
  }

  function LastTerm(log: seq<LogEntry>): nat {
    if log == [] then 0 else log[|log| - 1].term
  }

  function TermAt(log: seq<LogEntry>, index: nat): nat {
    if 1 <= index <= |log| then log[index - 1].term else 0
  }

  predicate UpToDate(lastTerm: nat, lastIndex: nat, log: seq<LogEntry>) {
    lastTerm > LastTerm(log) || (lastTerm == LastTerm(log) && lastIndex >= |log|)
  }

  function QuorumSize(peers: nat): nat { (peers + 1) / 2 + 1 }

  function StepDown(n: Node, term: nat): Node {
    if term > n.term then n.(role := Follower, term := term, votedFor := None) else n.(role := Follower)
  }

  function NoOp(index: nat, term: nat): LogEntry { LogEntry(index, term, ENTRY_NO_OP, []) }

  function BecomeLeader(n: Node): Node {
    if n.role != Candidate then n else
      n.(role := Leader,
         nextIndex := Uniform(n.peers, |n.log| + 1),
         matchIndex := Uniform(n.peers, 0),
         log := n.log + [NoOp(|n.log| + 1, n.term)])
  }

  function StartElection(n: Node): Node {
    var c := n.(role := Candidate, term := n.term + 1, votedFor := Some(n.id), votesReceived := 1);
    if c.votesReceived >= QuorumSize(|c.peers|) then BecomeLeader(c) else c
  }

  function HandleRequestVote(n: Node, q: VoteRequest): (Node, VoteResponse) {
    if q.term < n.term then (n, VoteResponse(n.term, false)) else
      var m := if q.term > n.term then StepDown(n, q.term) else n;
      if (m.votedFor.None? || m.votedFor.value == q.candidate) && UpToDate(q.lastLogTerm, q.lastLogIndex, m.log) then
        (m.(votedFor := Some(q.candidate)), VoteResponse(m.term, true))
      else
        (m, VoteResponse(m.term, false))
  }

  function HandleVoteReply(n: Node, q: VoteRequest, r: VoteResponse): Node {
    if r.term > n.term then StepDown(n, r.term)
    else if n.role != Candidate || n.term != q.term || !r.granted then n
    else
      var m := n.(votesReceived := n.votesReceived + 1);
      if m.votesReceived >= QuorumSize(|m.peers|) then BecomeLeader(m) else m
  }

  function Propose(n: Node, data: seq<byte>): Node {
    if n.role != Leader then n else
      n.(log := n.log + [LogEntry(|n.log| + 1, n.term, ENTRY_COMMAND, data)])
  }

  function BuildAppend(n: Node, peer: NodeId, term: nat, commit: nat): AppendRequest
    requires peer in n.nextIndex
  {
    var prev: nat := (n.nextIndex[peer] as int) - 1;
    AppendRequest(term, n.id, prev, TermAt(n.log, prev), if prev < |n.log| then n.log[prev..] else [], commit)
  }

  // The loop over req.Entries: an entry of another term at the same place cuts the log there.
  function Merge(log: seq<LogEntry>, prev: nat, entries: seq<LogEntry>): seq<LogEntry>
    decreases |entries|
  {
    if entries == [] then log
    else if prev < |log| && log[prev].term == entries[0].term then Merge(log, prev + 1, entries[1..])
    else if prev < |log| then Merge(log[..prev] + [entries[0]], prev + 1, entries[1..])
    else Merge(log + [entries[0]], prev + 1, entries[1..])
  }

  function ConflictIndex(log: seq<LogEntry>, index: nat): nat
    decreases index
  {
    if index == 0 then 1
    else if index > |log| then ConflictIndex(log, index - 1)
    else if index == 1 || log[index - 2].term != log[index - 1].term then index
    else ConflictIndex(log, index - 1)
  }

  function Commands(entries: seq<LogEntry>): seq<LogEntry> {
    if entries == [] then [] else
      Commands(entries[..|entries| - 1])
      + if entries[|entries| - 1].kind == ENTRY_COMMAND then [entries[|entries| - 1]] else []
  }

  function ApplyCommitted(n: Node): Node {
    if n.lastApplied >= n.commitIndex then n else
      var from := Min(n.lastApplied, |n.log|);
      var to := Min(n.commitIndex, |n.log|);
      n.(lastApplied := n.commitIndex, applied := n.applied + Commands(n.log[from..to]))
  }

  function HandleAppendEntries(n: Node, q: AppendRequest): (Node, AppendResponse) {
    if q.term < n.term then (n, AppendResponse(n.term, false, 0, 0)) else
      var m := if q.term > n.term then StepDown(n, q.term) else n;
      var local := TermAt(m.log, q.prevLogIndex);
      if q.prevLogIndex > 0 && local != q.prevLogTerm then
        (m, AppendResponse(m.term, false, ConflictIndex(m.log, q.prevLogIndex), local))
      else
        var k := m.(log := Merge(m.log, q.prevLogIndex, q.entries));
        var last := q.prevLogIndex + |q.entries|;
        (if q.leaderCommit > k.commitIndex then ApplyCommitted(k.(commitIndex := Min(q.leaderCommit, last))) else k,
         AppendResponse(m.term, true, 0, 0))
  }

  // The number of peers known to hold the log up to index.
  function Replicas(peers: seq<NodeId>, matchIndex: map<NodeId, nat>, index: nat): nat {
    if peers == [] then 0 else
      Replicas(peers[..|peers| - 1], matchIndex, index)
      + if peers[|peers| - 1] in matchIndex && matchIndex[peers[|peers| - 1]] >= index then 1 else 0
  }

  function HighestReplicated(n: Node, index: nat): nat
    decreases index
  {
    if index <= n.commitIndex then n.commitIndex
    else if TermAt(n.log, index) == n.term && Replicas(n.peers, n.matchIndex, index) + 1 > (|n.peers| + 1) / 2 then index
    else HighestReplicated(n, index - 1)
  }

  function AdvanceCommitIndex(n: Node): Node {
    var c := HighestReplicated(n, |n.log|);
    if c > n.commitIndex then ApplyCommitted(n.(commitIndex := c)) else n
  }

  function HandleAppendReply(n: Node, peer: NodeId, q: AppendRequest, r: AppendResponse): Node
    requires peer in n.nextIndex
  {
    if r.term > n.term then StepDown(n, r.term)
    else if r.success then
      var m := if q.entries == [] then n else
                 var last := q.entries[|q.entries| - 1].index;
                 n.(nextIndex := n.nextIndex[peer := last + 1], matchIndex := n.matchIndex[peer := last]);
      AdvanceCommitIndex(m)
    else if r.conflictIndex > 0 then n.(nextIndex := n.nextIndex[peer := r.conflictIndex])
    else if n.nextIndex[peer] > 1 then n.(nextIndex := n.nextIndex[peer := n.nextIndex[peer] - 1])
    else n
  }

  // A process that comes back has its saved term, vote and log, and nothing else.
  function Restart(n: Node): Node {
    n.(role := Follower, commitIndex := 0, lastApplied := 0, applied := [],
       nextIndex := Uniform(n.peers, |n.log| + 1),
       matchIndex := Uniform(n.peers, 0),
       votesReceived := 0)
  }
}
