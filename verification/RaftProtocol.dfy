/**
 A cluster of Raft nodes and the messages between them. One step is one lock hold of one node.
 Messages that were sent stay available: a step may deliver one late, twice, out of order or never.
 The history records what happened and is read by no handler.
 */
module RaftProtocol {
  import opened Bytes
  import opened RaftTypes
  import opened RaftHandlers

  datatype Round = Round(node: NodeId, term: nat, commit: nat)   // one call of replicateLog
  datatype Sent = Sent(to: NodeId, req: AppendRequest)
  datatype AppendReply = AppendReply(from: NodeId, req: AppendRequest, resp: AppendResponse)
  datatype VoteReply = VoteReply(from: NodeId, req: VoteRequest, resp: VoteResponse)

  type Log = seq<LogEntry>

  // What one node did, by term. No handler reads it.
  datatype Diary = Diary(
    votes: map<nat, NodeId>,         // the candidate it voted for
    voteLogs: map<nat, Log>,         // its log when it cast that vote
    bids: map<nat, Log>,             // its log when it stood for election
    counted: map<nat, set<NodeId>>,  // the voters it counted
    acked: map<nat, nat>)            // how far it has agreed with the leader of the term

  datatype Cluster = Cluster(
    servers: set<NodeId>,
    nodes: map<NodeId, Node>,
    // messages, and the RPCs that have come back
    voteRequests: set<VoteRequest>,
    voteReplies: set<VoteReply>,
    returned: set<(nat, NodeId, NodeId)>,   // (term, candidate, peer): that vote RPC has returned
    rounds: set<Round>,
    appends: set<Sent>,
    appendReplies: set<AppendReply>,
    // history
    diaries: map<NodeId, Diary>,
    leaders: map<nat, NodeId>,              // term -> the node that became leader in it
    logs: map<nat, Log>)                    // term -> that leader's log, as far as it got

  datatype Step =
    | Elect(n: NodeId)
    | GetVoteRequest(n: NodeId, vq: VoteRequest)
    | GetVoteReply(n: NodeId, vr: VoteReply)
    | Submit(n: NodeId, data: seq<byte>)
    | BeginRound(n: NodeId)
    | SendAppend(n: NodeId, peer: NodeId, round: Round)
    | GetAppend(n: NodeId, msg: Sent)
    | GetAppendReply(n: NodeId, ar: AppendReply)
    | Crash(n: NodeId)
    | Stop(n: NodeId)

  // cfg.Peers names every other node of the cluster once.
  ghost predicate PeersOf(servers: set<NodeId>, id: NodeId, peers: seq<NodeId>) {
    |peers| == |servers| - 1 && Elements(peers) == servers - {id}
  }

  function Elements(peers: seq<NodeId>): set<NodeId> { set p | p in peers }

  function Blank(id: NodeId, peers: seq<NodeId>): Node {
    Restart(Node(id, peers, Follower, 0, None, [], 0, 0, [], map[], map[], 0))
  }

  ghost predicate Init(s: Cluster) {
    && s.nodes.Keys == s.servers && s.diaries.Keys == s.servers
    && (forall i :: i in s.nodes ==> PeersOf(s.servers, i, s.nodes[i].peers) && s.nodes[i] == Blank(i, s.nodes[i].peers))
    && (forall i :: i in s.diaries ==> s.diaries[i] == Diary(map[], map[], map[], map[], map[]))
    && s == Cluster(s.servers, s.nodes, {}, {}, {}, {}, {}, {}, s.diaries, map[], map[])
  }

  // What can happen next.
  predicate Enabled(s: Cluster, step: Step) {
    && step.n in s.servers && step.n in s.nodes && step.n in s.diaries
    && var node := s.nodes[step.n];
       match step
       case GetVoteRequest(n, q) => q in s.voteRequests && q.candidate != n
       case GetVoteReply(n, r) =>
         r in s.voteReplies && r.req.candidate == n && (r.req.term, n, r.from) !in s.returned
       case BeginRound(_) => node.role == Leader
       case SendAppend(n, peer, round) =>
         round in s.rounds && round.node == n && peer in Elements(node.peers) && peer in node.nextIndex
       case GetAppend(n, m) => m in s.appends && m.to == n
       case GetAppendReply(n, r) => r in s.appendReplies && r.req.leader == n && r.from in node.nextIndex
       case _ => true
  }

  // replicateLog reads its role only once, before the first send. OnTerm says that the node is still
  // the leader of the round's term when it sends and when it uses an answer.
  predicate OnTerm(s: Cluster, step: Step)
    requires Enabled(s, step)
  {
    var node := s.nodes[step.n];
    match step
    case SendAppend(_, _, round) => node.role == Leader && node.term == round.term
    case GetAppendReply(_, r) => r.resp.term > node.term || (node.role == Leader && node.term == r.req.term)
    case _ => true
  }

  // History kept about a node b that is leader after a step.
  function LeadersWith(leaders: map<nat, NodeId>, b: Node): map<nat, NodeId> {
    if b.role == Leader then leaders[b.term := b.id] else leaders
  }
  function LogsWith(logs: map<nat, Log>, b: Node): map<nat, Log> {
    if b.role == Leader then logs[b.term := b.log] else logs
  }
  function Acked(acked: map<nat, nat>, term: nat, index: nat): map<nat, nat> {
    if term in acked && acked[term] >= index then acked else acked[term := index]
  }
  // A leader agrees with itself.
  function AckedWith(acked: map<nat, nat>, b: Node): map<nat, nat> {
    if b.role == Leader then Acked(acked, b.term, |b.log|) else acked
  }

  function ElectDiary(d: Diary, a: Node): Diary {
    var t := a.term + 1;
    d.(votes := d.votes[t := a.id], voteLogs := d.voteLogs[t := a.log],
       bids := d.bids[t := a.log], counted := d.counted[t := {a.id}],
       acked := AckedWith(d.acked, StartElection(a)))
  }

  function ElectStep(s: Cluster, n: NodeId): Cluster
    requires n in s.nodes && n in s.diaries
  {
    var a := s.nodes[n];
    var b := StartElection(a);
    s.(nodes := s.nodes[n := b], diaries := s.diaries[n := ElectDiary(s.diaries[n], a)],
       voteRequests := s.voteRequests + {VoteRequest(a.term + 1, n, |a.log|, LastTerm(a.log))},
       leaders := LeadersWith(s.leaders, b), logs := LogsWith(s.logs, b))
  }

  function VoteDiary(d: Diary, a: Node, q: VoteRequest): Diary {
    if HandleRequestVote(a, q).1.granted && q.term !in d.votes
    then d.(votes := d.votes[q.term := q.candidate], voteLogs := d.voteLogs[q.term := a.log])
    else d
  }

  function VoteRequestStep(s: Cluster, n: NodeId, q: VoteRequest): Cluster
    requires n in s.nodes && n in s.diaries
  {
    var a := s.nodes[n];
    s.(nodes := s.nodes[n := HandleRequestVote(a, q).0], diaries := s.diaries[n := VoteDiary(s.diaries[n], a, q)],
       voteReplies := s.voteReplies + {VoteReply(n, q, HandleRequestVote(a, q).1)})
  }

  predicate Counts(a: Node, r: VoteReply) {
    r.resp.term <= a.term && a.role == Candidate && a.term == r.req.term && r.resp.granted
  }

  function CountDiary(d: Diary, a: Node, r: VoteReply): Diary {
    d.(counted := if Counts(a, r) && a.term in d.counted then d.counted[a.term := d.counted[a.term] + {r.from}] else d.counted,
       acked := AckedWith(d.acked, HandleVoteReply(a, r.req, r.resp)))
  }

  function VoteReplyStep(s: Cluster, n: NodeId, r: VoteReply): Cluster
    requires n in s.nodes && n in s.diaries
  {
    var a := s.nodes[n];
    var b := HandleVoteReply(a, r.req, r.resp);
    s.(nodes := s.nodes[n := b], diaries := s.diaries[n := CountDiary(s.diaries[n], a, r)],
       returned := s.returned + {(r.req.term, n, r.from)},
       leaders := LeadersWith(s.leaders, b), logs := LogsWith(s.logs, b))
  }

  function SubmitStep(s: Cluster, n: NodeId, data: seq<byte>): Cluster
    requires n in s.nodes && n in s.diaries
  {
    var b := Propose(s.nodes[n], data);
    var d := s.diaries[n];
    s.(nodes := s.nodes[n := b], diaries := s.diaries[n := d.(acked := AckedWith(d.acked, b))],
       logs := LogsWith(s.logs, b))
  }

  function BeginRoundStep(s: Cluster, n: NodeId): Cluster
    requires n in s.nodes
  {
    s.(rounds := s.rounds + {Round(n, s.nodes[n].term, s.nodes[n].commitIndex)})
  }

  function SendStep(s: Cluster, n: NodeId, peer: NodeId, round: Round): Cluster
    requires n in s.nodes && peer in s.nodes[n].nextIndex
  {
    s.(appends := s.appends + {Sent(peer, BuildAppend(s.nodes[n], peer, round.term, round.commit))})
  }

  function AppendDiary(d: Diary, a: Node, q: AppendRequest): Diary {
    if HandleAppendEntries(a, q).1.success
    then d.(acked := Acked(d.acked, q.term, q.prevLogIndex + |q.entries|))
    else d
  }

  function AppendStep(s: Cluster, n: NodeId, q: AppendRequest): Cluster
    requires n in s.nodes && n in s.diaries
  {
    var a := s.nodes[n];
    var b := HandleAppendEntries(a, q).0;
    s.(nodes := s.nodes[n := b], diaries := s.diaries[n := AppendDiary(s.diaries[n], a, q)],
       appendReplies := s.appendReplies + {AppendReply(n, q, HandleAppendEntries(a, q).1)})
  }

  function AppendReplyStep(s: Cluster, n: NodeId, r: AppendReply): Cluster
    requires n in s.nodes && r.from in s.nodes[n].nextIndex
  {
    s.(nodes := s.nodes[n := HandleAppendReply(s.nodes[n], r.from, r.req, r.resp)])
  }

  function Do(s: Cluster, step: Step): Cluster
    requires Enabled(s, step)
  {
    match step
    case Elect(n) => ElectStep(s, n)
    case GetVoteRequest(n, q) => VoteRequestStep(s, n, q)
    case GetVoteReply(n, r) => VoteReplyStep(s, n, r)
    case Submit(n, data) => SubmitStep(s, n, data)
    case BeginRound(n) => BeginRoundStep(s, n)
    case SendAppend(n, peer, round) => SendStep(s, n, peer, round)
    case GetAppend(n, m) => AppendStep(s, n, m.req)
    case GetAppendReply(n, r) => AppendReplyStep(s, n, r)
    case Crash(n) => s.(nodes := s.nodes[n := Restart(s.nodes[n])])
    case Stop(n) => s.(nodes := s.nodes[n := s.nodes[n].(role := Shutdown)])
  }

  // A run: states and the steps between them.
  ghost predicate Run(states: seq<Cluster>, steps: seq<Step>) {
    && |states| == |steps| + 1
    && Init(states[0])
    && forall i :: 0 <= i < |steps| ==> Enabled(states[i], steps[i]) && states[i + 1] == Do(states[i], steps[i])
  }

  ghost predicate GuardedRun(states: seq<Cluster>, steps: seq<Step>) {
    && Run(states, steps)
    && forall i :: 0 <= i < |steps| ==> OnTerm(states[i], steps[i])
  }
}
