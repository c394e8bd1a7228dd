/** What a delivered message does to a node, in every run: terms, stepping down, votes, proposals. */
module RaftSteps {
  import opened Bytes
  import opened RaftTypes
  import opened RaftHandlers
  import opened RaftProtocol
  import opened RaftIntegrity

  // The term of the message that a step delivers; 0 if it delivers none.
  function Delivered(step: Step): nat {
    match step
    case GetVoteRequest(_, q) => q.term
    case GetVoteReply(_, r) => r.resp.term
    case GetAppend(_, m) => m.req.term
    case GetAppendReply(_, r) => r.resp.term
    case _ => 0
  }

  predicate Answer(step: Step) { step.GetVoteReply? || step.GetAppendReply? }

  // A message of a higher term makes any node, leaders included, a follower of that term.
  lemma HigherTermWins(s: Cluster, step: Step)
    requires Enabled(s, step) && Delivered(step) > s.nodes[step.n].term
    ensures step.n in Do(s, step).nodes
    ensures var a, b := s.nodes[step.n], Do(s, step).nodes[step.n];
            b.role == Follower && b.term == Delivered(step)
    ensures step.GetVoteRequest? ==> var a, b := s.nodes[step.n], Do(s, step).nodes[step.n];
              b == a.(role := Follower, term := step.vq.term, votedFor := b.votedFor)
              && (b.votedFor == None || b.votedFor == Some(step.vq.candidate))
    ensures Answer(step) ==>
              Do(s, step).nodes[step.n] == s.nodes[step.n].(role := Follower, term := Delivered(step), votedFor := None)
  {
    hide Merge, ConflictIndex, ApplyCommitted, AdvanceCommitIndex, BecomeLeader, UpToDate;
    if step.GetAppend? { AppendTerm(s.nodes[step.n], step.msg.req); }
  }

  lemma ApplyTerm(n: Node)
    ensures ApplyCommitted(n).term == n.term && ApplyCommitted(n).role == n.role && ApplyCommitted(n).votedFor == n.votedFor
  {
  }

  // A request from a leader of a lower term is refused and changes nothing; any other brings the node to its term.
  lemma AppendTerm(n: Node, q: AppendRequest)
    ensures var (m, r) := HandleAppendEntries(n, q);
            if q.term < n.term then m == n && r == AppendResponse(n.term, false, 0, 0)
            else m.term == r.term == q.term && (q.term > n.term ==> m.role == Follower && m.votedFor == None)
  {
    hide Merge, ConflictIndex, ApplyCommitted;
    var m := if q.term > n.term then StepDown(n, q.term) else n;
    var k := m.(log := Merge(m.log, q.prevLogIndex, q.entries));
    ApplyTerm(k.(commitIndex := Min(q.leaderCommit, q.prevLogIndex + |q.entries|)));
  }

  // A message that is not of a higher term never changes the term.
  lemma StepTerm(s: Cluster, step: Step, n: NodeId)
    requires Enabled(s, step) && n in s.nodes
    ensures n in Do(s, step).nodes && Do(s, step).nodes[n].term >= s.nodes[n].term
    ensures step.n == n ==> Do(s, step).nodes[n].term >= Delivered(step)
  {
    hide Merge, ConflictIndex, ApplyCommitted, AdvanceCommitIndex, UpToDate;
    if step.n == n {
      var a := s.nodes[n];
      match step {
        case GetAppend(_, m) => AppendTerm(a, m.req);
        case GetAppendReply(_, r) => AdvanceTerm(a, r);
        case _ =>
      }
    }
  }

  lemma AdvanceTerm(a: Node, r: AppendReply)
    requires r.from in a.nextIndex
    ensures r.resp.term <= a.term ==> HandleAppendReply(a, r.from, r.req, r.resp).term == a.term
    ensures HandleAppendReply(a, r.from, r.req, r.resp).term >= r.resp.term
  {
    hide ApplyCommitted, HighestReplicated;
    if r.resp.success && r.resp.term <= a.term {
      var m := if r.req.entries == [] then a else
                 var last := r.req.entries[|r.req.entries| - 1].index;
                 a.(nextIndex := a.nextIndex[r.from := last + 1], matchIndex := a.matchIndex[r.from := last]);
      ApplyTerm(m.(commitIndex := HighestReplicated(m, |m.log|)));
    }
  }

  // In every run, once a node has handled a message of some term it is never again of a lower one,
  // restarts included.
  lemma {:induction false} TermsNeverFall(states: seq<Cluster>, steps: seq<Step>, i: nat, k: nat, n: NodeId)
    requires Run(states, steps) && i <= k < |states| && n in states[i].nodes
    ensures n in states[k].nodes && states[k].nodes[n].term >= states[i].nodes[n].term
    ensures i < k && steps[i].n == n ==> states[k].nodes[n].term >= Delivered(steps[i])
  {
    hide Do, Enabled, Init;
    if i < k {
      TermsNeverFall(states, steps, i, k - 1, n);
      StepTerm(states[k - 1], steps[k - 1], n);
      if i < k - 1 { StepTerm(states[i], steps[i], n); }
    }
  }

  // So no node leads a term after it has heard of a later one.
  lemma NoLeaderOfOldTerm(states: seq<Cluster>, steps: seq<Step>, i: nat, k: nat, n: NodeId)
    requires Run(states, steps) && i < k < |states| && steps[i].n == n && n in states[i].nodes
    ensures n in states[k].nodes
    ensures !(states[k].nodes[n].role == Leader && states[k].nodes[n].term < Delivered(steps[i]))
  {
    hide Run;
    TermsNeverFall(states, steps, i, k, n);
  }

  // --- votes ---

  // A node that has not yet voted in the term of the request, or has voted for this candidate.
  predicate FreeToVote(n: Node, q: VoteRequest) {
    q.term > n.term || (q.term == n.term && (n.votedFor == None || n.votedFor == Some(q.candidate)))
  }

  // The candidate's log is not behind: a later last term, or the same and no shorter.
  predicate NotBehind(q: VoteRequest, log: seq<LogEntry>) {
    log == [] || q.lastLogTerm > log[|log| - 1].term || (q.lastLogTerm == log[|log| - 1].term && q.lastLogIndex >= |log|)
  }

  // A vote is granted if and only if the node is free to vote and the candidate's log is not behind;
  // it is then the node's vote of that term, and a refusal leaves the vote of the term as it was.
  lemma VoteExactly(n: Node, q: VoteRequest)
    ensures var (m, r) := HandleRequestVote(n, q);
            && (r.granted <==> FreeToVote(n, q) && NotBehind(q, n.log))
            && (r.granted ==> m.votedFor == Some(q.candidate) && m.term == q.term)
            && (!r.granted && q.term <= n.term ==> m == n)
            && r.term == m.term && m.log == n.log && m.commitIndex == n.commitIndex && m.applied == n.applied
  {
  }

  // A reply is counted if and only if it is a vote for the election the node still stands in;
  // the vote that completes the majority makes it leader of that term, with one more entry in its log.
  lemma CountExactly(n: Node, q: VoteRequest, r: VoteResponse)
    requires r.term <= n.term
    ensures var m := HandleVoteReply(n, q, r);
            if !(r.granted && n.role == Candidate && n.term == q.term) then m == n
            else if 2 * (n.votesReceived + 1) > |n.peers| + 1 then
              m.role == Leader && m.term == n.term && m.log == n.log + [NoOp(|n.log| + 1, n.term)]
              && forall p :: p in n.peers ==> p in m.nextIndex && m.nextIndex[p] == |n.log| + 1 && p in m.matchIndex && m.matchIndex[p] == 0
            else m == n.(votesReceived := n.votesReceived + 1)
  {
    MajoritySize(|n.peers|, n.votesReceived + 1);
  }

  // With p peers the cluster has p + 1 nodes; the quorum is more than half of them.
  lemma MajoritySize(p: nat, votes: nat)
    ensures votes >= QuorumSize(p) <==> 2 * votes > p + 1
  {
  }

  // --- proposals ---

  // A leader takes a proposal as the next entry of its log; nobody else takes one.
  lemma SubmitExactly(s: Cluster, n: NodeId, data: seq<byte>)
    requires Enabled(s, Submit(n, data))
    ensures n in Do(s, Submit(n, data)).nodes
    ensures var a, b := s.nodes[n], Do(s, Submit(n, data)).nodes[n];
            if a.role != Leader then b == a
            else |b.log| == |a.log| + 1 && b.log[..|a.log|] == a.log && b.log[|a.log|] == LogEntry(|a.log| + 1, a.term, ENTRY_COMMAND, data)
                 && b == a.(log := b.log)
  {
  }

  // --- answers to AppendEntries ---

  // What a leader learns from an answer of its own term: how far the follower agrees, or where to try next.
  lemma LearnExactly(n: Node, p: NodeId, q: AppendRequest, r: AppendResponse)
    requires p in n.nextIndex && r.term <= n.term
    ensures var m := HandleAppendReply(n, p, q, r);
            && m.term == n.term && m.role == n.role && m.log == n.log && m.votedFor == n.votedFor && p in m.nextIndex
            && (forall o :: o in n.nextIndex && o != p ==> o in m.nextIndex && m.nextIndex[o] == n.nextIndex[o])
            && (r.success && q.entries != [] ==>
                  p in m.matchIndex && m.matchIndex[p] == q.entries[|q.entries| - 1].index && m.nextIndex[p] == m.matchIndex[p] + 1)
            && (r.success && q.entries == [] ==> m.nextIndex == n.nextIndex && m.matchIndex == n.matchIndex)
            && (!r.success ==> m.commitIndex == n.commitIndex && m.matchIndex == n.matchIndex)
            && (!r.success ==> m.nextIndex[p] == if r.conflictIndex > 0 then r.conflictIndex else if n.nextIndex[p] > 1 then n.nextIndex[p] - 1 else 1)
  {
    hide ApplyCommitted, HighestReplicated;
    if r.success {
      var m := if q.entries == [] then n else
                 var last := q.entries[|q.entries| - 1].index;
                 n.(nextIndex := n.nextIndex[p := last + 1], matchIndex := n.matchIndex[p := last]);
      ApplyShape(m.(commitIndex := HighestReplicated(m, |m.log|)));
    }
  }

  lemma ApplyShape(n: Node)
    ensures ApplyCommitted(n) == n.(lastApplied := ApplyCommitted(n).lastApplied, applied := ApplyCommitted(n).applied)
    ensures n.lastApplied <= n.commitIndex ==> ApplyCommitted(n).lastApplied == n.commitIndex
  {
  }

  // --- commitment ---

  // The leader's commit index moves to the highest committable entry, if there is one beyond it,
  // and everything up to there is applied.
  lemma AdvanceExactly(n: Node)
    requires n.lastApplied <= n.commitIndex <= |n.log|
    ensures var m := AdvanceCommitIndex(n);
            && n.commitIndex <= m.commitIndex <= |n.log| && m.log == n.log
            && (m.commitIndex == n.commitIndex ==> m == n)
            && (m.commitIndex > n.commitIndex ==>
                  Committable(n, m.commitIndex) && m.lastApplied == m.commitIndex
                  && m.applied == n.applied + Commands(n.log[n.lastApplied..m.commitIndex]))
            && forall i: nat :: m.commitIndex < i <= |n.log| ==> !Committable(n, i)
  {
    hide Commands, Committable;
    HighestExactly(n, |n.log|);
  }

  // A request is accepted if and only if it is of no lower term and the entry before it agrees. The commit index then
  // rises to the leader's as far as the request reaches, and everything up to there is applied.
  lemma AcceptExactly(n: Node, q: AppendRequest)
    requires n.lastApplied <= n.commitIndex
    ensures var (m, r) := HandleAppendEntries(n, q);
            && (r.success <==> q.term >= n.term && (q.prevLogIndex == 0 || TermAt(n.log, q.prevLogIndex) == q.prevLogTerm))
            && (r.success ==> m.log == Merge(n.log, q.prevLogIndex, q.entries) && m.commitIndex == Risen(n, q))
            && (r.success && m.commitIndex > n.commitIndex ==> m.lastApplied == m.commitIndex)
            && (!r.success ==> m.log == n.log && m.commitIndex == n.commitIndex && m.applied == n.applied)
            && (!r.success && q.term >= n.term ==>
                  r.conflictIndex == ConflictIndex(n.log, q.prevLogIndex) && r.conflictTerm == TermAt(n.log, q.prevLogIndex))
  {
    hide Merge, ConflictIndex, ApplyCommitted, Commands;
    if q.term >= n.term {
      var m := if q.term > n.term then StepDown(n, q.term) else n;
      var k := m.(log := Merge(m.log, q.prevLogIndex, q.entries));
      ApplyShape(k.(commitIndex := Min(q.leaderCommit, q.prevLogIndex + |q.entries|)));
    }
  }

  // The larger of the commit index and what the request says is committed of the entries it covers.
  function Risen(n: Node, q: AppendRequest): nat {
    var covered := if q.leaderCommit < q.prevLogIndex + |q.entries| then q.leaderCommit else q.prevLogIndex + |q.entries|;
    if q.leaderCommit > n.commitIndex then covered else n.commitIndex
  }
}
