/** Nothing is applied that was not proposed; and what the node's searches find. */
module RaftIntegrity {
  import opened Bytes
  import opened RaftTypes
  import opened RaftHandlers
  import opened RaftProtocol

  type Entries = iset<LogEntry>

  ghost predicate Within(list: seq<LogEntry>, ok: Entries) { forall x :: 0 <= x < |list| ==> list[x] in ok }

  ghost predicate NodeWithin(n: Node, ok: Entries) { Within(n.log, ok) && Within(n.applied, ok) }

  // --- handlers make up no entries ---

  lemma {:induction false} MergeWithin(log: seq<LogEntry>, prev: nat, entries: seq<LogEntry>, ok: Entries)
    requires Within(log, ok) && Within(entries, ok)
    ensures Within(Merge(log, prev, entries), ok)
    decreases |entries|
  {
    if entries != [] {
      assert Within(entries[1..], ok);
      if prev < |log| && log[prev].term == entries[0].term {
        MergeWithin(log, prev + 1, entries[1..], ok);
      } else if prev < |log| {
        MergeWithin(log[..prev] + [entries[0]], prev + 1, entries[1..], ok);
      } else {
        MergeWithin(log + [entries[0]], prev + 1, entries[1..], ok);
      }
    }
  }

  lemma {:induction false} CommandsWithin(entries: seq<LogEntry>, ok: Entries)
    requires Within(entries, ok)
    ensures Within(Commands(entries), ok)
  {
    if entries != [] { CommandsWithin(entries[..|entries| - 1], ok); }
  }

  lemma ApplyWithin(n: Node, ok: Entries)
    requires NodeWithin(n, ok)
    ensures NodeWithin(ApplyCommitted(n), ok)
  {
    if n.lastApplied < n.commitIndex {
      var more := n.log[Min(n.lastApplied, |n.log|)..Min(n.commitIndex, |n.log|)];
      assert Within(more, ok);
      CommandsWithin(more, ok);
    }
  }

  lemma AppendWithin(n: Node, q: AppendRequest, ok: Entries)
    requires NodeWithin(n, ok) && Within(q.entries, ok)
    ensures NodeWithin(HandleAppendEntries(n, q).0, ok)
  {
    hide Merge, ApplyCommitted, ConflictIndex;
    MergeWithin(n.log, q.prevLogIndex, q.entries, ok);
    if q.term >= n.term {
      var m := if q.term > n.term then StepDown(n, q.term) else n;
      var k := m.(log := Merge(m.log, q.prevLogIndex, q.entries));
      ApplyWithin(k.(commitIndex := Min(q.leaderCommit, q.prevLogIndex + |q.entries|)), ok);
    }
  }

  lemma ReplyWithin(n: Node, p: NodeId, q: AppendRequest, r: AppendResponse, ok: Entries)
    requires NodeWithin(n, ok) && p in n.nextIndex
    ensures NodeWithin(HandleAppendReply(n, p, q, r), ok)
  {
    hide ApplyCommitted, HighestReplicated, NodeWithin;
    if r.success && r.term <= n.term {
      var m := if q.entries == [] then n else
                 var last := q.entries[|q.entries| - 1].index;
                 n.(nextIndex := n.nextIndex[p := last + 1], matchIndex := n.matchIndex[p := last]);
      var c := HighestReplicated(m, |m.log|);
      SameWithin(n, m, ok);
      SameWithin(n, m.(commitIndex := c), ok);
      ApplyWithin(m.(commitIndex := c), ok);
    } else {
      SameWithin(n, HandleAppendReply(n, p, q, r), ok);
    }
  }

  lemma SameWithin(a: Node, b: Node, ok: Entries)
    requires NodeWithin(a, ok) && a.log == b.log && a.applied == b.applied
    ensures NodeWithin(b, ok)
  {
  }

  // --- runs ---

  // Step i proposed the entry: its node was the leader of the entry's term, and the entry was the next of its log.
  ghost predicate Proposed(states: seq<Cluster>, steps: seq<Step>, i: nat, e: LogEntry) {
    && i < |steps| && i < |states| && steps[i].Submit? && steps[i].n in states[i].nodes
    && var a := states[i].nodes[steps[i].n];
       a.role == Leader && e == LogEntry(|a.log| + 1, a.term, ENTRY_COMMAND, steps[i].data)
  }

  // The commands proposed before moment k, and everything that is not a command.
  ghost function Honest(states: seq<Cluster>, steps: seq<Step>, k: nat): Entries {
    iset e: LogEntry | e.kind != ENTRY_COMMAND || exists i: nat :: i < k && Proposed(states, steps, i, e)
  }

  ghost predicate AllWithin(s: Cluster, ok: Entries) {
    && (forall n :: n in s.nodes ==> NodeWithin(s.nodes[n], ok))
    && (forall m :: m in s.appends ==> Within(m.req.entries, ok))
  }

  lemma Larger(s: Cluster, ok: Entries, more: Entries)
    requires AllWithin(s, ok) && ok <= more
    ensures AllWithin(s, more)
  {
    forall n | n in s.nodes ensures NodeWithin(s.nodes[n], more) { assert NodeWithin(s.nodes[n], ok); }
    forall m | m in s.appends ensures Within(m.req.entries, more) { assert Within(m.req.entries, ok); }
  }

  lemma OneNode(s: Cluster, n: NodeId, b: Node, s': Cluster, ok: Entries)
    requires AllWithin(s, ok) && NodeWithin(b, ok) && s'.nodes == s.nodes[n := b] && s'.appends == s.appends
    ensures AllWithin(s', ok)
  {
    hide NodeWithin;
  }

  lemma StepWithin(s: Cluster, step: Step, ok: Entries)
    requires AllWithin(s, ok) && Enabled(s, step)
    requires forall e: LogEntry :: e.kind != ENTRY_COMMAND ==> e in ok
    requires step.Submit? && s.nodes[step.n].role == Leader ==>
               LogEntry(|s.nodes[step.n].log| + 1, s.nodes[step.n].term, ENTRY_COMMAND, step.data) in ok
    ensures AllWithin(Do(s, step), ok)
  {
    hide AllWithin, HandleAppendEntries, HandleAppendReply, Uniform;
    var n := step.n;
    var a := s.nodes[n];
    var s' := Do(s, step);
    NodeIs(s, n, ok);
    match step {
      case BeginRound(_) => Unchanged(s, s', ok);
      case SendAppend(_, peer, round) => Sends(s, n, peer, round, ok);
      case GetAppend(_, m) =>
        RequestIs(s, m, ok);
        AppendWithin(a, m.req, ok);
        OneNode(s, n, HandleAppendEntries(a, m.req).0, s', ok);
      case GetAppendReply(_, r) =>
        ReplyWithin(a, r.from, r.req, r.resp, ok);
        OneNode(s, n, HandleAppendReply(a, r.from, r.req, r.resp), s', ok);
      case _ => OneNode(s, n, s'.nodes[n], s', ok);
    }
  }

  lemma NodeIs(s: Cluster, n: NodeId, ok: Entries)
    requires AllWithin(s, ok) && n in s.nodes
    ensures NodeWithin(s.nodes[n], ok)
  {
  }

  lemma RequestIs(s: Cluster, m: Sent, ok: Entries)
    requires AllWithin(s, ok) && m in s.appends
    ensures Within(m.req.entries, ok)
  {
  }

  lemma Unchanged(s: Cluster, s': Cluster, ok: Entries)
    requires AllWithin(s, ok) && s'.nodes == s.nodes && s'.appends == s.appends
    ensures AllWithin(s', ok)
  {
  }

  lemma Sends(s: Cluster, n: NodeId, peer: NodeId, round: Round, ok: Entries)
    requires AllWithin(s, ok) && n in s.nodes && peer in s.nodes[n].nextIndex
    ensures AllWithin(SendStep(s, n, peer, round), ok)
  {
    var a := s.nodes[n];
    assert NodeWithin(a, ok);
    assert Within(BuildAppend(a, peer, round.term, round.commit).entries, ok);
  }

  lemma {:induction false} HonestInRuns(states: seq<Cluster>, steps: seq<Step>, k: nat)
    requires Run(states, steps) && k < |states|
    ensures AllWithin(states[k], Honest(states, steps, k))
  {
    hide AllWithin, Init, Enabled, Do;
    if k == 0 {
      NothingYet(states[0], Honest(states, steps, 0));
    } else {
      HonestInRuns(states, steps, k - 1);
      var s, step, ok := states[k - 1], steps[k - 1], Honest(states, steps, k);
      Larger(s, Honest(states, steps, k - 1), ok);
      StepHonest(states, steps, k - 1);
      StepWithin(s, step, ok);
    }
  }

  lemma NothingYet(s: Cluster, ok: Entries)
    requires Init(s)
    ensures AllWithin(s, ok)
  {
  }

  lemma StepHonest(states: seq<Cluster>, steps: seq<Step>, i: nat)
    requires Run(states, steps) && i < |steps|
    ensures var s, step, ok := states[i], steps[i], Honest(states, steps, i + 1);
            step.n in s.nodes &&
            (step.Submit? && s.nodes[step.n].role == Leader ==>
               LogEntry(|s.nodes[step.n].log| + 1, s.nodes[step.n].term, ENTRY_COMMAND, step.data) in ok)
  {
    var s, step := states[i], steps[i];
    if step.Submit? && s.nodes[step.n].role == Leader {
      assert Proposed(states, steps, i, LogEntry(|s.nodes[step.n].log| + 1, s.nodes[step.n].term, ENTRY_COMMAND, step.data));
    }
  }

  // Integrity: in every run, guarded or not, what a node hands to its state machine is a command
  // that was proposed before, to the leader of that term, and took that place in its log.
  lemma AppliedWasProposed(states: seq<Cluster>, steps: seq<Step>, k: nat, n: NodeId, x: nat)
    requires Run(states, steps) && k < |states| && n in states[k].nodes && x < |states[k].nodes[n].applied|
    ensures exists i: nat :: i < k && Proposed(states, steps, i, states[k].nodes[n].applied[x])
  {
    hide Run;
    HonestInRuns(states, steps, k);
    NodeIs(states[k], n, Honest(states, steps, k));
    OnlyCommandsInRuns(states, steps, k, n);
    HonestCommand(states, steps, k, states[k].nodes[n].applied[x]);
  }

  lemma HonestCommand(states: seq<Cluster>, steps: seq<Step>, k: nat, e: LogEntry)
    requires e in Honest(states, steps, k) && e.kind == ENTRY_COMMAND
    ensures exists i: nat :: i < k && Proposed(states, steps, i, e)
  {
  }

  ghost predicate OnlyCommands(list: seq<LogEntry>) { forall x :: 0 <= x < |list| ==> list[x].kind == ENTRY_COMMAND }

  // The entries of a log that are commands, and only they.
  lemma {:induction false} CommandsExactly(entries: seq<LogEntry>)
    ensures OnlyCommands(Commands(entries))
    ensures forall e :: e in Commands(entries) <==> e in entries && e.kind == ENTRY_COMMAND
  {
    if entries != [] {
      var n := |entries| - 1;
      CommandsExactly(entries[..n]);
      assert entries == entries[..n] + [entries[n]];
    }
  }

  predicate Ascending(at: seq<nat>) { forall i, j :: 0 <= i < j < |at| ==> at[i] < at[j] }

  // list is what stands in entries at the places at: all the commands, each once, in order.
  ghost predicate CommandsAt(entries: seq<LogEntry>, at: seq<nat>, list: seq<LogEntry>) {
    && Ascending(at) && |at| == |list|
    && (forall i :: 0 <= i < |at| ==> at[i] < |entries| && list[i] == entries[at[i]])
    && (forall x: nat :: x in at <==> x < |entries| && entries[x].kind == ENTRY_COMMAND)
  }

  // Each command entry of a stretch is applied once, in the order of the log.
  lemma {:induction false} CommandsInOrder(entries: seq<LogEntry>) returns (at: seq<nat>)
    ensures CommandsAt(entries, at, Commands(entries))
  {
    hide Commands, CommandsAt;
    if entries == [] {
      at := [];
      NoCommands();
    } else {
      var n := |entries| - 1;
      var before := CommandsInOrder(entries[..n]);
      assert entries == entries[..n] + [entries[n]];
      at := NextCommand(entries[..n], before, Commands(entries[..n]), entries[n]);
      CommandsNext(entries[..n], entries[n]);
    }
  }

  lemma NoCommands()
    ensures Commands([]) == [] && CommandsAt([], [], [])
  {
  }

  lemma CommandsNext(entries: seq<LogEntry>, e: LogEntry)
    ensures Commands(entries + [e]) == Commands(entries) + if e.kind == ENTRY_COMMAND then [e] else []
  {
    assert (entries + [e])[..|entries|] == entries;
  }

  lemma NextCommand(entries: seq<LogEntry>, before: seq<nat>, list: seq<LogEntry>, e: LogEntry) returns (at: seq<nat>)
    requires CommandsAt(entries, before, list)
    ensures CommandsAt(entries + [e], at, list + if e.kind == ENTRY_COMMAND then [e] else [])
  {
    var n := |entries|;
    var all := entries + [e];
    at := before + if e.kind == ENTRY_COMMAND then [n] else [];
    forall i | 0 <= i < |before| ensures before[i] < n && all[before[i]] == entries[before[i]] { }
    forall x: nat ensures x in at <==> x < |all| && all[x].kind == ENTRY_COMMAND {
      if x < n { assert all[x] == entries[x]; }
      assert x in before <==> x < n && entries[x].kind == ENTRY_COMMAND;
    }
  }

  lemma OnlyCommandsApplied(n: Node)
    requires OnlyCommands(n.applied)
    ensures OnlyCommands(ApplyCommitted(n).applied)
  {
    if n.lastApplied < n.commitIndex { CommandsExactly(n.log[Min(n.lastApplied, |n.log|)..Min(n.commitIndex, |n.log|)]); }
  }

  lemma OnlyCommandsStep(s: Cluster, step: Step, n: NodeId)
    requires Enabled(s, step) && n in s.nodes && OnlyCommands(s.nodes[n].applied)
    ensures n in Do(s, step).nodes && OnlyCommands(Do(s, step).nodes[n].applied)
  {
    hide ApplyCommitted, HandleAppendEntries, HandleAppendReply, OnlyCommands, Uniform;
    var a := s.nodes[n];
    NoneApplied();
    if step.n == n {
      match step {
        case GetAppend(_, m) => OnlyCommandsAppend(a, m.req);
        case GetAppendReply(_, r) => OnlyCommandsReply(a, r.from, r.req, r.resp);
        case _ =>
      }
    }
  }

  lemma NoneApplied()
    ensures OnlyCommands([])
  {
  }

  lemma OnlyCommandsAppend(a: Node, q: AppendRequest)
    requires OnlyCommands(a.applied)
    ensures OnlyCommands(HandleAppendEntries(a, q).0.applied)
  {
    hide Merge, ApplyCommitted, ConflictIndex, OnlyCommands;
    if q.term >= a.term {
      var m := if q.term > a.term then StepDown(a, q.term) else a;
      OnlyCommandsApplied(m.(log := Merge(m.log, q.prevLogIndex, q.entries), commitIndex := Min(q.leaderCommit, q.prevLogIndex + |q.entries|)));
    }
  }

  lemma OnlyCommandsReply(a: Node, p: NodeId, q: AppendRequest, r: AppendResponse)
    requires OnlyCommands(a.applied) && p in a.nextIndex
    ensures OnlyCommands(HandleAppendReply(a, p, q, r).applied)
  {
    hide ApplyCommitted, HighestReplicated, OnlyCommands;
    if r.success && r.term <= a.term {
      var m := if q.entries == [] then a else
                 var last := q.entries[|q.entries| - 1].index;
                 a.(nextIndex := a.nextIndex[p := last + 1], matchIndex := a.matchIndex[p := last]);
      OnlyCommandsApplied(m.(commitIndex := HighestReplicated(m, |m.log|)));
    }
  }

  lemma {:induction false} OnlyCommandsInRuns(states: seq<Cluster>, steps: seq<Step>, k: nat, n: NodeId)
    requires Run(states, steps) && k < |states| && n in states[k].nodes
    ensures OnlyCommands(states[k].nodes[n].applied)
  {
    hide OnlyCommands, Do, Init;
    if k == 0 {
      NoneAtFirst(states[0], n);
    } else {
      SameNodes(states[k - 1], steps[k - 1]);
      OnlyCommandsInRuns(states, steps, k - 1, n);
      OnlyCommandsStep(states[k - 1], steps[k - 1], n);
    }
  }

  lemma NoneAtFirst(s: Cluster, n: NodeId)
    requires Init(s) && n in s.nodes
    ensures OnlyCommands(s.nodes[n].applied)
  {
  }

  lemma SameNodes(s: Cluster, step: Step)
    requires Enabled(s, step)
    ensures Do(s, step).nodes.Keys == s.nodes.Keys
  {
    hide HandleAppendEntries, HandleAppendReply, StartElection, HandleRequestVote, HandleVoteReply;
  }

  // --- the searches ---

  ghost predicate Committable(n: Node, index: nat) {
    TermAt(n.log, index) == n.term && Replicas(n.peers, n.matchIndex, index) + 1 > (|n.peers| + 1) / 2
  }

  // The commit index moves to the highest entry of the leader's own term that a majority has, and only to such a one.
  lemma {:induction false} HighestExactly(n: Node, index: nat)
    ensures var c := HighestReplicated(n, index);
            && (c == n.commitIndex || (n.commitIndex < c <= index && Committable(n, c)))
            && (forall i: nat :: c < i <= index && n.commitIndex < i ==> !Committable(n, i))
    decreases index
  {
    if index > n.commitIndex && !Committable(n, index) { HighestExactly(n, index - 1); }
  }

  // The conflict index is where the run of equal terms begins that holds the last entry up to the probed index.
  lemma {:induction false} ConflictExactly(log: seq<LogEntry>, index: nat)
    ensures var c, last := ConflictIndex(log, index), Min(index, |log|);
            if last == 0 then c == 1 else
              && 1 <= c <= last && (forall i :: c - 1 <= i < last ==> log[i].term == log[last - 1].term)
              && (c == 1 || log[c - 2].term != log[last - 1].term)
    decreases index
  {
    if index > 0 { ConflictExactly(log, index - 1); }
  }
}
