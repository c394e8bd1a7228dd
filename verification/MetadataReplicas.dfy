/** The metadata on the nodes of a cluster: internal/cluster/raft/fsm.go fed by internal/cluster/raft/node.go. */
module MetadataReplicas {
  import opened Bytes
  import opened RaftTypes
  import opened RaftHandlers
  import opened RaftProtocol
  import opened MetadataFsm
  import RaftTheorems

  // JSON decoding is some function of the bytes.
  type Parser = seq<byte> -> Command

  function Parsed(parse: Parser, entries: seq<LogEntry>): (cs: seq<Command>)
    ensures |cs| == |entries|
    ensures forall i :: 0 <= i < |entries| ==> cs[i] == parse(entries[i].data)
  {
    if entries == [] then [] else Parsed(parse, entries[..|entries| - 1]) + [parse(entries[|entries| - 1].data)]
  }

  // The metadata a node holds after the entries it has applied.
  function Held(parse: Parser, n: Node): Metadata { Replay(Parsed(parse, n.applied)) }

  // Two nodes that have applied as far as each other, at whatever moments, hold the same metadata.
  lemma ReplicasAgree(parse: Parser, states: seq<Cluster>, steps: seq<Step>, j: nat, k: nat, a: NodeId, b: NodeId)
    requires GuardedRun(states, steps) && j < |states| && k < |states| && a in states[j].nodes && b in states[k].nodes
    requires states[j].nodes[a].lastApplied == states[k].nodes[b].lastApplied
    ensures Held(parse, states[j].nodes[a]) == Held(parse, states[k].nodes[b])
  {
    hide GuardedRun, Replay, Parsed;
    RaftTheorems.AppliedIsPrefix(states, steps, j, k, a, b);
    RaftTheorems.AppliedIsPrefix(states, steps, k, j, b, a);
    assert states[j].nodes[a].applied == states[k].nodes[b].applied;
  }

  lemma {:induction false} ReplayOn(before: seq<Command>, more: seq<Command>)
    ensures Replay(before + more) == ReplayFrom(Replay(before), more)
    decreases |more|
  {
    hide Apply;
    if more == [] {
      assert before + more == before;
    } else {
      var n := |more| - 1;
      ReplayOn(before, more[..n]);
      assert (before + more)[..|before| + n] == before + more[..n];
    }
  }

  function ReplayFrom(m: Metadata, commands: seq<Command>): Metadata {
    if commands == [] then m else Apply(ReplayFrom(m, commands[..|commands| - 1]), commands[|commands| - 1])
  }

  // A node that is behind holds an earlier version: the other one follows from it by the commands in between.
  lemma ReplicaBehind(parse: Parser, states: seq<Cluster>, steps: seq<Step>, j: nat, k: nat, a: NodeId, b: NodeId)
    requires GuardedRun(states, steps) && j < |states| && k < |states| && a in states[j].nodes && b in states[k].nodes
    requires states[j].nodes[a].lastApplied <= states[k].nodes[b].lastApplied
    ensures var c, d := states[j].nodes[a], states[k].nodes[b];
            |c.applied| <= |d.applied|
            && Held(parse, d) == ReplayFrom(Held(parse, c), Parsed(parse, d.applied[|c.applied|..]))
  {
    hide GuardedRun, Replay, ReplayFrom;
    RaftTheorems.AppliedIsPrefix(states, steps, j, k, a, b);
    var c, d := states[j].nodes[a], states[k].nodes[b];
    ReplayOn(Parsed(parse, c.applied), Parsed(parse, d.applied[|c.applied|..]));
    assert Parsed(parse, d.applied) == Parsed(parse, c.applied) + Parsed(parse, d.applied[|c.applied|..]);
  }
}
