/** internal/cluster/raft/fsm.go: the metadata that the Raft log replicates. */
module MetadataFsm {
  import opened RaftTypes

  datatype TopicEntry = TopicEntry(name: string, mode: string, partitions: nat, replicaSet: seq<string>)

  datatype PartitionAssignment = PartitionAssignment(topic: string, partition: nat, leader: string, replicas: seq<string>)

  datatype GroupMember = GroupMember(id: string, topics: seq<string>, partitions: seq<nat>)

  datatype GroupEntry = GroupEntry(name: string, members: map<string, GroupMember>)

  // The data of a log entry after its JSON is read; Ignored covers offset commits and unknown types.
  datatype Command =
    | CreateTopic(entry: TopicEntry)
    | DeleteTopic(name: string)
    | AssignPartition(pa: PartitionAssignment)
    | JoinGroup(group: string, member: string, topics: seq<string>)
    | LeaveGroup(group: string, member: string)
    | Ignored
    | Malformed

  type Assignments = map<string, PartitionAssignment>

  datatype Metadata = Metadata(topics: map<string, TopicEntry>, assignments: Assignments, groups: map<string, GroupEntry>)

  const EMPTY := Metadata(map[], map[], map[])

  function Digit(n: nat): char
    requires n < 10
  {
    '0' + n as char
  }

  function Itoa(n: nat): string {
    if n < 10 then [Digit(n)] else Itoa(n / 10) + [Digit(n % 10)]
  }

  function Key(topic: string, partition: nat): string { topic + ":" + Itoa(partition) }

  predicate HasPrefix(s: string, prefix: string) { |prefix| <= |s| && s[..|prefix|] == prefix }

  // The keys that deleting the topic sweeps away.
  predicate Swept(name: string, key: string) { |key| > |name| + 1 && HasPrefix(key, name + ":") }

  function Sweep(a: Assignments, name: string): Assignments { a - set k | k in a && Swept(name, k) }

  function WithMember(groups: map<string, GroupEntry>, group: string, member: string, topics: seq<string>): map<string, GroupEntry> {
    var g := if group in groups then groups[group] else GroupEntry(group, map[]);
    groups[group := g.(members := g.members[member := GroupMember(member, topics, [])])]
  }

  function WithoutMember(groups: map<string, GroupEntry>, group: string, member: string): map<string, GroupEntry> {
    if group !in groups then groups else
      var rest := groups[group].members - {member};
      if |rest| == 0 then groups - {group} else groups[group := groups[group].(members := rest)]
  }

  function Apply(m: Metadata, c: Command): Metadata {
    match c
    case CreateTopic(e) => m.(topics := m.topics[e.name := e])
    case DeleteTopic(name) => m.(topics := m.topics - {name}, assignments := Sweep(m.assignments, name))
    case AssignPartition(pa) => m.(assignments := m.assignments[Key(pa.topic, pa.partition) := pa])
    case JoinGroup(group, member, topics) => m.(groups := WithMember(m.groups, group, member, topics))
    case LeaveGroup(group, member) => m.(groups := WithoutMember(m.groups, group, member))
    case Ignored => m
    case Malformed => m
  }

  function Replay(commands: seq<Command>): Metadata {
    if commands == [] then EMPTY else Apply(Replay(commands[..|commands| - 1]), commands[|commands| - 1])
  }

  function Lookup(a: Assignments, topic: string, partition: nat): Option<PartitionAssignment> {
    if Key(topic, partition) in a then Some(a[Key(topic, partition)]) else None
  }

  class MetadataFSM {
    var topics: map<string, TopicEntry>
    var assignments: Assignments
    var groups: map<string, GroupEntry>

    function State(): Metadata
      reads this
    {
      Metadata(topics, assignments, groups)
    }

    constructor ()
      ensures State() == EMPTY
    {
      topics, assignments, groups := map[], map[], map[];
    }

    method ApplyCommand(c: Command) returns (ok: bool)
      modifies this
      ensures State() == Apply(old(State()), c)
      ensures ok <==> c != Malformed
    {
      ok := c != Malformed;
      match c {
        case CreateTopic(e) => topics := topics[e.name := e];
        case DeleteTopic(name) => ApplyDeleteTopic(name);
        case AssignPartition(pa) => assignments := assignments[Key(pa.topic, pa.partition) := pa];
        case JoinGroup(group, member, subscribed) => ApplyJoinGroup(group, member, subscribed);
        case LeaveGroup(group, member) => ApplyLeaveGroup(group, member);
        case Ignored =>
        case Malformed =>
      }
    }

    method ApplyDeleteTopic(name: string)
      modifies this`topics, this`assignments
      ensures topics == old(topics) - {name} && assignments == Sweep(old(assignments), name)
    {
      topics := topics - {name};
      SweepAssignments(name);
    }

    // The map is walked in any order, and keys are deleted on the way.
    method SweepAssignments(name: string)
      modifies this`assignments
      ensures assignments == Sweep(old(assignments), name)
    {
      var prefix := name + ":";
      var left := assignments.Keys;
      while left != {}
        invariant left <= assignments.Keys <= old(assignments).Keys
        invariant forall k :: k in assignments ==> assignments[k] == old(assignments)[k]
        invariant forall k :: k in old(assignments) && k !in left ==> (k in assignments <==> !Swept(name, k))
        decreases |left|
      {
        var k :| k in left;
        left := left - {k};
        if |k| > |prefix| && k[..|prefix|] == prefix {
          assignments := assignments - {k};
        }
      }
      assert assignments.Keys == Sweep(old(assignments), name).Keys;
    }

    method ApplyJoinGroup(group: string, member: string, subscribed: seq<string>)
      modifies this`groups
      ensures groups == WithMember(old(groups), group, member, subscribed)
      ensures group in groups && member in groups[group].members && groups[group].members[member] == GroupMember(member, subscribed, [])
      ensures forall g :: g != group ==> (g in groups <==> g in old(groups)) && (g in groups ==> groups[g] == old(groups)[g])
    {
      if group !in groups {
        groups := groups[group := GroupEntry(group, map[])];
      }
      var g := groups[group];
      groups := groups[group := g.(members := g.members[member := GroupMember(member, subscribed, [])])];
    }

    method ApplyLeaveGroup(group: string, member: string)
      modifies this`groups
      ensures groups == WithoutMember(old(groups), group, member)
      ensures forall g :: g != group && g in old(groups) ==> g in groups && groups[g] == old(groups)[g]
      ensures group in groups <==> group in old(groups) && |old(groups)[group].members - {member}| > 0
      ensures group in groups ==> groups[group] == old(groups)[group].(members := old(groups)[group].members - {member})
    {
      hide WithoutMember;
      LeaveShape(groups, group, member);
      LeaveElsewhere(groups, group, member);
      if group in groups {
        var rest := groups[group].members - {member};
        groups := groups[group := groups[group].(members := rest)];
        if |rest| == 0 {
          groups := groups - {group};
        }
      }
    }

    method GetAssignment(topic: string, partition: nat) returns (pa: Option<PartitionAssignment>)
      ensures pa == Lookup(assignments, topic, partition)
    {
      var key := topic + ":" + Itoa(partition);
      if key in assignments { return Some(assignments[key]); }
      return None;
    }
  }

  lemma DropUpdated(groups: map<string, GroupEntry>, group: string, g: GroupEntry)
    ensures groups[group := g] - {group} == groups - {group}
  {
  }

  // A leave touches one group only, and that goes exactly with its last member.
  lemma LeaveShape(groups: map<string, GroupEntry>, group: string, member: string)
    ensures var after := WithoutMember(groups, group, member);
            && (group in after <==> group in groups && |groups[group].members - {member}| > 0)
            && (group in after ==> after[group] == groups[group].(members := groups[group].members - {member}))
            && (group !in groups ==> after == groups)
            && (group in groups ==>
                  var left := groups[group := groups[group].(members := groups[group].members - {member})];
                  after == if |groups[group].members - {member}| == 0 then left - {group} else left)
  {
    if group in groups { DropUpdated(groups, group, groups[group].(members := groups[group].members - {member})); }
  }

  lemma LeaveElsewhere(groups: map<string, GroupEntry>, group: string, member: string)
    ensures forall g :: g != group && g in groups ==> g in WithoutMember(groups, group, member) && WithoutMember(groups, group, member)[g] == groups[g]
  {
  }

  // --- keys ---

  lemma {:induction false} Digits(n: nat)
    ensures Itoa(n) != [] && forall i :: 0 <= i < |Itoa(n)| ==> Itoa(n)[i] != ':'
  {
    if n >= 10 { Digits(n / 10); }
  }

  lemma {:induction false} ItoaInjective(m: nat, n: nat)
    requires Itoa(m) == Itoa(n)
    ensures m == n
  {
    var s, t := Itoa(m), Itoa(n);
    assert s[|s| - 1] == Digit(m % 10) && t[|t| - 1] == Digit(n % 10);
    if m >= 10 && n >= 10 {
      assert s[..|s| - 1] == Itoa(m / 10) && t[..|t| - 1] == Itoa(n / 10);
      ItoaInjective(m / 10, n / 10);
    } else {
      Digits(m / 10);
      Digits(n / 10);
    }
  }

  // A key tells its topic and partition apart at its last colon, whatever the topic is called.
  lemma KeyInjective(t: string, p: nat, u: string, q: nat)
    requires Key(t, p) == Key(u, q)
    ensures t == u && p == q
  {
    Digits(p);
    Digits(q);
    var k := Key(t, p);
    assert k[|t|] == ':' && k[|u|] == ':';
    assert forall i :: |t| < i < |k| ==> k[i] == Itoa(p)[i - |t| - 1];
    assert forall i :: |u| < i < |k| ==> k[i] == Itoa(q)[i - |u| - 1];
    assert |t| == |u|;
    assert t == k[..|t|] == u;
    assert Itoa(p) == k[|t| + 1..] == Itoa(q);
    ItoaInjective(p, q);
  }

  // Deleting a topic sweeps the keys of that topic and of every topic whose name goes on with a colon after it.
  predicate Removes(name: string, topic: string) { topic == name || HasPrefix(topic, name + ":") }

  lemma ColonAfter(s: string, name: string)
    requires |name| < |s| && HasPrefix(s, name + ":")
    ensures s[|name|] == ':'
  {
    assert s[..|name| + 1][|name|] == (name + ":")[|name|];
  }

  lemma SweptExactly(name: string, t: string, p: nat)
    ensures Swept(name, Key(t, p)) <==> Removes(name, t)
  {
    Digits(p);
    var k, prefix := Key(t, p), name + ":";
    assert k[|t|] == ':' && k[..|t|] == t;
    if |t| >= |prefix| {
      assert k[..|prefix|] == t[..|prefix|];
    } else if |t| == |name| {
      assert k[..|prefix|] == t + ":";
      assert (t + ":")[..|t|] == t && prefix[..|t|] == name;
    } else {
      if Swept(name, k) { ColonAfter(k, name); }
      assert |name| < |k| ==> k[|name|] == Itoa(p)[|name| - |t| - 1];
    }
  }

  // --- what a lookup means ---

  predicate Sets(c: Command, t: string, p: nat) { c.AssignPartition? && c.pa.topic == t && c.pa.partition == p }

  predicate Clears(c: Command, t: string) { c.DeleteTopic? && Removes(c.name, t) }

  // Command i is the last word on partition p of topic t.
  predicate IsLatest(commands: seq<Command>, t: string, p: nat, i: nat) {
    i < |commands| && Sets(commands[i], t, p)
    && forall j :: i < j < |commands| ==> !Sets(commands[j], t, p) && !Clears(commands[j], t)
  }

  lemma LookupStep(a: Metadata, c: Command, t: string, p: nat)
    ensures Lookup(Apply(a, c).assignments, t, p) ==
            if Sets(c, t, p) then Some(c.pa) else if Clears(c, t) then None else Lookup(a.assignments, t, p)
  {
    hide Key, Swept, Removes, WithMember, WithoutMember;
    match c {
      case AssignPartition(pa) => if Key(pa.topic, pa.partition) == Key(t, p) { KeyInjective(pa.topic, pa.partition, t, p); }
      case DeleteTopic(name) => SweptExactly(name, t, p);
      case _ =>
    }
  }

  // GetAssignment gives the latest assignment of the pair that no later delete covers, and nothing if there is none.
  lemma {:induction false} LookupIsLatest(commands: seq<Command>, t: string, p: nat, pa: PartitionAssignment)
    ensures Lookup(Replay(commands).assignments, t, p) == Some(pa)
            <==> exists i: nat :: IsLatest(commands, t, p, i) && commands[i] == AssignPartition(pa)
  {
    hide Apply, Lookup, Removes;
    if commands == [] {
      NothingAssigned(t, p);
    } else {
      var n := |commands| - 1;
      var before, c := commands[..n], commands[n];
      LookupStep(Replay(before), c, t, p);
      LookupIsLatest(before, t, p, pa);
      assert forall j :: 0 <= j < n ==> before[j] == commands[j];
      if Sets(c, t, p) {
        assert IsLatest(commands, t, p, n);
        assert forall i: nat :: IsLatest(commands, t, p, i) ==> i == n;
      } else if !Clears(c, t) {
        assert forall i: nat :: IsLatest(before, t, p, i) <==> IsLatest(commands, t, p, i);
      } else {
        assert forall i: nat :: !IsLatest(commands, t, p, i);
      }
    }
  }

  lemma NothingAssigned(t: string, p: nat)
    ensures Lookup(EMPTY.assignments, t, p) == None
  {
  }

  // --- the string-keyed map against a map keyed by pairs ---

  type Pairs = map<(string, nat), PartitionAssignment>

  function ApplyPairs(m: Pairs, c: Command): Pairs {
    match c
    case DeleteTopic(name) => m - set k | k in m && k.0 == name
    case AssignPartition(pa) => m[(pa.topic, pa.partition) := pa]
    case _ => m
  }

  function ReplayPairs(commands: seq<Command>): Pairs {
    if commands == [] then map[] else ApplyPairs(ReplayPairs(commands[..|commands| - 1]), commands[|commands| - 1])
  }

  function LookupPair(m: Pairs, t: string, p: nat): Option<PartitionAssignment> {
    if (t, p) in m then Some(m[(t, p)]) else None
  }

  ghost predicate Represents(a: Assignments, m: Pairs) {
    forall t, p :: Lookup(a, t, p) == LookupPair(m, t, p)
  }

  // The two maps stay in step over a command exactly if it does not delete a topic
  // that an assigned topic extends with a colon.
  predicate Spares(m: Pairs, c: Command) {
    c.DeleteTopic? ==> forall k :: k in m ==> !HasPrefix(k.0, c.name + ":")
  }

  lemma LookupPairStep(m: Pairs, c: Command, t: string, p: nat)
    ensures LookupPair(ApplyPairs(m, c), t, p) ==
            if Sets(c, t, p) then Some(c.pa) else if c == DeleteTopic(t) then None else LookupPair(m, t, p)
  {
  }

  lemma StepRepresents(a: Metadata, m: Pairs, c: Command)
    requires Represents(a.assignments, m)
    ensures Represents(Apply(a, c).assignments, ApplyPairs(m, c)) <==> Spares(m, c)
  {
    hide Lookup, Apply, ApplyPairs, HasPrefix;
    var b, n := Apply(a, c).assignments, ApplyPairs(m, c);
    if Spares(m, c) {
      forall t, p ensures Lookup(b, t, p) == LookupPair(n, t, p) {
        LookupStep(a, c, t, p);
        LookupPairStep(m, c, t, p);
        assert Lookup(a.assignments, t, p) == LookupPair(m, t, p);
        assert (t, p).0 == t;
      }
    } else {
      var k :| k in m && HasPrefix(k.0, c.name + ":");
      LookupStep(a, c, k.0, k.1);
      LookupPairStep(m, c, k.0, k.1);
      Longer(k.0, c.name);
      assert Lookup(b, k.0, k.1) != LookupPair(n, k.0, k.1);
    }
  }

  lemma Longer(t: string, name: string)
    requires HasPrefix(t, name + ":")
    ensures t != name
  {
  }

  predicate ColonFree(c: Command) { c.AssignPartition? ==> ':' !in c.pa.topic }

  lemma {:induction false} PairTopics(commands: seq<Command>, k: (string, nat))
    requires forall i :: 0 <= i < |commands| ==> ColonFree(commands[i])
    requires k in ReplayPairs(commands)
    ensures ':' !in k.0
  {
    if commands != [] {
      var n := |commands| - 1;
      var c := commands[n];
      assert ColonFree(c);
      if !(c.AssignPartition? && k == (c.pa.topic, c.pa.partition)) { PairTopics(commands[..n], k); }
    }
  }

  // Over colon-free topic names the index is a map keyed by pairs, for every run of commands and every query.
  lemma {:induction false} ReplayRepresents(commands: seq<Command>)
    requires forall i :: 0 <= i < |commands| ==> ColonFree(commands[i])
    ensures Represents(Replay(commands).assignments, ReplayPairs(commands))
  {
    hide Apply, ApplyPairs, ColonFree, Lookup;
    if commands == [] {
      forall t, p ensures Lookup(EMPTY.assignments, t, p) == LookupPair(map[], t, p) { NothingAssigned(t, p); }
    } else {
      var n := |commands| - 1;
      var before, c := commands[..n], commands[n];
      ReplayRepresents(before);
      forall k | k in ReplayPairs(before) && c.DeleteTopic? ensures !HasPrefix(k.0, c.name + ":") {
        PairTopics(before, k);
        if HasPrefix(k.0, c.name + ":") { ColonAfter(k.0, c.name); }
      }
      StepRepresents(Replay(before), ReplayPairs(before), c);
    }
  }

  // With a colon in a name the two part: deleting "a" also forgets the partitions of "a:b".
  lemma ColonsCollide(pa: PartitionAssignment)
    requires pa.topic == "a:b" && pa.partition == 0
    ensures var commands := [AssignPartition(pa), DeleteTopic("a")];
            Lookup(Replay(commands).assignments, "a:b", 0) == None && LookupPair(ReplayPairs(commands), "a:b", 0) == Some(pa)
  {
    var first, last := AssignPartition(pa), DeleteTopic("a");
    var commands := [first, last];
    assert commands[..1] == [first] && [first][..0] == [];
    assert "a:b"[..2] == "a" + ":";
    LookupStep(Replay([first]), last, "a:b", 0);
    LookupPairStep(ReplayPairs([first]), last, "a:b", 0);
    assert ReplayPairs([first]) == ApplyPairs(map[], first);
  }
}
