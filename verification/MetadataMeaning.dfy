/** What the topics and the groups of the metadata mean, for every run of commands. */
module MetadataMeaning {
  import opened RaftTypes
  import opened MetadataFsm

  // --- groups ---

  type Groups = map<string, GroupEntry>

  function MemberOf(groups: Groups, group: string, id: string): Option<GroupMember> {
    if group in groups && id in groups[group].members then Some(groups[group].members[id]) else None
  }

  function Member(m: Metadata, group: string, id: string): Option<GroupMember> { MemberOf(m.groups, group, id) }

  predicate Joins(c: Command, group: string, id: string) { c.JoinGroup? && c.group == group && c.member == id }

  predicate Leaves(c: Command, group: string, id: string) { c.LeaveGroup? && c.group == group && c.member == id }

  // Command i is the last word on the member.
  predicate LastJoin(commands: seq<Command>, group: string, id: string, i: nat) {
    i < |commands| && Joins(commands[i], group, id)
    && forall j :: i < j < |commands| ==> !Joins(commands[j], group, id) && !Leaves(commands[j], group, id)
  }

  lemma MemberStep(m: Metadata, c: Command, group: string, id: string)
    ensures Member(Apply(m, c), group, id) ==
            if Joins(c, group, id) then Some(GroupMember(id, c.topics, []))
            else if Leaves(c, group, id) then None else Member(m, group, id)
  {
    hide Sweep, Key, WithMember, WithoutMember, MemberOf;
    match c {
      case JoinGroup(g, member, topics) => JoinGives(m.groups, g, member, topics, group, id);
      case LeaveGroup(g, member) => LeaveGives(m.groups, g, member, group, id);
      case _ =>
    }
  }

  lemma JoinGives(groups: Groups, g: string, member: string, topics: seq<string>, group: string, id: string)
    ensures MemberOf(WithMember(groups, g, member, topics), group, id) ==
            if g == group && member == id then Some(GroupMember(id, topics, [])) else MemberOf(groups, group, id)
  {
  }

  lemma LeaveGives(groups: Groups, g: string, member: string, group: string, id: string)
    ensures MemberOf(WithoutMember(groups, g, member), group, id) ==
            if g == group && member == id then None else MemberOf(groups, group, id)
  {
    if g in groups {
      var rest := groups[g].members - {member};
      if |rest| == 0 { assert rest == map[]; }
    }
  }

  lemma NobodyAtFirst(group: string, id: string)
    ensures Member(EMPTY, group, id) == None
  {
  }

  // A member is in a group if and only if some join of it has no later leave, and its topics are those of the last join.
  lemma {:induction false} MemberIsLatest(commands: seq<Command>, group: string, id: string, e: GroupMember)
    ensures Member(Replay(commands), group, id) == Some(e)
            <==> exists i: nat :: LastJoin(commands, group, id, i) && e == GroupMember(id, commands[i].topics, [])
  {
    hide Apply, Member;
    if commands == [] {
      NobodyAtFirst(group, id);
    } else {
      var n := |commands| - 1;
      var before, c := commands[..n], commands[n];
      MemberStep(Replay(before), c, group, id);
      MemberIsLatest(before, group, id, e);
      assert forall j :: 0 <= j < n ==> before[j] == commands[j];
      if Joins(c, group, id) {
        assert LastJoin(commands, group, id, n);
        assert forall i: nat :: LastJoin(commands, group, id, i) ==> i == n;
      } else if !Leaves(c, group, id) {
        assert forall i: nat :: LastJoin(before, group, id, i) <==> LastJoin(commands, group, id, i);
      } else {
        assert forall i: nat :: !LastJoin(commands, group, id, i);
      }
    }
  }

  // Every group has its name and a member.
  ghost predicate Populated(m: Metadata) {
    forall g :: g in m.groups ==> m.groups[g].name == g && m.groups[g].members != map[]
  }

  lemma PopulatedStep(m: Metadata, c: Command)
    requires Populated(m)
    ensures Populated(Apply(m, c))
  {
    hide Sweep, Key;
    match c {
      case JoinGroup(group, member, topics) =>
        var g := if group in m.groups then m.groups[group] else GroupEntry(group, map[]);
        assert member in g.members[member := GroupMember(member, topics, [])];
      case LeaveGroup(group, member) =>
        if group in m.groups {
          var rest := m.groups[group].members - {member};
          if |rest| != 0 { assert rest != map[]; }
        }
      case _ =>
    }
  }

  lemma {:induction false} AlwaysPopulated(commands: seq<Command>)
    ensures Populated(Replay(commands))
  {
    hide Apply, Populated;
    if commands == [] {
      NoGroups();
    } else {
      AlwaysPopulated(commands[..|commands| - 1]);
      PopulatedStep(Replay(commands[..|commands| - 1]), commands[|commands| - 1]);
    }
  }

  lemma NoGroups()
    ensures Populated(EMPTY)
  {
  }

  // A group exists if and only if it has a member, and it carries its own name.
  lemma GroupExists(commands: seq<Command>, group: string)
    ensures group in Replay(commands).groups <==> exists id :: Member(Replay(commands), group, id) != None
    ensures group in Replay(commands).groups ==> Replay(commands).groups[group].name == group
  {
    hide Replay;
    AlwaysPopulated(commands);
    var m := Replay(commands);
    if group in m.groups {
      var members := m.groups[group].members;
      assert members.Keys != {};
      var id :| id in members.Keys;
      assert Member(m, group, id) == Some(members[id]);
    }
  }

  // --- topics ---

  function Topic(m: Metadata, name: string): Option<TopicEntry> {
    if name in m.topics then Some(m.topics[name]) else None
  }

  predicate Creates(c: Command, name: string) { c.CreateTopic? && c.entry.name == name }

  // Command i is the last word on the topic.
  predicate LastCreate(commands: seq<Command>, name: string, i: nat) {
    i < |commands| && Creates(commands[i], name)
    && forall j :: i < j < |commands| ==> !Creates(commands[j], name) && commands[j] != DeleteTopic(name)
  }

  lemma TopicStep(m: Metadata, c: Command, name: string)
    ensures Topic(Apply(m, c), name) ==
            if Creates(c, name) then Some(c.entry) else if c == DeleteTopic(name) then None else Topic(m, name)
  {
    hide Sweep, Key, WithMember, WithoutMember;
  }

  lemma NoTopicAtFirst(name: string)
    ensures Topic(EMPTY, name) == None
  {
  }

  // A topic has an entry if and only if that is its last creation and no later delete names it.
  lemma {:induction false} TopicIsLatest(commands: seq<Command>, name: string, e: TopicEntry)
    ensures Topic(Replay(commands), name) == Some(e)
            <==> exists i: nat :: LastCreate(commands, name, i) && commands[i] == CreateTopic(e)
  {
    hide Apply, Topic;
    if commands == [] {
      NoTopicAtFirst(name);
    } else {
      var n := |commands| - 1;
      var before, c := commands[..n], commands[n];
      TopicStep(Replay(before), c, name);
      TopicIsLatest(before, name, e);
      assert forall j :: 0 <= j < n ==> before[j] == commands[j];
      if Creates(c, name) {
        assert LastCreate(commands, name, n);
        assert forall i: nat :: LastCreate(commands, name, i) ==> i == n;
      } else if c != DeleteTopic(name) {
        assert forall i: nat :: LastCreate(before, name, i) <==> LastCreate(commands, name, i);
      } else {
        assert forall i: nat :: !LastCreate(commands, name, i);
      }
    }
  }

  // --- partition numbers in keys ---

  // The number that decimal digits stand for, the first being the most significant.
  function Number(s: string): int {
    if s == [] then 0 else 10 * Number(s[..|s| - 1]) + (s[|s| - 1] as int - '0' as int)
  }

  lemma {:induction false} ItoaIsDecimal(n: nat)
    ensures Number(Itoa(n)) == n && forall i :: 0 <= i < |Itoa(n)| ==> '0' <= Itoa(n)[i] <= '9'
    ensures n > 0 ==> Itoa(n)[0] != '0'
  {
    var s := Itoa(n);
    if n >= 10 {
      ItoaIsDecimal(n / 10);
      assert s[..|s| - 1] == Itoa(n / 10);
    } else {
      assert s[..0] == [];
      assert Number(s) == n;
    }
  }
}
