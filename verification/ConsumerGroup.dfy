/** internal/engine/stream/consumer_group.go: the group, its members and the three allocators. */
module ConsumerGroups {
  import opened GroupLayouts
  import opened StickyLayout
  import opened StickyResults
  import opened Division

  // Any strategy other than range and sticky deals round-robin.
  datatype Strategy = Range | RoundRobin | StickyStrategy

  // The partitions from a up to b.
  function Interval(a: nat, b: nat): seq<nat> {
    if b <= a then [] else Interval(a, b - 1) + [b - 1]
  }

  // The partitions below k that leave i when divided by m.
  function Congruent(k: nat, m: nat, i: nat): seq<nat>
    requires m > 0
  {
    if k == 0 then [] else Congruent(k - 1, m, i) + if (k - 1) % m == i then [k - 1] else []
  }

  // Where member i of m starts under Range.
  function Start(n: nat, m: nat, i: nat): nat
    requires m > 0
  {
    i * (n / m) + if i < n % m then i else n % m
  }

  predicate Names(ids: seq<string>, held: Held) { Sorted(ids) && Members(ids, held) && AllIn(held, ids) }

  ghost predicate IsRange(l: Layout, ids: seq<string>, n: nat) {
    Members(ids, l.held) && Covering(l, n)
    && forall i :: 0 <= i < |ids| ==> l.held[ids[i]] == Interval(Start(n, |ids|, i), Start(n, |ids|, i + 1))
  }

  ghost predicate IsRoundRobin(l: Layout, ids: seq<string>, n: nat) {
    Members(ids, l.held) && Covering(l, n)
    && forall i :: 0 <= i < |ids| ==> l.held[ids[i]] == Congruent(n, |ids|, i)
  }

  // What a rebalance may turn blank lists of members into, given the assignments before it.
  ghost predicate Allocates(strategy: Strategy, n: nat, ids: seq<string>, blank: Layout, prev: Owner, l: Layout)
    requires ids != [] && Names(ids, blank.held)
  {
    SortedDistinct(ids);
    match strategy
    case Range => IsRange(l, ids, n)
    case RoundRobin => IsRoundRobin(l, ids, n)
    case StickyStrategy => l == Sticky(blank, ids, prev, n)
  }

  // One lock hold of the group. Joining and rebalancing take the lock separately, so that other steps may come in between.
  datatype Step = Admit(id: string) | Dismiss(gone: set<string>) | Reshare

  ghost predicate Rebalanced(strategy: Strategy, n: nat, before: Layout, after: Layout) {
    after.held.Keys == before.held.Keys
    && if before.held == map[] then after.owner == map[] else
         exists ids, blank: Layout :: ids != [] && blank.held.Keys == before.held.Keys && Blank(blank) && Names(ids, blank.held)
                                      && Allocates(strategy, n, ids, blank, before.owner, after)
  }

  ghost predicate Next(strategy: Strategy, n: nat, a: Layout, step: Step, b: Layout) {
    match step
    case Admit(id) => b == a.(held := a.held[id := []])
    case Dismiss(gone) => b == a.(held := a.held - gone)
    case Reshare => Rebalanced(strategy, n, a, b)
  }

  class ConsumerGroup {
    const partitionCount: nat
    const strategy: Strategy
    const sessionTimeout: int
    var members: Held                      // each member's Partitions
    var lastHeartbeat: map<string, int>    // each member's LastHeartbeat
    var assignments: Owner

    ghost predicate Valid()
      reads this
    {
      members.Keys == lastHeartbeat.Keys
    }

    function Now(): Layout
      reads this
    {
      Layout(members, assignments)
    }

    constructor (partitionCount: nat, strategy: Strategy, sessionTimeout: int)
      ensures Valid() && members == map[] && assignments == map[]
      ensures this.partitionCount == partitionCount && this.strategy == strategy && this.sessionTimeout == sessionTimeout
    {
      this.partitionCount, this.strategy, this.sessionTimeout := partitionCount, strategy, sessionTimeout;
      members, lastHeartbeat, assignments := map[], map[], map[];
    }

    method Assign(p: nat, id: string)
      requires id in members
      modifies this`members, this`assignments
      ensures Now() == Give(old(Now()), p, id)
    {
      assignments := assignments[p := id];
      members := members[id := members[id] + [p]];
    }

    // The inner loop of rebalanceRange: the next count partitions for one member.
    method GiveRun(id: string, first: nat, count: nat) returns (idx: nat)
      requires id in members && members[id] == [] && Inverse(Now()) && first <= partitionCount
      requires forall p: nat :: p in assignments <==> p < first
      modifies this`members, this`assignments
      ensures idx == (if first + count <= partitionCount then first + count else partitionCount)
      ensures members == old(members)[id := Interval(first, idx)] && Inverse(Now())
      ensures forall p: nat :: p in assignments <==> p < idx
    {
      hide Inverse, Interval;
      idx := first;
      var j := 0;
      EmptyInterval(idx);
      while j < count && idx < partitionCount
        invariant 0 <= j <= count && idx == first + j <= partitionCount
        invariant members == old(members)[id := Interval(first, idx)] && Inverse(Now())
        invariant forall p: nat :: p in assignments <==> p < idx
      {
        GiveKeeps(Now(), idx, id);
        NextInterval(first, idx);
        Assign(idx, id);
        idx := idx + 1;
        j := j + 1;
      }
    }

    method RebalanceRange(ids: seq<string>)
      requires ids != [] && Names(ids, members) && Blank(Now())
      modifies this`members, this`assignments
      ensures members.Keys == old(members.Keys) && IsRange(Now(), ids, partitionCount)
    {
      hide Inverse, Start, Interval, Sorted, RangeSoFar;
      var n, m := partitionCount, |ids|;
      var perMember, remainder := n / m, n % m;
      SortedDistinct(ids);
      BlankInverse(Now());
      StartFacts(n, m, 0);
      RangeBegins(members, ids, n);
      var idx := 0;
      for i := 0 to m
        invariant members.Keys == old(members.Keys) && Inverse(Now())
        invariant idx == Start(n, m, i) <= n && forall p: nat :: p in assignments <==> p < idx
        invariant RangeSoFar(members, ids, n, i)
      {
        StartFacts(n, m, i);
        var count := perMember;
        if i < remainder { count := count + 1; }
        RangeNext(members, ids, n, i);
        idx := GiveRun(ids[i], idx, count);
      }
      StartEnds(n, m);
      RangeDone(members, ids, n);
    }

    method RebalanceRoundRobin(ids: seq<string>)
      requires ids != [] && Names(ids, members) && Blank(Now())
      modifies this`members, this`assignments
      ensures members.Keys == old(members.Keys) && IsRoundRobin(Now(), ids, partitionCount)
    {
      hide Inverse, Less;
      SortedDistinct(ids);
      BlankInverse(Now());
      for i := 0 to partitionCount
        invariant members.Keys == old(members.Keys) && Inverse(Now())
        invariant forall p: nat :: p in assignments <==> p < i
        invariant forall k :: 0 <= k < |ids| ==> members[ids[k]] == Congruent(i, |ids|, k)
      {
        var id := ids[i % |ids|];
        GiveKeeps(Now(), i, id);
        Assign(i, id);
      }
    }

    method KeepOld(prev: Owner)
      modifies this`members, this`assignments
      ensures Now() == Keep(old(Now()), prev, partitionCount)
    {
      hide Give;
      var blank := Now();
      for p := 0 to partitionCount
        invariant Now() == Keep(blank, prev, p)
      {
        if p in prev && prev[p] in members { Assign(p, prev[p]); }
      }
    }

    method CollectUnassigned() returns (unassigned: seq<nat>)
      ensures unassigned == Unassigned(assignments, partitionCount)
    {
      unassigned := [];
      for p := 0 to partitionCount
        invariant unassigned == Unassigned(assignments, p)
      {
        if p !in assignments { unassigned := unassigned + [p]; }
      }
    }

    method FillUp(ids: seq<string>, todo: seq<nat>)
      requires ids != [] && Members(ids, members)
      modifies this`members, this`assignments
      ensures Now() == Fill(old(Now()), ids, todo)
    {
      hide Give, Fewest;
      var kept := Now();
      for k := 0 to |todo|
        invariant Now() == Fill(kept, ids, todo[..k])
      {
        var chosen := MemberWithFewest(ids);
        assert todo[..k + 1][..k] == todo[..k];
        Assign(todo[k], chosen);
      }
      assert todo[..|todo|] == todo;
    }

    method MemberWithFewest(ids: seq<string>) returns (chosen: string)
      requires ids != [] && Members(ids, members)
      ensures chosen == Fewest(members, ids)
    {
      chosen := ids[0];
      var minCount := |members[chosen]|;
      for k := 1 to |ids|
        invariant chosen == Fewest(members, ids[..k]) && minCount == |members[chosen]|
      {
        assert ids[..k + 1][..k] == ids[..k];
        if |members[ids[k]]| < minCount {
          minCount := |members[ids[k]]|;
          chosen := ids[k];
        }
      }
      assert ids[..|ids|] == ids;
    }

    // The two extremes that phase 4 looks for, in one scan.
    method Extremes(ids: seq<string>, target: nat) returns (over: string, under: string)
      requires Members(ids, members)
      ensures over == Fullest(members, ids, target).0 && under == Emptiest(members, ids, target, partitionCount).0
    {
      over, under := "", "";
      var overCount, underCount := 0, partitionCount + 1;
      for k := 0 to |ids|
        invariant (over, overCount) == Fullest(members, ids[..k], target)
        invariant (under, underCount) == Emptiest(members, ids[..k], target, partitionCount)
      {
        assert ids[..k + 1][..k] == ids[..k];
        var cnt := |members[ids[k]]|;
        if cnt > target + 1 && cnt > overCount {
          overCount := cnt;
          over := ids[k];
        }
        if cnt < target && cnt < underCount {
          underCount := cnt;
          under := ids[k];
        }
      }
      assert ids[..|ids|] == ids;
    }

    method StealLast(over: string, under: string)
      requires over in members && under in members && members[over] != []
      modifies this`members, this`assignments
      ensures Now() == Steal(old(Now()), over, under)
    {
      var k := |members[over]| - 1;
      var stolen := members[over][k];
      members := members[over := members[over][..k]];
      members := members[under := members[under] + [stolen]];
      assignments := assignments[stolen := under];
    }

    // Phase 4.
    method LevelOut(ids: seq<string>, target: nat)
      requires Members(ids, members) && Distinct(ids) && target <= partitionCount
      modifies this`members, this`assignments
      ensures Now() == Level(old(Now()), ids, target, partitionCount)
    {
      hide Sum, Fullest, Emptiest, Steal, Level, Pass, Distinct;
      ghost var n := partitionCount;
      while true
        invariant Members(ids, members)
        invariant Level(Now(), ids, target, n) == Level(old(Now()), ids, target, n)
        decreases Sum(Excess(target + 1), members, ids)
      {
        LevelStep(Now(), ids, target, n);
        var over, under := Extremes(ids, target);
        if over == "" || under == "" { break; }
        StealLast(over, under);
      }
    }

    method RebalanceSticky(ids: seq<string>, prev: Owner)
      requires ids != [] && Names(ids, members) && Distinct(ids) && Blank(Now())
      modifies this`members, this`assignments
      ensures Now() == Sticky(old(Now()), ids, prev, partitionCount)
    {
      hide Keep, Fill, Level, Less, Unassigned;
      KeepOld(prev);
      var unassigned := CollectUnassigned();
      FillUp(ids, unassigned);
      LevelOut(ids, Target(partitionCount, |ids|));
    }

    // The member names in byte-wise order, gathered from the map in any order.
    method SortedNames() returns (ids: seq<string>)
      ensures Names(ids, members)
    {
      ids := [];
      var left := members.Keys;
      while left != {}
        invariant left <= members.Keys && Sorted(ids)
        invariant forall x :: x in ids ==> x in members && x !in left
        invariant forall id :: id in members && id !in left ==> id in ids
        decreases |left|
      {
        var id :| id in left;
        left := left - {id};
        ids := Insert(ids, id);
      }
    }

    method Rebalance()
      requires Valid()
      modifies this`members, this`assignments
      ensures Valid() && members.Keys == old(members.Keys)
      ensures members == map[] ==> assignments == map[]
      ensures members != map[] ==> Covering(Now(), partitionCount)
      ensures Next(strategy, partitionCount, old(Now()), Reshare, Now())
    {
      hide Inverse, Sorted, Sticky, IsRange, IsRoundRobin;
      var prev := assignments;
      assignments := map[];
      ClearLists();
      if |members| == 0 { return; }
      var ids := SortedNames();
      var someone :| someone in members;
      assert ids != [];
      ghost var blank := Now();
      SortedDistinct(ids);
      match strategy {
        case Range => RebalanceRange(ids);
        case StickyStrategy =>
          StickyCovers(blank, ids, prev, partitionCount);
          RebalanceSticky(ids, prev);
        case RoundRobin => RebalanceRoundRobin(ids);
      }
      AllocationCovers(strategy, partitionCount, ids, blank, prev, Now());
    }

    method ClearLists()
      modifies this`members
      ensures members.Keys == old(members.Keys) && forall id :: id in members ==> members[id] == []
    {
      var left := members.Keys;
      while left != {}
        invariant members.Keys == old(members.Keys) && left <= members.Keys
        invariant forall id :: id in members && id !in left ==> members[id] == []
        decreases |left|
      {
        var id :| id in left;
        left := left - {id};
        members := members[id := []];
      }
    }

    // First half of Join; the lock is released before Rebalance takes it again.
    method AddMember(id: string, now: int)
      requires Valid()
      modifies this`members, this`lastHeartbeat
      ensures Valid() && Next(strategy, partitionCount, old(Now()), Admit(id), Now())
      ensures lastHeartbeat == old(lastHeartbeat)[id := now]
    {
      members := members[id := []];
      lastHeartbeat := lastHeartbeat[id := now];
    }

    // First half of Leave.
    method RemoveMember(id: string)
      requires Valid()
      modifies this`members, this`lastHeartbeat
      ensures Valid() && Next(strategy, partitionCount, old(Now()), Dismiss({id}), Now())
      ensures lastHeartbeat == old(lastHeartbeat) - {id}
    {
      members := members - {id};
      lastHeartbeat := lastHeartbeat - {id};
    }

    // Undisturbed by other calls, a join ends with the newcomer among the members and every partition owned by one of them.
    method Join(id: string, now: int)
      requires Valid()
      modifies this
      ensures Valid() && members.Keys == old(members.Keys) + {id} && Covering(Now(), partitionCount)
      ensures exists mid :: Next(strategy, partitionCount, old(Now()), Admit(id), mid) && Next(strategy, partitionCount, mid, Reshare, Now())
    {
      hide Covering, Rebalanced;
      AddMember(id, now);
      ghost var mid := Now();
      assert id in members;
      Rebalance();
      assert id in members;
      assert Next(strategy, partitionCount, mid, Reshare, Now());
    }

    // After a leave the others own everything, and the one that left owns nothing.
    method Leave(id: string)
      requires Valid()
      modifies this
      ensures Valid() && members.Keys == old(members.Keys) - {id}
      ensures if members == map[] then assignments == map[] else Covering(Now(), partitionCount)
      ensures forall p :: p in assignments ==> assignments[p] != id
      ensures exists mid :: Next(strategy, partitionCount, old(Now()), Dismiss({id}), mid) && Next(strategy, partitionCount, mid, Reshare, Now())
    {
      hide Covering, Rebalanced;
      RemoveMember(id);
      ghost var mid := Now();
      Rebalance();
      assert Next(strategy, partitionCount, mid, Reshare, Now());
      if members != map[] { OwnersAreMembers(Now(), partitionCount); }
    }

    method Heartbeat(id: string, now: int) returns (ok: bool)
      requires Valid()
      modifies this`lastHeartbeat
      ensures Valid() && (ok <==> id in members)
      ensures lastHeartbeat == if ok then old(lastHeartbeat)[id := now] else old(lastHeartbeat)
    {
      ok := id in members;
      if ok { lastHeartbeat := lastHeartbeat[id := now]; }
    }

    // One tick of the heartbeat loop: nobody overdue is left, and if anybody was, the others own everything.
    method HeartbeatTick(now: int) returns (expired: set<string>)
      requires Valid()
      modifies this
      ensures Valid() && members.Keys == old(members.Keys) - expired
      ensures expired == set id | id in old(members) && now - old(lastHeartbeat)[id] > sessionTimeout
      ensures forall id :: id in members ==> now - lastHeartbeat[id] <= sessionTimeout
      ensures expired == {} ==> Now() == old(Now())
      ensures expired != {} ==> if members == map[] then assignments == map[] else Covering(Now(), partitionCount)
    {
      hide Covering, Rebalanced;
      expired := DropExpired(now);
      if |expired| > 0 {
        Rebalance();
      } else {
        assert expired == {};
        assert old(members) - expired == old(members);
      }
    }

    // One tick of the heartbeat loop, up to the rebalance.
    method DropExpired(now: int) returns (expired: set<string>)
      requires Valid()
      modifies this`members, this`lastHeartbeat
      ensures Valid()
      ensures expired == set id | id in old(members) && now - old(lastHeartbeat)[id] > sessionTimeout
      ensures Next(strategy, partitionCount, old(Now()), Dismiss(expired), Now())
      ensures lastHeartbeat == old(lastHeartbeat) - expired
    {
      expired := {};
      var left := members.Keys;
      while left != {}
        invariant left <= members.Keys
        invariant expired == set id | id in members && id !in left && now - lastHeartbeat[id] > sessionTimeout
        decreases |left|
      {
        var id :| id in left;
        left := left - {id};
        if now - lastHeartbeat[id] > sessionTimeout { expired := expired + {id}; }
      }
      members := members - expired;
      lastHeartbeat := lastHeartbeat - expired;
    }
  }

  // Keeps a sorted list sorted.
  method Insert(ids: seq<string>, id: string) returns (result: seq<string>)
    requires Sorted(ids) && id !in ids
    ensures Sorted(result) && forall x :: x in result <==> x == id || x in ids
  {
    hide Less, Sorted;
    var k := |ids|;
    while k > 0 && Less(id, ids[k - 1])
      invariant 0 <= k <= |ids|
      invariant forall j :: k <= j < |ids| ==> Less(id, ids[j])
    {
      k := k - 1;
    }
    InsertedAt(ids, k, id);
    result := ids[..k] + [id] + ids[k..];
  }

  lemma InsertedAt(ids: seq<string>, k: nat, id: string)
    requires Sorted(ids) && id !in ids && k <= |ids|
    requires forall j :: k <= j < |ids| ==> Less(id, ids[j])
    requires k > 0 ==> !Less(id, ids[k - 1])
    ensures Sorted(ids[..k] + [id] + ids[k..])
    ensures forall x :: x in ids[..k] + [id] + ids[k..] <==> x == id || x in ids
  {
    hide Less;
    forall j | 0 <= j < k ensures Less(ids[j], id) {
      Trichotomy(ids[k - 1], id);
      assert ids[k - 1] in ids;
      if j < k - 1 { Transitive(ids[j], ids[k - 1], id); }
    }
    assert ids == ids[..k] + ids[k..];
  }

  // --- what the allocations mean ---

  lemma OwnersAreMembers(l: Layout, n: nat)
    requires Covering(l, n)
    ensures forall p :: p in l.owner ==> l.owner[p] in l.held
  {
    forall p | p in l.owner ensures l.owner[p] in l.held { assert Listed(l.held, l.owner[p], p); }
  }

  lemma AllocationCovers(strategy: Strategy, n: nat, ids: seq<string>, blank: Layout, prev: Owner, l: Layout)
    requires ids != [] && Names(ids, blank.held) && Blank(blank) && Allocates(strategy, n, ids, blank, prev, l)
    ensures Covering(l, n)
  {
    hide Covering, Inverse, Sorted, Sticky;
    SortedDistinct(ids);
    if strategy == StickyStrategy { StickyCovers(blank, ids, prev, n); }
  }

  lemma {:induction false} IntervalSize(a: nat, b: nat)
    requires a <= b
    ensures |Interval(a, b)| == b - a && forall i :: 0 <= i < b - a ==> Interval(a, b)[i] == a + i
  {
    if a < b { IntervalSize(a, b - 1); }
  }

  lemma {:induction false} CongruentSize(k: nat, m: nat, i: nat)
    requires i < m
    ensures |Congruent(k, m, i)| == Share(k, m, i)
  {
    hide Congruent, Share;
    if k == 0 {
      CongruentNone(m, i);
    } else {
      CongruentSize(k - 1, m, i);
      CongruentNext(k - 1, m, i);
      ShareNext(k - 1, m, i);
    }
  }

  lemma CongruentNone(m: nat, i: nat)
    requires i < m
    ensures Congruent(0, m, i) == [] && Share(0, m, i) == 0
  {
  }

  lemma CongruentNext(k: nat, m: nat, i: nat)
    requires i < m
    ensures Congruent(k + 1, m, i) == Congruent(k, m, i) + if k % m == i then [k] else []
  {
  }

  lemma ShareNext(k: nat, m: nat, i: nat)
    requires i < m
    ensures Share(k + 1, m, i) == Share(k, m, i) + if k % m == i then 1 else 0
  {
    DivMod(k, m);
  }

  lemma {:induction false} CongruentMember(k: nat, m: nat, i: nat, p: nat)
    requires i < m
    ensures p in Congruent(k, m, i) <==> p < k && p % m == i
  {
    if k > 0 { CongruentMember(k - 1, m, i, p); }
  }

  lemma DivMod(k: nat, m: nat)
    requires m > 0
    ensures if k % m == m - 1 then (k + 1) / m == k / m + 1 && (k + 1) % m == 0 else (k + 1) / m == k / m && (k + 1) % m == k % m + 1
  {
    var q, r := k / m, k % m;
    assert k + 1 == q * m + r + 1;
    if r == m - 1 {
      assert k + 1 == (q + 1) * m;
      DivModUnique(k + 1, m, q + 1, 0);
    } else {
      DivModUnique(k + 1, m, q, r + 1);
    }
  }

  function Share(n: nat, m: nat, i: nat): nat
    requires m > 0
  {
    n / m + if i < n % m then 1 else 0
  }

  lemma RangeShare(n: nat, m: nat, i: nat)
    requires i < m
    ensures |Interval(Start(n, m, i), Start(n, m, i + 1))| == Share(n, m, i)
  {
    hide Start, Interval;
    StartFacts(n, m, i);
    IntervalSize(Start(n, m, i), Start(n, m, i + 1));
  }

  // Under Range and RoundRobin the first n mod m members hold one partition more than the others.
  lemma FairShares(strategy: Strategy, n: nat, ids: seq<string>, blank: Layout, prev: Owner, l: Layout)
    requires ids != [] && Names(ids, blank.held) && Allocates(strategy, n, ids, blank, prev, l) && strategy != StickyStrategy
    ensures Members(ids, l.held)
    ensures forall i :: 0 <= i < |ids| ==> |l.held[ids[i]]| == Share(n, |ids|, i)
    ensures Balanced(l.held, ids)
  {
    hide Inverse, Sorted, Covering, Start, Interval, Congruent, Share;
    var m := |ids|;
    forall i | 0 <= i < m ensures |l.held[ids[i]]| == Share(n, m, i) {
      if strategy == Range { RangeShare(n, m, i); } else { CongruentSize(n, m, i); }
    }
    SharesClose(n, m);
  }

  lemma SharesClose(n: nat, m: nat)
    requires m > 0
    ensures forall i, j :: 0 <= i < m && 0 <= j < m ==> Share(n, m, i) <= Share(n, m, j) + 1
  {
  }

  // The outcome depends on the members, the partition count and (for sticky) the previous assignments only:
  // the order in which the member map was walked does not matter.
  lemma Deterministic(strategy: Strategy, n: nat, ids1: seq<string>, ids2: seq<string>, blank: Layout, prev: Owner, l1: Layout, l2: Layout)
    requires ids1 != [] && ids2 != [] && Names(ids1, blank.held) && Names(ids2, blank.held) && Blank(blank)
    requires l1.held.Keys == l2.held.Keys == blank.held.Keys
    requires Allocates(strategy, n, ids1, blank, prev, l1) && Allocates(strategy, n, ids2, blank, prev, l2)
    ensures l1 == l2
  {
    hide Inverse, Sorted, Start, Interval, Congruent, Sticky;
    forall x ensures x in ids1 <==> x in ids2 { }
    SortedUnique(ids1, ids2);
    if strategy != StickyStrategy {
      SameShares(l1, l2, ids1, n);
      SameLists(l1.held, l2.held, ids1);
      SameOwners(l1, l2, n);
    }
  }

  lemma SameShares(l1: Layout, l2: Layout, ids: seq<string>, n: nat)
    requires (IsRange(l1, ids, n) && IsRange(l2, ids, n)) || (IsRoundRobin(l1, ids, n) && IsRoundRobin(l2, ids, n))
    ensures forall i :: 0 <= i < |ids| ==> l1.held[ids[i]] == l2.held[ids[i]]
  {
    hide Covering, Start, Interval, Congruent;
    forall i | 0 <= i < |ids| ensures l1.held[ids[i]] == l2.held[ids[i]] {
      if IsRange(l1, ids, n) && IsRange(l2, ids, n) {
        assert l1.held[ids[i]] == Interval(Start(n, |ids|, i), Start(n, |ids|, i + 1));
      } else {
        assert l1.held[ids[i]] == Congruent(n, |ids|, i);
      }
    }
  }

  lemma SameLists(a: Held, b: Held, ids: seq<string>)
    requires a.Keys == b.Keys && Members(ids, a) && AllIn(a, ids)
    requires forall i :: 0 <= i < |ids| ==> a[ids[i]] == b[ids[i]]
    ensures a == b
  {
    forall x | x in a ensures a[x] == b[x] {
      var i :| 0 <= i < |ids| && ids[i] == x;
    }
  }

  lemma SameOwners(l1: Layout, l2: Layout, n: nat)
    requires Covering(l1, n) && Covering(l2, n) && l1.held == l2.held
    ensures l1.owner == l2.owner
  {
    forall p | p in l1.owner ensures p in l2.owner && l1.owner[p] == l2.owner[p] {
      var id := l1.owner[p];
      assert Listed(l1.held, id, p);
      var i :| 0 <= i < |l1.held[id]| && l1.held[id][i] == p;
      assert ListOf(l2.owner, id, l2.held[id]);
    }
    forall p | p in l2.owner ensures p in l1.owner { assert p < n; }
  }

  // --- Range, member by member ---

  predicate RangeSoFar(held: Held, ids: seq<string>, n: nat, i: nat) {
    && Members(ids, held)
    && (forall k :: 0 <= k < |ids| && k < i ==> held[ids[k]] == Interval(Start(n, |ids|, k), Start(n, |ids|, k + 1)))
    && (forall k :: 0 <= k < |ids| && i <= k ==> held[ids[k]] == [])
  }

  lemma RangeBegins(held: Held, ids: seq<string>, n: nat)
    requires Members(ids, held) && forall id :: id in held ==> held[id] == []
    ensures RangeSoFar(held, ids, n, 0)
  {
  }

  lemma RangeNext(held: Held, ids: seq<string>, n: nat, i: nat)
    requires RangeSoFar(held, ids, n, i) && Distinct(ids) && i < |ids|
    ensures ids[i] in held && held[ids[i]] == []
    ensures RangeSoFar(held[ids[i] := Interval(Start(n, |ids|, i), Start(n, |ids|, i + 1))], ids, n, i + 1)
  {
    hide Start, Interval;
  }

  lemma RangeDone(held: Held, ids: seq<string>, n: nat)
    requires RangeSoFar(held, ids, n, |ids|)
    ensures forall i :: 0 <= i < |ids| ==> held[ids[i]] == Interval(Start(n, |ids|, i), Start(n, |ids|, i + 1))
  {
  }

  lemma StartFacts(n: nat, m: nat, i: nat)
    requires 0 <= i < m
    ensures Start(n, m, 0) == 0 && Start(n, m, i + 1) == Start(n, m, i) + n / m + if i < n % m then 1 else 0
    ensures Start(n, m, i + 1) <= n
  {
    StartArithmetic(n / m, n % m, m, i);
    assert n == n / m * m + n % m;
  }

  lemma StartArithmetic(q: nat, r: nat, m: nat, i: nat)
    requires i < m
    ensures (i + 1) * q == i * q + q && 0 * q == 0 && (i + 1) * q <= q * m
  {
    assert q * m == (i + 1) * q + (m - i - 1) * q;
    assert (m - i - 1) * q >= 0;
  }

  lemma StartEnds(n: nat, m: nat)
    requires m > 0
    ensures Start(n, m, m) == n
  {
    assert n == m * (n / m) + n % m;
  }

  lemma EmptyInterval(a: nat)
    ensures Interval(a, a) == []
  {
  }

  lemma NextInterval(a: nat, b: nat)
    requires a <= b
    ensures Interval(a, b + 1) == Interval(a, b) + [b]
  {
  }

  // --- what the sticky strategy does not do ---

  // As long as nobody holds more than target + 1, owners that stay keep everything, so that
  // a newcomer to a group without orphaned partitions gets nothing.
  lemma NewcomersStarve(l: Layout, ids: seq<string>, prev: Owner, n: nat)
    requires Blank(l) && ids != [] && Members(ids, l.held) && Distinct(ids)
    requires forall p: nat :: p < n ==> p in prev && prev[p] in l.held
    requires forall id :: id in l.held ==> |Keep(l, prev, n).held[id]| <= Target(n, |ids|) + 1
    ensures Sticky(l, ids, prev, n) == Keep(l, prev, n)
  {
    hide Keep, Fullest, Emptiest, Sum, Inverse;
    KeepFacts(l, prev, n);
    var kept := Keep(l, prev, n);
    NoneUnassigned(kept.owner, n);
    FullestFacts(kept.held, ids, Target(n, |ids|));
  }

  // Two partitions, both held by a; b joins and gets none.
  lemma NewcomerExample()
    ensures var blank := Layout(map["a" := [], "b" := []], map[]);
            var prev: Owner := map[0 := "a", 1 := "a"];
            Distinct(["a", "b"]) && Sticky(blank, ["a", "b"], prev, 2).held["b"] == []
  {
    hide Sticky;
    var ids := ["a", "b"];
    var blank := Layout(map["a" := [], "b" := []], map[]);
    var prev: Owner := map[0 := "a", 1 := "a"];
    assert "a"[0] != "b"[0];
    assert Keep(blank, prev, 0) == blank;
    var one, two := Keep(blank, prev, 1), Keep(blank, prev, 2);
    assert |one.held["a"]| == 1 && |two.held["a"]| == 2 && two.held["b"] == [];
    NewcomersStarve(blank, ids, prev, 2);
  }
}
