/** What rebalanceSticky achieves, in terms of what the members held before. */
module StickyResults {
  import opened GroupLayouts
  import opened StickyLayout

  // --- totals ---

  lemma GiveTotal(l: Layout, ids: seq<string>, p: nat, id: string)
    requires Members(ids, l.held) && Distinct(ids) && id in ids && p !in l.owner
    requires Sum(Total, l.held, ids) == |l.owner|
    ensures Members(ids, Give(l, p, id).held) && Sum(Total, Give(l, p, id).held, ids) == |Give(l, p, id).owner|
  {
    hide Sum;
    SumUpdate(Total, l.held, ids, id, l.held[id] + [p]);
    assert l.owner[p := id].Keys == l.owner.Keys + {p};
  }

  lemma {:induction false} KeepTotal(l: Layout, ids: seq<string>, prev: Owner, k: nat)
    requires Blank(l) && Members(ids, l.held) && Distinct(ids) && AllIn(l.held, ids)
    ensures Sum(Total, Keep(l, prev, k).held, ids) == |Keep(l, prev, k).owner|
  {
    hide Sum, Give, Inverse;
    if k == 0 {
      SumZero(Total, l.held, ids);
    } else {
      KeepTotal(l, ids, prev, k - 1);
      var m := Keep(l, prev, k - 1);
      if k - 1 in prev && prev[k - 1] in m.held {
        KeepFacts(l, prev, k - 1);
        GiveTotal(m, ids, k - 1, prev[k - 1]);
      }
    }
  }

  lemma {:induction false} FillTotal(l: Layout, ids: seq<string>, todo: seq<nat>)
    requires ids != [] && Members(ids, l.held) && Distinct(ids) && Inverse(l)
    requires forall i :: 0 <= i < |todo| ==> todo[i] !in l.owner
    requires forall i, j :: 0 <= i < j < |todo| ==> todo[i] != todo[j]
    requires Sum(Total, l.held, ids) == |l.owner|
    ensures Sum(Total, Fill(l, ids, todo).held, ids) == |Fill(l, ids, todo).owner|
  {
    hide Sum, Give, Inverse, Fewest;
    if todo != [] {
      var n := |todo| - 1;
      var rest := todo[..n];
      FillTotal(l, ids, rest);
      FillFacts(l, ids, rest);
      var m := Fill(l, ids, rest);
      assert todo[n] !in rest;
      GiveTotal(m, ids, todo[n], Fewest(m.held, ids));
    }
  }

  lemma FilledTotal(l: Layout, ids: seq<string>, prev: Owner, n: nat)
    requires Blank(l) && ids != [] && Members(ids, l.held) && Distinct(ids) && AllIn(l.held, ids)
    ensures Sum(Total, Filled(l, ids, prev, n).held, ids) == n
  {
    hide Sum, Inverse, Keep, Unassigned, Fill;
    KeepFacts(l, prev, n);
    KeepTotal(l, ids, prev, n);
    var kept := Keep(l, prev, n);
    UnassignedFacts(kept.owner, n);
    FillTotal(kept, ids, Unassigned(kept.owner, n));
    FilledFacts(l, ids, prev, n);
    BelowSize(Filled(l, ids, prev, n).owner, n);
  }

  // With n partitions in all, balance means that everybody has target or target + 1.
  lemma BalancedExactly(held: Held, ids: seq<string>, n: nat)
    requires ids != [] && Members(ids, held) && Sum(Total, held, ids) == n
    ensures var target := Target(n, |ids|);
            Balanced(held, ids) <==> Sum(Excess(target + 1), held, ids) == 0 && Sum(Deficit(target), held, ids) == 0
  {
    hide Sum, Members;
    var target, m := Target(n, |ids|), |ids|;
    assert n == target * m + n % m;
    assert (target + 1) * m == target * m + m;
    TotalAround(held, ids, target);
    TotalAround(held, ids, target + 1);
    SumZero(Excess(target + 1), held, ids);
    SumZero(Deficit(target), held, ids);
    SumZero(Excess(target), held, ids);
    SumZero(Deficit(target + 1), held, ids);
  }

  // --- phase 1: members keep what they had ---

  lemma {:induction false} KeptIsOwned(l: Layout, prev: Owner, k: nat, id: string)
    requires Blank(l) && id in l.held
    ensures |Keep(l, prev, k).held[id]| == Owned(prev, id, k)
    ensures forall q :: q in Keep(l, prev, k).held[id] ==> Owns(prev, q, id)
  {
    if k > 0 { KeptIsOwned(l, prev, k - 1, id); }
  }

  lemma {:induction false} UnassignedSame(owner: Owner, p: nat, id: string, k: nat)
    requires p >= k
    ensures Unassigned(owner[p := id], k) == Unassigned(owner, k)
  {
    if k > 0 { UnassignedSame(owner, p, id, k - 1); }
  }

  // What is kept and what is left to give out make k partitions.
  lemma {:induction false} KeptAndLeft(l: Layout, ids: seq<string>, prev: Owner, k: nat)
    requires Blank(l) && Members(ids, l.held) && Distinct(ids)
    ensures Sum(Total, Keep(l, prev, k).held, ids) + |Unassigned(Keep(l, prev, k).owner, k)| <= k
  {
    hide Sum, Inverse, Distinct;
    if k == 0 {
      SumZero(Total, l.held, ids);
    } else {
      KeptAndLeft(l, ids, prev, k - 1);
      KeepFacts(l, prev, k - 1);
      var m := Keep(l, prev, k - 1);
      if k - 1 in prev && prev[k - 1] in m.held {
        var id := prev[k - 1];
        UnassignedSame(m.owner, k - 1, id, k - 1);
        if id in ids { SumUpdate(Total, m.held, ids, id, m.held[id] + [k - 1]); } else { SumElsewhere(Total, m.held, ids, id, m.held[id] + [k - 1]); }
      }
    }
  }

  // --- phase 3: nobody is lifted above target + 1 ---

  lemma {:induction false} FewestIsLeast(held: Held, ids: seq<string>)
    requires ids != [] && Members(ids, held)
    ensures forall i :: 0 <= i < |ids| ==> |held[Fewest(held, ids)]| <= |held[ids[i]]|
  {
    var n := |ids| - 1;
    if n > 0 {
      FewestIsLeast(held, ids[..n]);
      assert forall i :: 0 <= i < n ==> ids[..n][i] == ids[i];
    }
  }

  // Of several it is the first.
  predicate FirstFewest(held: Held, ids: seq<string>, k: nat)
    requires Members(ids, held)
  {
    && k < |ids| && (forall i :: 0 <= i < |ids| ==> |held[ids[k]]| <= |held[ids[i]]|)
    && (forall j :: 0 <= j < k ==> |held[ids[k]]| < |held[ids[j]]|)
  }

  lemma {:induction false} FewestIsFirst(held: Held, ids: seq<string>)
    requires ids != [] && Members(ids, held)
    ensures exists k: nat :: k < |ids| && FirstFewest(held, ids, k) && ids[k] == Fewest(held, ids)
  {
    hide FirstFewest;
    var n := |ids| - 1;
    if n == 0 {
      OnlyOne(held, ids);
    } else {
      FewestIsFirst(held, ids[..n]);
      var k: nat :| k < n && FirstFewest(held, ids[..n], k) && ids[..n][k] == Fewest(held, ids[..n]);
      FirstFewestNext(held, ids, k);
    }
  }

  lemma OnlyOne(held: Held, ids: seq<string>)
    requires |ids| == 1 && Members(ids, held)
    ensures FirstFewest(held, ids, 0)
  {
  }

  lemma FirstFewestNext(held: Held, ids: seq<string>, k: nat)
    requires ids != [] && Members(ids, held) && FirstFewest(held, ids[..|ids| - 1], k)
    ensures if |held[ids[|ids| - 1]]| < |held[ids[k]]| then FirstFewest(held, ids, |ids| - 1) else FirstFewest(held, ids, k)
  {
    var n := |ids| - 1;
    assert forall i :: 0 <= i < n ==> ids[..n][i] == ids[i];
  }

  // The same of the member stolen from and the member stolen for: everybody before is less extreme.
  predicate FirstFullest(held: Held, ids: seq<string>, target: nat, k: nat)
    requires Members(ids, held)
  {
    && k < |ids| && |held[ids[k]]| > target + 1 && (forall i :: 0 <= i < |ids| ==> |held[ids[i]]| <= |held[ids[k]]|)
    && (forall j :: 0 <= j < k ==> |held[ids[j]]| < |held[ids[k]]|)
  }

  lemma {:induction false} FullestIsFirst(held: Held, ids: seq<string>, target: nat)
    requires Members(ids, held)
    ensures var (id, count) := Fullest(held, ids, target);
            if count == 0 then id == "" && forall i :: 0 <= i < |ids| ==> |held[ids[i]]| <= target + 1
            else exists k: nat :: FirstFullest(held, ids, target, k) && ids[k] == id && |held[id]| == count
  {
    if ids != [] {
      var n := |ids| - 1;
      FullestIsFirst(held, ids[..n], target);
      assert forall i :: 0 <= i < n ==> ids[..n][i] == ids[i];
      var best, count := Fullest(held, ids[..n], target), |held[ids[n]]|;
      if count > target + 1 && count > best.1 {
        assert FirstFullest(held, ids, target, n);
      } else if best.1 > 0 {
        var k: nat :| FirstFullest(held, ids[..n], target, k) && ids[..n][k] == best.0;
        assert FirstFullest(held, ids, target, k);
      }
    }
  }

  predicate FirstEmptiest(held: Held, ids: seq<string>, target: nat, k: nat)
    requires Members(ids, held)
  {
    && k < |ids| && |held[ids[k]]| < target && (forall i :: 0 <= i < |ids| ==> |held[ids[i]]| >= |held[ids[k]]|)
    && (forall j :: 0 <= j < k ==> |held[ids[j]]| > |held[ids[k]]|)
  }

  lemma {:induction false} EmptiestIsFirst(held: Held, ids: seq<string>, target: nat, n: nat)
    requires Members(ids, held) && target <= n
    ensures var (id, count) := Emptiest(held, ids, target, n);
            if count == n + 1 then id == "" && forall i :: 0 <= i < |ids| ==> |held[ids[i]]| >= target
            else exists k: nat :: FirstEmptiest(held, ids, target, k) && ids[k] == id && |held[id]| == count
  {
    if ids != [] {
      var m := |ids| - 1;
      EmptiestIsFirst(held, ids[..m], target, n);
      assert forall i :: 0 <= i < m ==> ids[..m][i] == ids[i];
      var best, count := Emptiest(held, ids[..m], target, n), |held[ids[m]]|;
      if count < target && count < best.1 {
        assert FirstEmptiest(held, ids, target, m);
      } else if best.1 != n + 1 {
        var k: nat :| FirstEmptiest(held, ids[..m], target, k) && ids[..m][k] == best.0;
        assert FirstEmptiest(held, ids, target, k);
      }
    }
  }

  // As long as partitions are left to give out, somebody has no more than target.
  lemma RoomLeft(held: Held, ids: seq<string>, n: nat)
    requires ids != [] && Members(ids, held) && Sum(Total, held, ids) < n
    ensures |held[Fewest(held, ids)]| <= Target(n, |ids|)
  {
    hide Sum, Fewest;
    var target, m := Target(n, |ids|), |ids|;
    FewestIsLeast(held, ids);
    assert n == target * m + n % m;
    assert (target + 1) * m == target * m + m;
    TotalAround(held, ids, target + 1);
    SumZero(Deficit(target + 1), held, ids);
  }

  function Minus(a: nat, b: nat): nat { if a > b then a - b else 0 }

  // Giving out the rest leaves the excess over target + 1 alone and lowers the deficit below target one by one.
  lemma {:induction false} FillSums(l: Layout, ids: seq<string>, todo: seq<nat>, n: nat)
    requires ids != [] && Members(ids, l.held) && Distinct(ids) && Sum(Total, l.held, ids) + |todo| <= n
    ensures var m, target := Fill(l, ids, todo).held, Target(n, |ids|);
            && Sum(Total, m, ids) == Sum(Total, l.held, ids) + |todo|
            && Sum(Excess(target + 1), m, ids) == Sum(Excess(target + 1), l.held, ids)
            && Sum(Deficit(target), m, ids) == Minus(Sum(Deficit(target), l.held, ids), |todo|)
  {
    hide Sum, Fewest, Distinct, Target;
    if todo != [] {
      var k, target := |todo| - 1, Target(n, |ids|);
      FillSums(l, ids, todo[..k], n);
      var m := Fill(l, ids, todo[..k]);
      var id := Fewest(m.held, ids);
      var list := m.held[id] + [todo[k]];
      RoomLeft(m.held, ids, n);
      FewestIsLeast(m.held, ids);
      SumUpdate(Total, m.held, ids, id, list);
      SumUpdate(Excess(target + 1), m.held, ids, id, list);
      SumUpdate(Deficit(target), m.held, ids, id, list);
      SumZero(Deficit(target), m.held, ids);
    }
  }

  // Whoever ends phase 3 above target + 1 had it all before.
  lemma {:induction false} FillLists(l: Layout, ids: seq<string>, todo: seq<nat>, n: nat, id: string)
    requires ids != [] && Members(ids, l.held) && Distinct(ids) && Sum(Total, l.held, ids) + |todo| <= n && id in l.held
    ensures var m := Fill(l, ids, todo).held;
            |m[id]| > Target(n, |ids|) + 1 ==> m[id] == l.held[id]
  {
    hide Sum, Fewest, Distinct, Target;
    if todo != [] {
      var k := |todo| - 1;
      FillLists(l, ids, todo[..k], n, id);
      FillSums(l, ids, todo[..k], n);
      RoomLeft(Fill(l, ids, todo[..k]).held, ids, n);
    }
  }

  // --- stickiness ---

  lemma StillThere(f: Layout, m: Layout, id: string, p: nat)
    requires Inverse(f) && Inverse(m) && p in f.owner && f.owner[p] == id && p in m.owner
    requires id in f.held && id in m.held && f.held[id] <= m.held[id]
    ensures m.owner[p] == id
  {
    assert Listed(f.held, id, p);
    var i :| 0 <= i < |f.held[id]| && f.held[id][i] == p;
    assert ListOf(m.owner, id, m.held[id]);
    assert m.held[id][i] == p;
  }

  // Stickiness: a partition leaves a member that stays only if that member held more than target + 1 before;
  // and the member keeps at least target + 1 partitions, all of them from before.
  lemma StickyKeeps(l: Layout, ids: seq<string>, prev: Owner, n: nat, p: nat)
    requires Blank(l) && ids != [] && Members(ids, l.held) && Distinct(ids)
    requires p < n && p in prev && prev[p] in l.held
    ensures var m, id, target := Sticky(l, ids, prev, n), prev[p], Target(n, |ids|);
            p in m.owner
            && (m.owner[p] == id
                || (Owned(prev, id, n) > target + 1 && target + 1 <= |m.held[id]| && forall q :: q in m.held[id] ==> Owns(prev, q, id)))
  {
    hide Level, Stops, Sum, Inverse, Keep, Fill, Unassigned, Owned, Owns;
    var f, id, target := Filled(l, ids, prev, n), prev[p], Target(n, |ids|);
    FilledFacts(l, ids, prev, n);
    SelfAdjusted(f.held, target);
    LevelKeeps(f.held, f, ids, target, n);
    var m := Level(f, ids, target, n);
    assert p in f.owner.Keys;
    assert Adjusted(f.held[id], m.held[id], target);
    if f.held[id] <= m.held[id] {
      StillThere(f, m, id, p);
    } else {
      var kept := Keep(l, prev, n);
      KeptAndLeft(l, ids, prev, n);
      FillLists(kept, ids, Unassigned(kept.owner, n), n, id);
      KeptIsOwned(l, prev, n, id);
    }
  }

  // --- how the steal loop ends ---

  // What the loop is after: nobody above target + 1, or nobody below target.
  predicate Settled(held: Held, ids: seq<string>, target: nat)
    requires Members(ids, held)
  {
    || (forall i :: 0 <= i < |ids| ==> |held[ids[i]]| <= target + 1)
    || (forall i :: 0 <= i < |ids| ==> |held[ids[i]]| >= target)
  }

  // In sorted order a member without a name is the first.
  predicate NamelessFirst(ids: seq<string>) { "" in ids ==> ids[0] == "" }

  lemma SortedNamelessFirst(ids: seq<string>)
    requires Sorted(ids)
    ensures NamelessFirst(ids)
  {
    forall i | 0 < i < |ids| ensures ids[i] != "" { assert Less(ids[0], ids[i]); }
  }

  // A member without a name that holds too much hides everybody who holds no more than it,
  function High(held: Held, ids: seq<string>, target: nat): nat
    requires Members(ids, held)
  {
    if "" in ids && |held[""]| > target + 1 then |held[""]| else target + 1
  }

  // and one that holds too little hides everybody who holds no less.
  function Low(held: Held, ids: seq<string>, target: nat): nat
    requires Members(ids, held)
  {
    if "" in ids && |held[""]| < target then |held[""]| else target
  }

  lemma {:induction false} FullestNameless(held: Held, ids: seq<string>, target: nat)
    requires ids != [] && ids[0] == "" && Members(ids, held) && Distinct(ids)
    ensures var (id, count), c := Fullest(held, ids, target), |held[""]|;
            var high := if c > target + 1 then c else target + 1;
            if id == "" then count == (if c > target + 1 then c else 0) && forall i :: 0 <= i < |ids| ==> |held[ids[i]]| <= high
            else id in ids && count == |held[id]| > high
  {
    var n := |ids| - 1;
    if n > 0 {
      FullestNameless(held, ids[..n], target);
      assert forall i :: 0 <= i < n ==> ids[..n][i] == ids[i];
      assert ids[n] != "";
    } else {
      assert Fullest(held, ids[..0], target) == ("", 0);
    }
  }

  lemma {:induction false} EmptiestNameless(held: Held, ids: seq<string>, target: nat, n: nat)
    requires ids != [] && ids[0] == "" && Members(ids, held) && Distinct(ids) && target <= n
    ensures var (id, count), c := Emptiest(held, ids, target, n), |held[""]|;
            var low := if c < target then c else target;
            if id == "" then count == (if c < target then c else n + 1) && forall i :: 0 <= i < |ids| ==> |held[ids[i]]| >= low
            else id in ids && count == |held[id]| < low
  {
    var k := |ids| - 1;
    if k > 0 {
      EmptiestNameless(held, ids[..k], target, n);
      assert forall i :: 0 <= i < k ==> ids[..k][i] == ids[i];
      assert ids[k] != "";
    } else {
      assert Emptiest(held, ids[..0], target, n) == ("", n + 1);
    }
  }

  // Whom the loop finds: somebody above High and somebody below Low, if there are any.
  lemma Finds(held: Held, ids: seq<string>, target: nat, n: nat)
    requires Members(ids, held) && Distinct(ids) && NamelessFirst(ids) && target <= n
    ensures var over, high := Fullest(held, ids, target).0, High(held, ids, target);
            if over == "" then Sum(Excess(high), held, ids) == 0 else over in ids && over in held && |held[over]| > high
    ensures var under, low := Emptiest(held, ids, target, n).0, Low(held, ids, target);
            if under == "" then Sum(Deficit(low), held, ids) == 0 else under in ids && under in held && |held[under]| < low
  {
    hide Fullest, Emptiest, Sum, Distinct;
    FullestFacts(held, ids, target);
    EmptiestFacts(held, ids, target, n);
    if "" in ids {
      FullestNameless(held, ids, target);
      EmptiestNameless(held, ids, target, n);
    }
    SumZero(Excess(High(held, ids, target)), held, ids);
    SumZero(Deficit(Low(held, ids, target)), held, ids);
  }

  // A theft from above one bound to below another that is no higher.
  lemma TheftSums(l: Layout, ids: seq<string>, over: nat, under: nat, from: string, to: string)
    requires Members(ids, l.held) && Distinct(ids) && from in ids && to in ids && under <= over
    requires |l.held[from]| > over && |l.held[to]| < under
    ensures Members(ids, Steal(l, from, to).held)
    ensures Sum(Excess(over), Steal(l, from, to).held, ids) == Sum(Excess(over), l.held, ids) - 1
    ensures Sum(Deficit(under), Steal(l, from, to).held, ids) == Sum(Deficit(under), l.held, ids) - 1
  {
    hide Sum;
    var list := l.held[from];
    var shorter := list[..|list| - 1];
    var longer := l.held[to] + [list[|list| - 1]];
    var held := l.held[from := shorter];
    SumUpdate(Excess(over), l.held, ids, from, shorter);
    SumUpdate(Excess(over), held, ids, to, longer);
    SumUpdate(Deficit(under), l.held, ids, from, shorter);
    SumUpdate(Deficit(under), held, ids, to, longer);
  }

  // The loop runs until nobody is above High or nobody below Low; those bounds stay what they are,
  // and each theft lowers all four sums by one.
  lemma {:induction false} LevelEnds(l: Layout, ids: seq<string>, target: nat, n: nat)
    requires Members(ids, l.held) && Distinct(ids) && NamelessFirst(ids) && target <= n
    ensures var m, high, low := Level(l, ids, target, n), High(l.held, ids, target), Low(l.held, ids, target);
            && ("" in ids ==> m.held[""] == l.held[""])
            && (Sum(Excess(high), m.held, ids) == 0 || Sum(Deficit(low), m.held, ids) == 0)
            && var k := Sum(Excess(high), l.held, ids) - Sum(Excess(high), m.held, ids);
               && k >= 0
               && Sum(Excess(target + 1), l.held, ids) - Sum(Excess(target + 1), m.held, ids) == k
               && Sum(Deficit(target), l.held, ids) - Sum(Deficit(target), m.held, ids) == k
               && Sum(Deficit(low), l.held, ids) - Sum(Deficit(low), m.held, ids) == k
    decreases Sum(Excess(target + 1), l.held, ids)
  {
    hide Sum, Fullest, Emptiest, Steal, Distinct;
    var high, low := High(l.held, ids, target), Low(l.held, ids, target);
    Finds(l.held, ids, target, n);
    if !Stops(l.held, ids, target, n) {
      var from, to := Fullest(l.held, ids, target).0, Emptiest(l.held, ids, target, n).0;
      TheftSums(l, ids, high, low, from, to);
      TheftSums(l, ids, target + 1, target, from, to);
      StealElsewhere(l, from, to, "");
      LevelEnds(Pass(l, ids, target, n), ids, target, n);
    }
  }

  lemma StealElsewhere(l: Layout, from: string, to: string, id: string)
    requires from in l.held && to in l.held && l.held[from] != [] && id != from && id != to
    ensures id in l.held ==> Steal(l, from, to).held[id] == l.held[id]
  {
  }

  // The loop gets where it wants unless it is stopped by a member without a name: one that holds too much
  // while the excess over what it holds does not make up for the deficit, or one that holds too little
  // while the deficit below what it holds does not make up for the excess.
  predicate NotHidden(held: Held, ids: seq<string>, target: nat)
    requires Members(ids, held)
  {
    "" in ids ==>
      var c := |held[""]|;
      && (c > target + 1 ==> Sum(Excess(c), held, ids) >= Sum(Deficit(target), held, ids))
      && (c < target ==> Sum(Deficit(c), held, ids) >= Sum(Excess(target + 1), held, ids))
  }

  lemma SettledSums(held: Held, ids: seq<string>, target: nat)
    requires Members(ids, held)
    ensures Settled(held, ids, target) <==> Sum(Excess(target + 1), held, ids) == 0 || Sum(Deficit(target), held, ids) == 0
  {
    hide Sum;
    SumZero(Excess(target + 1), held, ids);
    SumZero(Deficit(target), held, ids);
  }

  // A member without a name counts towards the sums itself.
  lemma NamelessSums(held: Held, ids: seq<string>, target: nat)
    requires Members(ids, held) && "" in ids
    ensures |held[""]| > target + 1 ==> Sum(Excess(target + 1), held, ids) > 0
    ensures |held[""]| < target ==> Sum(Deficit(target), held, ids) > 0
  {
    hide Sum;
    SumZero(Excess(target + 1), held, ids);
    SumZero(Deficit(target), held, ids);
  }

  // The steal loop ends with nobody above target + 1 or nobody below target if and only if
  // no member without a name hides what is left to do.
  lemma StickyEnds(l: Layout, ids: seq<string>, prev: Owner, n: nat)
    requires Blank(l) && ids != [] && Members(ids, l.held) && Distinct(ids) && NamelessFirst(ids)
    ensures var target := Target(n, |ids|);
            Settled(Sticky(l, ids, prev, n).held, ids, target) <==> NotHidden(Filled(l, ids, prev, n).held, ids, target)
  {
    hide Filled, Level, Sum, Distinct, Settled;
    var f, target := Filled(l, ids, prev, n), Target(n, |ids|);
    LevelEnds(f, ids, target, n);
    var m := Level(f, ids, target, n);
    SettledSums(m.held, ids, target);
    if "" in ids { NamelessSums(m.held, ids, target); }
  }

  // The sticky result is balanced if and only if the excess over target + 1 among the previous holdings is what is left
  // of the deficit below target after the orphaned partitions, and a member without a name ends phase 3 in between.
  lemma StickyBalanced(l: Layout, ids: seq<string>, prev: Owner, n: nat)
    requires Blank(l) && ids != [] && Members(ids, l.held) && Distinct(ids) && AllIn(l.held, ids) && NamelessFirst(ids)
    ensures var target, kept := Target(n, |ids|), Keep(l, prev, n);
            Balanced(Sticky(l, ids, prev, n).held, ids)
            <==> && Sum(Excess(target + 1), kept.held, ids) == Minus(Sum(Deficit(target), kept.held, ids), |Unassigned(kept.owner, n)|)
                 && ("" in ids ==> target <= |Filled(l, ids, prev, n).held[""]| <= target + 1)
  {
    hide Keep, Fill, Unassigned, Level, Sum, Distinct, Balanced;
    var f, target, kept := Filled(l, ids, prev, n), Target(n, |ids|), Keep(l, prev, n);
    KeptAndLeft(l, ids, prev, n);
    FillSums(kept, ids, Unassigned(kept.owner, n), n);
    LevelEnds(f, ids, target, n);
    StickyTotal(l, ids, prev, n);
    var m := Level(f, ids, target, n);
    BalancedExactly(m.held, ids, n);
    if "" in ids { NamelessSums(m.held, ids, target); }
  }

  lemma StickyTotal(l: Layout, ids: seq<string>, prev: Owner, n: nat)
    requires Blank(l) && ids != [] && Members(ids, l.held) && Distinct(ids) && AllIn(l.held, ids)
    ensures Sum(Total, Sticky(l, ids, prev, n).held, ids) == n
  {
    hide Filled, Level, Sum, Distinct, Inverse, Stops, AllAdjusted;
    var f, target := Filled(l, ids, prev, n), Target(n, |ids|);
    FilledFacts(l, ids, prev, n);
    FilledTotal(l, ids, prev, n);
    SelfAdjusted(f.held, target);
    LevelKeeps(f.held, f, ids, target, n);
  }

  // A member without a name that held everything keeps everything, however many others there are.
  lemma NamelessHoards(l: Layout, ids: seq<string>, prev: Owner, n: nat)
    requires Blank(l) && Members(ids, l.held) && Distinct(ids) && NamelessFirst(ids) && "" in ids && |ids| >= 2
    requires n >= 3 && Target(n, |ids|) >= 1 && forall p: nat :: p < n ==> Owns(prev, p, "")
    ensures !Settled(Sticky(l, ids, prev, n).held, ids, Target(n, |ids|))
  {
    hide Sticky, Settled, Fill, Keep, Sum, Owned, Unassigned, Inverse;
    var kept, target := Keep(l, prev, n), Target(n, |ids|);
    KeepFacts(l, prev, n);
    forall p: nat | p < n ensures p in kept.owner { assert Owns(prev, p, ""); }
    NoneUnassigned(kept.owner, n);
    FillNothing(kept, ids);
    forall i | 0 <= i < |ids| ensures |kept.held[ids[i]]| == if ids[i] == "" then n else 0 {
      KeptIsOwned(l, prev, n, ids[i]);
      OwnsAll(prev, n, ids[i]);
    }
    HalfAtMost(n, |ids|);
    assert ids[1] != "";
    SumZero(Excess(n), kept.held, ids);
    SumZero(Deficit(target), kept.held, ids);
    StickyEnds(l, ids, prev, n);
  }

  lemma {:induction false} OwnsAll(prev: Owner, k: nat, id: string)
    requires forall p: nat :: p < k ==> Owns(prev, p, "")
    ensures Owned(prev, id, k) == if id == "" then k else 0
  {
    if k > 0 {
      OwnsAll(prev, k - 1, id);
      assert Owns(prev, k - 1, "");
    }
  }

  lemma HalfAtMost(n: nat, m: nat)
    requires m >= 2
    ensures 2 * (n / m) <= n
  {
    assert n == n / m * m + n % m;
    TwiceAtMost(n / m, m);
  }

  lemma TwiceAtMost(q: nat, m: nat)
    requires m >= 2
    ensures 2 * q <= q * m
  {
    assert q * m == q * (m - 2) + 2 * q;
    assert q * (m - 2) >= 0;
  }

  // Three partitions, all held by a member without a name; b joins. The target is 1, and b gets none.
  lemma HiddenExample()
    ensures var blank := Layout(map["" := [], "b" := []], map[]);
            var prev: Owner := map[0 := "", 1 := "", 2 := ""];
            Distinct(["", "b"]) && !Settled(Sticky(blank, ["", "b"], prev, 3).held, ["", "b"], 1)
  {
    hide Sticky, Settled;
    NamelessHoards(Layout(map["" := [], "b" := []], map[]), ["", "b"], map[0 := "", 1 := "", 2 := ""], 3);
  }

  lemma FillNothing(l: Layout, ids: seq<string>)
    requires ids != [] && Members(ids, l.held)
    ensures Fill(l, ids, []) == l
  {
  }

  lemma {:induction false} NoneUnassigned(owner: Owner, k: nat)
    requires forall p: nat :: p < k ==> p in owner
    ensures Unassigned(owner, k) == []
  {
    if k > 0 { NoneUnassigned(owner, k - 1); }
  }
}
