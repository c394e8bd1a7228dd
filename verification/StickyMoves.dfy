/** The steal loop of rebalanceSticky moves as few partitions as any way to reach what it is after. */
module StickyMoves {
  import opened GroupLayouts
  import opened StickyLayout
  import opened StickyResults

  // The number of partitions below n that leave a member between two assignments,
  function Leaving(a: Owner, b: Owner, id: string, n: nat): nat {
    if n == 0 then 0 else Leaving(a, b, id, n - 1) + if Owns(a, n - 1, id) && !Owns(b, n - 1, id) then 1 else 0
  }

  // and that change hands at all.
  function Changed(a: Owner, b: Owner, n: nat): nat {
    if n == 0 then 0 else Changed(a, b, n - 1) + if n - 1 in a && n - 1 in b && a[n - 1] != b[n - 1] then 1 else 0
  }

  function LeavingAll(a: Owner, b: Owner, ids: seq<string>, n: nat): nat {
    if ids == [] then 0 else LeavingAll(a, b, ids[..|ids| - 1], n) + Leaving(a, b, ids[|ids| - 1], n)
  }

  lemma {:induction false} LeavingBound(a: Owner, b: Owner, id: string, n: nat)
    ensures Leaving(a, b, id, n) >= Owned(a, id, n) - Owned(b, id, n)
  {
    if n > 0 { LeavingBound(a, b, id, n - 1); }
  }

  // --- a member's list is as long as the number of partitions it owns ---

  function Elements(list: seq<nat>): set<nat> { set p | p in list }

  lemma {:induction false} DistinctSize(list: seq<nat>)
    requires forall i, j :: 0 <= i < j < |list| ==> list[i] != list[j]
    ensures |Elements(list)| == |list|
  {
    if list != [] {
      var n := |list| - 1;
      DistinctSize(list[..n]);
      assert list == list[..n] + [list[n]];
      assert Elements(list) == Elements(list[..n]) + {list[n]};
    }
  }

  lemma {:induction false} OwnedSize(owner: Owner, id: string, n: nat, s: set<nat>)
    requires forall p: nat :: p in s <==> p < n && Owns(owner, p, id)
    ensures Owned(owner, id, n) == |s|
  {
    if n == 0 {
      assert s == {};
    } else if Owns(owner, n - 1, id) {
      OwnedSize(owner, id, n - 1, s - {n - 1});
    } else {
      OwnedSize(owner, id, n - 1, s);
    }
  }

  lemma OwnedIsLength(l: Layout, id: string, n: nat)
    requires Covering(l, n) && id in l.held
    ensures Owned(l.owner, id, n) == |l.held[id]|
  {
    var list := l.held[id];
    assert ListOf(l.owner, id, list);
    forall p: nat ensures p in Elements(list) <==> p < n && Owns(l.owner, p, id) {
      if p < n && Owns(l.owner, p, id) { assert Listed(l.held, id, p); }
    }
    DistinctSize(list);
    OwnedSize(l.owner, id, n, Elements(list));
  }

  // --- every change is somebody's loss, and somebody's gain ---

  ghost predicate OwnersIn(a: Owner, ids: seq<string>, n: nat) { forall p: nat :: p < n ==> p in a && a[p] in ids }

  // One more partition adds to the sum over members what it adds for its owner.
  lemma {:induction false} LeavingNext(a: Owner, b: Owner, ids: seq<string>, n: nat)
    requires Distinct(ids) && n in a && n in b
    ensures LeavingAll(a, b, ids, n + 1) == LeavingAll(a, b, ids, n) + if a[n] in ids && a[n] != b[n] then 1 else 0
  {
    if ids != [] {
      var k := |ids| - 1;
      LeavingNext(a, b, ids[..k], n);
      assert ids == ids[..k] + [ids[k]];
      assert ids[k] !in ids[..k];
    }
  }

  lemma {:induction false} ChangesLeave(a: Owner, b: Owner, ids: seq<string>, n: nat)
    requires Distinct(ids) && OwnersIn(a, ids, n) && OwnersIn(b, ids, n)
    ensures LeavingAll(a, b, ids, n) == Changed(a, b, n) == Changed(b, a, n)
  {
    hide LeavingAll;
    if n == 0 {
      NoneLeave(a, b, ids);
    } else {
      ChangesLeave(a, b, ids, n - 1);
      LeavingNext(a, b, ids, n - 1);
    }
  }

  lemma {:induction false} NoneLeave(a: Owner, b: Owner, ids: seq<string>)
    ensures LeavingAll(a, b, ids, 0) == 0
  {
    if ids != [] { NoneLeave(a, b, ids[..|ids| - 1]); }
  }

  lemma CoveringOwners(l: Layout, ids: seq<string>, n: nat)
    requires Covering(l, n) && AllIn(l.held, ids)
    ensures OwnersIn(l.owner, ids, n)
  {
    forall p: nat | p < n ensures p in l.owner && l.owner[p] in ids { assert Listed(l.held, l.owner[p], p); }
  }

  // --- the least number of changes ---

  // Where nobody ends above a bound, at least the excess over it has to leave.
  lemma {:induction false} ExcessLeaves(f: Layout, m: Layout, ids: seq<string>, bound: nat, n: nat)
    requires Covering(f, n) && Covering(m, n) && Members(ids, f.held) && Members(ids, m.held)
    requires forall i :: 0 <= i < |ids| ==> |m.held[ids[i]]| <= bound
    ensures LeavingAll(f.owner, m.owner, ids, n) >= Sum(Excess(bound), f.held, ids)
  {
    hide Covering;
    if ids != [] {
      var k := |ids| - 1;
      ExcessLeaves(f, m, ids[..k], bound, n);
      LeavingBound(f.owner, m.owner, ids[k], n);
      OwnedIsLength(f, ids[k], n);
      OwnedIsLength(m, ids[k], n);
    }
  }

  // Where nobody ends below a bound, at least the deficit has to arrive.
  lemma {:induction false} DeficitArrives(f: Layout, m: Layout, ids: seq<string>, bound: nat, n: nat)
    requires Covering(f, n) && Covering(m, n) && Members(ids, f.held) && Members(ids, m.held)
    requires forall i :: 0 <= i < |ids| ==> |m.held[ids[i]]| >= bound
    ensures LeavingAll(m.owner, f.owner, ids, n) >= Sum(Deficit(bound), f.held, ids)
  {
    hide Covering;
    if ids != [] {
      var k := |ids| - 1;
      DeficitArrives(f, m, ids[..k], bound, n);
      LeavingBound(m.owner, f.owner, ids[k], n);
      OwnedIsLength(f, ids[k], n);
      OwnedIsLength(m, ids[k], n);
    }
  }

  function Min(a: nat, b: nat): nat { if a < b then a else b }

  lemma AtLeast(f: Layout, m: Layout, ids: seq<string>, target: nat, n: nat)
    requires Covering(f, n) && Covering(m, n) && Members(ids, f.held) && Members(ids, m.held)
    requires Distinct(ids) && AllIn(f.held, ids) && AllIn(m.held, ids) && Settled(m.held, ids, target)
    ensures Changed(f.owner, m.owner, n) >= Min(Sum(Excess(target + 1), f.held, ids), Sum(Deficit(target), f.held, ids))
  {
    hide Covering, Sum, Changed, LeavingAll, Distinct;
    CoveringOwners(f, ids, n);
    CoveringOwners(m, ids, n);
    ChangesLeave(f.owner, m.owner, ids, n);
    ChangesLeave(m.owner, f.owner, ids, n);
    if forall i :: 0 <= i < |ids| ==> |m.held[ids[i]]| <= target + 1 {
      ExcessLeaves(f, m, ids, target + 1, n);
    } else {
      DeficitArrives(f, m, ids, target, n);
    }
  }

  // --- what the loop changes ---

  lemma {:induction false} OneMoreChange(a: Owner, b: Owner, p: nat, id: string, n: nat)
    ensures Changed(a, b[p := id], n) <= Changed(a, b, n) + if p < n then 1 else 0
  {
    if n > 0 { OneMoreChange(a, b, p, id, n - 1); }
  }

  lemma {:induction false} NoChange(a: Owner, n: nat)
    ensures Changed(a, a, n) == 0
  {
    if n > 0 { NoChange(a, n - 1); }
  }

  // Each theft changes one owner and lowers the excess by one.
  lemma {:induction false} LevelChanges(a: Owner, l: Layout, ids: seq<string>, target: nat, n: nat)
    requires Members(ids, l.held) && Distinct(ids) && target <= n
    ensures var m := Level(l, ids, target, n);
            Changed(a, m.owner, n) <= Changed(a, l.owner, n) + Sum(Excess(target + 1), l.held, ids) - Sum(Excess(target + 1), m.held, ids)
    decreases Sum(Excess(target + 1), l.held, ids)
  {
    hide Sum, Fullest, Emptiest, Steal, Changed, Distinct;
    if !Stops(l.held, ids, target, n) {
      FullestFacts(l.held, ids, target);
      EmptiestFacts(l.held, ids, target, n);
      var from, to := Fullest(l.held, ids, target).0, Emptiest(l.held, ids, target, n).0;
      StealSums(l, ids, target, from, to);
      StealOwner(l, from, to);
      OneMoreChange(a, l.owner, l.held[from][|l.held[from]| - 1], to, n);
      LevelChanges(a, Pass(l, ids, target, n), ids, target, n);
    }
  }

  lemma StealOwner(l: Layout, from: string, to: string)
    requires from in l.held && to in l.held && l.held[from] != []
    ensures Steal(l, from, to).owner == l.owner[l.held[from][|l.held[from]| - 1] := to]
  {
  }

  // After orphaned partitions have found an owner, the loop moves no more partitions than any other way
  // to end with nobody above target + 1 or nobody below target.
  lemma StickyMovesLeast(l: Layout, ids: seq<string>, prev: Owner, n: nat, other: Layout)
    requires Blank(l) && ids != [] && Members(ids, l.held) && Distinct(ids) && AllIn(l.held, ids)
    requires Covering(other, n) && other.held.Keys == l.held.Keys && Settled(other.held, ids, Target(n, |ids|))
    ensures var before := Filled(l, ids, prev, n).owner;
            Changed(before, Sticky(l, ids, prev, n).owner, n) <= Changed(before, other.owner, n)
  {
    hide Inverse, Filled, Level, Sum, Fullest, Emptiest, Changed, Distinct, Settled, Covering, Stops;
    var f, target := Filled(l, ids, prev, n), Target(n, |ids|);
    FilledFacts(l, ids, prev, n);
    InverseOf(f, n);
    SelfAdjusted(f.held, target);
    LevelKeeps(f.held, f, ids, target, n);
    LevelChanges(f.owner, f, ids, target, n);
    NoChange(f.owner, n);
    AtLeast(f, other, ids, target, n);
  }

  lemma InverseOf(l: Layout, n: nat)
    requires Covering(l, n)
    ensures Inverse(l)
  {
  }
}
