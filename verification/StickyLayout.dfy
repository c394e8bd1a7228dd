/** rebalanceSticky of internal/engine/stream/consumer_group.go, as a function of the previous assignments. */
module StickyLayout {
  import opened GroupLayouts

  // Phase 1: the partitions below k whose owner is still a member stay.
  function Keep(l: Layout, prev: Owner, k: nat): (m: Layout)
    ensures m.held.Keys == l.held.Keys
  {
    if k == 0 then l else
      var m := Keep(l, prev, k - 1);
      if k - 1 in prev && prev[k - 1] in m.held then Give(m, k - 1, prev[k - 1]) else m
  }

  // Phase 2: the partitions below k that nobody has.
  function Unassigned(owner: Owner, k: nat): seq<nat> {
    if k == 0 then [] else Unassigned(owner, k - 1) + if k - 1 in owner then [] else [k - 1]
  }

  // The first of the members with the shortest list.
  function Fewest(held: Held, ids: seq<string>): (id: string)
    requires ids != [] && Members(ids, held)
    ensures id in ids && id in held
  {
    var n := |ids| - 1;
    if n == 0 then ids[0] else
      var c := Fewest(held, ids[..n]);
      if |held[ids[n]]| < |held[c]| then ids[n] else c
  }

  // Phase 3: each of them goes to whoever then has the fewest.
  function Fill(l: Layout, ids: seq<string>, todo: seq<nat>): (m: Layout)
    requires ids != [] && Members(ids, l.held)
    ensures m.held.Keys == l.held.Keys
  {
    if todo == [] then l else
      var m := Fill(l, ids, todo[..|todo| - 1]);
      Give(m, todo[|todo| - 1], Fewest(m.held, ids))
  }

  // Phase 4 looks for the longest list above target + 1 and the shortest below target;
  // an empty name stands for none.
  function Fullest(held: Held, ids: seq<string>, target: nat): (string, nat)
    requires Members(ids, held)
  {
    if ids == [] then ("", 0) else
      var n := |ids| - 1;
      var best := Fullest(held, ids[..n], target);
      var count := |held[ids[n]]|;
      if count > target + 1 && count > best.1 then (ids[n], count) else best
  }

  function Emptiest(held: Held, ids: seq<string>, target: nat, n: nat): (string, nat)
    requires Members(ids, held)
  {
    if ids == [] then ("", n + 1) else
      var k := |ids| - 1;
      var best := Emptiest(held, ids[..k], target, n);
      var count := |held[ids[k]]|;
      if count < target && count < best.1 then (ids[k], count) else best
  }

  // The last partition of one member goes to another.
  function Steal(l: Layout, from: string, to: string): Layout
    requires from in l.held && to in l.held && l.held[from] != []
  {
    var list := l.held[from];
    var p := list[|list| - 1];
    var held := l.held[from := list[..|list| - 1]];
    Layout(held[to := held[to] + [p]], l.owner[p := to])
  }

  lemma {:induction false} FullestFacts(held: Held, ids: seq<string>, target: nat)
    requires Members(ids, held)
    ensures var (id, count) := Fullest(held, ids, target);
            (id == "" && count == 0) || (id in ids && id in held && |held[id]| == count > target + 1)
    ensures forall i :: 0 <= i < |ids| && |held[ids[i]]| > target + 1 ==> |held[ids[i]]| <= Fullest(held, ids, target).1
  {
    if ids != [] {
      var n := |ids| - 1;
      FullestFacts(held, ids[..n], target);
      assert forall i :: 0 <= i < n ==> ids[..n][i] == ids[i];
    }
  }

  lemma {:induction false} EmptiestFacts(held: Held, ids: seq<string>, target: nat, n: nat)
    requires Members(ids, held) && target <= n
    ensures var (id, count) := Emptiest(held, ids, target, n);
            (id == "" && count == n + 1) || (id in ids && id in held && |held[id]| == count < target)
    ensures forall i :: 0 <= i < |ids| && |held[ids[i]]| < target ==> |held[ids[i]]| >= Emptiest(held, ids, target, n).1
  {
    if ids != [] {
      var k := |ids| - 1;
      EmptiestFacts(held, ids[..k], target, n);
      assert forall i :: 0 <= i < k ==> ids[..k][i] == ids[i];
    }
  }

  predicate Stops(held: Held, ids: seq<string>, target: nat, n: nat)
    requires Members(ids, held)
  {
    Fullest(held, ids, target).0 == "" || Emptiest(held, ids, target, n).0 == ""
  }

  // One theft takes one from the excess over target + 1 and one from the deficit below target.
  lemma StealSums(l: Layout, ids: seq<string>, target: nat, from: string, to: string)
    requires Members(ids, l.held) && Distinct(ids) && from in ids && to in ids
    requires |l.held[from]| > target + 1 && |l.held[to]| < target
    ensures Members(ids, Steal(l, from, to).held)
    ensures Sum(Excess(target + 1), Steal(l, from, to).held, ids) == Sum(Excess(target + 1), l.held, ids) - 1
    ensures Sum(Deficit(target), Steal(l, from, to).held, ids) == Sum(Deficit(target), l.held, ids) - 1
    ensures Sum(Total, Steal(l, from, to).held, ids) == Sum(Total, l.held, ids)
  {
    hide Sum;
    var list := l.held[from];
    var shorter := list[..|list| - 1];
    var longer := l.held[to] + [list[|list| - 1]];
    var held := l.held[from := shorter];
    SumUpdate(Excess(target + 1), l.held, ids, from, shorter);
    SumUpdate(Excess(target + 1), held, ids, to, longer);
    SumUpdate(Deficit(target), l.held, ids, from, shorter);
    SumUpdate(Deficit(target), held, ids, to, longer);
    SumUpdate(Total, l.held, ids, from, shorter);
    SumUpdate(Total, held, ids, to, longer);
  }

  // One pass of phase 4.
  function Pass(l: Layout, ids: seq<string>, target: nat, n: nat): (m: Layout)
    requires Members(ids, l.held) && Distinct(ids) && target <= n && !Stops(l.held, ids, target, n)
    ensures m.held.Keys == l.held.Keys
    ensures Sum(Excess(target + 1), m.held, ids) < Sum(Excess(target + 1), l.held, ids)
  {
    FullestFacts(l.held, ids, target);
    EmptiestFacts(l.held, ids, target, n);
    var from, to := Fullest(l.held, ids, target).0, Emptiest(l.held, ids, target, n).0;
    StealSums(l, ids, target, from, to);
    Steal(l, from, to)
  }

  // Phase 4: thefts until there is nobody to steal from or nobody to steal for.
  function Level(l: Layout, ids: seq<string>, target: nat, n: nat): (m: Layout)
    requires Members(ids, l.held) && Distinct(ids) && target <= n
    ensures m.held.Keys == l.held.Keys
    decreases Sum(Excess(target + 1), l.held, ids)
  {
    if Stops(l.held, ids, target, n) then l else Level(Pass(l, ids, target, n), ids, target, n)
  }

  // One pass, seen from the loop.
  lemma LevelStep(l: Layout, ids: seq<string>, target: nat, n: nat)
    requires Members(ids, l.held) && Distinct(ids) && target <= n
    ensures var from, to := Fullest(l.held, ids, target).0, Emptiest(l.held, ids, target, n).0;
            if from == "" || to == "" then Level(l, ids, target, n) == l else
              && from in l.held && to in l.held && l.held[from] != []
              && var m := Steal(l, from, to);
                 && Members(ids, m.held) && Level(l, ids, target, n) == Level(m, ids, target, n)
                 && Sum(Excess(target + 1), m.held, ids) < Sum(Excess(target + 1), l.held, ids)
  {
    hide Sum, Fullest, Emptiest, Steal;
    FullestFacts(l.held, ids, target);
    EmptiestFacts(l.held, ids, target, n);
    if !Stops(l.held, ids, target, n) {
      var from, to := Fullest(l.held, ids, target).0, Emptiest(l.held, ids, target, n).0;
      StealSums(l, ids, target, from, to);
    }
  }

  function Target(n: nat, members: nat): (target: nat)
    requires members > 0
    ensures target <= n
  {
    DivisionShrinks(n, members);
    n / members
  }

  lemma DivisionShrinks(n: nat, m: nat)
    requires m > 0
    ensures 0 <= n / m <= n
  {
    var q := n / m;
    assert q >= 0 && q * m <= n;
    assert q * m == q * (m - 1) + q;
    assert q * (m - 1) >= 0;
  }

  // Phases 1 to 3, starting from empty lists.
  function Filled(l: Layout, ids: seq<string>, prev: Owner, n: nat): (m: Layout)
    requires ids != [] && Members(ids, l.held)
    ensures m.held.Keys == l.held.Keys
  {
    var kept := Keep(l, prev, n);
    Fill(kept, ids, Unassigned(kept.owner, n))
  }

  function Sticky(l: Layout, ids: seq<string>, prev: Owner, n: nat): (m: Layout)
    requires ids != [] && Members(ids, l.held) && Distinct(ids)
    ensures m.held.Keys == l.held.Keys
  {
    Level(Filled(l, ids, prev, n), ids, Target(n, |ids|), n)
  }

  // --- the lists and the map stay inverse, and cover every partition ---

  lemma StealKeeps(l: Layout, from: string, to: string)
    requires Inverse(l) && from in l.held && to in l.held && from != to && l.held[from] != []
    ensures Inverse(Steal(l, from, to)) && Steal(l, from, to).owner.Keys == l.owner.Keys
  {
    var m := Steal(l, from, to);
    var list := l.held[from];
    var k := |list| - 1;
    assert ListOf(l.owner, from, list);
    assert list[k] in l.owner;
    forall q | q in m.owner ensures Listed(m.held, m.owner[q], q) {
      if q == list[k] {
        assert m.held[to][|l.held[to]|] == q;
      } else {
        assert Listed(l.held, l.owner[q], q);
        if l.owner[q] == from {
          var i :| 0 <= i < |list| && list[i] == q;
          assert m.held[from][i] == q;
        }
      }
    }
    forall x | x in m.held ensures ListOf(m.owner, x, m.held[x]) {
      assert ListOf(l.owner, x, l.held[x]);
      if x != from && x != to && l.held[x] != [] {
        assert forall i :: 0 <= i < |l.held[x]| ==> l.held[x][i] != list[k];
      }
    }
  }

  // What phase 4 may do to the list of one member: cut it down to no less than target + 1,
  // lengthen it to no more than target, or leave it.
  predicate Adjusted(before: seq<nat>, after: seq<nat>, target: nat) {
    || after == before
    || (after <= before && target + 1 <= |after| < |before|)
    || (before <= after && |before| < |after| <= target)
  }

  ghost predicate AllAdjusted(before: Held, after: Held, target: nat) {
    before.Keys == after.Keys && forall id :: id in before ==> Adjusted(before[id], after[id], target)
  }

  lemma AdjustedOn(before: Held, l: Layout, from: string, to: string, target: nat)
    requires AllAdjusted(before, l.held, target)
    requires from in l.held && to in l.held && |l.held[from]| > target + 1 && |l.held[to]| < target
    ensures AllAdjusted(before, Steal(l, from, to).held, target)
  {
    var m := Steal(l, from, to);
    forall id | id in before ensures Adjusted(before[id], m.held[id], target) {
      assert Adjusted(before[id], l.held[id], target);
    }
  }

  // Phase 4 as a whole.
  lemma {:induction false} LevelKeeps(start: Held, l: Layout, ids: seq<string>, target: nat, n: nat)
    requires Members(ids, l.held) && Distinct(ids) && target <= n && Inverse(l) && AllAdjusted(start, l.held, target)
    ensures var m := Level(l, ids, target, n);
            && Inverse(m) && m.owner.Keys == l.owner.Keys && Stops(m.held, ids, target, n)
            && AllAdjusted(start, m.held, target)
            && Sum(Total, m.held, ids) == Sum(Total, l.held, ids)
            && Sum(Excess(target + 1), l.held, ids) - Sum(Excess(target + 1), m.held, ids)
               == Sum(Deficit(target), l.held, ids) - Sum(Deficit(target), m.held, ids) >= 0
    decreases Sum(Excess(target + 1), l.held, ids)
  {
    hide Inverse, AllAdjusted, Sum, Fullest, Emptiest, Steal;
    if !Stops(l.held, ids, target, n) {
      FullestFacts(l.held, ids, target);
      EmptiestFacts(l.held, ids, target, n);
      var from, to := Fullest(l.held, ids, target).0, Emptiest(l.held, ids, target, n).0;
      StealSums(l, ids, target, from, to);
      StealKeeps(l, from, to);
      AdjustedOn(start, l, from, to, target);
      LevelKeeps(start, Pass(l, ids, target, n), ids, target, n);
    }
  }

  // A layout before anything is given out.
  predicate Blank(l: Layout) { l.owner == map[] && forall id :: id in l.held ==> l.held[id] == [] }

  lemma {:induction false} KeepFacts(l: Layout, prev: Owner, k: nat)
    requires Blank(l)
    ensures var m := Keep(l, prev, k);
            Inverse(m) && forall p: nat :: (p in m.owner <==> p < k && p in prev && prev[p] in l.held)
                                         && (p in m.owner ==> m.owner[p] == prev[p])
  {
    hide Inverse, Give;
    if k == 0 {
      BlankInverse(l);
    } else {
      KeepFacts(l, prev, k - 1);
      var m := Keep(l, prev, k - 1);
      if k - 1 in prev && prev[k - 1] in m.held {
        GiveKeeps(m, k - 1, prev[k - 1]);
        GiveOwner(m, k - 1, prev[k - 1]);
      }
    }
  }

  lemma BlankInverse(l: Layout)
    requires Blank(l)
    ensures Inverse(l)
  {
  }

  lemma GiveOwner(l: Layout, p: nat, id: string)
    requires id in l.held
    ensures Give(l, p, id).owner == l.owner[p := id]
  {
  }

  lemma {:induction false} UnassignedFacts(owner: Owner, k: nat)
    ensures forall i :: 0 <= i < |Unassigned(owner, k)| ==> Unassigned(owner, k)[i] < k && Unassigned(owner, k)[i] !in owner
    ensures forall i, j :: 0 <= i < j < |Unassigned(owner, k)| ==> Unassigned(owner, k)[i] != Unassigned(owner, k)[j]
    ensures forall p: nat :: p < k && p !in owner ==> p in Unassigned(owner, k)
  {
    if k > 0 {
      UnassignedFacts(owner, k - 1);
    }
  }

  // Phase 3 gives out what was left and touches nothing else.
  lemma {:induction false} FillFacts(l: Layout, ids: seq<string>, todo: seq<nat>)
    requires ids != [] && Members(ids, l.held) && Inverse(l)
    requires forall i :: 0 <= i < |todo| ==> todo[i] !in l.owner
    requires forall i, j :: 0 <= i < j < |todo| ==> todo[i] != todo[j]
    ensures var m := Fill(l, ids, todo);
            Inverse(m) && (forall p: nat :: p in m.owner <==> p in l.owner || p in todo)
            && (forall p :: p in l.owner ==> m.owner[p] == l.owner[p])
  {
    hide Inverse, Give, Fewest;
    if todo != [] {
      var n := |todo| - 1;
      var rest := todo[..n];
      FillFacts(l, ids, rest);
      var m := Fill(l, ids, rest);
      assert todo == rest + [todo[n]];
      assert todo[n] !in rest;
      GiveKeeps(m, todo[n], Fewest(m.held, ids));
      GiveOwner(m, todo[n], Fewest(m.held, ids));
    }
  }

  lemma FilledFacts(l: Layout, ids: seq<string>, prev: Owner, n: nat)
    requires Blank(l) && ids != [] && Members(ids, l.held)
    ensures Covering(Filled(l, ids, prev, n), n)
    ensures forall p: nat :: p < n && p in prev && prev[p] in l.held ==> p in Filled(l, ids, prev, n).owner && Filled(l, ids, prev, n).owner[p] == prev[p]
  {
    hide Inverse, Keep, Unassigned, Fill;
    KeepFacts(l, prev, n);
    var kept := Keep(l, prev, n);
    UnassignedFacts(kept.owner, n);
    FillFacts(kept, ids, Unassigned(kept.owner, n));
  }

  // The sticky allocator gives every partition one owner.
  lemma StickyCovers(l: Layout, ids: seq<string>, prev: Owner, n: nat)
    requires Blank(l) && ids != [] && Members(ids, l.held) && Distinct(ids)
    ensures Covering(Sticky(l, ids, prev, n), n)
  {
    hide Inverse, Filled, Level, Stops, AllAdjusted, Sum;
    var f := Filled(l, ids, prev, n);
    FilledFacts(l, ids, prev, n);
    SelfAdjusted(f.held, Target(n, |ids|));
    LevelKeeps(f.held, f, ids, Target(n, |ids|), n);
    assert forall p: nat :: p in f.owner.Keys <==> p < n;
  }

  lemma SelfAdjusted(held: Held, target: nat)
    ensures AllAdjusted(held, held, target)
  {
  }

  // No two lists differ in length by more than one.
  predicate Balanced(held: Held, ids: seq<string>)
    requires Members(ids, held)
  {
    forall i, j :: 0 <= i < |ids| && 0 <= j < |ids| ==> |held[ids[i]]| <= |held[ids[j]]| + 1
  }
}
