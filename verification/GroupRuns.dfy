/** Whole runs of a consumer group: any order of joins, leaves, expiries and rebalances, one lock hold at a time. */
module GroupRuns {
  import opened GroupLayouts
  import opened StickyLayout
  import opened StickyResults
  import opened ConsumerGroups

  ghost predicate Run(strategy: Strategy, n: nat, states: seq<Layout>, steps: seq<Step>) {
    |states| == |steps| + 1 && states[0] == Layout(map[], map[])
    && forall i :: 0 <= i < |steps| ==> Next(strategy, n, states[i], steps[i], states[i + 1])
  }

  lemma RebalanceCovers(strategy: Strategy, n: nat, a: Layout, b: Layout)
    requires Rebalanced(strategy, n, a, b)
    ensures if a.held == map[] then b.owner == map[] else Covering(b, n)
  {
    hide Allocates, Covering, Names, Blank;
    if a.held != map[] {
      var ids, blank: Layout :| ids != [] && blank.held.Keys == a.held.Keys && Blank(blank) && Names(ids, blank.held)
                                && Allocates(strategy, n, ids, blank, a.owner, b);
      AllocationCovers(strategy, n, ids, blank, a.owner, b);
    }
  }

  // In every run, right after each rebalance of a group with members every partition has exactly one owner,
  // a current member; and at every moment the assignments name all partitions or none.
  lemma {:induction false} EveryPartitionOwned(strategy: Strategy, n: nat, states: seq<Layout>, steps: seq<Step>, k: nat)
    requires Run(strategy, n, states, steps) && k < |states|
    ensures states[k].owner == map[] || forall p: nat :: p in states[k].owner <==> p < n
    ensures k > 0 && steps[k - 1] == Reshare && states[k].held != map[] ==> Covering(states[k], n)
  {
    hide Inverse, Rebalanced;
    if k > 0 {
      EveryPartitionOwned(strategy, n, states, steps, k - 1);
      var a, b := states[k - 1], states[k];
      assert Next(strategy, n, a, steps[k - 1], b);
      if steps[k - 1] == Reshare {
        RebalanceCovers(strategy, n, a, b);
        SameMembers(strategy, n, a, b);
      }
    }
  }

  lemma SameMembers(strategy: Strategy, n: nat, a: Layout, b: Layout)
    requires Rebalanced(strategy, n, a, b)
    ensures a.held == map[] <==> b.held == map[]
  {
    hide Allocates, Blank, Names;
    assert a.held.Keys == {} <==> a.held == map[];
    assert b.held.Keys == {} <==> b.held == map[];
  }

  // Between rebalances nothing is reassigned.
  lemma {:induction false} OwnersRest(strategy: Strategy, n: nat, states: seq<Layout>, steps: seq<Step>, i: nat, j: nat)
    requires Run(strategy, n, states, steps) && i <= j < |states|
    requires forall k :: i <= k < j ==> steps[k] != Reshare
    ensures states[j].owner == states[i].owner
  {
    hide Rebalanced;
    if i < j {
      OwnersRest(strategy, n, states, steps, i, j - 1);
      assert Next(strategy, n, states[j - 1], steps[j - 1], states[j]);
    }
  }

  // Stickiness over runs: from one rebalance to the next, a partition leaves an owner who is still there
  // only if that owner held more than target + 1, and the owner ends with at least target + 1 of them.
  lemma OwnersStick(n: nat, states: seq<Layout>, steps: seq<Step>, i: nat, j: nat, p: nat)
    requires Run(StickyStrategy, n, states, steps) && i <= j < |steps| && steps[j] == Reshare
    requires forall k :: i <= k < j ==> steps[k] != Reshare
    requires p in states[i].owner && p < n && states[i].owner[p] in states[j].held
    ensures var id, after := states[i].owner[p], states[j + 1];
            p in after.owner && id in after.held
            && var target := n / |after.held|;
               || after.owner[p] == id
               || (Owned(states[i].owner, id, n) > target + 1 && |after.held[id]| >= target + 1
                   && forall q :: q in after.held[id] ==> Owns(states[i].owner, q, id))
  {
    hide Names, Blank, Sticky, Filled, Inverse, Owned, Owns;
    OwnersRest(StickyStrategy, n, states, steps, i, j);
    var a, b := states[j], states[j + 1];
    assert Next(StickyStrategy, n, a, steps[j], b);
    var id := a.owner[p];
    assert a.held != map[];
    var ids, blank: Layout :| ids != [] && blank.held.Keys == a.held.Keys && Blank(blank) && Names(ids, blank.held)
                              && Allocates(StickyStrategy, n, ids, blank, a.owner, b);
    NamesFacts(ids, blank.held);
    StickyKeeps(blank, ids, a.owner, n, p);
    assert |b.held| == |b.held.Keys| == |blank.held|;
  }

  lemma NamesFacts(ids: seq<string>, held: Held)
    requires Names(ids, held)
    ensures Members(ids, held) && Distinct(ids) && |ids| == |held|
  {
    SortedDistinct(ids);
    CountDistinct(ids, held.Keys);
  }

  lemma {:induction false} CountDistinct(ids: seq<string>, names: set<string>)
    requires Distinct(ids) && forall id :: id in ids <==> id in names
    ensures |ids| == |names|
  {
    if ids == [] {
      assert names == {};
    } else {
      var n := |ids| - 1;
      var rest := ids[..n];
      assert ids == rest + [ids[n]];
      assert ids[n] !in rest;
      forall id ensures id in rest <==> id in names - {ids[n]} { assert id in ids <==> id in rest || id == ids[n]; }
      CountDistinct(rest, names - {ids[n]});
    }
  }
}
