/** Who holds which partition of a consumer group: the state that internal/engine/stream/consumer_group.go rearranges. */
module GroupLayouts {
  type Held = map<string, seq<nat>>

  type Owner = map<nat, string>

  // held is each member's Partitions list, owner the group's assignments map.
  datatype Layout = Layout(held: Held, owner: Owner)

  predicate ListOf(owner: Owner, id: string, list: seq<nat>) {
    (forall i :: 0 <= i < |list| ==> list[i] in owner && owner[list[i]] == id)
    && (forall i, j :: 0 <= i < j < |list| ==> list[i] != list[j])
  }

  predicate Listed(held: Held, id: string, p: nat) { id in held && p in held[id] }

  // The lists and the map are inverse to each other: each partition in the map is in the list of its owner, a member,
  // and in no other place.
  predicate Inverse(l: Layout) {
    (forall p :: p in l.owner ==> Listed(l.held, l.owner[p], p))
    && (forall id :: id in l.held ==> ListOf(l.owner, id, l.held[id]))
  }

  // Every partition below n has exactly one owner, and the owner is a member.
  ghost predicate Covering(l: Layout, n: nat) {
    Inverse(l) && forall p: nat :: p in l.owner <==> p < n
  }

  predicate Distinct(ids: seq<string>) { forall i, j :: 0 <= i < j < |ids| ==> ids[i] != ids[j] }

  predicate Members(ids: seq<string>, held: Held) { forall i :: 0 <= i < |ids| ==> ids[i] in held }

  predicate AllIn(held: Held, ids: seq<string>) { forall id :: id in held ==> id in ids }

  // --- sorted member names ---

  // Byte-wise order, as sort.Strings has it.
  predicate Less(a: string, b: string) {
    b != [] && (a == [] || a[0] < b[0] || (a[0] == b[0] && Less(a[1..], b[1..])))
  }

  predicate Sorted(ids: seq<string>) { forall i, j :: 0 <= i < j < |ids| ==> Less(ids[i], ids[j]) }

  lemma {:induction false} Trichotomy(a: string, b: string)
    ensures Less(a, b) || a == b || Less(b, a)
    ensures !(Less(a, b) && Less(b, a)) && !Less(a, a)
  {
    if a != [] && b != [] {
      Trichotomy(a[1..], b[1..]);
      if a[0] == b[0] && a[1..] == b[1..] { assert a == [a[0]] + a[1..] == b; }
    }
    if a != [] { Trichotomy(a[1..], a[1..]); }
  }

  lemma {:induction false} Transitive(a: string, b: string, c: string)
    requires Less(a, b) && Less(b, c)
    ensures Less(a, c)
  {
    if a != [] && a[0] == b[0] == c[0] { Transitive(a[1..], b[1..], c[1..]); }
  }

  lemma SortedDistinct(ids: seq<string>)
    requires Sorted(ids)
    ensures Distinct(ids)
  {
    forall i, j | 0 <= i < j < |ids| ensures ids[i] != ids[j] { Trichotomy(ids[i], ids[j]); }
  }

  // A set of names has one sorted listing, whatever order the map gave them in.
  lemma {:induction false} SortedUnique(a: seq<string>, b: seq<string>)
    requires Sorted(a) && Sorted(b) && forall x :: x in a <==> x in b
    ensures a == b
  {
    assert (a != [] ==> a[0] in a) && (b != [] ==> b[0] in b);
    if a != [] && b != [] {
      assert a[0] in b && b[0] in a;
      var i :| 0 <= i < |b| && b[i] == a[0];
      var j :| 0 <= j < |a| && a[j] == b[0];
      Trichotomy(a[0], b[0]);
      assert a[0] == b[0];
      SortedDistinct(a);
      SortedDistinct(b);
      forall x ensures x in a[1..] <==> x in b[1..] {
        assert x in a <==> x == a[0] || x in a[1..];
        assert x in b <==> x == b[0] || x in b[1..];
      }
      SortedUnique(a[1..], b[1..]);
      assert a == [a[0]] + a[1..] && b == [b[0]] + b[1..];
    }
  }

  // --- giving out one partition ---

  function Give(l: Layout, p: nat, id: string): Layout
    requires id in l.held
  {
    Layout(l.held[id := l.held[id] + [p]], l.owner[p := id])
  }

  lemma GiveKeeps(l: Layout, p: nat, id: string)
    requires Inverse(l) && id in l.held && p !in l.owner
    ensures Inverse(Give(l, p, id)) && Give(l, p, id).held.Keys == l.held.Keys
  {
    var m := Give(l, p, id);
    forall q | q in m.owner ensures Listed(m.held, m.owner[q], q) {
      if q != p { assert Listed(l.held, l.owner[q], q); }
    }
    forall x | x in m.held ensures ListOf(m.owner, x, m.held[x]) {
      assert ListOf(l.owner, x, l.held[x]);
    }
  }

  // --- counting ---

  predicate Owns(owner: Owner, p: nat, id: string) { p in owner && owner[p] == id }

  // The number of partitions below n that a member owns.
  function Owned(a: Owner, id: string, n: nat): nat {
    if n == 0 then 0 else Owned(a, id, n - 1) + if Owns(a, n - 1, id) then 1 else 0
  }

  // --- sums over the members ---

  datatype Measure = Total | Excess(over: nat) | Deficit(under: nat)

  function Weigh(m: Measure, count: nat): nat {
    match m
    case Total => count
    case Excess(over) => if count > over then count - over else 0
    case Deficit(under) => if count < under then under - count else 0
  }

  function Sum(m: Measure, held: Held, ids: seq<string>): nat
    requires Members(ids, held)
  {
    if ids == [] then 0 else
      Sum(m, held, ids[..|ids| - 1]) + Weigh(m, |held[ids[|ids| - 1]]|)
  }

  lemma {:induction false} SumElsewhere(m: Measure, held: Held, ids: seq<string>, id: string, list: seq<nat>)
    requires Members(ids, held) && id !in ids
    ensures Sum(m, held[id := list], ids) == Sum(m, held, ids)
  {
    if ids != [] { SumElsewhere(m, held, ids[..|ids| - 1], id, list); }
  }

  lemma {:induction false} SumUpdate(m: Measure, held: Held, ids: seq<string>, id: string, list: seq<nat>)
    requires Members(ids, held) && Distinct(ids) && id in ids
    ensures Sum(m, held[id := list], ids) == Sum(m, held, ids) - Weigh(m, |held[id]|) + Weigh(m, |list|)
  {
    hide Weigh;
    var n := |ids| - 1;
    if ids[n] == id {
      SumElsewhere(m, held, ids[..n], id, list);
    } else {
      SumUpdate(m, held, ids[..n], id, list);
    }
  }

  lemma {:induction false} SumZero(m: Measure, held: Held, ids: seq<string>)
    requires Members(ids, held)
    ensures Sum(m, held, ids) == 0 <==> forall i :: 0 <= i < |ids| ==> Weigh(m, |held[ids[i]]|) == 0
  {
    hide Weigh;
    if ids != [] {
      var n := |ids| - 1;
      SumZero(m, held, ids[..n]);
      assert forall i :: 0 <= i < n ==> ids[..n][i] == ids[i];
    }
  }

  // What is missing to a for some makes up for what is beyond a for others.
  lemma {:induction false} TotalAround(held: Held, ids: seq<string>, a: nat)
    requires Members(ids, held)
    ensures Sum(Total, held, ids) + Sum(Deficit(a), held, ids) == a * |ids| + Sum(Excess(a), held, ids)
  {
    if ids != [] {
      var n := |ids| - 1;
      TotalAround(held, ids[..n], a);
      assert a * |ids| == a * n + a;
    }
  }

  lemma {:induction false} BelowSize(owner: Owner, n: nat)
    requires forall p: nat :: p in owner <==> p < n
    ensures |owner| == n
  {
    if n == 0 {
      assert owner == map[];
    } else {
      var rest := owner - {n - 1};
      assert forall p: nat :: p in rest <==> p < n - 1;
      BelowSize(rest, n - 1);
      assert owner.Keys == rest.Keys + {n - 1};
    }
  }

  // One name comes before another if and only if it is a proper beginning of it,
  // or is smaller at the first place where they differ.
  lemma {:induction false} LessMeans(a: string, b: string)
    ensures Less(a, b) <==> exists k: nat :: k <= |a| && k < |b| && a[..k] == b[..k] && (k == |a| || a[k] < b[k])
  {
    if b != [] {
      if a == [] || a[0] < b[0] {
        assert a[..0] == b[..0];
      } else {
        LessMeans(a[1..], b[1..]);
        if Less(a[1..], b[1..]) && a[0] == b[0] {
          var k: nat :| k <= |a| - 1 && k < |b| - 1 && a[1..][..k] == b[1..][..k] && (k == |a| - 1 || a[1..][k] < b[1..][k]);
          assert a[..k + 1] == [a[0]] + a[1..][..k] && b[..k + 1] == [b[0]] + b[1..][..k];
        }
        if k: nat :| k <= |a| && k < |b| && a[..k] == b[..k] && (k == |a| || a[k] < b[k]) {
          assert k > 0;
          assert a[0] == a[..k][0] == b[..k][0] == b[0];
          assert a[1..][..k - 1] == a[..k][1..] && b[1..][..k - 1] == b[..k][1..];
        }
      }
    }
  }
}
