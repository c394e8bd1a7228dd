/** internal/processing/join.go: the time-windowed inner join of two streams. */
module WindowedJoin {
  // An envelope is known by a number; its key comes from a key extractor.
  datatype Record = Record(key: string, env: nat, timestamp: int)

  datatype Pair = Pair(left: Record, right: Record)

  type Buffer = map<string, seq<Record>>

  function AbsDiff(a: int, b: int): int { if a > b then a - b else b - a }

  predicate Close(a: Record, b: Record, window: int) { AbsDiff(a.timestamp, b.timestamp) <= window }

  function At(buf: Buffer, key: string): seq<Record> { if key in buf then buf[key] else [] }

  // Only records of the key, and no empty lists.
  predicate Tidy(buf: Buffer) {
    forall k :: k in buf ==> buf[k] != [] && forall i :: 0 <= i < |buf[k]| ==> buf[k][i].key == k
  }

  // No buffered pair could have been joined.
  ghost predicate Apart(a: Buffer, b: Buffer, window: int) {
    forall k, x, y :: Holds(a, k, x) && Holds(b, k, y) ==> !Close(x, y, window)
  }

  predicate Holds(buf: Buffer, k: string, r: Record) { k in buf && r in buf[k] }

  predicate Joined(results: seq<Pair>, window: int) {
    forall i :: 0 <= i < |results| ==> results[i].left.key == results[i].right.key && Close(results[i].left, results[i].right, window)
  }

  // The records of one key among many.
  function Of(records: seq<Record>, key: string): multiset<Record> {
    if records == [] then multiset{} else
      Of(records[..|records| - 1], key) + if records[|records| - 1].key == key then multiset{records[|records| - 1]} else multiset{}
  }

  function Lefts(results: seq<Pair>): seq<Record> { if results == [] then [] else Lefts(results[..|results| - 1]) + [results[|results| - 1].left] }

  function Rights(results: seq<Pair>): seq<Record> { if results == [] then [] else Rights(results[..|results| - 1]) + [results[|results| - 1].right] }

  // Each added record is in exactly one of: its buffer, one emitted pair, the expired records.
  ghost predicate Accounted(added: seq<Record>, buf: Buffer, out: seq<Record>, expired: seq<Record>) {
    forall k :: Of(added, k) == multiset(At(buf, k)) + Of(out, k) + Of(expired, k)
  }

  // The first record of a list that is close enough, or its length.
  function First(list: seq<Record>, r: Record, window: int): (i: nat)
    ensures i <= |list| && (i < |list| ==> Close(r, list[i], window)) && forall j :: 0 <= j < i ==> !Close(r, list[j], window)
  {
    if list == [] || Close(r, list[0], window) then 0 else 1 + First(list[1..], r, window)
  }

  // --- one buffer ---

  function Push(buf: Buffer, r: Record): Buffer { buf[r.key := At(buf, r.key) + [r]] }

  // The record is the last of its key; other keys are as they were.
  lemma PushMeans(buf: Buffer, r: Record, k: string)
    ensures At(Push(buf, r), k) == if k == r.key then At(buf, k) + [r] else At(buf, k)
  {
  }

  // The others of the key keep their order; other keys are as they were.
  lemma DropMeans(buf: Buffer, key: string, i: nat, k: string)
    requires key in buf && i < |buf[key]|
    ensures At(Drop(buf, key, i), k) == if k == key then buf[key][..i] + buf[key][i + 1..] else At(buf, k)
  {
  }

  // Close means that the times differ by no more than the window, either way.
  lemma CloseMeans(a: Record, b: Record, window: int)
    ensures Close(a, b, window) <==> -window <= a.timestamp - b.timestamp <= window
  {
  }

  // A record leaves; an empty list leaves with it.
  function Drop(buf: Buffer, key: string, i: nat): Buffer
    requires key in buf && i < |buf[key]|
  {
    var rest := buf[key][..i] + buf[key][i + 1..];
    if rest == [] then buf - {key} else buf[key := rest]
  }

  lemma OfAppend(records: seq<Record>, r: Record, key: string)
    ensures Of(records + [r], key) == Of(records, key) + if r.key == key then multiset{r} else multiset{}
  {
    assert (records + [r])[..|records|] == records;
  }

  lemma LeftsAppend(results: seq<Pair>, p: Pair)
    ensures Lefts(results + [p]) == Lefts(results) + [p.left] && Rights(results + [p]) == Rights(results) + [p.right]
  {
    assert (results + [p])[..|results|] == results;
  }

  lemma PushAccounted(added: seq<Record>, buf: Buffer, out: seq<Record>, expired: seq<Record>, r: Record)
    requires Accounted(added, buf, out, expired)
    ensures Accounted(added + [r], Push(buf, r), out, expired)
  {
    hide Of;
    forall k ensures Of(added + [r], k) == multiset(At(Push(buf, r), k)) + Of(out, k) + Of(expired, k) {
      OfAppend(added, r, k);
      assert Of(added, k) == multiset(At(buf, k)) + Of(out, k) + Of(expired, k);
    }
  }

  // A record that is joined on arrival goes straight out.
  lemma ThroughAccounted(added: seq<Record>, buf: Buffer, out: seq<Record>, expired: seq<Record>, r: Record)
    requires Accounted(added, buf, out, expired)
    ensures Accounted(added + [r], buf, out + [r], expired)
  {
    hide Of;
    forall k ensures Of(added + [r], k) == multiset(At(buf, k)) + Of(out + [r], k) + Of(expired, k) {
      OfAppend(added, r, k);
      OfAppend(out, r, k);
      assert Of(added, k) == multiset(At(buf, k)) + Of(out, k) + Of(expired, k);
    }
  }

  lemma DropAt(buf: Buffer, key: string, i: nat, k: string)
    requires Tidy(buf) && key in buf && i < |buf[key]|
    ensures multiset(At(buf, k)) == multiset(At(Drop(buf, key, i), k)) + if k == key then multiset{buf[key][i]} else multiset{}
    ensures buf[key][i].key == key
  {
    if k == key {
      var list := buf[key];
      assert list == list[..i] + [list[i]] + list[i + 1..];
      assert At(Drop(buf, key, i), k) == list[..i] + list[i + 1..];
    }
  }

  lemma DropAccounted(added: seq<Record>, buf: Buffer, out: seq<Record>, expired: seq<Record>, key: string, i: nat)
    requires Accounted(added, buf, out, expired) && Tidy(buf) && key in buf && i < |buf[key]|
    ensures Accounted(added, Drop(buf, key, i), out + [buf[key][i]], expired)
  {
    hide Of, Drop, Tidy, At;
    var r := buf[key][i];
    forall k ensures Of(added, k) == multiset(At(Drop(buf, key, i), k)) + Of(out + [r], k) + Of(expired, k) {
      OfAppend(out, r, k);
      DropAt(buf, key, i, k);
      assert Of(added, k) == multiset(At(buf, k)) + Of(out, k) + Of(expired, k);
    }
  }

  lemma DropTidy(buf: Buffer, key: string, i: nat)
    requires Tidy(buf) && key in buf && i < |buf[key]|
    ensures Tidy(Drop(buf, key, i))
  {
  }

  // Whatever is apart stays apart when records leave.
  ghost predicate Fewer(small: Buffer, large: Buffer) {
    forall k, r :: Holds(small, k, r) ==> Holds(large, k, r)
  }

  lemma DropFewer(buf: Buffer, key: string, i: nat)
    requires key in buf && i < |buf[key]|
    ensures Fewer(Drop(buf, key, i), buf)
  {
  }

  lemma FewerApart(a: Buffer, b: Buffer, c: Buffer, d: Buffer, window: int)
    requires Apart(a, b, window) && Fewer(c, a) && Fewer(d, b)
    ensures Apart(c, d, window)
  {
    hide Holds, Close;
  }

  lemma SelfFewer(a: Buffer)
    ensures Fewer(a, a)
  {
  }

  lemma PushApart(a: Buffer, b: Buffer, r: Record, window: int)
    requires Apart(a, b, window) && forall j :: 0 <= j < |At(b, r.key)| ==> !Close(r, At(b, r.key)[j], window)
    ensures Apart(Push(a, r), b, window)
  {
    hide Close;
    var c := Push(a, r);
    forall k, x, y | Holds(c, k, x) && Holds(b, k, y) ensures !Close(x, y, window) {
      if !Holds(a, k, x) {
        var j :| 0 <= j < |b[k]| && b[k][j] == y;
        assert k == r.key && x == r && At(b, k)[j] == y;
      }
    }
  }

  lemma ApartBoth(a: Buffer, b: Buffer, window: int)
    requires Apart(a, b, window)
    ensures Apart(b, a, window)
  {
    hide Holds;
    forall k, x, y | Holds(b, k, x) && Holds(a, k, y) ensures !Close(x, y, window) {
      assert !Close(y, x, window);
    }
  }

  // --- expiry ---

  function Kept(list: seq<Record>, now: int, window: int): seq<Record> {
    if list == [] then [] else
      Kept(list[..|list| - 1], now, window) + if now - list[|list| - 1].timestamp <= window then [list[|list| - 1]] else []
  }

  function Expired(list: seq<Record>, now: int, window: int): seq<Record> {
    if list == [] then [] else
      Expired(list[..|list| - 1], now, window) + if now - list[|list| - 1].timestamp <= window then [] else [list[|list| - 1]]
  }

  lemma {:induction false} KeptOrExpired(list: seq<Record>, now: int, window: int)
    ensures multiset(list) == multiset(Kept(list, now, window)) + multiset(Expired(list, now, window))
  {
    hide Kept, Expired;
    if list == [] {
      NothingKept(now, window);
    } else {
      var n := |list| - 1;
      KeptOrExpired(list[..n], now, window);
      KeptNext(list[..n], list[n], now, window);
      assert list == list[..n] + [list[n]];
    }
  }

  lemma NothingKept(now: int, window: int)
    ensures Kept([], now, window) == [] && Expired([], now, window) == []
  {
  }

  lemma KeptNext(list: seq<Record>, r: Record, now: int, window: int)
    ensures var young := now - r.timestamp <= window;
            && Kept(list + [r], now, window) == (if young then Kept(list, now, window) + [r] else Kept(list, now, window))
            && Expired(list + [r], now, window) == (if young then Expired(list, now, window) else Expired(list, now, window) + [r])
  {
    assert (list + [r])[..|list|] == list;
  }

  lemma {:induction false} ExpiredAreOld(list: seq<Record>, now: int, window: int)
    ensures forall i :: 0 <= i < |Expired(list, now, window)| ==> now - Expired(list, now, window)[i].timestamp > window
    ensures forall i :: 0 <= i < |Kept(list, now, window)| ==> now - Kept(list, now, window)[i].timestamp <= window
  {
    if list != [] { ExpiredAreOld(list[..|list| - 1], now, window); }
  }

  // Parts of a list of one key.
  lemma PartsOfKey(list: seq<Record>, kept: seq<Record>, gone: seq<Record>, key: string)
    requires multiset(list) == multiset(kept) + multiset(gone) && forall i :: 0 <= i < |list| ==> list[i].key == key
    ensures forall i :: 0 <= i < |kept| ==> kept[i] in list && kept[i].key == key
    ensures forall i :: 0 <= i < |gone| ==> gone[i] in list && gone[i].key == key
  {
    assert forall i :: 0 <= i < |kept| ==> kept[i] in multiset(list);
    assert forall i :: 0 <= i < |gone| ==> gone[i] in multiset(list);
  }

  lemma {:induction false} OfKey(records: seq<Record>, more: seq<Record>, key: string, k: string)
    requires forall i :: 0 <= i < |more| ==> more[i].key == key
    ensures Of(records + more, k) == Of(records, k) + if k == key then multiset(more) else multiset{}
  {
    hide Of;
    if more == [] {
      assert records + more == records;
    } else {
      var n := |more| - 1;
      OfKey(records, more[..n], key, k);
      assert records + more == (records + more[..n]) + [more[n]];
      OfAppend(records + more[..n], more[n], k);
      if k == key { assert multiset(more) == multiset(more[..n] + [more[n]]) by { assert more == more[..n] + [more[n]]; } }
    }
  }

  // Exactly the fresh records of each key are left, in order.
  ghost predicate Refreshed(before: Buffer, after: Buffer, now: int, window: int) {
    && (forall k :: k in after <==> k in before && Kept(before[k], now, window) != [])
    && (forall k :: k in after ==> after[k] == Kept(before[k], now, window))
  }

  // Only old records have expired since.
  predicate ExpiredSince(before: seq<Record>, after: seq<Record>, now: int, window: int) {
    && |before| <= |after| && after[..|before|] == before
    && forall i :: |before| <= i < |after| ==> now - after[i].timestamp > window
  }

  // expireRecords, over the keys in any order. The expired records are returned for accounting.
  method ExpireRecords(buf: Buffer, now: int, window: int, ghost added: seq<Record>, ghost out: seq<Record>, ghost expired: seq<Record>)
    returns (result: Buffer, ghost gone: seq<Record>)
    requires Tidy(buf) && Accounted(added, buf, out, expired)
    ensures Tidy(result) && Fewer(result, buf) && Accounted(added, result, out, expired + gone)
    ensures Refreshed(buf, result, now, window) && ExpiredSince(expired, expired + gone, now, window)
  {
    hide Accounted, Tidy, Fewer, Kept, Expired;
    result, gone := buf, [];
    SelfFewer(buf);
    assert expired + gone == expired;
    var left := buf.Keys;
    while left != {}
      invariant Tidy(result) && Fewer(result, buf) && Accounted(added, result, out, expired + gone) && left <= result.Keys <= buf.Keys
      invariant forall k :: k in left ==> result[k] == buf[k]
      invariant forall k :: k in buf && k !in left ==> (k in result <==> Kept(buf[k], now, window) != [])
      invariant forall k :: k in result && k !in left ==> result[k] == Kept(buf[k], now, window)
      invariant forall i :: 0 <= i < |gone| ==> now - gone[i].timestamp > window
      decreases |left|
    {
      var k :| k in left;
      left := left - {k};
      var kept := KeepFresh(buf[k], now, window);
      ExpireOne(added, result, out, expired + gone, k, now, window);
      FewerTwice(Replaced(result, k, kept), result, buf);
      ExpiredAreOld(buf[k], now, window);
      result := if kept == [] then result - {k} else result[k := kept];
      ghost var lost := Expired(buf[k], now, window);
      assert (expired + gone) + lost == expired + (gone + lost);
      gone := gone + lost;
    }
  }

  method KeepFresh(list: seq<Record>, now: int, window: int) returns (kept: seq<Record>)
    ensures kept == Kept(list, now, window)
  {
    kept := [];
    for i := 0 to |list|
      invariant kept == Kept(list[..i], now, window)
    {
      assert list[..i + 1][..i] == list[..i];
      if now - list[i].timestamp <= window { kept := kept + [list[i]]; }
    }
    assert list[..|list|] == list;
  }

  function Replaced(buf: Buffer, k: string, list: seq<Record>): Buffer { if list == [] then buf - {k} else buf[k := list] }

  lemma ExpireOne(added: seq<Record>, buf: Buffer, out: seq<Record>, expired: seq<Record>, k: string, now: int, window: int)
    requires Tidy(buf) && Accounted(added, buf, out, expired) && k in buf
    ensures var next := Replaced(buf, k, Kept(buf[k], now, window));
            Tidy(next) && Fewer(next, buf) && Accounted(added, next, out, expired + Expired(buf[k], now, window))
  {
    hide Kept, Expired, Of;
    var kept, gone := Kept(buf[k], now, window), Expired(buf[k], now, window);
    var next := Replaced(buf, k, kept);
    KeptOrExpired(buf[k], now, window);
    PartsOfKey(buf[k], kept, gone, k);
    forall x ensures Of(added, x) == multiset(At(next, x)) + Of(out, x) + Of(expired + gone, x) {
      OfKey(expired, gone, k, x);
      assert Of(added, x) == multiset(At(buf, x)) + Of(out, x) + Of(expired, x);
    }
  }

  lemma FewerTwice(a: Buffer, b: Buffer, c: Buffer)
    requires Fewer(a, b) && Fewer(b, c)
    ensures Fewer(a, c)
  {
    hide Holds;
  }

  // --- the operator ---

  class JoinOp {
    const window: int
    var leftBuf: Buffer
    var rightBuf: Buffer
    // What went in and came out.
    ghost var results: seq<Pair>
    ghost var addedLeft: seq<Record>
    ghost var addedRight: seq<Record>
    ghost var expiredLeft: seq<Record>
    ghost var expiredRight: seq<Record>

    // No buffered pair could be joined, every emitted pair has one key and a gap within the window,
    // and each added record is in exactly one place.
    ghost predicate Valid()
      reads this
    {
      && Tidy(leftBuf) && Tidy(rightBuf) && Apart(leftBuf, rightBuf, window) && Joined(results, window)
      && Accounted(addedLeft, leftBuf, Lefts(results), expiredLeft) && Accounted(addedRight, rightBuf, Rights(results), expiredRight)
    }

    constructor (window: int)
      ensures Valid() && this.window == window && leftBuf == map[] && rightBuf == map[]
      ensures results == [] && addedLeft == [] && addedRight == [] && expiredLeft == [] && expiredRight == []
    {
      this.window := window;
      leftBuf, rightBuf, results := map[], map[], [];
      addedLeft, addedRight, expiredLeft, expiredRight := [], [], [], [];
    }

    // The first buffered record of the key that is close enough, if any.
    method Probe(buf: Buffer, r: Record) returns (i: nat)
      ensures i == First(At(buf, r.key), r, window)
    {
      i := 0;
      if r.key in buf {
        while i < |buf[r.key]| && AbsDiff(r.timestamp, buf[r.key][i].timestamp) > window
          invariant i <= |buf[r.key]|
          invariant forall j :: 0 <= j < i ==> !Close(r, buf[r.key][j], window)
        {
          i := i + 1;
        }
      }
    }

    method AddLeft(key: string, env: nat, timestamp: int)
      requires Valid()
      modifies this
      ensures Valid() && addedLeft == old(addedLeft) + [Record(key, env, timestamp)]
      ensures addedRight == old(addedRight) && expiredLeft == old(expiredLeft) && expiredRight == old(expiredRight)
      ensures var r, others := Record(key, env, timestamp), At(old(rightBuf), key);
              var i := First(others, r, window);
              if i < |others| then results == old(results) + [Pair(r, others[i])] && leftBuf == old(leftBuf) && rightBuf == Drop(old(rightBuf), key, i)
              else results == old(results) && leftBuf == Push(old(leftBuf), r) && rightBuf == old(rightBuf)
    {
      hide Tidy, Apart, Accounted, Lefts, Rights, Push, Drop, Fewer;
      var r := Record(key, env, timestamp);
      var i := Probe(rightBuf, r);
      addedLeft := addedLeft + [r];
      if i < |At(rightBuf, key)| {
        var other := rightBuf[key][i];
        SameKey(rightBuf, key, i);
        LeftsAppend(results, Pair(r, other));
        ThroughAccounted(old(addedLeft), leftBuf, Lefts(results), expiredLeft, r);
        DropAccounted(addedRight, rightBuf, Rights(results), expiredRight, key, i);
        DropTidy(rightBuf, key, i);
        DropFewer(rightBuf, key, i);
        SelfFewer(leftBuf);
        FewerApart(leftBuf, rightBuf, leftBuf, Drop(rightBuf, key, i), window);
        results := results + [Pair(r, other)];
        rightBuf := Drop(rightBuf, key, i);
      } else {
        PushAccounted(old(addedLeft), leftBuf, Lefts(results), expiredLeft, r);
        PushTidy(leftBuf, r);
        PushApart(leftBuf, rightBuf, r, window);
        leftBuf := Push(leftBuf, r);
      }
    }

    method AddRight(key: string, env: nat, timestamp: int)
      requires Valid()
      modifies this
      ensures Valid() && addedRight == old(addedRight) + [Record(key, env, timestamp)]
      ensures addedLeft == old(addedLeft) && expiredLeft == old(expiredLeft) && expiredRight == old(expiredRight)
      ensures var r, others := Record(key, env, timestamp), At(old(leftBuf), key);
              var i := First(others, r, window);
              if i < |others| then results == old(results) + [Pair(others[i], r)] && rightBuf == old(rightBuf) && leftBuf == Drop(old(leftBuf), key, i)
              else results == old(results) && rightBuf == Push(old(rightBuf), r) && leftBuf == old(leftBuf)
    {
      hide Tidy, Apart, Accounted, Lefts, Rights, Push, Drop, Fewer;
      var r := Record(key, env, timestamp);
      var i := Probe(leftBuf, r);
      addedRight := addedRight + [r];
      ApartBoth(leftBuf, rightBuf, window);
      if i < |At(leftBuf, key)| {
        var other := leftBuf[key][i];
        SameKey(leftBuf, key, i);
        LeftsAppend(results, Pair(other, r));
        ThroughAccounted(old(addedRight), rightBuf, Rights(results), expiredRight, r);
        DropAccounted(addedLeft, leftBuf, Lefts(results), expiredLeft, key, i);
        DropTidy(leftBuf, key, i);
        DropFewer(leftBuf, key, i);
        SelfFewer(rightBuf);
        FewerApart(leftBuf, rightBuf, Drop(leftBuf, key, i), rightBuf, window);
        results := results + [Pair(other, r)];
        leftBuf := Drop(leftBuf, key, i);
      } else {
        PushAccounted(old(addedRight), rightBuf, Rights(results), expiredRight, r);
        PushTidy(rightBuf, r);
        PushApart(rightBuf, leftBuf, r, window);
        rightBuf := Push(rightBuf, r);
        ApartBoth(rightBuf, leftBuf, window);
      }
    }

    method Tick(now: int)
      requires Valid()
      modifies this
      ensures Valid() && results == old(results) && addedLeft == old(addedLeft) && addedRight == old(addedRight)
      ensures Refreshed(old(leftBuf), leftBuf, now, window) && Refreshed(old(rightBuf), rightBuf, now, window)
      ensures ExpiredSince(old(expiredLeft), expiredLeft, now, window) && ExpiredSince(old(expiredRight), expiredRight, now, window)
    {
      hide Tidy, Apart, Accounted, Lefts, Rights, Kept;
      var l, goneLeft := ExpireRecords(leftBuf, now, window, addedLeft, Lefts(results), expiredLeft);
      var r, goneRight := ExpireRecords(rightBuf, now, window, addedRight, Rights(results), expiredRight);
      FewerApart(leftBuf, rightBuf, l, r, window);
      leftBuf, rightBuf := l, r;
      expiredLeft, expiredRight := expiredLeft + goneLeft, expiredRight + goneRight;
    }
  }

  lemma SameKey(buf: Buffer, key: string, i: nat)
    requires Tidy(buf) && key in buf && i < |buf[key]|
    ensures buf[key][i].key == key
  {
  }

  lemma PushTidy(buf: Buffer, r: Record)
    requires Tidy(buf)
    ensures Tidy(Push(buf, r))
  {
  }
}
