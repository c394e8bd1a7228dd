/** What single attempts and flushes of the priority dispatcher do. */
module PriorityFacts {
  import opened PriorityQueues

  // --- one attempt ---

  // The k-th consumer to be asked; after a full round it is the first one again.
  function Ring(d: Queues, k: nat): (i: nat)
    requires Valid(d) && d.consumers != [] && k <= |d.consumers|
    ensures i < |d.consumers|
  {
    if d.nextIdx + k < |d.consumers| then d.nextIdx + k else d.nextIdx + k - |d.consumers|
  }

  predicate Asked(d: Queues, level: nat, k: nat)
    requires Valid(d) && k < |d.consumers|
  {
    Takes(d.maxPriority, d.consumers[Ring(d, k)], level)
  }

  // The k-th one asked gets the message, nobody before it would take it, and the turn passes on behind it.
  predicate GoesTo(d: Queues, offset: nat, level: nat, k: nat, r: (Queues, string))
    requires Valid(d) && k < |d.consumers|
  {
    var c := d.consumers[Ring(d, k)];
    && Asked(d, level, k) && (forall j :: 0 <= j < k ==> !Asked(d, level, j))
    && r == (d.(consumers := d.consumers[Ring(d, k) := Deliver(c, offset)], nextIdx := Ring(d, k + 1)), c.id)
  }

  lemma NextOne(d: Queues)
    requires Valid(d) && d.consumers != []
    ensures (d.nextIdx + 1) % |d.consumers| == Ring(d, 1)
  {
  }

  lemma {:induction false} ScanFacts(d: Queues, offset: nat, level: nat, left: nat)
    requires Valid(d) && d.consumers != [] && left <= |d.consumers|
    ensures var r := Scan(d, offset, level, left);
            || (exists k: nat :: k < left && GoesTo(d, offset, level, k, r))
            || ((forall k: nat :: k < left ==> !Asked(d, level, k)) && r == (d.(nextIdx := Ring(d, left)), ""))
    decreases left
  {
    hide Takes, Deliver;
    NextOne(d);
    if left > 0 {
      assert Ring(d, 0) == d.nextIdx;
      if Asked(d, level, 0) {
        assert GoesTo(d, offset, level, 0, Scan(d, offset, level, left));
      } else {
        var on := d.(nextIdx := Ring(d, 1));
        ScanFacts(on, offset, level, left - 1);
        assert forall k: nat :: k < |d.consumers| ==> Ring(on, k) == Ring(d, k + 1);
        assert forall k: nat :: k + 1 < |d.consumers| ==> Asked(on, level, k) == Asked(d, level, k + 1);
        var r := Scan(on, offset, level, left - 1);
        if k: nat :| k < left - 1 && GoesTo(on, offset, level, k, r) {
          assert forall j: nat :: 0 < j <= k ==> Asked(d, level, j) == Asked(on, level, j - 1);
          assert GoesTo(d, offset, level, k + 1, r);
        } else {
          assert forall j: nat :: 0 < j < left ==> Asked(d, level, j) == Asked(on, level, j - 1);
        }
      }
    }
  }

  predicate Handed(d: Queues, offset: nat, level: nat, i: nat, r: (Queues, string)) {
    && i < |d.consumers| && Takes(d.maxPriority, d.consumers[i], level)
    && r.0.consumers == d.consumers[i := Deliver(d.consumers[i], offset)] && r.1 == d.consumers[i].id
  }

  // An attempt fails, and then changes nothing, exactly if nobody takes the level.
  lemma TryFacts(d: Queues, offset: nat, level: nat)
    requires Valid(d)
    ensures var r := Try(d, offset, level);
            if NoTaker(d, level) then r == (d, "") else exists i: nat :: Handed(d, offset, level, i, r)
  {
    hide Takes, Deliver, Scan;
    var n := |d.consumers|;
    if n == 0 {
      ScanNobody(d, offset, level);
    } else {
      ScanFacts(d, offset, level, n);
      var r := Scan(d, offset, level, n);
      if k: nat :| k < n && GoesTo(d, offset, level, k, r) {
        var i := Ring(d, k);
        assert Handed(d, offset, level, i, Try(d, offset, level));
        assert !NoTaker(d, level);
      } else {
        forall i | 0 <= i < n ensures !Takes(d.maxPriority, d.consumers[i], level) {
          var k := if i >= d.nextIdx then i - d.nextIdx else i - d.nextIdx + n;
          assert Ring(d, k) == i && !Asked(d, level, k);
        }
      }
    }
  }

  lemma ScanNobody(d: Queues, offset: nat, level: nat)
    requires Valid(d)
    ensures Scan(d, offset, level, 0) == (d, "")
  {
  }

  // --- how consumers change ---

  predicate Grew(a: Consumer, b: Consumer) {
    && a.id == b.id && a.prefetch == b.prefetch && a.inFlight <= b.inFlight && |a.inFlight| <= |b.inFlight|
    && (a == b || (Free(a) && |b.inFlight| <= b.prefetch))
  }

  predicate AllGrew(a: seq<Consumer>, b: seq<Consumer>) {
    |a| == |b| && forall i :: 0 <= i < |a| ==> Grew(a[i], b[i])
  }

  lemma AllGrewTwice(a: seq<Consumer>, b: seq<Consumer>, c: seq<Consumer>)
    requires AllGrew(a, b) && AllGrew(b, c)
    ensures AllGrew(a, c)
  {
    forall i | 0 <= i < |a| ensures Grew(a[i], c[i]) {
      assert Grew(a[i], b[i]) && Grew(b[i], c[i]);
    }
  }

  lemma SelfGrew(a: seq<Consumer>)
    ensures AllGrew(a, a)
  {
  }

  lemma HandedGrew(d: Queues, offset: nat, level: nat, i: nat, r: (Queues, string))
    requires Handed(d, offset, level, i, r)
    ensures AllGrew(d.consumers, r.0.consumers)
  {
    var c := d.consumers[i];
    if offset in c.inFlight { assert c.inFlight + {offset} == c.inFlight; }
  }

  lemma TryGrew(d: Queues, offset: nat, level: nat)
    requires Valid(d)
    ensures AllGrew(d.consumers, Try(d, offset, level).0.consumers)
  {
    hide AllGrew, Try, Handed;
    TryFacts(d, offset, level);
    if NoTaker(d, level) {
      SelfGrew(d.consumers);
    } else {
      var i: nat :| Handed(d, offset, level, i, Try(d, offset, level));
      HandedGrew(d, offset, level, i, Try(d, offset, level));
    }
  }

  // Fuller consumers take no more than before.
  lemma StillNoTaker(a: Queues, b: Queues, level: nat)
    requires a.maxPriority == b.maxPriority && AllGrew(a.consumers, b.consumers) && NoTaker(a, level)
    ensures NoTaker(b, level)
  {
    forall i | 0 <= i < |b.consumers| ensures !Takes(b.maxPriority, b.consumers[i], level) {
      assert Grew(a.consumers[i], b.consumers[i]) && !Takes(a.maxPriority, a.consumers[i], level);
    }
  }

  predicate Named(consumers: seq<Consumer>) { forall i :: 0 <= i < |consumers| ==> consumers[i].id != "" }

  lemma StillNamed(a: seq<Consumer>, b: seq<Consumer>)
    requires Named(a) && AllGrew(a, b)
    ensures Named(b)
  {
    forall i | 0 <= i < |b| ensures b[i].id != "" { assert Grew(a[i], b[i]); }
  }

  // --- flushing ---

  predicate SuffixOf(tail: seq<nat>, all: seq<nat>) { |tail| <= |all| && tail == all[|all| - |tail|..] }

  // A level is served in order until nobody takes it any more.
  lemma {:induction false} FlushQueueFacts(d: Queues, queue: seq<nat>, level: nat)
    requires Valid(d) && Named(d.consumers)
    ensures var r := FlushQueue(d, queue, level);
            && AllGrew(d.consumers, r.0.consumers) && SuffixOf(r.1, queue) && (r.1 != [] ==> NoTaker(r.0, level))
  {
    hide AllGrew, Try, NoTaker, Named, Handed;
    if queue == [] {
      SelfGrew(d.consumers);
    } else {
      var n := |queue| - 1;
      FlushQueueFacts(d, queue[..n], level);
      var before := FlushQueue(d, queue[..n], level);
      StillNamed(d.consumers, before.0.consumers);
      TryFacts(before.0, queue[n], level);
      TryGrew(before.0, queue[n], level);
      AllGrewTwice(d.consumers, before.0.consumers, Try(before.0, queue[n], level).0.consumers);
      if !NoTaker(before.0, level) {
        var i: nat :| Handed(before.0, queue[n], level, i, Try(before.0, queue[n], level));
        HandedName(before.0, queue[n], level, i, Try(before.0, queue[n], level));
      } else {
        assert queue[n..] == [queue[n]];
      }
    }
  }

  lemma HandedName(d: Queues, offset: nat, level: nat, i: nat, r: (Queues, string))
    requires Named(d.consumers) && Handed(d, offset, level, i, r)
    ensures r.1 != ""
  {
  }

  // Work conservation from a level on: nobody takes a level that has messages waiting.
  predicate ConservingFrom(d: Queues, level: nat) {
    forall p :: level <= p < |d.levels| && d.levels[p] != [] ==> NoTaker(d, p)
  }

  predicate Conserving(d: Queues) { ConservingFrom(d, 0) }

  predicate Shortened(after: seq<seq<nat>>, before: seq<seq<nat>>) {
    |after| == |before| && forall p :: 0 <= p < |before| ==> SuffixOf(after[p], before[p])
  }

  lemma FlushLevelFacts(d: Queues, level: nat)
    requires Valid(d) && Named(d.consumers) && level < LEVELS && ConservingFrom(d, level + 1)
    ensures var r := FlushLevel(d, level);
            && AllGrew(d.consumers, r.consumers) && ConservingFrom(r, level)
            && r.levels == d.levels[level := r.levels[level]] && SuffixOf(r.levels[level], d.levels[level])
  {
    hide AllGrew, FlushQueue, Named, NoTaker, SuffixOf;
    FlushQueueFacts(d, d.levels[level], level);
    var f := FlushQueue(d, d.levels[level], level);
    var r := FlushLevel(d, level);
    forall p | level <= p < |r.levels| && r.levels[p] != [] ensures NoTaker(r, p) {
      if p > level { StillNoTaker(d, r, p); } else { SameTaker(f.0, r, p); }
    }
  }

  lemma SameTaker(a: Queues, b: Queues, level: nat)
    requires a.consumers == b.consumers && a.maxPriority == b.maxPriority && NoTaker(a, level)
    ensures NoTaker(b, level)
  {
    forall i | 0 <= i < |b.consumers| ensures !Takes(b.maxPriority, b.consumers[i], level) {
      assert !Takes(a.maxPriority, a.consumers[i], level);
    }
  }

  lemma {:induction false} FlushFacts(d: Queues, level: nat)
    requires Valid(d) && Named(d.consumers) && level <= LEVELS
    ensures var r := FlushDownTo(d, level);
            && AllGrew(d.consumers, r.consumers) && Named(r.consumers) && ConservingFrom(r, level) && Shortened(r.levels, d.levels)
            && (forall p :: 0 <= p < level && p < LEVELS ==> r.levels[p] == d.levels[p])
    decreases LEVELS - level
  {
    hide AllGrew, Named, FlushLevel, SuffixOf, NoTaker;
    if level == LEVELS {
      SelfGrew(d.consumers);
      SelfSuffix();
    } else {
      FlushFacts(d, level + 1);
      var e := FlushDownTo(d, level + 1);
      FlushLevelFacts(e, level);
      var r := FlushLevel(e, level);
      AllGrewTwice(d.consumers, e.consumers, r.consumers);
      StillNamed(d.consumers, r.consumers);
    }
  }

  lemma SelfSuffix()
    ensures forall q: seq<nat> :: SuffixOf(q, q)
  {
  }

  // --- no priority inversion ---

  // Whoever gets a message of some level during a flush could take none of the higher levels that still have one waiting.
  lemma FlushHonoursPriority(d: Queues, level: nat, i: nat, q: nat)
    requires Valid(d) && Named(d.consumers) && level < q < LEVELS && i < |d.consumers|
    requires FlushDownTo(d, level).consumers[i] != FlushDownTo(d, level + 1).consumers[i]
    requires FlushDownTo(d, level + 1).levels[q] != []
    ensures q > Limit(d.maxPriority, d.consumers[i].id)
  {
    hide FlushLevel, Named, SuffixOf;
    FlushFacts(d, level + 1);
    var e := FlushDownTo(d, level + 1);
    FlushLevelFacts(e, level);
    assert Grew(e.consumers[i], FlushDownTo(d, level).consumers[i]) && Grew(d.consumers[i], e.consumers[i]);
    assert NoTaker(e, q);
    assert !Takes(e.maxPriority, e.consumers[i], q);
  }

  // Where work is conserved, whoever gets a message from Dispatch could take nothing that was waiting, at any level.
  lemma DispatchHonoursPriority(d: Queues, offset: nat, level: nat, i: nat, q: nat)
    requires Valid(d) && Conserving(d) && level < LEVELS && q < LEVELS && d.levels[q] != [] && i < |d.consumers|
    requires Handed(d, offset, level, i, Try(d, offset, level))
    ensures q > Limit(d.maxPriority, d.consumers[i].id)
  {
    hide Try;
    assert NoTaker(d, q);
    assert !Takes(d.maxPriority, d.consumers[i], q);
  }

  // --- Dispatch without its flush ---

  // One pass over the ring: the first taker gets the message, or it is queued.
  function SimpleDispatch(d: Queues, offset: nat, priority: nat): (Queues, Outcome)
    requires Valid(d)
  {
    var t := Try(d, offset, Level(priority));
    if d.consumers == [] then (d, NoConsumers)
    else if t.1 != "" then (t.0, Sent(t.1))
    else (Enqueue(d, offset, Level(priority)), AllBusy)
  }

  lemma {:induction false} IdleQueue(d: Queues, queue: seq<nat>, level: nat)
    requires Valid(d) && NoTaker(d, level)
    ensures FlushQueue(d, queue, level) == (d, queue)
  {
    hide Try, NoTaker;
    if queue != [] {
      var n := |queue| - 1;
      IdleQueue(d, queue[..n], level);
      TryFacts(d, queue[n], level);
      assert queue == queue[..n] + [queue[n]];
    }
  }

  lemma {:induction false} IdleFlush(d: Queues, level: nat)
    requires Valid(d) && Conserving(d) && level <= LEVELS
    ensures FlushDownTo(d, level) == d
    decreases LEVELS - level
  {
    hide NoTaker, FlushQueue;
    if level < LEVELS {
      IdleFlush(d, level + 1);
      if d.levels[level] == [] { NothingQueued(d, level); } else { IdleQueue(d, d.levels[level], level); }
      assert d.levels[level := d.levels[level]] == d.levels;
    }
  }

  lemma NothingQueued(d: Queues, level: nat)
    requires Valid(d)
    ensures FlushQueue(d, [], level) == (d, [])
  {
  }

  // Where work is conserved the flush inside Dispatch has nothing to do.
  lemma DispatchIsSimple(d: Queues, offset: nat, priority: nat)
    requires Valid(d) && Conserving(d) && Named(d.consumers)
    ensures Dispatch(d, offset, priority) == SimpleDispatch(d, offset, priority)
  {
    hide Try, Handed, Conserving, FlushDownTo, NoTaker, Named;
    var level := Level(priority);
    TryFacts(d, offset, level);
    if NoTaker(d, level) {
      IdleFlush(d, 0);
    } else {
      var i: nat :| Handed(d, offset, level, i, Try(d, offset, level));
      HandedName(d, offset, level, i, Try(d, offset, level));
    }
  }
}
