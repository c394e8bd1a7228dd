/** Whole runs of the priority dispatcher. */
module PriorityRuns {
  import opened PriorityQueues
  import opened PriorityFacts

  // --- where the messages are ---

  function Queued(levels: seq<seq<nat>>): multiset<nat> {
    if levels == [] then multiset{} else Queued(levels[..|levels| - 1]) + multiset(levels[|levels| - 1])
  }

  function Flying(consumers: seq<Consumer>): multiset<nat> {
    if consumers == [] then multiset{} else Flying(consumers[..|consumers| - 1]) + multiset(consumers[|consumers| - 1].inFlight)
  }

  function Load(d: Queues): multiset<nat> { Queued(d.levels) + Flying(d.consumers) }

  ghost predicate Once(m: multiset<nat>) { forall o :: m[o] <= 1 }

  function Without<T>(s: seq<T>, i: nat): seq<T>
    requires i < |s|
  {
    s[..i] + s[i + 1..]
  }

  lemma {:induction false} QueuedSplit(levels: seq<seq<nat>>, p: nat)
    requires p < |levels|
    ensures Queued(levels) == Queued(Without(levels, p)) + multiset(levels[p])
  {
    var n := |levels| - 1;
    if p < n {
      QueuedSplit(levels[..n], p);
      assert Without(levels, p)[..n - 1] == Without(levels[..n], p);
    } else {
      assert Without(levels, p) == levels[..n];
    }
  }

  lemma {:induction false} FlyingSplit(consumers: seq<Consumer>, i: nat)
    requires i < |consumers|
    ensures Flying(consumers) == Flying(Without(consumers, i)) + multiset(consumers[i].inFlight)
  {
    var n := |consumers| - 1;
    if i < n {
      FlyingSplit(consumers[..n], i);
      assert Without(consumers, i)[..n - 1] == Without(consumers[..n], i);
    } else {
      assert Without(consumers, i) == consumers[..n];
    }
  }

  // A delivery adds one message to those in flight, if the consumer does not have it yet.
  lemma HandedLoad(d: Queues, offset: nat, level: nat, i: nat, r: (Queues, string))
    requires Handed(d, offset, level, i, r) && offset !in d.consumers[i].inFlight
    ensures Flying(r.0.consumers) == Flying(d.consumers) + multiset{offset}
  {
    hide Flying;
    var c := d.consumers[i];
    FlyingSplit(d.consumers, i);
    FlyingSplit(r.0.consumers, i);
    assert Without(r.0.consumers, i) == Without(d.consumers, i);
    assert multiset(c.inFlight + {offset}) == multiset(c.inFlight) + multiset{offset};
  }

  lemma HandedFresh(d: Queues, offset: nat, level: nat, i: nat, r: (Queues, string))
    requires Handed(d, offset, level, i, r) && offset !in Flying(d.consumers)
    ensures Flying(r.0.consumers) == Flying(d.consumers) + multiset{offset}
  {
    hide Flying;
    NotInFlight(d, offset, i);
    HandedLoad(d, offset, level, i, r);
  }

  lemma NotInFlight(d: Queues, offset: nat, i: nat)
    requires offset !in Flying(d.consumers) && i < |d.consumers|
    ensures offset !in d.consumers[i].inFlight
  {
    hide Flying;
    FlyingSplit(d.consumers, i);
  }

  lemma OncePart(whole: multiset<nat>, part: multiset<nat>, other: multiset<nat>)
    requires Once(whole) && whole == part + other
    ensures Once(part)
    ensures forall o :: o in other ==> o !in part
  {
    assert forall o :: whole[o] == part[o] + other[o];
  }

  lemma TryLoad(d: Queues, offset: nat, level: nat)
    requires Valid(d) && Named(d.consumers) && offset !in Flying(d.consumers)
    ensures var r := Try(d, offset, level);
            Flying(r.0.consumers) == Flying(d.consumers) + if r.1 != "" then multiset{offset} else multiset{}
  {
    hide Try, Handed, Flying, NoTaker, Named;
    TryFacts(d, offset, level);
    if !NoTaker(d, level) {
      var i: nat :| Handed(d, offset, level, i, Try(d, offset, level));
      HandedFresh(d, offset, level, i, Try(d, offset, level));
      HandedName(d, offset, level, i, Try(d, offset, level));
    }
  }

  lemma {:induction false} FlushQueueLoad(d: Queues, queue: seq<nat>, level: nat)
    requires Valid(d) && Named(d.consumers) && Once(Flying(d.consumers) + multiset(queue))
    ensures var r := FlushQueue(d, queue, level);
            Flying(r.0.consumers) + multiset(r.1) == Flying(d.consumers) + multiset(queue)
  {
    hide Try, Flying, Named, AllGrew, NoTaker, SuffixOf;
    if queue != [] {
      var n := |queue| - 1;
      var o := queue[n];
      assert queue == queue[..n] + [o];
      OncePart(Flying(d.consumers) + multiset(queue), Flying(d.consumers) + multiset(queue[..n]), multiset{o});
      FlushQueueLoad(d, queue[..n], level);
      FlushQueueFacts(d, queue[..n], level);
      var before := FlushQueue(d, queue[..n], level);
      StillNamed(d.consumers, before.0.consumers);
      assert o !in Flying(before.0.consumers) + multiset(before.1);
      TryLoad(before.0, o, level);
    }
  }

  lemma FlushLevelLoad(d: Queues, level: nat)
    requires Valid(d) && Named(d.consumers) && level < LEVELS && Once(Load(d))
    ensures Load(FlushLevel(d, level)) == Load(d)
  {
    hide Flying, Queued, FlushQueue, Named;
    var queue := d.levels[level];
    QueuedSplit(d.levels, level);
    OncePart(Load(d), Flying(d.consumers) + multiset(queue), Queued(Without(d.levels, level)));
    FlushQueueLoad(d, queue, level);
    var r := FlushLevel(d, level);
    QueuedSplit(r.levels, level);
    assert Without(r.levels, level) == Without(d.levels, level);
  }

  lemma {:induction false} FlushLoad(d: Queues, level: nat)
    requires Valid(d) && Named(d.consumers) && level <= LEVELS && Once(Load(d))
    ensures Load(FlushDownTo(d, level)) == Load(d)
    decreases LEVELS - level
  {
    hide Load, Named, FlushLevel, AllGrew, Shortened, ConservingFrom;
    if level < LEVELS {
      FlushLoad(d, level + 1);
      FlushFacts(d, level + 1);
      FlushLevelLoad(FlushDownTo(d, level + 1), level);
    }
  }

  // --- runs ---

  // The dispatcher, the consumers that have left, and the offsets it accepted.
  datatype World = World(d: Queues, gone: seq<Consumer>, accepted: set<nat>)

  datatype Step =
    | DispatchStep(offset: nat, priority: nat)
    | AddStep(c: Consumer)
    | RemoveStep(id: string)
    | LimitStep(id: string, limit: nat)

  predicate Present(consumers: seq<Consumer>, id: string) { exists i :: 0 <= i < |consumers| && consumers[i].id == id }

  function Clamp(limit: nat): nat { if limit > 9 || limit == 0 then 9 else limit }

  // Fresh offsets; consumers with names of their own that start with nothing in flight;
  // limits set before a consumer joins, or lowered.
  predicate Enabled(w: World, step: Step) {
    match step
    case DispatchStep(offset, _) => offset !in w.accepted
    case AddStep(c) => c.id != "" && !Present(w.d.consumers, c.id) && c.inFlight == {}
    case RemoveStep(_) => true
    case LimitStep(id, limit) => Present(w.d.consumers, id) ==> Clamp(limit) <= Limit(w.d.maxPriority, id)
  }

  function Do(w: World, step: Step): World
    requires Valid(w.d)
  {
    match step
    case DispatchStep(offset, priority) =>
      var r := Dispatch(w.d, offset, priority);
      World(r.0, w.gone, if r.1 == NoConsumers then w.accepted else w.accepted + {offset})
    case AddStep(c) => w.(d := Add(w.d, c))
    case RemoveStep(id) =>
      var i := Find(w.d.consumers, id);
      World(Remove(w.d, id), if i < |w.d.consumers| then w.gone + [w.d.consumers[i]] else w.gone, w.accepted)
    case LimitStep(id, limit) => w.(d := SetLimit(w.d, id, limit))
  }

  predicate Within(consumers: seq<Consumer>) {
    forall i :: 0 <= i < |consumers| ==> consumers[i].inFlight == {} || |consumers[i].inFlight| <= consumers[i].prefetch
  }

  predicate Unique(consumers: seq<Consumer>) {
    forall i, j :: 0 <= i < j < |consumers| ==> consumers[i].id != consumers[j].id
  }

  // The ring index is valid; nobody able to take a waiting level has room; nobody holds more than its prefetch;
  // and every accepted offset is in exactly one place: a queue, a consumer, or a consumer that has left.
  ghost predicate Inv(w: World) {
    && Valid(w.d) && Conserving(w.d) && Named(w.d.consumers) && Unique(w.d.consumers)
    && Within(w.d.consumers) && Within(w.gone)
    && Load(w.d) + Flying(w.gone) == multiset(w.accepted)
  }

  lemma GrewWithin(a: seq<Consumer>, b: seq<Consumer>)
    requires AllGrew(a, b) && Within(a)
    ensures Within(b)
  {
    forall i | 0 <= i < |b| ensures b[i].inFlight == {} || |b[i].inFlight| <= b[i].prefetch { assert Grew(a[i], b[i]); }
  }

  lemma GrewUnique(a: seq<Consumer>, b: seq<Consumer>)
    requires AllGrew(a, b) && Unique(a)
    ensures Unique(b)
  {
    forall i, j | 0 <= i < j < |b| ensures b[i].id != b[j].id { assert Grew(a[i], b[i]) && Grew(a[j], b[j]); }
  }

  lemma StillConserving(a: Queues, b: Queues)
    requires Conserving(a) && a.levels == b.levels && a.maxPriority == b.maxPriority && AllGrew(a.consumers, b.consumers)
    ensures Conserving(b)
  {
    hide NoTaker, AllGrew;
    forall p | 0 <= p < |b.levels| && b.levels[p] != [] ensures NoTaker(b, p) { StillNoTaker(a, b, p); }
  }

  lemma NotLoaded(w: World, offset: nat)
    requires Load(w.d) + Flying(w.gone) == multiset(w.accepted) && offset !in w.accepted
    ensures offset !in Flying(w.d.consumers)
  {
    hide Flying, Queued;
    assert (Load(w.d) + Flying(w.gone))[offset] == 0;
  }

  lemma EnqueueLoad(d: Queues, offset: nat, level: nat)
    requires Valid(d) && level < LEVELS
    ensures Load(Enqueue(d, offset, level)) == Load(d) + multiset{offset}
  {
    hide Flying, Queued;
    var levels := Enqueue(d, offset, level).levels;
    QueuedSplit(d.levels, level);
    QueuedSplit(levels, level);
    assert Without(levels, level) == Without(d.levels, level);
  }

  lemma EnqueueConserving(d: Queues, offset: nat, level: nat)
    requires Valid(d) && Conserving(d) && level < LEVELS && NoTaker(d, level)
    ensures Conserving(Enqueue(d, offset, level))
  {
    hide NoTaker;
    var e := Enqueue(d, offset, level);
    forall p | 0 <= p < |e.levels| && e.levels[p] != [] ensures NoTaker(e, p) { SameTaker(d, e, p); }
  }

  lemma DispatchKeeps(w: World, offset: nat, priority: nat)
    requires Inv(w) && offset !in w.accepted
    ensures Inv(Do(w, DispatchStep(offset, priority)))
  {
    hide Conserving, Named, Unique, Within, Load, Flying, Dispatch, Try, NoTaker, Handed, AllGrew, Level;
    DispatchIsSimple(w.d, offset, priority);
    var d, level := w.d, Level(priority);
    var w' := Do(w, DispatchStep(offset, priority));
    if d.consumers != [] {
      NotLoaded(w, offset);
      TryFacts(d, offset, level);
      if NoTaker(d, level) {
        EnqueueLoad(d, offset, level);
        EnqueueConserving(d, offset, level);
      } else {
        var t := Try(d, offset, level);
        var i: nat :| Handed(d, offset, level, i, t);
        HandedName(d, offset, level, i, t);
        HandedGrew(d, offset, level, i, t);
        HandedFresh(d, offset, level, i, t);
        LoadGrows(d, t.0, offset);
        StillConserving(d, t.0);
        StillNamed(d.consumers, t.0.consumers);
        GrewUnique(d.consumers, t.0.consumers);
        GrewWithin(d.consumers, t.0.consumers);
      }
      Accepted(w.accepted, offset);
      assert Load(w'.d) == Load(d) + multiset{offset};
    }
  }

  lemma LoadGrows(a: Queues, b: Queues, offset: nat)
    requires a.levels == b.levels && Flying(b.consumers) == Flying(a.consumers) + multiset{offset}
    ensures Load(b) == Load(a) + multiset{offset}
  {
  }

  lemma Accepted(accepted: set<nat>, offset: nat)
    requires offset !in accepted
    ensures multiset(accepted + {offset}) == multiset(accepted) + multiset{offset}
  {
  }

  lemma AcceptedOnce(w: World)
    requires Load(w.d) + Flying(w.gone) == multiset(w.accepted)
    ensures Once(Load(w.d))
  {
    hide Load, Flying;
    forall o ensures Load(w.d)[o] <= 1 {
      assert (Load(w.d) + Flying(w.gone))[o] <= 1;
    }
  }

  function Joined(d: Queues, c: Consumer): Queues {
    d.(consumers := d.consumers + [c],
       maxPriority := if c.id in d.maxPriority then d.maxPriority else d.maxPriority[c.id := 9])
  }

  lemma JoinedFacts(d: Queues, c: Consumer)
    requires Valid(d) && Named(d.consumers) && Unique(d.consumers) && Within(d.consumers)
    requires c.id != "" && !Present(d.consumers, c.id) && c.inFlight == {}
    ensures var j := Joined(d, c);
            Valid(j) && Named(j.consumers) && Unique(j.consumers) && Within(j.consumers) && Load(j) == Load(d)
  {
    var j := Joined(d, c);
    assert j.consumers[..|d.consumers|] == d.consumers;
  }

  lemma AddKeeps(w: World, c: Consumer)
    requires Inv(w) && Enabled(w, AddStep(c))
    ensures Inv(Do(w, AddStep(c)))
  {
    hide Conserving, Named, Unique, Within, Load, Flying, AllGrew, FlushDownTo, Shortened, Present;
    JoinedFacts(w.d, c);
    var j := Joined(w.d, c);
    var r := Flush(j);
    AcceptedOnce(w);
    FlushLoad(j, 0);
    FlushFacts(j, 0);
    assert Conserving(r) by { AllFrom(r); }
    GrewUnique(j.consumers, r.consumers);
    GrewWithin(j.consumers, r.consumers);
  }

  lemma AllFrom(d: Queues)
    requires ConservingFrom(d, 0)
    ensures Conserving(d)
  {
  }

  lemma RemoveKeeps(w: World, id: string)
    requires Inv(w)
    ensures Inv(Do(w, RemoveStep(id)))
  {
    hide Flying, NoTaker;
    var d := w.d;
    var r := Remove(d, id);
    var i := Find(d.consumers, id);
    if i < |d.consumers| {
      FlyingSplit(d.consumers, i);
      Appended(w.gone, d.consumers[i]);
    } else {
      assert !Present(d.consumers, id);
    }
    RemoveConserving(d, id);
  }

  lemma Appended(gone: seq<Consumer>, c: Consumer)
    ensures Flying(gone + [c]) == Flying(gone) + multiset(c.inFlight)
  {
    assert (gone + [c])[..|gone|] == gone;
  }

  lemma RemoveConserving(d: Queues, id: string)
    requires Valid(d) && Conserving(d) && Unique(d.consumers)
    ensures Conserving(Remove(d, id))
  {
    var r := Remove(d, id);
    var i := Find(d.consumers, id);
    forall p, k | 0 <= p < |r.levels| && r.levels[p] != [] && 0 <= k < |r.consumers|
      ensures !Takes(r.maxPriority, r.consumers[k], p)
    {
      assert NoTaker(d, p);
      var c := r.consumers[k];
      assert c == d.consumers[if k < i then k else k + 1];
      assert c.id != id;
      assert !Takes(d.maxPriority, c, p);
    }
  }

  // Changing the limit of a consumer keeps work conserved exactly if no waiting level comes within reach
  // of that consumer while it has room.
  lemma LimitConserving(d: Queues, id: string, limit: nat)
    requires Valid(d) && Conserving(d)
    ensures Conserving(SetLimit(d, id, limit))
            <==> forall p, i :: 0 <= p < LEVELS && d.levels[p] != [] && 0 <= i < |d.consumers| && d.consumers[i].id == id && Free(d.consumers[i])
                                ==> p > Clamp(limit)
  {
    var e := SetLimit(d, id, limit);
    forall i, p: nat | 0 <= i < |d.consumers| && d.consumers[i].id != id
      ensures Takes(e.maxPriority, d.consumers[i], p) == Takes(d.maxPriority, d.consumers[i], p) { }
    forall i, p: nat | 0 <= i < |d.consumers| && d.consumers[i].id == id
      ensures Takes(e.maxPriority, d.consumers[i], p) == (p <= Clamp(limit) && Free(d.consumers[i])) { }
    if forall p, i :: 0 <= p < LEVELS && d.levels[p] != [] && 0 <= i < |d.consumers| && d.consumers[i].id == id && Free(d.consumers[i]) ==> p > Clamp(limit) {
      forall p | 0 <= p < |e.levels| && e.levels[p] != [] ensures NoTaker(e, p) { assert NoTaker(d, p); }
    }
    if Conserving(e) {
      forall p, i | 0 <= p < LEVELS && d.levels[p] != [] && 0 <= i < |d.consumers| && d.consumers[i].id == id && Free(d.consumers[i])
        ensures p > Clamp(limit)
      {
        assert NoTaker(e, p);
        assert !Takes(e.maxPriority, e.consumers[i], p);
      }
    }
  }

  lemma LimitKeeps(w: World, id: string, limit: nat)
    requires Inv(w) && Enabled(w, LimitStep(id, limit))
    ensures Inv(Do(w, LimitStep(id, limit)))
  {
    hide Load, Flying, Within, Unique, Named;
    var d := w.d;
    forall p, i | 0 <= p < LEVELS && d.levels[p] != [] && 0 <= i < |d.consumers| && d.consumers[i].id == id && Free(d.consumers[i])
      ensures p > Clamp(limit)
    {
      assert NoTaker(d, p);
      assert !Takes(d.maxPriority, d.consumers[i], p);
      assert Present(d.consumers, id);
    }
    LimitConserving(d, id, limit);
    SameLoad(d, SetLimit(d, id, limit));
  }

  lemma SameLoad(a: Queues, b: Queues)
    requires a.levels == b.levels && a.consumers == b.consumers
    ensures Load(a) == Load(b)
  {
  }

  const START := World(Queues([[], [], [], [], [], [], [], [], [], []], [], map[], 0), [], {})

  ghost predicate Run(worlds: seq<World>, steps: seq<Step>) {
    |worlds| == |steps| + 1 && worlds[0] == START
    && forall i :: 0 <= i < |steps| ==> Enabled(worlds[i], steps[i]) && Valid(worlds[i].d) && worlds[i + 1] == Do(worlds[i], steps[i])
  }

  lemma StartInv()
    ensures Inv(START)
  {
    var l := START.d.levels;
    assert Queued(l[..0]) == multiset{};
    forall k: nat | k <= 10 ensures Queued(l[..k]) == multiset{} { NoneQueued(l, k); }
    assert l[..10] == l;
  }

  lemma {:induction false} NoneQueued(levels: seq<seq<nat>>, k: nat)
    requires k <= |levels| && forall i :: 0 <= i < |levels| ==> levels[i] == []
    ensures Queued(levels[..k]) == multiset{}
  {
    if k > 0 {
      NoneQueued(levels, k - 1);
      assert levels[..k][..k - 1] == levels[..k - 1];
    }
  }

  // In every run the invariant holds at every moment.
  lemma {:induction false} RunsKeep(worlds: seq<World>, steps: seq<Step>, k: nat)
    requires Run(worlds, steps) && k < |worlds|
    ensures Inv(worlds[k])
  {
    hide Inv, Enabled, Do;
    if k == 0 {
      StartInv();
    } else {
      RunsKeep(worlds, steps, k - 1);
      StepKeeps(worlds[k - 1], steps[k - 1]);
    }
  }

  lemma StepKeeps(w: World, step: Step)
    requires Inv(w) && Enabled(w, step)
    ensures Valid(w.d) && Inv(Do(w, step))
  {
    hide Conserving, Named, Unique, Within, Load, Flying, Dispatch, Add, Remove, SetLimit, Do, Present;
    match step {
      case DispatchStep(offset, priority) => 
        Fresh(w, offset, priority);
        DispatchKeeps(w, offset, priority);
      case AddStep(c) => AddKeeps(w, c);
      case RemoveStep(id) => RemoveKeeps(w, id);
      case LimitStep(id, limit) => LimitKeeps(w, id, limit);
    }
  }

  lemma Fresh(w: World, offset: nat, priority: nat)
    requires Enabled(w, DispatchStep(offset, priority))
    ensures offset !in w.accepted
  {
  }

  // No overtaking: in every run, a consumer that gets a message from Dispatch can take nothing that was waiting,
  // whatever its level.
  lemma NothingOvertaken(worlds: seq<World>, steps: seq<Step>, k: nat, i: nat, q: nat)
    requires Run(worlds, steps) && k < |steps| && steps[k].DispatchStep?
    requires i < |worlds[k].d.consumers| && i < |worlds[k + 1].d.consumers|
    requires worlds[k + 1].d.consumers[i] != worlds[k].d.consumers[i]
    requires q < |worlds[k].d.levels| && worlds[k].d.levels[q] != []
    ensures q > Limit(worlds[k].d.maxPriority, worlds[k].d.consumers[i].id)
  {
    hide Dispatch, Try, Load, Conserving, Named, Flying, NoTaker, Level;
    RunsKeep(worlds, steps, k);
    var d, offset, level := worlds[k].d, steps[k].offset, Level(steps[k].priority);
    DispatchIsSimple(d, offset, steps[k].priority);
    TryFacts(d, offset, level);
    var h: nat :| Handed(d, offset, level, h, Try(d, offset, level));
    DispatchHonoursPriority(d, offset, level, h, q);
  }

  // --- when a message is accepted exactly once ---

  // The k-th consumer asked is the first that takes the level.
  predicate FirstAt(d: Queues, level: nat, k: nat)
    requires Valid(d) && k < |d.consumers|
  {
    Asked(d, level, k) && forall j :: 0 <= j < k ==> !Asked(d, level, j)
  }

  // Nobody takes the level, or the first in ring order that does has a name.
  predicate TakerNamed(d: Queues, level: nat)
    requires Valid(d)
  {
    NoTaker(d, level) || exists k :: 0 <= k < |d.consumers| && FirstAt(d, level, k) && d.consumers[Ring(d, k)].id != ""
  }

  // If somebody takes the level, an attempt gives the name of the first one.
  lemma TryNames(d: Queues, offset: nat, level: nat)
    requires Valid(d) && !NoTaker(d, level)
    ensures TakerNamed(d, level) <==> Try(d, offset, level).1 != ""
  {
    hide Takes, Deliver, Scan, Asked;
    TryFacts(d, offset, level);
    var i: nat :| Handed(d, offset, level, i, Try(d, offset, level));
    assert Takes(d.maxPriority, d.consumers[i], level);
    ScanFacts(d, offset, level, |d.consumers|);
    AskedAll(d, level, i);
    var k: nat :| k < |d.consumers| && GoesTo(d, offset, level, k, Try(d, offset, level));
    assert FirstAt(d, level, k);
    forall j | 0 <= j < |d.consumers| && FirstAt(d, level, j) ensures j == k { }
  }

  // Every consumer is asked once in a round.
  lemma AskedAll(d: Queues, level: nat, i: nat)
    requires Valid(d) && i < |d.consumers| && Takes(d.maxPriority, d.consumers[i], level)
    ensures exists k: nat :: k < |d.consumers| && Asked(d, level, k)
  {
    hide Takes;
    var k := if i >= d.nextIdx then i - d.nextIdx else i - d.nextIdx + |d.consumers|;
    assert Ring(d, k) == i && Asked(d, level, k);
  }

  // A second attempt after one that went to a consumer without a name: the message is there at least twice.
  lemma SecondAttempt(d: Queues, offset: nat, level: nat, i: nat, e: Queues)
    requires Valid(d) && Valid(e) && Conserving(e) && level < LEVELS && offset !in Load(d)
    requires Handed(d, offset, level, i, (e, "")) && e.levels == d.levels
    ensures var t := Try(e, offset, level);
            (if t.1 != "" then Load(t.0) else Load(Enqueue(t.0, offset, level)))[offset] >= 2
  {
    hide Try, NoTaker, Flying, Queued, Conserving, Takes;
    assert offset !in Flying(d.consumers);
    NotInFlight(d, offset, i);
    HandedLoad(d, offset, level, i, (e, ""));
    var t := Try(e, offset, level);
    TryFacts(e, offset, level);
    EnqueueLoad(t.0, offset, level);
    if !NoTaker(e, level) {
      var h: nat :| Handed(e, offset, level, h, t);
      HandedMore(e, offset, level, h, t);
      if t.1 != "" {
        NotInFlight(d, offset, h);
        assert e.consumers[h] == d.consumers[h];
        HandedLoad(e, offset, level, h, t);
      }
    }
  }

  lemma HandedMore(d: Queues, offset: nat, level: nat, i: nat, r: (Queues, string))
    requires Handed(d, offset, level, i, r)
    ensures Flying(r.0.consumers)[offset] >= Flying(d.consumers)[offset]
  {
    hide Flying;
    FlyingSplit(d.consumers, i);
    FlyingSplit(r.0.consumers, i);
    assert Without(r.0.consumers, i) == Without(d.consumers, i);
  }

  // A message that Dispatch accepts is put in exactly one place if and only if nobody takes its level
  // or the first consumer in ring order that does has a name.
  lemma AcceptedExactlyOnce(d: Queues, offset: nat, priority: nat)
    requires Valid(d) && Conserving(d) && d.consumers != [] && offset !in Load(d)
    ensures Load(Dispatch(d, offset, priority).0) == Load(d) + multiset{offset} <==> TakerNamed(d, Level(priority))
  {
    hide Try, NoTaker, Flying, Queued, Conserving, Handed, FlushDownTo, Level, Asked;
    var level := Level(priority);
    var t := Try(d, offset, level);
    TryFacts(d, offset, level);
    if NoTaker(d, level) {
      IdleFlush(d, 0);
      EnqueueLoad(d, offset, level);
    } else {
      TryNames(d, offset, level);
      var i: nat :| Handed(d, offset, level, i, t);
      assert offset !in Flying(d.consumers);
      if t.1 != "" {
        HandedFresh(d, offset, level, i, t);
        LoadGrows(d, t.0, offset);
      } else {
        HandedGrew(d, offset, level, i, t);
        StillConserving(d, t.0);
        IdleFlush(t.0, 0);
        SecondAttempt(d, offset, level, i, t.0);
        assert (Load(d) + multiset{offset})[offset] == 1;
      }
    }
  }

  // A new dispatcher that one consumer without a name has joined: the first message is queued as well as in flight.
  lemma NamelessDuplicates(offset: nat, priority: nat, prefetch: int)
    requires prefetch >= 1
    ensures var d := Add(START.d, Consumer("", prefetch, {}));
            Load(d) == multiset{} && Load(Dispatch(d, offset, priority).0) != multiset{offset}
  {
    hide Flying, Queued, Dispatch, FlushDownTo, TakerNamed, Level, Conserving;
    var c := Consumer("", prefetch, {});
    var d := Joined(START.d, c);
    EmptyFlush(d, 0);
    assert Add(START.d, c) == d;
    StartInv();
    Appended([], c);
    NothingFlies();
    assert [] + [c] == d.consumers;
    EmptyConserving(d);
    AloneNameless(d, Level(priority));
    AcceptedExactlyOnce(d, offset, priority);
  }

  lemma NothingFlies()
    ensures Flying([]) == multiset{}
  {
  }

  lemma EmptyConserving(d: Queues)
    requires forall p :: 0 <= p < |d.levels| ==> d.levels[p] == []
    ensures Conserving(d)
  {
  }

  lemma AloneNameless(d: Queues, level: nat)
    requires Valid(d) && |d.consumers| == 1 && d.consumers[0].id == "" && Takes(d.maxPriority, d.consumers[0], level)
    ensures !TakerNamed(d, level)
  {
    assert forall k :: 0 <= k < 1 ==> d.consumers[Ring(d, k)].id == "";
  }

  lemma {:induction false} EmptyFlush(d: Queues, level: nat)
    requires Valid(d) && level <= LEVELS && forall p :: 0 <= p < LEVELS ==> d.levels[p] == []
    ensures FlushDownTo(d, level) == d
    decreases LEVELS - level
  {
    if level < LEVELS {
      EmptyFlush(d, level + 1);
      NothingQueued(d, level);
      assert d.levels[level := []] == d.levels;
    }
  }

  // Raising a limit can leave work undone: a consumer with room and a message it may now take.
  lemma RaisedLimit(prefetch: int, offset: nat)
    requires prefetch >= 1
    ensures var d := Queues([[], [], [], [], [], [offset], [], [], [], []], [Consumer("a", prefetch, {})], map["a" := 1], 0);
            Valid(d) && Conserving(d) && !Conserving(SetLimit(d, "a", 9))
  {
    var d := Queues([[], [], [], [], [], [offset], [], [], [], []], [Consumer("a", prefetch, {})], map["a" := 1], 0);
    assert NoTaker(d, 5);
    assert d.levels[5] != [] && Free(d.consumers[0]);
    LimitConserving(d, "a", 9);
  }
}
