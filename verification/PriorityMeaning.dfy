/** What priorities mean to the dispatcher: who gets a message, where it waits, and who is served first. */
module PriorityMeaning {
  import opened PriorityQueues
  import opened PriorityFacts
  import opened PriorityRuns

  // Priorities above 9 count as 9.
  function Capped(priority: nat): nat { if priority > 9 then 9 else priority }

  // The consumer has room, and its limit is not below the priority.
  predicate Able(d: Queues, c: Consumer, priority: nat) {
    |c.inFlight| < c.prefetch && Capped(priority) <= Limit(d.maxPriority, c.id)
  }

  predicate Nobody(d: Queues, priority: nat) { forall i :: 0 <= i < |d.consumers| ==> !Able(d, d.consumers[i], priority) }

  // Consumer i is able and gets the message; nothing else changes but the turn.
  predicate Given(d: Queues, offset: nat, priority: nat, r: (Queues, Outcome), i: nat) {
    && i < |d.consumers| && Able(d, d.consumers[i], priority) && r.1 == Sent(d.consumers[i].id)
    && r.0 == d.(consumers := d.consumers[i := d.consumers[i].(inFlight := d.consumers[i].inFlight + {offset})], nextIdx := r.0.nextIdx)
  }

  // The message waits at the end of the queue of its priority; nothing else changes.
  predicate Waits(d: Queues, offset: nat, priority: nat, r: (Queues, Outcome)) {
    var p := Capped(priority);
    && r.1 == AllBusy && p < |d.levels| && |r.0.levels| == |d.levels|
    && r.0.levels[p] == d.levels[p] + [offset]
    && (forall q :: 0 <= q < |d.levels| && q != p ==> r.0.levels[q] == d.levels[q])
    && r.0 == d.(levels := r.0.levels)
  }

  lemma LevelIsCapped(priority: nat)
    ensures Level(priority) == Capped(priority)
  {
  }

  lemma NobodyTakes(d: Queues, priority: nat)
    ensures Nobody(d, priority) <==> NoTaker(d, Capped(priority))
  {
    if Nobody(d, priority) {
      forall i | 0 <= i < |d.consumers| ensures !Takes(d.maxPriority, d.consumers[i], Capped(priority)) {
        assert !Able(d, d.consumers[i], priority);
      }
    } else {
      var i :| 0 <= i < |d.consumers| && Able(d, d.consumers[i], priority);
      assert Takes(d.maxPriority, d.consumers[i], Capped(priority));
    }
  }

  // Dispatch gives the message to a consumer that is able if there is one, and otherwise lets it wait
  // at the end of the queue of its priority; without consumers it is not accepted.
  lemma DispatchMeans(d: Queues, offset: nat, priority: nat)
    requires Valid(d) && Conserving(d) && Named(d.consumers)
    ensures var r := Dispatch(d, offset, priority);
            if d.consumers == [] then r == (d, NoConsumers)
            else if Nobody(d, priority) then Waits(d, offset, priority, r)
            else exists i: nat :: Given(d, offset, priority, r, i)
  {
    hide Try, NoTaker, Conserving, Named, Dispatch, Nobody, Limit;
    DispatchIsSimple(d, offset, priority);
    LevelIsCapped(priority);
    NobodyTakes(d, priority);
    var level := Capped(priority);
    var t := Try(d, offset, level);
    TryFacts(d, offset, level);
    if d.consumers != [] && !NoTaker(d, level) {
      var i: nat :| Handed(d, offset, level, i, t);
      HandedName(d, offset, level, i, t);
      assert Given(d, offset, priority, Dispatch(d, offset, priority), i);
    }
  }

  // --- where a message waits ---

  predicate Waiting(d: Queues, offset: nat) { exists p :: 0 <= p < |d.levels| && offset in d.levels[p] }

  // Step i accepted the message.
  ghost predicate AcceptedAt(worlds: seq<World>, steps: seq<Step>, i: nat, offset: nat) {
    i < |steps| && i + 1 < |worlds| && steps[i].DispatchStep? && steps[i].offset == offset && offset in worlds[i + 1].accepted
  }

  // Every waiting message is in the queue of the priority it was accepted with.
  ghost predicate InPlace(worlds: seq<World>, steps: seq<Step>, k: nat)
    requires k < |worlds|
  {
    forall p, o, i: nat :: 0 <= p < |worlds[k].d.levels| && o in worlds[k].d.levels[p] && i < k && AcceptedAt(worlds, steps, i, o)
                           ==> Capped(steps[i].priority) == p
  }

  lemma {:induction false} AcceptedStays(worlds: seq<World>, steps: seq<Step>, i: nat, k: nat, o: nat)
    requires Run(worlds, steps) && i <= k < |worlds| && o in worlds[i].accepted
    ensures o in worlds[k].accepted
  {
    hide Dispatch, Add, Remove, SetLimit;
    if i < k { AcceptedStays(worlds, steps, i, k - 1, o); }
  }

  // What a step does to the queues: a dispatch may lengthen one, by its own message; nothing else lengthens any.
  lemma StepQueues(w: World, step: Step)
    requires Inv(w) && Enabled(w, step)
    ensures var d, e := w.d, Do(w, step).d;
            |e.levels| == |d.levels|
            && forall p, o :: 0 <= p < |d.levels| && o in e.levels[p] ==>
                 o in d.levels[p] || (step.DispatchStep? && step.offset == o && p == Capped(step.priority))
  {
    hide Dispatch, FlushDownTo, Remove, Load, Flying, AllGrew, Conserving, Named, Unique, Within, ConservingFrom, NoTaker, Nobody, SuffixOf, Limit, Present;
    match step {
      case DispatchStep(offset, priority) =>
        DispatchMeans(w.d, offset, priority);
        DispatchQueues(w.d, offset, priority);
      case AddStep(c) =>
        JoinedFacts(w.d, c);
        FlushFacts(Joined(w.d, c), 0);
        ShortenedIn(Flush(Joined(w.d, c)).levels, w.d.levels);
      case RemoveStep(id) => RemoveQueues(w.d, id);
      case LimitStep(id, limit) =>
    }
  }

  lemma DispatchQueues(d: Queues, offset: nat, priority: nat)
    requires Valid(d)
    requires var r := Dispatch(d, offset, priority);
             r.0.levels == d.levels || Waits(d, offset, priority, r) || exists i: nat :: Given(d, offset, priority, r, i)
    ensures var e := Dispatch(d, offset, priority).0;
            forall p, o :: 0 <= p < |d.levels| && o in e.levels[p] ==> o in d.levels[p] || (offset == o && p == Capped(priority))
  {
    hide Dispatch;
  }

  lemma ShortenedIn(after: seq<seq<nat>>, before: seq<seq<nat>>)
    requires Shortened(after, before)
    ensures |after| == |before| && forall p, o :: 0 <= p < |before| && o in after[p] ==> o in before[p]
  {
    forall p, o | 0 <= p < |before| && o in after[p] ensures o in before[p] { assert SuffixOf(after[p], before[p]); }
  }

  lemma RemoveQueues(d: Queues, id: string)
    requires Valid(d)
    ensures Remove(d, id).levels == d.levels
  {
  }

  lemma {:induction false} AlwaysInPlace(worlds: seq<World>, steps: seq<Step>, k: nat)
    requires Run(worlds, steps) && k < |worlds|
    ensures InPlace(worlds, steps, k)
  {
    hide Do, Inv, Enabled, Run;
    if k == 0 {
      StartEmpty(worlds, steps);
    } else {
      RunLength(worlds, steps);
      AlwaysInPlace(worlds, steps, k - 1);
      RunsKeep(worlds, steps, k - 1);
      RunStep(worlds, steps, k - 1);
      StepQueues(worlds[k - 1], steps[k - 1]);
      forall p, o, i: nat | 0 <= p < |worlds[k].d.levels| && o in worlds[k].d.levels[p] && i < k && AcceptedAt(worlds, steps, i, o)
        ensures Capped(steps[i].priority) == p
      {
        if i == k - 1 {
          NotYetWaiting(worlds[k - 1], o, p);
        } else {
          AcceptedStays(worlds, steps, i + 1, k - 1, o);
          FreshStep(worlds[k - 1], steps[k - 1]);
        }
      }
    }
  }

  lemma RunLength(worlds: seq<World>, steps: seq<Step>)
    requires Run(worlds, steps)
    ensures |worlds| == |steps| + 1
  {
  }

  lemma RunStep(worlds: seq<World>, steps: seq<Step>, k: nat)
    requires Run(worlds, steps) && k < |steps|
    ensures k + 1 < |worlds| && Enabled(worlds[k], steps[k]) && Valid(worlds[k].d) && worlds[k + 1] == Do(worlds[k], steps[k])
  {
  }

  lemma StartEmpty(worlds: seq<World>, steps: seq<Step>)
    requires Run(worlds, steps)
    ensures InPlace(worlds, steps, 0)
  {
  }

  lemma FreshStep(w: World, step: Step)
    requires Enabled(w, step)
    ensures step.DispatchStep? ==> step.offset !in w.accepted
  {
  }

  // Nothing waits that has not been accepted.
  lemma NotYetWaiting(w: World, o: nat, p: nat)
    requires Inv(w) && p < |w.d.levels|
    ensures o in w.d.levels[p] ==> o in w.accepted
  {
    hide Flying, Conserving, Named, Unique, Within, Queued;
    QueuedSplit(w.d.levels, p);
    assert o in w.d.levels[p] ==> (Load(w.d) + Flying(w.gone))[o] > 0;
  }

  // --- who is served first ---

  // A flush leaves a level alone if nobody takes it when its turn comes.
  lemma FlushKeeps(d: Queues, p: nat)
    requires Valid(d) && Named(d.consumers) && p < LEVELS && NoTaker(FlushDownTo(d, p + 1), p)
    ensures Flush(d).levels[p] == d.levels[p]
  {
    hide NoTaker, AllGrew, Named, FlushQueue, ConservingFrom, SuffixOf;
    var e := FlushDownTo(d, p + 1);
    FlushFacts(d, p + 1);
    IdleQueue(e, e.levels[p], p);
    assert FlushDownTo(d, p).levels[p] == d.levels[p];
    LowerLevels(d, p, p);
  }

  // Later levels do not touch an earlier one.
  lemma {:induction false} LowerLevels(d: Queues, p: nat, level: nat)
    requires Valid(d) && level <= p < LEVELS
    ensures Flush(d).levels[p] == FlushDownTo(d, level).levels[p]
    decreases level
  {
    hide FlushQueue;
    if level > 0 {
      assert FlushDownTo(d, level - 1) == FlushLevel(FlushDownTo(d, level), level - 1);
      LowerLevels(d, p, level - 1);
    }
  }

  // When a consumer joins that is able to take both of two waiting levels, the lower one is left alone
  // unless the higher one is emptied.
  lemma HigherFirst(d: Queues, c: Consumer, high: nat, low: nat)
    requires Valid(d) && Conserving(d) && Named(d.consumers) && c.id != "" && low < high < LEVELS
    requires d.levels[low] != [] && high <= Limit(Joined(d, c).maxPriority, c.id) && !Present(d.consumers, c.id)
    requires Flush(Joined(d, c)).levels[high] != []
    ensures Flush(Joined(d, c)).levels[low] == d.levels[low]
  {
    hide AllGrew, Named, FlushLevel, Limit, Present, SuffixOf, FlushDownTo;
    var j := Joined(d, c);
    JoinedNamed(d, c);
    var e := FlushDownTo(j, low + 1);
    FlushFacts(j, low + 1);
    LowerLevels(j, high, low + 1);
    assert e.levels[high] != [] && NoTaker(e, high);
    var n := |d.consumers|;
    forall i | 0 <= i < |e.consumers| ensures !Takes(e.maxPriority, e.consumers[i], low) {
      GrewAt(j.consumers, e.consumers, i);
      if i < n {
        assert NoTaker(d, low);
        assert !Takes(d.maxPriority, d.consumers[i], low);
        JoinedLimit(d, c, i);
      } else {
        assert !Takes(e.maxPriority, e.consumers[i], high);
      }
    }
    FlushKeeps(j, low);
  }

  lemma JoinedNamed(d: Queues, c: Consumer)
    requires Valid(d) && Named(d.consumers) && c.id != ""
    ensures Valid(Joined(d, c)) && Named(Joined(d, c).consumers) && Joined(d, c).levels == d.levels
    ensures |Joined(d, c).consumers| == |d.consumers| + 1 && Joined(d, c).consumers[|d.consumers|] == c
    ensures forall i :: 0 <= i < |d.consumers| ==> Joined(d, c).consumers[i] == d.consumers[i]
  {
  }

  lemma GrewAt(a: seq<Consumer>, b: seq<Consumer>, i: nat)
    requires AllGrew(a, b) && i < |a|
    ensures i < |b| && Grew(a[i], b[i])
  {
  }

  // A join changes nobody else's limit.
  lemma JoinedLimit(d: Queues, c: Consumer, i: nat)
    requires i < |d.consumers| && !Present(d.consumers, c.id)
    ensures Limit(Joined(d, c).maxPriority, d.consumers[i].id) == Limit(d.maxPriority, d.consumers[i].id)
  {
  }

  // In every run: of two waiting messages within reach of a joining consumer, the one of the lower priority
  // is not handed out before the one of the higher.
  lemma ServedByPriority(worlds: seq<World>, steps: seq<Step>, k: nat, i: nat, j: nat)
    requires Run(worlds, steps) && k < |steps| && steps[k].AddStep? && i < k && j < k
    requires steps[i].DispatchStep? && steps[j].DispatchStep?
    requires AcceptedAt(worlds, steps, i, steps[i].offset) && AcceptedAt(worlds, steps, j, steps[j].offset)
    requires Capped(steps[i].priority) > Capped(steps[j].priority)
    requires Capped(steps[i].priority) <= Limit(worlds[k + 1].d.maxPriority, steps[k].c.id)
    requires Waiting(worlds[k].d, steps[i].offset) && Waiting(worlds[k].d, steps[j].offset)
    requires !Waiting(worlds[k + 1].d, steps[j].offset)
    ensures !Waiting(worlds[k + 1].d, steps[i].offset)
  {
    hide Waiting, Run, Inv, Conserving, Named, Limit, Present, FlushDownTo, AllGrew, InPlace, AcceptedAt, NoTaker, Load, Flying, Unique, Within;
    RunLength(worlds, steps);
    RunsKeep(worlds, steps, k);
    AlwaysInPlace(worlds, steps, k);
    AlwaysInPlace(worlds, steps, k + 1);
    RunStep(worlds, steps, k);
    InvParts(worlds[k]);
    var d, c, e := worlds[k].d, steps[k].c, worlds[k + 1].d;
    var high, low := Capped(steps[i].priority), Capped(steps[j].priority);
    if Waiting(e, steps[i].offset) {
      Placed(worlds, steps, k + 1, i);
      Placed(worlds, steps, k, j);
      JoinedLevels(d, c);
      HigherFirst(d, c, high, low);
      StillWaiting(e, low, steps[j].offset);
    }
  }

  lemma StillWaiting(d: Queues, p: nat, offset: nat)
    requires p < |d.levels| && offset in d.levels[p]
    ensures Waiting(d, offset)
  {
  }

  lemma InvParts(w: World)
    requires Inv(w)
    ensures Valid(w.d) && Conserving(w.d) && Named(w.d.consumers)
  {
  }

  lemma JoinedLevels(d: Queues, c: Consumer)
    requires Valid(d)
    ensures Add(d, c) == Flush(Joined(d, c))
    ensures |Add(d, c).levels| == LEVELS && Add(d, c).maxPriority == Joined(d, c).maxPriority
  {
  }

  lemma Placed(worlds: seq<World>, steps: seq<Step>, k: nat, i: nat)
    requires k < |worlds| && InPlace(worlds, steps, k) && i < k && i < |steps| && steps[i].DispatchStep?
    requires AcceptedAt(worlds, steps, i, steps[i].offset) && Waiting(worlds[k].d, steps[i].offset)
    ensures Capped(steps[i].priority) < |worlds[k].d.levels| && steps[i].offset in worlds[k].d.levels[Capped(steps[i].priority)]
            && worlds[k].d.levels[Capped(steps[i].priority)] != []
  {
    hide AcceptedAt;
  }

  // --- joining and leaving ---

  // The one that leaves is the first of its name; the others keep their order, their messages and their limits,
  // and a later consumer of that name starts without a limit.
  lemma RemoveMeans(d: Queues, id: string)
    requires Valid(d)
    ensures var r := Remove(d, id);
            && r.levels == d.levels && Limit(r.maxPriority, id) == 9
            && (forall o :: o != id ==> Limit(r.maxPriority, o) == Limit(d.maxPriority, o))
            && (!Present(d.consumers, id) ==> r.consumers == d.consumers)
            && (Present(d.consumers, id) ==>
                  exists i :: 0 <= i < |d.consumers| && d.consumers[i].id == id && (forall j :: 0 <= j < i ==> d.consumers[j].id != id)
                              && r.consumers == d.consumers[..i] + d.consumers[i + 1..])
  {
    var i := Find(d.consumers, id);
    if i < |d.consumers| { assert d.consumers[i].id == id; }
  }
}
