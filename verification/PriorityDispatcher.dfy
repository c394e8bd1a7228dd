/** internal/engine/queue/priority.go: the dispatcher object, step by step, against the functions in PriorityQueues. */
module PriorityDispatchers {
  import opened PriorityQueues
  import opened PriorityFacts
  import opened PriorityMeaning

  class PriorityDispatcher {
    var levels: seq<seq<nat>>
    var consumers: seq<Consumer>
    var consumerMaxP: map<string, nat>
    var nextIdx: nat

    function State(): Queues
      reads this
    {
      Queues(levels, consumers, consumerMaxP, nextIdx)
    }

    constructor ()
      ensures Valid(State()) && levels == [[], [], [], [], [], [], [], [], [], []]
      ensures consumers == [] && consumerMaxP == map[] && nextIdx == 0
    {
      levels, consumers, consumerMaxP, nextIdx := [[], [], [], [], [], [], [], [], [], []], [], map[], 0;
    }

    method SetConsumerMaxPriority(id: string, maxP: nat)
      requires Valid(State())
      modifies this
      ensures State() == SetLimit(old(State()), id, maxP)
    {
      var limit := maxP;
      if limit > 9 { limit := 9; }
      consumerMaxP := consumerMaxP[id := limit];
    }

    method TryDispatchToConsumer(offset: nat, priority: nat) returns (id: string)
      requires Valid(State())
      modifies this
      ensures (State(), id) == Try(old(State()), offset, priority)
    {
      hide Limit;
      var checked := 0;
      ghost var n := |consumers|;
      while checked < |consumers|
        invariant Valid(State()) && |consumers| == n && checked <= n
        invariant Scan(State(), offset, priority, n - checked) == Try(old(State()), offset, priority)
      {
        var at := nextIdx;
        var c := consumers[at];
        nextIdx := (nextIdx + 1) % |consumers|;
        checked := checked + 1;
        var maxP := MaxFor(c.id);
        if priority <= maxP && |c.inFlight| < c.prefetch {
          consumers := consumers[at := Deliver(c, offset)];
          return c.id;
        }
      }
      return "";
    }

    method MaxFor(id: string) returns (maxP: nat)
      ensures maxP == Limit(consumerMaxP, id)
    {
      maxP := if id in consumerMaxP then consumerMaxP[id] else 0;
      if maxP == 0 { maxP := 9; }
    }

    // One level of flushQueued.
    method FlushOne(level: nat)
      requires Valid(State()) && level < LEVELS
      modifies this
      ensures State() == FlushLevel(old(State()), level)
    {
      hide Try;
      var queue := levels[level];
      var remaining := [];
      for i := 0 to |queue|
        invariant Valid(State()) && (State(), remaining) == FlushQueue(old(State()), queue[..i], level)
      {
        assert queue[..i + 1][..i] == queue[..i];
        var id := TryDispatchToConsumer(queue[i], level);
        if id == "" { remaining := remaining + [queue[i]]; }
      }
      assert queue[..|queue|] == queue;
      levels := levels[level := remaining];
    }

    method FlushQueued()
      requires Valid(State())
      modifies this
      ensures State() == Flush(old(State()))
    {
      hide FlushLevel;
      var level := LEVELS;
      while level > 0
        invariant 0 <= level <= LEVELS && Valid(State()) && State() == FlushDownTo(old(State()), level)
      {
        level := level - 1;
        FlushOne(level);
      }
    }

    method DispatchMessage(offset: nat, priority: nat) returns (outcome: Outcome)
      requires Valid(State())
      modifies this
      ensures (State(), outcome) == Dispatch(old(State()), offset, priority)
      ensures Conserving(old(State())) && Named(old(consumers)) ==>
                var d, r := old(State()), (State(), outcome);
                if d.consumers == [] then r == (d, NoConsumers)
                else if Nobody(d, priority) then Waits(d, offset, priority, r)
                else exists i: nat :: Given(d, offset, priority, r, i)
    {
      hide Try, Flush, Conserving, Named, Nobody, Waits, Given;
      if Conserving(State()) && Named(consumers) { DispatchMeans(State(), offset, priority); }
      if |consumers| == 0 { return NoConsumers; }
      var p := priority;
      if p > 9 { p := 9; }
      var id := TryDispatchToConsumer(offset, p);
      if id != "" { return Sent(id); }
      FlushQueued();
      id := TryDispatchToConsumer(offset, p);
      if id != "" { return Sent(id); }
      levels := levels[p := levels[p] + [offset]];
      return AllBusy;
    }

    method AddConsumer(c: Consumer)
      requires Valid(State())
      modifies this
      ensures State() == Add(old(State()), c)
    {
      hide Flush;
      consumers := consumers + [c];
      if c.id !in consumerMaxP { consumerMaxP := consumerMaxP[c.id := 9]; }
      FlushQueued();
    }

    method RemoveConsumer(id: string)
      requires Valid(State())
      modifies this
      ensures State() == Remove(old(State()), id)
    {
      var i := 0;
      while i < |consumers| && consumers[i].id != id
        invariant i <= |consumers|
        invariant forall j :: 0 <= j < i ==> consumers[j].id != id
      {
        i := i + 1;
      }
      if i < |consumers| {
        consumers := consumers[..i] + consumers[i + 1..];
        if nextIdx >= |consumers| && |consumers| > 0 { nextIdx := 0; }
      }
      consumerMaxP := consumerMaxP - {id};
    }
  }
}
