/** internal/engine/queue/priority.go as functions on the dispatcher's state. */
module PriorityQueues {
  const LEVELS := 10

  // Prefetch is a Go int; InFlight is known by its offsets.
  datatype Consumer = Consumer(id: string, prefetch: int, inFlight: set<nat>)

  datatype Queues = Queues(levels: seq<seq<nat>>, consumers: seq<Consumer>, maxPriority: map<string, nat>, nextIdx: nat)

  predicate Valid(d: Queues) {
    |d.levels| == LEVELS && if d.consumers == [] then d.nextIdx == 0 else d.nextIdx < |d.consumers|
  }

  // A limit of 0 counts as none.
  function Limit(maxPriority: map<string, nat>, id: string): nat {
    if id in maxPriority && maxPriority[id] != 0 then maxPriority[id] else 9
  }

  predicate Free(c: Consumer) { |c.inFlight| < c.prefetch }

  predicate Takes(maxPriority: map<string, nat>, c: Consumer, level: nat) { level <= Limit(maxPriority, c.id) && Free(c) }

  predicate NoTaker(d: Queues, level: nat) {
    forall i :: 0 <= i < |d.consumers| ==> !Takes(d.maxPriority, d.consumers[i], level)
  }

  function Deliver(c: Consumer, offset: nat): Consumer { c.(inFlight := c.inFlight + {offset}) }

  // tryDispatchToConsumer with left consumers still to look at.
  function Scan(d: Queues, offset: nat, level: nat, left: nat): (r: (Queues, string))
    requires Valid(d) && left <= |d.consumers|
    ensures Valid(r.0) && r.0.levels == d.levels && r.0.maxPriority == d.maxPriority && |r.0.consumers| == |d.consumers|
    decreases left
  {
    if left == 0 then (d, "") else
      var c := d.consumers[d.nextIdx];
      var on := d.(nextIdx := (d.nextIdx + 1) % |d.consumers|);
      if Takes(d.maxPriority, c, level) then (on.(consumers := d.consumers[d.nextIdx := Deliver(c, offset)]), c.id)
      else Scan(on, offset, level, left - 1)
  }

  function Try(d: Queues, offset: nat, level: nat): (r: (Queues, string))
    requires Valid(d)
    ensures Valid(r.0) && r.0.levels == d.levels && r.0.maxPriority == d.maxPriority && |r.0.consumers| == |d.consumers|
  {
    Scan(d, offset, level, |d.consumers|)
  }

  // The inner loop of flushQueued: the messages of one level in order; those not taken remain.
  function FlushQueue(d: Queues, queue: seq<nat>, level: nat): (r: (Queues, seq<nat>))
    requires Valid(d)
    ensures Valid(r.0) && r.0.levels == d.levels && r.0.maxPriority == d.maxPriority && |r.0.consumers| == |d.consumers|
  {
    if queue == [] then (d, []) else
      var before := FlushQueue(d, queue[..|queue| - 1], level);
      var t := Try(before.0, queue[|queue| - 1], level);
      (t.0, if t.1 != "" then before.1 else before.1 + [queue[|queue| - 1]])
  }

  function FlushLevel(d: Queues, level: nat): (r: Queues)
    requires Valid(d) && level < LEVELS
    ensures Valid(r) && r.maxPriority == d.maxPriority && |r.consumers| == |d.consumers|
  {
    var f := FlushQueue(d, d.levels[level], level);
    f.0.(levels := d.levels[level := f.1])
  }

  // flushQueued, from the highest level down to the given one.
  function FlushDownTo(d: Queues, level: nat): (r: Queues)
    requires Valid(d) && level <= LEVELS
    ensures Valid(r) && r.maxPriority == d.maxPriority && |r.consumers| == |d.consumers|
    decreases LEVELS - level
  {
    if level == LEVELS then d else FlushLevel(FlushDownTo(d, level + 1), level)
  }

  function Flush(d: Queues): (r: Queues)
    requires Valid(d)
    ensures Valid(r) && r.maxPriority == d.maxPriority && |r.consumers| == |d.consumers|
  {
    FlushDownTo(d, 0)
  }

  datatype Outcome = NoConsumers | AllBusy | Sent(id: string)

  function Level(priority: nat): (level: nat)
    ensures level < LEVELS
  {
    if priority > 9 then 9 else priority
  }

  function Enqueue(d: Queues, offset: nat, level: nat): (r: Queues)
    requires Valid(d) && level < LEVELS
    ensures Valid(r)
  {
    d.(levels := d.levels[level := d.levels[level] + [offset]])
  }

  function Dispatch(d: Queues, offset: nat, priority: nat): (r: (Queues, Outcome))
    requires Valid(d)
    ensures Valid(r.0)
  {
    if d.consumers == [] then (d, NoConsumers) else
      var level := Level(priority);
      var first := Try(d, offset, level);
      if first.1 != "" then (first.0, Sent(first.1)) else
        var again := Try(Flush(first.0), offset, level);
        if again.1 != "" then (again.0, Sent(again.1)) else (Enqueue(again.0, offset, level), AllBusy)
  }

  function Add(d: Queues, c: Consumer): (r: Queues)
    requires Valid(d)
    ensures Valid(r)
  {
    Flush(d.(consumers := d.consumers + [c],
             maxPriority := if c.id in d.maxPriority then d.maxPriority else d.maxPriority[c.id := 9]))
  }

  // The first place of the name in the list, or its length.
  function Find(consumers: seq<Consumer>, id: string): (i: nat)
    ensures i <= |consumers| && (i < |consumers| ==> consumers[i].id == id)
    ensures forall j :: 0 <= j < i ==> consumers[j].id != id
  {
    if consumers == [] || consumers[0].id == id then 0 else 1 + Find(consumers[1..], id)
  }

  function Remove(d: Queues, id: string): (r: Queues)
    requires Valid(d)
    ensures Valid(r)
  {
    var i := Find(d.consumers, id);
    var rest := if i < |d.consumers| then d.consumers[..i] + d.consumers[i + 1..] else d.consumers;
    d.(consumers := rest,
       nextIdx := if i < |d.consumers| && d.nextIdx >= |rest| && |rest| > 0 then 0 else d.nextIdx,
       maxPriority := d.maxPriority - {id})
  }

  function SetLimit(d: Queues, id: string, limit: nat): (r: Queues)
    requires Valid(d)
    ensures Valid(r)
  {
    d.(maxPriority := d.maxPriority[id := if limit > 9 then 9 else limit])
  }
}
