/** internal/processing/window.go: tumbling, hopping and sliding windows over event streams. */
module EventWindows {
  import opened Bytes
  import opened Division

  datatype WindowState = WindowState(data: seq<byte>, count: nat, lastEvent: int)

  datatype Window = Window(closeTime: int, keys: map<string, WindowState>)

  datatype Opening = Opening(time: int)

  // Windows by opening time.
  type Windows = map<Opening, Window>

  datatype Insertion = Insertion(open: Opening, key: string, timestamp: int, data: seq<byte>)

  datatype Emission = Emission(open: Opening, key: string, state: WindowState)

  // --- inserting one event into one window ---

  function AppendToKey(keys: map<string, WindowState>, key: string, timestamp: int, data: seq<byte>): map<string, WindowState> {
    var s := if key in keys then keys[key] else WindowState([], 0, timestamp);
    keys[key := WindowState(s.data + data, s.count + 1, if timestamp > s.lastEvent then timestamp else s.lastEvent)]
  }

  function Insert(ws: Windows, size: int, x: Insertion): Windows {
    var w := if x.open in ws then ws[x.open] else Window(x.open.time + size, map[]);
    ws[x.open := w.(keys := AppendToKey(w.keys, x.key, x.timestamp, x.data))]
  }

  function InsertAll(ws: Windows, size: int, xs: seq<Insertion>): Windows {
    if xs == [] then ws else Insert(InsertAll(ws, size, xs[..|xs| - 1]), size, xs[|xs| - 1])
  }

  // --- conservation ---

  // Number and bytes of events.
  datatype Tally = Tally(count: nat, data: seq<byte>)

  const NOTHING := Tally(0, [])

  function Plus(a: Tally, b: Tally): Tally { Tally(a.count + b.count, a.data + b.data) }

  // What went into the windows opened at o under key k,
  function TallyIn(history: seq<Insertion>, o: Opening, k: string): Tally {
    if history == [] then NOTHING else
      var x := history[|history| - 1];
      var before := TallyIn(history[..|history| - 1], o, k);
      if x.open == o && x.key == k then Plus(before, Tally(1, x.data)) else before
  }

  // what was emitted for them,
  function TallyOut(emitted: seq<Emission>, o: Opening, k: string): Tally {
    if emitted == [] then NOTHING else
      var e := emitted[|emitted| - 1];
      var before := TallyOut(emitted[..|emitted| - 1], o, k);
      if e.open == o && e.key == k then Plus(before, Tally(e.state.count, e.state.data)) else before
  }

  // and what is still open.
  function TallyOpen(ws: Windows, o: Opening, k: string): Tally {
    if o in ws && k in ws[o].keys then Tally(ws[o].keys[k].count, ws[o].keys[k].data) else NOTHING
  }

  // For every window and key, emitted and open state together hold each inserted event once, in order of arrival.
  ghost predicate Conserved(history: seq<Insertion>, emitted: seq<Emission>, ws: Windows) {
    forall o, k :: TallyIn(history, o, k) == Plus(TallyOut(emitted, o, k), TallyOpen(ws, o, k))
  }

  lemma InAppend(history: seq<Insertion>, x: Insertion, o: Opening, k: string)
    ensures TallyIn(history + [x], o, k) ==
            if x.open == o && x.key == k then Plus(TallyIn(history, o, k), Tally(1, x.data)) else TallyIn(history, o, k)
  {
    assert (history + [x])[..|history|] == history;
  }

  lemma OutAppend(emitted: seq<Emission>, e: Emission, o: Opening, k: string)
    ensures TallyOut(emitted + [e], o, k) ==
            if e.open == o && e.key == k then Plus(TallyOut(emitted, o, k), Tally(e.state.count, e.state.data)) else TallyOut(emitted, o, k)
  {
    assert (emitted + [e])[..|emitted|] == emitted;
  }

  lemma OpenAppend(ws: Windows, size: int, x: Insertion, o: Opening, k: string)
    ensures TallyOpen(Insert(ws, size, x), o, k) ==
            if x.open == o && x.key == k then Plus(TallyOpen(ws, o, k), Tally(1, x.data)) else TallyOpen(ws, o, k)
  {
  }

  lemma PlusMore(a: Tally, b: Tally, c: Tally)
    ensures Plus(a, Plus(b, c)) == Plus(Plus(a, b), c) && Plus(a, NOTHING) == a
  {
  }

  lemma InsertConserves(history: seq<Insertion>, emitted: seq<Emission>, ws: Windows, size: int, x: Insertion)
    requires Conserved(history, emitted, ws)
    ensures Conserved(history + [x], emitted, Insert(ws, size, x))
  {
    hide TallyIn, TallyOut, TallyOpen, Insert, Plus;
    forall o, k ensures TallyIn(history + [x], o, k) == Plus(TallyOut(emitted, o, k), TallyOpen(Insert(ws, size, x), o, k)) {
      InAppend(history, x, o, k);
      OpenAppend(ws, size, x, o, k);
      PlusMore(TallyOut(emitted, o, k), TallyOpen(ws, o, k), Tally(1, x.data));
    }
  }

  // Window o without the keys that have been emitted.
  function Less(ws: Windows, o: Opening, k: string): Windows
    requires o in ws
  {
    ws[o := ws[o].(keys := ws[o].keys - {k})]
  }

  lemma OpenLess(ws: Windows, o: Opening, k: string, o': Opening, k': string)
    requires o in ws && k in ws[o].keys
    ensures TallyOpen(Less(ws, o, k), o', k') == if (o, k) == (o', k') then NOTHING else TallyOpen(ws, o', k')
    ensures TallyOpen(ws, o, k) == Tally(ws[o].keys[k].count, ws[o].keys[k].data)
  {
  }

  lemma EmitConserves(history: seq<Insertion>, emitted: seq<Emission>, ws: Windows, o: Opening, k: string)
    requires Conserved(history, emitted, ws) && o in ws && k in ws[o].keys
    ensures Conserved(history, emitted + [Emission(o, k, ws[o].keys[k])], Less(ws, o, k))
  {
    hide TallyIn, TallyOut, TallyOpen, Less, Plus;
    var e := Emission(o, k, ws[o].keys[k]);
    forall o', k' ensures TallyIn(history, o', k') == Plus(TallyOut(emitted + [e], o', k'), TallyOpen(Less(ws, o, k), o', k')) {
      OutAppend(emitted, e, o', k');
      OpenLess(ws, o, k, o', k');
      PlusMore(Plus(TallyOut(emitted, o', k'), TallyOpen(ws, o', k')), NOTHING, NOTHING);
    }
  }

  lemma DeleteConserves(history: seq<Insertion>, emitted: seq<Emission>, ws: Windows, o: Opening)
    requires Conserved(history, emitted, ws) && o in ws && ws[o].keys == map[]
    ensures Conserved(history, emitted, ws - {o})
  {
    hide TallyIn, TallyOut;
    forall o', k ensures TallyIn(history, o', k) == Plus(TallyOut(emitted, o', k), TallyOpen(ws - {o}, o', k)) {
      assert TallyOpen(ws - {o}, o', k) == TallyOpen(ws, o', k);
    }
  }

  // The greatest time among the last count events that went into the windows opened at o under key k.
  function Peak(history: seq<Insertion>, o: Opening, k: string, count: nat): (peak: int)
    requires history != [] && count > 0
  {
    var n := |history| - 1;
    var x := history[n];
    if n == 0 then x.timestamp
    else if !(x.open == o && x.key == k) then Peak(history[..n], o, k, count)
    else if count == 1 then x.timestamp
    else
      var before := Peak(history[..n], o, k, count - 1);
      if x.timestamp > before then x.timestamp else before
  }

  // Every open state knows the greatest time of its events.
  ghost predicate Peaks(history: seq<Insertion>, ws: Windows) {
    forall o, k :: o in ws && k in ws[o].keys ==> PeakIs(history, o, k, ws[o].keys[k])
  }

  predicate PeakIs(history: seq<Insertion>, o: Opening, k: string, s: WindowState) {
    s.count > 0 && history != [] && s.lastEvent == Peak(history, o, k, s.count)
  }

  lemma PeakNext(history: seq<Insertion>, x: Insertion, o: Opening, k: string, count: nat)
    requires history != [] && count > 0
    ensures !(x.open == o && x.key == k) ==> Peak(history + [x], o, k, count) == Peak(history, o, k, count)
    ensures x.open == o && x.key == k ==> Peak(history + [x], o, k, 1) == x.timestamp
    ensures x.open == o && x.key == k ==>
              Peak(history + [x], o, k, count + 1) == if x.timestamp > Peak(history, o, k, count) then x.timestamp else Peak(history, o, k, count)
  {
    assert (history + [x])[..|history|] == history;
  }

  lemma PeakFirst(history: seq<Insertion>, x: Insertion)
    ensures Peak(history + [x], x.open, x.key, 1) == x.timestamp
  {
  }

  lemma InsertPeaks(history: seq<Insertion>, ws: Windows, size: int, x: Insertion)
    requires Peaks(history, ws)
    ensures Peaks(history + [x], Insert(ws, size, x))
  {
    hide Peak;
    var after := Insert(ws, size, x);
    forall o, k | o in after && k in after[o].keys ensures PeakIs(history + [x], o, k, after[o].keys[k]) {
      if o in ws && k in ws[o].keys {
        assert PeakIs(history, o, k, ws[o].keys[k]);
        PeakNext(history, x, o, k, ws[o].keys[k].count);
      } else {
        PeakFirst(history, x);
      }
    }
  }

  lemma FewerPeaks(history: seq<Insertion>, ws: Windows, some: set<Opening>)
    requires Peaks(history, ws)
    ensures Peaks(history, ws - some)
  {
    hide PeakIs;
  }

  // --- which windows an event enters ---

  // Go's integer division, towards zero.
  function Quotient(a: int, b: int): int
    requires b > 0
  {
    if a >= 0 then a / b else -((-a) / b)
  }

  function FixedOpen(timestamp: int, size: int): int
    requires size > 0
  {
    Quotient(timestamp, size) * size
  }

  // The fixed window an event enters contains it, unless the time is negative and not a multiple of the size.
  lemma FixedContains(timestamp: int, size: int)
    requires size > 0
    ensures var o := FixedOpen(timestamp, size);
            o <= timestamp < o + size <==> timestamp >= 0 || (-timestamp) % size == 0
  {
    if timestamp >= 0 {
      assert timestamp == timestamp / size * size + timestamp % size;
    } else {
      var n := -timestamp;
      assert n == n / size * size + n % size;
      assert FixedOpen(timestamp, size) == 0 - n / size * size;
    }
  }

  // The opening times from open on, in steps of slide, of the windows that contain the time.
  function StartsFrom(open: int, timestamp: int, size: int, slide: int): seq<int>
    requires slide > 0
    decreases timestamp - open
  {
    if open > timestamp then [] else
      (if timestamp < open + size then [open] else []) + StartsFrom(open + slide, timestamp, size, slide)
  }

  function Starts(timestamp: int, size: int, slide: int): seq<int>
    requires slide > 0
  {
    StartsFrom(if timestamp >= 0 then 0 else FixedOpen(timestamp, slide), timestamp, size, slide)
  }

  lemma {:induction false} StartsMember(open: int, timestamp: int, size: int, slide: int, o: int)
    requires slide > 0 && open % slide == 0
    ensures o in StartsFrom(open, timestamp, size, slide) <==> open <= o <= timestamp < o + size && o % slide == 0
    decreases timestamp - open
  {
    if open <= timestamp {
      NextMultiple(open, slide);
      StartsMember(open + slide, timestamp, size, slide, o);
      if open < o && o % slide == 0 { Gap(open, o, slide); }
    }
  }

  lemma {:induction false} StartsAscend(open: int, timestamp: int, size: int, slide: int)
    requires slide > 0
    ensures forall i :: 0 <= i < |StartsFrom(open, timestamp, size, slide)| ==> open <= StartsFrom(open, timestamp, size, slide)[i]
    ensures Ascending(StartsFrom(open, timestamp, size, slide))
    decreases timestamp - open
  {
    if open <= timestamp { StartsAscend(open + slide, timestamp, size, slide); }
  }

  predicate Ascending(s: seq<int>) { forall i, j :: 0 <= i < j < |s| ==> s[i] < s[j] }

  // At a time from 0 on an event enters exactly the windows opened at multiples of slide from 0 on that contain it;
  // at a negative time only one that opens at that very moment. It enters each once.
  lemma SlidingExactly(timestamp: int, size: int, slide: int)
    requires slide > 0
    ensures Ascending(Starts(timestamp, size, slide))
    ensures forall o: int :: o in Starts(timestamp, size, slide)
                             <==> o <= timestamp < o + size && o % slide == 0 && (if timestamp >= 0 then o >= 0 else o == timestamp)
  {
    hide StartsFrom, Ascending, FixedOpen;
    var first := if timestamp >= 0 then 0 else FixedOpen(timestamp, slide);
    StartsAscend(first, timestamp, size, slide);
    assert Starts(timestamp, size, slide) == StartsFrom(first, timestamp, size, slide);
    StartFacts(timestamp, slide);
    forall o: int
      ensures o in Starts(timestamp, size, slide)
              <==> o <= timestamp < o + size && o % slide == 0 && (if timestamp >= 0 then o >= 0 else o == timestamp)
    {
      StartsMember(first, timestamp, size, slide, o);
      if timestamp < 0 { NegativeOpen(timestamp, slide, o); }
    }
  }

  // The nearest multiple towards 0 is never before a negative time, so that no earlier window is found.
  lemma NegativeOpen(timestamp: int, slide: int, o: int)
    requires slide > 0 && timestamp < 0
    ensures FixedOpen(timestamp, slide) >= timestamp
    ensures timestamp % slide == 0 ==> FixedOpen(timestamp, slide) == timestamp
  {
    var n := -timestamp;
    assert n == n / slide * slide + n % slide;
    assert FixedOpen(timestamp, slide) == 0 - n / slide * slide;
    if timestamp % slide == 0 {
      var q := timestamp / slide;
      assert (-q) * slide == n;
      DivModUnique(n, slide, -q, 0);
    }
  }

  // One nanosecond before 0 a window of ten is opened that does not contain the event.
  lemma FixedMisses()
    ensures var o := FixedOpen(-1, 10);
            !(o <= -1 < o + 10)
  {
    FixedContains(-1, 10);
  }

  // Windows that close before the time do not count.
  lemma {:induction false} SkipEarly(open: int, start: int, timestamp: int, size: int, slide: int)
    requires slide > 0 && open % slide == 0 && start % slide == 0
    requires open <= start <= timestamp && (open < start ==> start - slide + size <= timestamp)
    ensures StartsFrom(open, timestamp, size, slide) == StartsFrom(start, timestamp, size, slide)
    decreases start - open
  {
    if open < start {
      Gap(open, start, slide);
      NextMultiple(open, slide);
      SkipEarly(open + slide, start, timestamp, size, slide);
    }
  }

  // --- the manager ---

  function Entering(starts: seq<int>, key: string, timestamp: int, data: seq<byte>): (xs: seq<Insertion>)
    ensures |xs| == |starts| && forall i :: 0 <= i < |xs| ==> xs[i] == Insertion(Opening(starts[i]), key, timestamp, data)
  {
    if starts == [] then [] else [Insertion(Opening(starts[0]), key, timestamp, data)] + Entering(starts[1..], key, timestamp, data)
  }

  class WindowManager {
    const sliding: bool
    const size: int
    const slide: int
    var windows: Windows
    var closed: bool
    var emitted: seq<Emission>        // what onEmit has been given
    ghost var history: seq<Insertion> // every insertion of an event into a window

    ghost predicate Valid()
      reads this
    {
      && size > 0 && slide >= 0 && Conserved(history, emitted, windows) && Peaks(history, windows) && (closed ==> windows == map[])
      && forall o :: o in windows ==> windows[o].closeTime == o.time + size
    }

    constructor (sliding: bool, size: int, slide: int)
      requires size > 0 && slide >= 0
      ensures Valid() && !closed && windows == map[] && emitted == [] && history == []
      ensures this.sliding == sliding && this.size == size && this.slide == slide
    {
      hide Conserved, PeakIs;
      NothingConserved();
      this.sliding, this.size, this.slide := sliding, size, slide;
      windows, closed, emitted, history := map[], false, [], [];
    }

    method AddToWindow(open: Opening, key: string, timestamp: int, data: seq<byte>)
      requires Valid() && !closed
      modifies this`windows, this`history
      ensures Valid()
      ensures history == old(history) + [Insertion(open, key, timestamp, data)]
      ensures windows == Insert(old(windows), size, Insertion(open, key, timestamp, data))
    {
      hide Conserved, Peaks;
      ghost var x := Insertion(open, key, timestamp, data);
      InsertPeaks(history, windows, size, x);
      InsertConserves(history, emitted, windows, size, x);
      var w := if open in windows then windows[open] else Window(open.time + size, map[]);
      var s := if key in w.keys then w.keys[key] else WindowState([], 0, timestamp);
      s := s.(data := s.data + data, count := s.count + 1);
      if timestamp > s.lastEvent { s := s.(lastEvent := timestamp); }
      windows := windows[open := w.(keys := w.keys[key := s])];
      history := history + [x];
    }

    method AddToFixedWindow(key: string, timestamp: int, data: seq<byte>)
      requires Valid() && !closed
      modifies this`windows, this`history
      ensures Valid()
      ensures history == old(history) + [Insertion(Opening(FixedOpen(timestamp, size)), key, timestamp, data)]
      ensures windows == Insert(old(windows), size, Insertion(Opening(FixedOpen(timestamp, size)), key, timestamp, data))
    {
      AddToWindow(Opening(Quotient(timestamp, size) * size), key, timestamp, data);
    }

    method AddToSlidingWindow(key: string, timestamp: int, data: seq<byte>)
      requires Valid() && !closed
      modifies this`windows, this`history
      ensures Valid()
      ensures var starts := Starts(timestamp, size, if slide == 0 then size else slide);
              var xs := Entering(starts, key, timestamp, data);
              history == old(history) + xs && windows == InsertAll(old(windows), size, xs)
    {
      hide Conserved, Peaks, Insert, InsertAll, Entering, StartsFrom, Starts;
      var step := if slide == 0 then size else slide;
      var start := FirstStart(timestamp, step);
      var open := start;
      ghost var todo := Entering(StartsFrom(open, timestamp, size, step), key, timestamp, data);
      ghost var done: seq<Insertion> := [];
      InsertNone(windows, size);
      while open <= timestamp
        invariant Valid() && !closed && history == old(history) + done && windows == InsertAll(old(windows), size, done)
        invariant done + Entering(StartsFrom(open, timestamp, size, step), key, timestamp, data) == todo
        decreases timestamp - open
      {
        EnteringNext(open, timestamp, size, step, key, data, done);
        if timestamp >= open && timestamp < open + size {
          ghost var x := Insertion(Opening(open), key, timestamp, data);
          InsertNext(old(windows), size, done, x);
          AddToWindow(Opening(open), key, timestamp, data);
          done := done + [x];
        }
        open := open + step;
      }
      EnteringNone(open, timestamp, size, step, key, data, done);
    }

    // The walk back to the earliest window that contains the time.
    method FirstStart(timestamp: int, step: int) returns (start: int)
      requires step > 0
      ensures StartsFrom(start, timestamp, size, step) == Starts(timestamp, size, step)
    {
      hide StartsFrom;
      start := Quotient(timestamp, step) * step;
      StartFacts(timestamp, step);
      while start > 0 && start - step + size > timestamp && start - step <= timestamp
        invariant start % step == 0
        invariant timestamp >= 0 ==> 0 <= start <= timestamp
        invariant timestamp < 0 ==> start == FixedOpen(timestamp, step) <= 0
        decreases start
      {
        NextMultiple(start, step);
        Gap(0, start, step);
        start := start - step;
      }
      if timestamp >= 0 { SkipEarly(0, start, timestamp, size, step); }
    }

    method AddEvent(key: string, timestamp: int, data: seq<byte>)
      requires Valid() && !closed
      modifies this`windows, this`history
      ensures Valid()
      ensures var starts := if sliding then Starts(timestamp, size, if slide == 0 then size else slide) else [FixedOpen(timestamp, size)];
              var xs := Entering(starts, key, timestamp, data);
              history == old(history) + xs && windows == InsertAll(old(windows), size, xs)
    {
      hide Conserved, Peaks, Insert, FixedOpen, Starts;
      if sliding {
        AddToSlidingWindow(key, timestamp, data);
      } else {
        AddToFixedWindow(key, timestamp, data);
        ghost var x := Insertion(Opening(FixedOpen(timestamp, size)), key, timestamp, data);
        assert Entering([FixedOpen(timestamp, size)], key, timestamp, data) == [x];
        assert [x][..0] == [];
      }
    }

    // Emits every key of one window, in any order, and forgets the window.
    method EmitWindow(o: Opening)
      requires Valid() && o in windows
      modifies this`windows, this`emitted
      ensures Valid() && windows == old(windows) - {o}
      ensures EmittedMore(old(emitted), emitted, old(windows), {o})
    {
      hide Conserved, Peaks, Less, EmittedMore;
      var w := windows[o];
      var left := w.keys;
      ghost var rest := windows;
      EmittedNone(emitted, windows, {o});
      while left != map[]
        invariant windows == old(windows)
        invariant o in rest && rest[o].keys == left && rest - {o} == windows - {o} && Conserved(history, emitted, rest)
        invariant left.Keys <= w.keys.Keys && forall k :: k in left ==> left[k] == w.keys[k]
        invariant EmittedMore(old(emitted), emitted, old(windows), {o})
        decreases |left|
      {
        var k := SomeKey(left);
        EmitConserves(history, emitted, rest, o, k);
        LessFacts(rest, o, k);
        EmittedOne(old(emitted), emitted, windows, {o}, Emission(o, k, left[k]));
        emitted := emitted + [Emission(o, k, left[k])];
        rest := Less(rest, o, k);
        left := left - {k};
      }
      DeleteConserves(history, emitted, rest, o);
      FewerPeaks(history, windows, {o});
      windows := windows - {o};
    }

    method Tick(now: int)
      requires Valid()
      modifies this`windows, this`emitted
      ensures Valid()
      ensures forall o :: o in windows <==> o in old(windows) && now < old(windows)[o].closeTime
      ensures forall o :: o in windows ==> windows[o] == old(windows)[o]
      ensures |emitted| >= |old(emitted)| && emitted[..|old(emitted)|] == old(emitted)
      ensures forall i :: |old(emitted)| <= i < |emitted| ==> EmittedFrom(old(windows), emitted[i]) && now >= emitted[i].open.time + size
    {
      hide Conserved, Peaks;
      var left := windows.Keys;
      while left != {}
        invariant Valid() && left <= windows.Keys <= old(windows).Keys
        invariant forall o :: o in windows ==> windows[o] == old(windows)[o]
        invariant forall o :: o in old(windows) && o !in left ==> (o in windows <==> now < old(windows)[o].closeTime)
        invariant |emitted| >= |old(emitted)| && emitted[..|old(emitted)|] == old(emitted)
        invariant forall i :: |old(emitted)| <= i < |emitted| ==> EmittedFrom(old(windows), emitted[i]) && now >= emitted[i].open.time + size
        decreases |left|
      {
        var o := SomeOpen(left);
        left := left - {o};
        if now >= windows[o].closeTime { EmitWindow(o); }
      }
    }

    method CloseAll()
      requires Valid()
      modifies this`windows, this`emitted, this`closed
      ensures Valid() && closed && windows == map[]
      ensures forall o, k :: TallyIn(history, o, k) == TallyOut(emitted, o, k)
    {
      hide Conserved, Peaks;
      var left := windows.Keys;
      while left != {}
        invariant Valid() && left == windows.Keys
        decreases |left|
      {
        var o := SomeOpen(left);
        left := left - {o};
        EmitWindow(o);
      }
      closed := true;
      NothingOpen(history, emitted, windows);
    }
  }

  lemma NothingOpen(history: seq<Insertion>, emitted: seq<Emission>, ws: Windows)
    requires Conserved(history, emitted, ws) && ws == map[]
    ensures forall o, k :: TallyIn(history, o, k) == TallyOut(emitted, o, k)
  {
    hide TallyIn, TallyOut;
    forall o, k ensures TallyIn(history, o, k) == TallyOut(emitted, o, k) {
      PlusMore(TallyOut(emitted, o, k), NOTHING, NOTHING);
    }
  }

  // Any key of a map; maps are walked in no particular order.
  method SomeKey(keys: map<string, WindowState>) returns (k: string)
    requires keys != map[]
    ensures k in keys && |keys - {k}| == |keys| - 1
  {
    assert keys.Keys != {};
    k :| k in keys.Keys;
    assert keys.Keys == (keys - {k}).Keys + {k};
  }

  method SomeOpen(opens: set<Opening>) returns (o: Opening)
    requires opens != {}
    ensures o in opens
  {
    o :| o in opens;
  }

  lemma LessFacts(ws: Windows, o: Opening, k: string)
    requires o in ws && k in ws[o].keys
    ensures o in Less(ws, o, k) && Less(ws, o, k)[o].keys == ws[o].keys - {k} && Less(ws, o, k) - {o} == ws - {o}
  {
  }

  predicate EmittedFrom(ws: Windows, e: Emission) {
    e.open in ws && e.key in ws[e.open].keys && e.state == ws[e.open].keys[e.key]
  }

  // Only states of some of the windows were emitted since.
  predicate EmittedMore(before: seq<Emission>, after: seq<Emission>, ws: Windows, some: set<Opening>) {
    && |before| <= |after| && after[..|before|] == before
    && forall i :: |before| <= i < |after| ==> after[i].open in some && EmittedFrom(ws, after[i])
  }

  lemma EmittedNone(emitted: seq<Emission>, ws: Windows, some: set<Opening>)
    ensures EmittedMore(emitted, emitted, ws, some)
  {
  }

  lemma EmittedOne(before: seq<Emission>, after: seq<Emission>, ws: Windows, some: set<Opening>, e: Emission)
    requires EmittedMore(before, after, ws, some) && e.open in some && EmittedFrom(ws, e)
    ensures EmittedMore(before, after + [e], ws, some)
  {
  }

  lemma NothingConserved()
    ensures Conserved([], [], map[])
  {
    hide TallyIn, TallyOut, TallyOpen, Plus;
    forall o, k ensures TallyIn([], o, k) == Plus(TallyOut([], o, k), TallyOpen(map[], o, k)) {
      NothingTallied(o, k);
    }
  }

  lemma NothingTallied(o: Opening, k: string)
    ensures TallyIn([], o, k) == Plus(TallyOut([], o, k), TallyOpen(map[], o, k))
  {
    hide Plus;
    assert TallyIn([], o, k) == NOTHING;
    assert TallyOut([], o, k) == NOTHING;
    assert TallyOpen(map[], o, k) == NOTHING;
    PlusMore(NOTHING, NOTHING, NOTHING);
  }

  lemma InsertNone(ws: Windows, size: int)
    ensures InsertAll(ws, size, []) == ws
  {
  }

  lemma InsertNext(ws: Windows, size: int, done: seq<Insertion>, x: Insertion)
    ensures InsertAll(ws, size, done + [x]) == Insert(InsertAll(ws, size, done), size, x)
  {
    assert (done + [x])[..|done|] == done;
  }

  // One step of the walk over the windows.
  lemma EnteringNext(open: int, timestamp: int, size: int, step: int, key: string, data: seq<byte>, done: seq<Insertion>)
    requires step > 0 && open <= timestamp
    ensures var x := Insertion(Opening(open), key, timestamp, data);
            var rest := Entering(StartsFrom(open + step, timestamp, size, step), key, timestamp, data);
            done + Entering(StartsFrom(open, timestamp, size, step), key, timestamp, data)
            == if timestamp < open + size then done + [x] + rest else done + rest
  {
    hide Entering;
    var more := StartsFrom(open + step, timestamp, size, step);
    if timestamp < open + size {
      assert StartsFrom(open, timestamp, size, step) == [open] + more;
      EnteringFirst(open, more, key, timestamp, data);
    } else {
      assert StartsFrom(open, timestamp, size, step) == more;
    }
  }

  lemma EnteringFirst(open: int, more: seq<int>, key: string, timestamp: int, data: seq<byte>)
    ensures Entering([open] + more, key, timestamp, data) == [Insertion(Opening(open), key, timestamp, data)] + Entering(more, key, timestamp, data)
  {
    assert ([open] + more)[1..] == more;
  }

  lemma EnteringNone(open: int, timestamp: int, size: int, step: int, key: string, data: seq<byte>, done: seq<Insertion>)
    requires step > 0 && open > timestamp
    ensures done + Entering(StartsFrom(open, timestamp, size, step), key, timestamp, data) == done
  {
  }

  lemma StartFacts(timestamp: int, step: int)
    requires step > 0
    ensures var start := FixedOpen(timestamp, step);
            && start % step == 0 && (timestamp >= 0 ==> 0 <= start <= timestamp) && (timestamp < 0 ==> start <= 0)
  {
    var q := Quotient(timestamp, step);
    DivModUnique(q * step, step, q, 0);
    Scaled(q, step);
    if timestamp < 0 { Scaled((-timestamp) / step, step); }
    assert timestamp >= 0 ==> q * step <= timestamp;
  }
}
