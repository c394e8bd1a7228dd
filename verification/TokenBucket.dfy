/** The publish rate limiter of internal/flow/controller.go. */
module TokenBucket {
  const SECOND := 1_000_000_000

  // refillRate is tokens per second; times are in nanoseconds.
  datatype Bucket = Bucket(maxTokens: nat, refillRate: nat, tokens: int, lastRefill: int)

  function New(perSec: nat, now: int): Bucket { Bucket(perSec, perSec, perSec, now) }

  function Refilled(b: Bucket, now: int): Bucket {
    var elapsed := now - b.lastRefill;
    if elapsed < SECOND then b else
      var tokens := b.tokens + elapsed / SECOND * b.refillRate;
      b.(tokens := if tokens > b.maxTokens then b.maxTokens else tokens, lastRefill := now)
  }

  function Allow(b: Bucket, now: int): (Bucket, bool) {
    var r := Refilled(b, now);
    if r.tokens <= 0 then (r, false) else (r.(tokens := r.tokens - 1), true)
  }

  class RateLimit {
    const maxTokens: nat
    const refillRate: nat
    var tokens: int
    var lastRefill: int

    function State(): Bucket
      reads this
    {
      Bucket(maxTokens, refillRate, tokens, lastRefill)
    }

    constructor (perSec: nat, now: int)
      ensures State() == New(perSec, now)
    {
      maxTokens, refillRate, tokens, lastRefill := perSec, perSec, perSec, now;
    }

    method AllowOne(now: int) returns (ok: bool)
      modifies this
      ensures (State(), ok) == Allow(old(State()), now)
      ensures Sound(old(State())) ==>
                (!ok <==> old(tokens) == 0 && (now - old(lastRefill) < SECOND || refillRate == 0 || maxTokens == 0))
    {
      if Sound(State()) { RefusedExactly(State(), now); }
      var elapsed := now - lastRefill;
      if elapsed >= SECOND {
        var secs := elapsed / SECOND;
        var newTokens := tokens + secs * refillRate;
        if newTokens > maxTokens { newTokens := maxTokens; }
        tokens := newTokens;
        lastRefill := now;
      }
      if tokens <= 0 { return false; }
      tokens := tokens - 1;
      return true;
    }
  }

  // The state after calls at these times, and how many of them were allowed.
  function Calls(b: Bucket, times: seq<int>): (Bucket, nat) {
    if times == [] then (b, 0) else
      var before := Calls(b, times[..|times| - 1]);
      var r := Allow(before.0, times[|times| - 1]);
      (r.0, before.1 + if r.1 then 1 else 0)
  }

  // A clock that does not go back, from a time on.
  predicate Clock(from: int, times: seq<int>) {
    (forall i :: 0 <= i < |times| ==> from <= times[i]) && forall i, j :: 0 <= i < j < |times| ==> times[i] <= times[j]
  }

  predicate Sound(b: Bucket) { 0 <= b.tokens <= b.maxTokens }

  // Whole seconds in a span.
  function Seconds(span: int): int { span / SECOND }

  lemma SecondsAdd(a: int, b: int)
    ensures Seconds(a) + Seconds(b) <= Seconds(a + b)
    ensures a <= b ==> Seconds(a) <= Seconds(b)
  {
  }

  lemma Times(a: int, b: int, rate: nat)
    requires a <= b
    ensures a * rate <= b * rate
  {
    assert (b - a) * rate >= 0;
    assert b * rate == a * rate + (b - a) * rate;
  }

  // Tokens only come from refills, at most the rate for each whole second since the last one.
  lemma {:induction false} CallsBound(b: Bucket, times: seq<int>)
    requires Sound(b) && Clock(b.lastRefill, times)
    ensures var (r, allowed) := Calls(b, times);
            && Sound(r) && r.maxTokens == b.maxTokens && r.refillRate == b.refillRate
            && b.lastRefill <= r.lastRefill && (forall t :: t in times && t == times[|times| - 1] ==> r.lastRefill <= t)
            && allowed + r.tokens <= b.tokens + Seconds(r.lastRefill - b.lastRefill) * b.refillRate
  {
    hide Seconds;
    if times == [] {
      ZeroSeconds();
    } else {
      var n := |times| - 1;
      CallsBound(b, times[..n]);
      var before := Calls(b, times[..n]).0;
      assert n > 0 ==> times[n - 1] in times[..n] && times[n - 1] == times[..n][n - 1];
      OneCall(before, times[n], b.lastRefill);
    }
  }

  lemma ZeroSeconds()
    ensures Seconds(0) == 0
  {
  }

  lemma OneCall(b: Bucket, now: int, start: int)
    requires Sound(b) && start <= b.lastRefill <= now
    ensures var (r, ok) := Allow(b, now);
            && Sound(r) && r.maxTokens == b.maxTokens && r.refillRate == b.refillRate && b.lastRefill <= r.lastRefill <= now
            && (if ok then 1 else 0) + r.tokens - b.tokens
               <= Seconds(r.lastRefill - start) * b.refillRate - Seconds(b.lastRefill - start) * b.refillRate
  {
    var elapsed := now - b.lastRefill;
    if elapsed >= SECOND {
      var secs := elapsed / SECOND;
      SecondsAdd(b.lastRefill - start, elapsed);
      Times(Seconds(b.lastRefill - start) + secs, Seconds(now - start), b.refillRate);
      Distribute(Seconds(b.lastRefill - start), secs, b.refillRate);
      Times(0, secs, b.refillRate);
    }
  }

  lemma Distribute(a: int, b: int, rate: nat)
    ensures (a + b) * rate == a * rate + b * rate
  {
  }

  // Over the time T from creation on, at most max + rate * floor(T) calls are allowed.
  lemma BoundFromCreation(perSec: nat, start: int, times: seq<int>, end: int)
    requires Clock(start, times) && forall i :: 0 <= i < |times| ==> times[i] <= end
    requires start <= end
    ensures Calls(New(perSec, start), times).1 <= perSec + Seconds(end - start) * perSec
  {
    hide Seconds;
    var b := New(perSec, start);
    CallsBound(b, times);
    var r := Calls(b, times).0;
    if times == [] {
      ZeroSeconds();
      SecondsAdd(0, end - start);
      Times(0, Seconds(end - start), perSec);
    } else {
      assert times[|times| - 1] in times;
      SecondsAdd(r.lastRefill - start, end - start);
      Times(Seconds(r.lastRefill - start), Seconds(end - start), perSec);
    }
  }

  // A bucket at any later moment, asked at these times from first to end: at most max + rate * (floor(T) + 1).
  lemma BoundLater(b: Bucket, times: seq<int>, first: int, end: int)
    requires Sound(b) && b.lastRefill <= first <= end && Clock(first, times) && forall i :: 0 <= i < |times| ==> times[i] <= end
    ensures Calls(b, times).1 <= b.maxTokens + (Seconds(end - first) + 1) * b.refillRate
  {
    hide Seconds, Calls;
    var rate := b.refillRate;
    if times == [] {
      NoCalls(b);
      SecondsAdd(0, end - first);
      ZeroSeconds();
      Times(0, Seconds(end - first) + 1, rate);
    } else if times[0] - b.lastRefill >= SECOND {
      // The first call refills, and the count starts there.
      var c := Refilled(b, times[0]);
      RefillFirst(b, times);
      SoundRefill(b, times[0]);
      CallsBound(c, times);
      assert times[|times| - 1] in times;
      var r := Calls(c, times).0;
      SecondsAdd(r.lastRefill - c.lastRefill, end - first);
      Times(Seconds(r.lastRefill - c.lastRefill), Seconds(end - first) + 1, rate);
    } else {
      CallsBound(b, times);
      assert times[|times| - 1] in times;
      var r := Calls(b, times).0;
      AlmostSecond(r.lastRefill - b.lastRefill, end - first);
      Times(Seconds(r.lastRefill - b.lastRefill), Seconds(end - first) + 1, rate);
    }
  }

  lemma NoCalls(b: Bucket)
    ensures Calls(b, []) == (b, 0)
  {
  }

  lemma AlmostSecond(a: int, b: int)
    requires a <= b + SECOND
    ensures Seconds(a) <= Seconds(b) + 1
  {
  }

  lemma SoundRefill(b: Bucket, now: int)
    requires Sound(b) && now - b.lastRefill >= SECOND
    ensures Sound(Refilled(b, now)) && Refilled(b, now).lastRefill == now
    ensures Refilled(b, now).maxTokens == b.maxTokens && Refilled(b, now).refillRate == b.refillRate
  {
    Times(0, (now - b.lastRefill) / SECOND, b.refillRate);
  }

  // Refilling just before the first call makes no difference.
  lemma {:induction false} RefillFirst(b: Bucket, times: seq<int>)
    requires times != [] && times[0] - b.lastRefill >= SECOND
    ensures Calls(b, times) == Calls(Refilled(b, times[0]), times)
  {
    var n := |times| - 1;
    if n == 0 {
      NoCalls(b);
      NoCalls(Refilled(b, times[0]));
      assert times[..0] == [];
      assert Refilled(Refilled(b, times[0]), times[0]) == Refilled(b, times[0]);
    } else {
      RefillFirst(b, times[..n]);
    }
  }

  // The same over any stretch of a run from creation on.
  lemma BoundInRun(perSec: nat, start: int, times: seq<int>, i: nat, end: int)
    requires Clock(start, times) && i < |times| && forall k :: 0 <= k < |times| ==> times[k] <= end
    ensures Calls(New(perSec, start), times).1 - Calls(New(perSec, start), times[..i]).1
            <= perSec + (Seconds(end - times[i]) + 1) * perSec
  {
    hide Seconds, Calls;
    var b := New(perSec, start);
    CallsBound(b, times[..i]);
    var c := Calls(b, times[..i]).0;
    if i > 0 { assert times[i - 1] in times[..i]; } else { assert times[..i] == []; NoCalls(b); }
    CallsSplit(b, times, i);
    BoundLater(c, times[i..], times[i], end);
  }

  lemma {:induction false} CallsSplit(b: Bucket, times: seq<int>, i: nat)
    requires i <= |times|
    ensures var first := Calls(b, times[..i]);
            var rest := Calls(first.0, times[i..]);
            Calls(b, times) == (rest.0, first.1 + rest.1)
  {
    hide Allow, Calls;
    var n := |times| - 1;
    if i == |times| {
      assert times[..i] == times && times[i..] == [];
      NoCalls(Calls(b, times).0);
    } else {
      CallsSplit(b, times[..n], i);
      assert times[..n][..i] == times[..i] && times[..n][i..] == times[i..n];
      CallsNext(b, times[..n], times[n]);
      CallsNext(Calls(b, times[..i]).0, times[i..n], times[n]);
      assert times == times[..n] + [times[n]] && times[i..] == times[i..n] + [times[n]];
    }
  }

  lemma CallsNext(b: Bucket, times: seq<int>, t: int)
    ensures var before := Calls(b, times);
            var r := Allow(before.0, t);
            Calls(b, times + [t]) == (r.0, before.1 + if r.1 then 1 else 0)
  {
    assert (times + [t])[..|times|] == times;
  }

  // --- the other side: what is not refused ---

  function Least(a: int, b: int): int { if a < b then a else b }

  // After k whole seconds, k >= 1, a bucket holds the smaller of the maximum and its tokens plus k times the rate;
  // within the first second it holds what it held.
  lemma RefillExactly(b: Bucket, now: int, k: int)
    requires k * SECOND <= now - b.lastRefill < (k + 1) * SECOND
    ensures k >= 1 ==> Refilled(b, now) == b.(tokens := Least(b.maxTokens, b.tokens + k * b.refillRate), lastRefill := now)
    ensures k < 1 ==> Refilled(b, now) == b
  {
    assert (now - b.lastRefill) / SECOND == k;
  }

  // A call is refused if and only if no token is left and none comes: no whole second has passed since the last refill,
  // or the limit is zero.
  lemma RefusedExactly(b: Bucket, now: int)
    requires Sound(b)
    ensures !Allow(b, now).1 <==> b.tokens == 0 && (now - b.lastRefill < SECOND || b.refillRate == 0 || b.maxTokens == 0)
  {
    var secs := (now - b.lastRefill) / SECOND;
    if now - b.lastRefill >= SECOND {
      assert secs >= 1;
      Times(1, secs, b.refillRate);
    }
  }

  // A second after the last refill a call is allowed.
  lemma AllowedAfterSecond(b: Bucket, now: int)
    requires Sound(b) && b.refillRate >= 1 && b.maxTokens >= 1 && now >= b.lastRefill + SECOND
    ensures Allow(b, now).1
  {
    RefusedExactly(b, now);
  }

  lemma OneCallKeeps(b: Bucket, now: int)
    requires Sound(b) && b.lastRefill <= now
    ensures var (r, ok) := Allow(b, now);
            && Sound(r) && r.maxTokens == b.maxTokens && b.lastRefill <= r.lastRefill <= now
            && r.tokens >= b.tokens - (if ok then 1 else 0) && (!ok ==> r.tokens == 0)
  {
    Times(0, (now - b.lastRefill) / SECOND, b.refillRate);
  }

  // As many calls as there are tokens are allowed, at whatever times.
  lemma {:induction false} FirstCalls(b: Bucket, times: seq<int>)
    requires Sound(b) && Clock(b.lastRefill, times)
    ensures var (r, allowed) := Calls(b, times);
            && Sound(r) && r.maxTokens == b.maxTokens && b.lastRefill <= r.lastRefill && (times != [] ==> r.lastRefill <= times[|times| - 1])
            && r.tokens >= b.tokens - allowed && allowed >= Least(|times|, b.tokens)
  {
    hide Allow;
    if times != [] {
      var n := |times| - 1;
      FirstCalls(b, times[..n]);
      OneCallKeeps(Calls(b, times[..n]).0, times[n]);
    }
  }

  // From creation on the first calls, up to the limit, are all allowed.
  lemma BurstFromCreation(perSec: nat, start: int, times: seq<int>)
    requires Clock(start, times)
    ensures Calls(New(perSec, start), times).1 >= Least(|times|, perSec)
  {
    FirstCalls(New(perSec, start), times);
  }

  // Calls that begin a second or more after the last refill are allowed up to the smaller of the maximum and the rate.
  lemma BurstLater(b: Bucket, times: seq<int>)
    requires Sound(b) && times != [] && times[0] - b.lastRefill >= SECOND && Clock(times[0], times)
    ensures Calls(b, times).1 >= Least(|times|, Least(b.maxTokens, b.refillRate))
  {
    hide Calls;
    var secs := (times[0] - b.lastRefill) / SECOND;
    Times(1, secs, b.refillRate);
    SoundRefill(b, times[0]);
    RefillFirst(b, times);
    FirstCalls(Refilled(b, times[0]), times);
  }
}
