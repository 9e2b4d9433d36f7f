/** The per-device token bucket of apps/api/src/ws/rate-limit.ts over exact reals. Times are
    the milliseconds the caller passes; they may go backwards. */
module TokenBucket {

  datatype Bucket = Bucket(tokens: real, lastRefillMs: int)

  datatype Options = Options(capacity: real, refillPerSecond: real)

  const SEND_ENVELOPE_BUCKET := Options(50.0, 10.0)

  datatype Call = Call(device: nat, now: int)

  type Buckets = map<nat, Bucket>

  predicate Sane(o: Options) {
    o.capacity >= 0.0 && o.refillPerSecond >= 0.0
  }

  predicate Valid(b: Buckets, o: Options) {
    forall d :: d in b ==> 0.0 <= b[d].tokens <= o.capacity
  }

  function Min(x: real, y: real): real {
    if x <= y then x else y
  }

  function Rise(start: int, end: int): nat {
    if end > start then end - start else 0
  }

  /** A device's bucket once refilled. */
  function Refilled(b: Buckets, c: Call, o: Options): Bucket {
    if c.device !in b then Bucket(o.capacity, c.now)
    else
      var s := b[c.device];
      Bucket(Min(o.capacity, s.tokens + (Rise(s.lastRefillMs, c.now) as real / 1000.0) * o.refillPerSecond), c.now)
  }

  predicate Admits(b: Buckets, c: Call, o: Options) {
    Refilled(b, c, o).tokens >= 1.0
  }

  function Consumed(b: Buckets, c: Call, o: Options): Buckets {
    var s := Refilled(b, c, o);
    b[c.device := if s.tokens >= 1.0 then s.(tokens := s.tokens - 1.0) else s]
  }

  class RateLimiter {
    var buckets: Buckets

    constructor ()
      ensures buckets == map[]
    {
      buckets := map[];
    }

    method TryConsume(device: nat, now: int, o: Options) returns (ok: bool)
      modifies this
      ensures ok == Admits(old(buckets), Call(device, now), o)
      ensures buckets == Consumed(old(buckets), Call(device, now), o)
    {
      var state;
      if device !in buckets {
        state := Bucket(o.capacity, now);
      } else {
        state := buckets[device];
        var elapsedMs := if now - state.lastRefillMs > 0 then now - state.lastRefillMs else 0;
        var refilled := (elapsedMs as real / 1000.0) * o.refillPerSecond;
        var tokens := if o.capacity <= state.tokens + refilled then o.capacity else state.tokens + refilled;
        state := Bucket(tokens, now);
      }
      ok := state.tokens >= 1.0;
      if ok {
        state := state.(tokens := state.tokens - 1.0);
      }
      buckets := buckets[device := state];
    }
  }

  // ---------------------------------------------------------------------------
  // Runs
  // ---------------------------------------------------------------------------

  function Last(calls: seq<Call>): Call
    requires calls != []
  {
    calls[|calls| - 1]
  }

  function Init(calls: seq<Call>): seq<Call>
    requires calls != []
  {
    calls[..|calls| - 1]
  }

  function After(b: Buckets, calls: seq<Call>, o: Options): Buckets {
    if calls == [] then b else Consumed(After(b, Init(calls), o), Last(calls), o)
  }

  /** How many of d's calls are admitted. */
  function Admitted(b: Buckets, calls: seq<Call>, d: nat, o: Options): nat {
    if calls == [] then 0
    else Admitted(b, Init(calls), d, o) +
         if Last(calls).device == d && Admits(After(b, Init(calls), o), Last(calls), o) then 1 else 0
  }

  function CallsBy(calls: seq<Call>, d: nat): nat {
    if calls == [] then 0 else CallsBy(Init(calls), d) + if Last(calls).device == d then 1 else 0
  }

  /** When d last called. */
  function LastTime(calls: seq<Call>, d: nat): int
    requires CallsBy(calls, d) > 0
  {
    if Last(calls).device == d then Last(calls).now else LastTime(Init(calls), d)
  }

  /** The sum of the clock's positive increments from one call of d to the next. */
  function Climb(calls: seq<Call>, d: nat): nat {
    if calls == [] then 0
    else Climb(Init(calls), d) +
         if Last(calls).device == d && CallsBy(Init(calls), d) > 0 then Rise(LastTime(Init(calls), d), Last(calls).now)
         else 0
  }

  lemma ConsumedValid(b: Buckets, c: Call, o: Options)
    requires Sane(o) && Valid(b, o)
    ensures Valid(Consumed(b, c, o), o)
  {
    if c.device in b {
      var gain := (Rise(b[c.device].lastRefillMs, c.now) as real / 1000.0) * o.refillPerSecond;
      assert gain >= 0.0;
    }
  }

  /** Whatever the calls and however the clock jumps, every bucket stays between empty and full. */
  lemma {:induction false} TokensBounded(b: Buckets, calls: seq<Call>, o: Options)
    requires Sane(o) && Valid(b, o)
    ensures Valid(After(b, calls, o), o)
  {
    if calls != [] {
      TokensBounded(b, Init(calls), o);
      ConsumedValid(After(b, Init(calls), o), Last(calls), o);
    }
  }

  /** The tokens a bucket gains in ms milliseconds if it never fills. */
  function Gain(o: Options, ms: nat): real {
    if ms == 0 then 0.0 else Gain(o, ms - 1) + o.refillPerSecond / 1000.0
  }

  lemma {:induction false} GainExactly(o: Options, ms: nat)
    ensures Gain(o, ms) == o.refillPerSecond * (ms as real) / 1000.0
  {
    if ms > 0 {
      GainExactly(o, ms - 1);
      assert o.refillPerSecond * (ms as real) == o.refillPerSecond * ((ms - 1) as real) + o.refillPerSecond;
    }
  }

  lemma {:induction false} GainAdds(o: Options, m: nat, n: nat)
    ensures Gain(o, m + n) == Gain(o, m) + Gain(o, n)
  {
    if n > 0 {
      GainAdds(o, m, n - 1);
    }
  }

  /** One call of d spends what it admits out of what it had and what the clock added. */
  lemma Spends(b: Buckets, c: Call, o: Options)
    requires Sane(o) && c.device in b
    ensures Consumed(b, c, o)[c.device].tokens + (if Admits(b, c, o) then 1.0 else 0.0)
         <= b[c.device].tokens + Gain(o, Rise(b[c.device].lastRefillMs, c.now))
  {
    GainExactly(o, Rise(b[c.device].lastRefillMs, c.now));
  }

  /** Tokens left plus calls admitted do not exceed a full bucket plus what the clock added. */
  ghost predicate Bounded(s: Buckets, d: nat, admitted: nat, climb: nat, time: int, o: Options) {
    && d in s && s[d].lastRefillMs == time
    && s[d].tokens + admitted as real <= o.capacity + Gain(o, climb)
  }

  lemma BoundedFirst(b: Buckets, c: Call, o: Options)
    requires Sane(o) && Valid(b, o)
    ensures Bounded(Consumed(b, c, o), c.device, if Admits(b, c, o) then 1 else 0, 0, c.now, o)
  {
  }

  lemma BoundedOwn(s: Buckets, c: Call, admitted: nat, climb: nat, time: int, o: Options)
    requires Sane(o) && Bounded(s, c.device, admitted, climb, time, o)
    ensures Bounded(Consumed(s, c, o), c.device, admitted + (if Admits(s, c, o) then 1 else 0),
                    climb + Rise(time, c.now), c.now, o)
  {
    Spends(s, c, o);
    GainAdds(o, climb, Rise(time, c.now));
  }

  lemma {:induction false} Potential(b: Buckets, window: seq<Call>, d: nat, o: Options)
    requires Sane(o) && Valid(b, o) && window != [] && window[0].device == d
    ensures CallsBy(window, d) > 0
    ensures Bounded(After(b, window, o), d, Admitted(b, window, d, o), Climb(window, d), LastTime(window, d), o)
  {
    if |window| == 1 {
      assert Init(window) == [] && Last(window) == window[0];
      BoundedFirst(b, window[0], o);
    } else {
      Potential(b, Init(window), d, o);
      if Last(window).device == d {
        BoundedOwn(After(b, Init(window), o), Last(window), Admitted(b, Init(window), d, o),
                   Climb(Init(window), d), LastTime(Init(window), d), o);
      }
    }
  }

  /** The bound: from any one call of a device on, over any calls of any devices that follow, the
      device is admitted at most a full bucket plus the refill for the time the clock gained. */
  lemma WindowBound(b: Buckets, before: seq<Call>, window: seq<Call>, d: nat, o: Options)
    requires Sane(o) && Valid(b, o) && window != [] && window[0].device == d
    ensures Admitted(After(b, before, o), window, d, o) as real
         <= o.capacity + Gain(o, Climb(window, d))
  {
    TokensBounded(b, before, o);
    var s := After(b, before, o);
    Potential(s, window, d, o);
    TokensBounded(s, window, o);
  }

  ghost predicate Forward(calls: seq<Call>, d: nat) {
    calls == [] || (Forward(Init(calls), d) &&
      (Last(calls).device == d && CallsBy(Init(calls), d) > 0 ==> LastTime(Init(calls), d) <= Last(calls).now))
  }

  /** The gain is never less than the time between first and last call, and equals it exactly when
      the clock never went back in between. */
  lemma {:induction false} ClimbIsElapsed(window: seq<Call>, d: nat)
    requires window != [] && window[0].device == d
    ensures CallsBy(window, d) > 0 && Climb(window, d) >= LastTime(window, d) - window[0].now
    ensures Climb(window, d) == LastTime(window, d) - window[0].now <==> Forward(window, d)
  {
    if |window| == 1 {
      assert Init(window) == [] && Last(window) == window[0];
    } else {
      ClimbIsElapsed(Init(window), d);
    }
  }

  /** The limit on SEND_ENVELOPE: on a clock that does not go back, from any one call on a device is
      admitted at most 50 times and once more for every tenth of a second. */
  lemma SendLimit(b: Buckets, before: seq<Call>, window: seq<Call>, d: nat)
    requires Valid(b, SEND_ENVELOPE_BUCKET) && window != [] && window[0].device == d && Forward(window, d)
    ensures CallsBy(window, d) > 0
    ensures Admitted(After(b, before, SEND_ENVELOPE_BUCKET), window, d, SEND_ENVELOPE_BUCKET) as real
         <= 50.0 + (LastTime(window, d) - window[0].now) as real / 100.0
  {
    WindowBound(b, before, window, d, SEND_ENVELOPE_BUCKET);
    ClimbIsElapsed(window, d);
    GainExactly(SEND_ENVELOPE_BUCKET, Climb(window, d));
  }

  // ---------------------------------------------------------------------------
  // Nothing earned is lost
  // ---------------------------------------------------------------------------

  /** What the clock has gained since time t0 through d's calls. */
  function Earned(t0: int, calls: seq<Call>, d: nat): nat {
    if calls == [] then 0
    else Earned(t0, Init(calls), d) +
         if Last(calls).device == d then
           Rise(if CallsBy(Init(calls), d) > 0 then LastTime(Init(calls), d) else t0, Last(calls).now)
         else 0
  }

  lemma RefusedKeepsParts(s: Buckets, c: Call, o: Options)
    requires o.capacity >= 1.0 && c.device in s
    ensures var ms := Rise(s[c.device].lastRefillMs, c.now);
      && (Admits(s, c, o) <==> s[c.device].tokens + Gain(o, ms) >= 1.0)
      && (!Admits(s, c, o) ==> Consumed(s, c, o)[c.device] == Bucket(s[c.device].tokens + Gain(o, ms), c.now))
  {
    var ms := Rise(s[c.device].lastRefillMs, c.now);
    GainExactly(o, ms);
    assert (ms as real / 1000.0) * o.refillPerSecond == o.refillPerSecond * (ms as real) / 1000.0;
  }

  /** Through any number of refused calls, however close together, not a part of a token is lost. */
  lemma {:induction false} PartsKept(b: Buckets, calls: seq<Call>, d: nat, o: Options)
    requires o.capacity >= 1.0 && d in b && Admitted(b, calls, d, o) == 0
    ensures var t := After(b, calls, o);
      && d in t && t[d].tokens == b[d].tokens + Gain(o, Earned(b[d].lastRefillMs, calls, d))
      && t[d].lastRefillMs == if CallsBy(calls, d) > 0 then LastTime(calls, d) else b[d].lastRefillMs
  {
    if calls != [] {
      PartsKept(b, Init(calls), d, o);
      if Last(calls).device == d {
        var s := After(b, Init(calls), o);
        RefusedKeepsParts(s, Last(calls), o);
        GainAdds(o, Earned(b[d].lastRefillMs, Init(calls), d), Rise(s[d].lastRefillMs, Last(calls).now));
      }
    }
  }

  /** After any stretch of refusals the next call is admitted if and only if what the bucket held at
      its start and what the clock has gained since, at the refill rate, make up one token. */
  lemma AdmittedExactly(b: Buckets, calls: seq<Call>, c: Call, o: Options)
    requires o.capacity >= 1.0 && c.device in b && Admitted(b, calls, c.device, o) == 0
    ensures Admits(After(b, calls, o), c, o) <==>
      b[c.device].tokens
      + o.refillPerSecond * (Earned(b[c.device].lastRefillMs, calls + [c], c.device) as real) / 1000.0 >= 1.0
  {
    hide Gain, Refilled, Admits, After, Admitted;
    var d, all, t0 := c.device, calls + [c], b[c.device].lastRefillMs;
    PartsKept(b, calls, d, o);
    var s := After(b, calls, o);
    RefusedKeepsParts(s, c, o);
    assert Init(all) == calls && Last(all) == c;
    assert Earned(t0, all, d) == Earned(t0, calls, d) + Rise(s[d].lastRefillMs, c.now);
    GainAdds(o, Earned(t0, calls, d), Rise(s[d].lastRefillMs, c.now));
    GainExactly(o, Earned(t0, all, d));
  }

  /** Each call of d comes at least the time of one token after the last. */
  ghost predicate Spaced(calls: seq<Call>, d: nat, o: Options) {
    calls == [] || (Spaced(Init(calls), d, o) &&
      (Last(calls).device == d && CallsBy(Init(calls), d) > 0 ==>
        LastTime(Init(calls), d) <= Last(calls).now &&
        o.refillPerSecond * ((Last(calls).now - LastTime(Init(calls), d)) as real) >= 1000.0))
  }

  lemma {:induction false} LastRefill(b: Buckets, calls: seq<Call>, d: nat, o: Options)
    requires CallsBy(calls, d) > 0
    ensures d in After(b, calls, o) && After(b, calls, o)[d].lastRefillMs == LastTime(calls, d)
  {
    if Last(calls).device != d {
      LastRefill(b, Init(calls), d, o);
    }
  }

  lemma {:induction false} Untouched(b: Buckets, calls: seq<Call>, d: nat, o: Options)
    requires CallsBy(calls, d) == 0 && d !in b
    ensures d !in After(b, calls, o)
  {
    if calls != [] {
      Untouched(b, Init(calls), d, o);
    }
  }

  lemma GapSuffices(s: Buckets, c: Call, o: Options)
    requires Valid(s, o) && c.device in s && o.capacity >= 1.0 && s[c.device].lastRefillMs <= c.now
    requires o.refillPerSecond * ((c.now - s[c.device].lastRefillMs) as real) >= 1000.0
    ensures Admits(s, c, o)
  {
    var ms := Rise(s[c.device].lastRefillMs, c.now) as real;
    assert (ms / 1000.0) * o.refillPerSecond == o.refillPerSecond * ms / 1000.0;
  }

  /** A device that spaces its calls is never refused, whatever other devices do. */
  lemma {:induction false} SpacedNeverRefused(b: Buckets, calls: seq<Call>, d: nat, o: Options)
    requires Sane(o) && o.capacity >= 1.0 && Valid(b, o) && d !in b && Spaced(calls, d, o)
    ensures Admitted(b, calls, d, o) == CallsBy(calls, d)
  {
    if calls != [] {
      SpacedNeverRefused(b, Init(calls), d, o);
      if Last(calls).device == d {
        var s := After(b, Init(calls), o);
        TokensBounded(b, Init(calls), o);
        if CallsBy(Init(calls), d) == 0 {
          Untouched(b, Init(calls), d, o);
        } else {
          LastRefill(b, Init(calls), d, o);
          GapSuffices(s, Last(calls), o);
        }
      }
    }
  }

  /** n calls of one device at one instant. */
  function Burst(d: nat, now: int, n: nat): seq<Call> {
    seq(n, _ => Call(d, now))
  }

  /** A second call at the same instant refills nothing. */
  lemma NoRefill(b: Buckets, c: Call, o: Options)
    requires c.device in b ==> b[c.device].lastRefillMs == c.now && b[c.device].tokens <= o.capacity
    ensures Refilled(b, c, o) == if c.device in b then b[c.device] else Bucket(o.capacity, c.now)
  {
  }

  /** The bound is met: a device not seen before gets exactly its whole burst at once. */
  lemma {:induction false} BurstExactly(b: Buckets, d: nat, now: int, n: nat, o: Options)
    requires Sane(o) && d !in b
    ensures var burst, k := Burst(d, now, n), o.capacity.Floor;
      && Admitted(b, burst, d, o) == (if n <= k then n else k)
      && (n > 0 ==> d in After(b, burst, o))
      && (n > 0 ==> After(b, burst, o)[d] == Bucket(o.capacity - (if n <= k then n else k) as real, now))
  {
    hide Refilled;
    if n > 0 {
      BurstExactly(b, d, now, n - 1, o);
      assert Init(Burst(d, now, n)) == Burst(d, now, n - 1);
      NoRefill(After(b, Burst(d, now, n - 1), o), Call(d, now), o);
      if n == 1 {
        assert Burst(d, now, 0) == [];
      }
    }
  }

  /** The refill anchor follows the clock back, so a jump there and back refills for time that has
      not passed: 51 calls admitted from the same instant to the same instant. */
  lemma BackwardClockRefills(d: nat)
    ensures var calls := Burst(d, 0, 50) + [Call(d, -1000)] + [Call(d, 0)];
      calls[0].now == Last(calls).now && Admitted(map[], calls, d, SEND_ENVELOPE_BUCKET) == 51
  {
    var burst := Burst(d, 0, 50);
    var jump := burst + [Call(d, -1000)];
    BurstExactly(map[], d, 0, 50, SEND_ENVELOPE_BUCKET);
    assert Init(jump) == burst && Init(jump + [Call(d, 0)]) == jump;
    assert Last(jump) == Call(d, -1000) && Last(jump + [Call(d, 0)]) == Call(d, 0);
    assert After(map[], jump, SEND_ENVELOPE_BUCKET)[d] == Bucket(0.0, -1000);
  }
}
