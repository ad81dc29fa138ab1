/** The fixed-window rate limiter, and how many calls any window-long span can see. */
module RateLimiting {
  import opened Domain

  datatype RateLimit = RateLimit(maxRequests: nat, window: int)

  /** One actor in one bucket. */
  datatype Key = Key(actor: string, bucket: string)

  datatype Counter = Counter(start: Instant, count: nat)

  /** The counter a call is judged by: the stored one, or a fresh one when there is none or its window is over. */
  function Current(stored: Option<Counter>, limit: RateLimit, now: Instant): Counter {
    if stored.None? || now - stored.value.start >= limit.window then Counter(now, 0) else stored.value
  }

  predicate Allows(stored: Option<Counter>, limit: RateLimit, now: Instant) {
    Current(stored, limit, now).count < limit.maxRequests
  }

  /** The counter after a call. */
  function After(stored: Option<Counter>, limit: RateLimit, now: Instant): Option<Counter> {
    var c := Current(stored, limit, now);
    if Allows(stored, limit, now) then Some(Counter(c.start, c.count + 1)) else stored
  }

  function Lookup(counters: map<Key, Counter>, key: Key): Option<Counter> {
    if key in counters then Some(counters[key]) else None
  }

  class RateLimiter {
    var counters: map<Key, Counter>

    constructor ()
      ensures counters == map[]
    {
      counters := map[];
    }

    /** `allow`: a refused call changes nothing, an allowed one counts itself and touches no other key. */
    method Allow(key: Key, limit: RateLimit, now: Instant) returns (allowed: bool)
      modifies this
      ensures allowed <==> Allows(Lookup(old(counters), key), limit, now)
      ensures !allowed ==> counters == old(counters)
      ensures allowed ==> counters == old(counters)[key := After(Lookup(old(counters), key), limit, now).value]
    {
      var start, count := now, 0;
      if key in counters {
        start, count := counters[key].start, counters[key].count;
      }
      if now - start >= limit.window {
        start, count := now, 0;
      }
      if count >= limit.maxRequests {
        return false;
      }
      counters := counters[key := Counter(start, count + 1)];
      allowed := true;
    }
  }

  // ---------------------------------------------------------------- the calls of one key

  /** The allowed ones among a key's calls, made at the given instants. */
  function AllowedCalls(stored: Option<Counter>, limit: RateLimit, times: seq<Instant>): seq<Instant>
    decreases |times|
  {
    if times == [] then []
    else
      var later := AllowedCalls(After(stored, limit, times[0]), limit, times[1..]);
      if Allows(stored, limit, times[0]) then [times[0]] + later else later
  }

  /** A clock that never goes back, from some instant on. */
  ghost predicate Rising(from: Instant, times: seq<Instant>)
    decreases |times|
  {
    times == [] || (from <= times[0] && Rising(times[0], times[1..]))
  }

  predicate InSpan(t: Instant, from: Instant, to: Instant) {
    from <= t < to
  }

  /** How many of some instants fall in `[from, to)`. */
  function Within(times: seq<Instant>, from: Instant, to: Instant): nat {
    if times == [] then 0 else (if InSpan(times[0], from, to) then 1 else 0) + Within(times[1..], from, to)
  }

  /** A stored counter has counted something, and no more than allowed. */
  ghost predicate Counted(stored: Option<Counter>, limit: RateLimit) {
    stored.Some? ==> 1 <= stored.value.count <= limit.maxRequests
  }

  lemma AfterCounted(stored: Option<Counter>, limit: RateLimit, now: Instant)
    requires Counted(stored, limit)
    ensures Counted(After(stored, limit, now), limit)
  {
  }

  lemma {:induction false} AllTooLate(stored: Option<Counter>, limit: RateLimit, times: seq<Instant>, from: Instant,
                                      to: Instant)
    requires Rising(to, times)
    ensures Within(AllowedCalls(stored, limit, times), from, to) == 0
    decreases |times|
  {
    if times != [] {
      RisingFrom(to, times);
      AllTooLate(After(stored, limit, times[0]), limit, times[1..], from, to);
    }
  }

  lemma {:induction false} RisingFrom(from: Instant, times: seq<Instant>)
    requires Rising(from, times) && times != []
    ensures Rising(from, times[1..])
  {
    if times[1..] != [] {
      assert from <= times[0] <= times[1..][0];
    }
  }

  /** The most a span of one window can see; a window of one tick is over at the next instant. */
  function SpanMost(limit: RateLimit): nat {
    if limit.maxRequests == 0 || limit.window == 1 then limit.maxRequests else 2 * limit.maxRequests - 1
  }

  /**
   What calls inside a span can still get: the rest of a window that began inside it, which outlasts the span; or the
   rest of an earlier window, if it reaches into the span, and one whole window more.
   */
  ghost function Room(stored: Option<Counter>, limit: RateLimit, from: Instant): int {
    if stored.None? then limit.maxRequests
    else if stored.value.start >= from then limit.maxRequests - stored.value.count
    else if limit.window == 1 then limit.maxRequests
    else 2 * limit.maxRequests - stored.value.count
  }

  /** One call at or after the span's beginning uses up what it gets. */
  lemma RoomUsed(stored: Option<Counter>, limit: RateLimit, from: Instant, now: Instant)
    requires Counted(stored, limit) && from <= now < from + limit.window
    ensures Room(After(stored, limit, now), limit, from) + (if Allows(stored, limit, now) then 1 else 0) <=
            Room(stored, limit, from)
  {
  }

  lemma {:induction false} InsideSpan(stored: Option<Counter>, limit: RateLimit, times: seq<Instant>, from: Instant)
    requires Counted(stored, limit) && Rising(from, times)
    ensures Within(AllowedCalls(stored, limit, times), from, from + limit.window) <= Room(stored, limit, from)
    decreases |times|
  {
    if times != [] {
      var now := times[0];
      if now < from + limit.window {
        RoomUsed(stored, limit, from, now);
        AfterCounted(stored, limit, now);
        RisingFrom(from, times);
        InsideSpan(After(stored, limit, now), limit, times[1..], from);
      } else {
        AllTooLate(stored, limit, times, from, from + limit.window);
      }
    }
  }

  /**
   Over any calls of one key under a clock that never goes back, a half-open span one window long sees fewer than
   twice the maximum of allowed calls, and no more than the maximum when the window is one tick.
   */
  lemma {:induction false} SpanBound(stored: Option<Counter>, limit: RateLimit, start: Instant, times: seq<Instant>,
                                     from: Instant)
    requires Counted(stored, limit) && Rising(start, times)
    ensures Within(AllowedCalls(stored, limit, times), from, from + limit.window) <= SpanMost(limit)
    decreases |times|
  {
    if times != [] {
      if times[0] < from {
        AfterCounted(stored, limit, times[0]);
        SpanBound(After(stored, limit, times[0]), limit, times[0], times[1..], from);
      } else {
        InsideSpan(stored, limit, times, from);
      }
    }
  }

  // ---------------------------------------------------------------- no unjust refusal

  /** The stored counter after some calls. */
  function StoredAfter(stored: Option<Counter>, limit: RateLimit, times: seq<Instant>): Option<Counter>
    decreases |times|
  {
    if times == [] then stored else StoredAfter(After(stored, limit, times[0]), limit, times[1..])
  }

  lemma {:induction false} OneMoreCall(stored: Option<Counter>, limit: RateLimit, times: seq<Instant>, now: Instant)
    ensures var c := StoredAfter(stored, limit, times);
      && StoredAfter(stored, limit, times + [now]) == After(c, limit, now)
      && AllowedCalls(stored, limit, times + [now]) ==
         AllowedCalls(stored, limit, times) + (if Allows(c, limit, now) then [now] else [])
    decreases |times|
  {
    var more := times + [now];
    if times == [] {
      assert more == [now] && [now][1..] == [];
    } else {
      assert more[1..] == times[1..] + [now];
      OneMoreCall(After(stored, limit, times[0]), limit, times[1..], now);
    }
  }

  lemma {:induction false} WithinMore(times: seq<Instant>, now: Instant, from: Instant, to: Instant)
    ensures Within(times + [now], from, to) == Within(times, from, to) + (if InSpan(now, from, to) then 1 else 0)
    decreases |times|
  {
    var more := times + [now];
    if times == [] {
      assert more == [now] && [now][1..] == [];
    } else {
      assert more[1..] == times[1..] + [now];
      WithinMore(times[1..], now, from, to);
    }
  }

  lemma {:induction false} WithinWider(times: seq<Instant>, from: Instant, to: Instant, from': Instant, to': Instant)
    requires from' <= from && to <= to'
    ensures Within(times, from, to) <= Within(times, from', to')
    decreases |times|
  {
    if times != [] {
      WithinWider(times[1..], from, to, from', to');
    }
  }

  lemma {:induction false} RisingUpTo(from: Instant, times: seq<Instant>, now: Instant)
    requires Rising(from, times + [now])
    ensures Rising(from, times) && (if times == [] then from else times[|times| - 1]) <= now
    decreases |times|
  {
    if times != [] {
      assert (times + [now])[1..] == times[1..] + [now];
      RisingUpTo(times[0], times[1..], now);
    }
  }

  /** A counter counts calls that were allowed since its window began. */
  ghost predicate CountsAllowed(limit: RateLimit, times: seq<Instant>, until: Instant) {
    var c := StoredAfter(None, limit, times);
    c.None? ||
    (c.value.start <= until && Within(AllowedCalls(None, limit, times), c.value.start, until + 1) >= c.value.count)
  }

  lemma {:induction false} CounterCounts(limit: RateLimit, start: Instant, times: seq<Instant>, until: Instant)
    requires Rising(start, times) && (if times == [] then start else times[|times| - 1]) <= until
    ensures CountsAllowed(limit, times, until)
    decreases |times|
  {
    if times != [] {
      var before, now := times[..|times| - 1], times[|times| - 1];
      assert times == before + [now];
      RisingUpTo(start, before, now);
      CounterCounts(limit, start, before, now);
      CallCounted(limit, before, now, until);
    }
  }

  lemma CallCounted(limit: RateLimit, before: seq<Instant>, now: Instant, until: Instant)
    requires CountsAllowed(limit, before, now) && now <= until
    ensures CountsAllowed(limit, before + [now], until)
  {
    var c := StoredAfter(None, limit, before + [now]);
    var allowed := AllowedCalls(None, limit, before);
    OneMoreCall(None, limit, before, now);
    assert allowed + [] == allowed;
    if c.Some? {
      WithinMore(allowed, now, c.value.start, until + 1);
      WithinWider(allowed, c.value.start, now + 1, c.value.start, until + 1);
    }
  }

  /** A call is refused only when the maximum of calls was allowed within the window that ends with it. */
  lemma RefusedOnlyWhenFull(limit: RateLimit, start: Instant, times: seq<Instant>, now: Instant)
    requires Rising(start, times + [now]) && limit.maxRequests >= 1
    requires !Allows(StoredAfter(None, limit, times), limit, now)
    ensures Within(AllowedCalls(None, limit, times), now - limit.window + 1, now + 1) >= limit.maxRequests
  {
    RisingUpTo(start, times, now);
    CounterCounts(limit, start, times, now);
    var c := StoredAfter(None, limit, times).value;
    WithinWider(AllowedCalls(None, limit, times), c.start, now + 1, now - limit.window + 1, now + 1);
  }

  // ---------------------------------------------------------------- the bound is reached

  function Repeat(n: nat, t: Instant): seq<Instant> {
    if n == 0 then [] else [t] + Repeat(n - 1, t)
  }

  /** One call opens a window, the rest of its calls come at its last tick, and a whole window's calls right after. */
  function Burst(limit: RateLimit): seq<Instant>
    requires limit.maxRequests >= 1
  {
    [0] + (Repeat(limit.maxRequests - 1, limit.window - 1) + Repeat(limit.maxRequests, limit.window))
  }

  lemma {:induction false} RepeatRises(n: nat, t: Instant, from: Instant, rest: seq<Instant>)
    requires from <= t && Rising(t, rest)
    ensures Rising(from, Repeat(n, t) + rest)
    decreases n
  {
    if n == 0 {
      assert Repeat(n, t) + rest == rest;
    } else {
      RepeatRises(n - 1, t, t, rest);
      assert (Repeat(n, t) + rest)[1..] == Repeat(n - 1, t) + rest;
    }
  }

  /** Calls within a window that has room for them are all allowed. */
  lemma {:induction false} RepeatAllowed(n: nat, t: Instant, c: Counter, limit: RateLimit, rest: seq<Instant>)
    requires t - c.start < limit.window && c.count + n <= limit.maxRequests
    ensures AllowedCalls(Some(c), limit, Repeat(n, t) + rest) ==
            Repeat(n, t) + AllowedCalls(Some(Counter(c.start, c.count + n)), limit, rest)
    decreases n
  {
    var all := Repeat(n, t) + rest;
    if n == 0 {
      assert all == rest;
    } else {
      var later := Repeat(n - 1, t) + rest;
      assert all[0] == t && all[1..] == later;
      RepeatAllowed(n - 1, t, Counter(c.start, c.count + 1), limit, rest);
      assert AllowedCalls(Some(c), limit, all) == [t] + AllowedCalls(Some(Counter(c.start, c.count + 1)), limit, later);
      PrependOne(t, Repeat(n - 1, t), AllowedCalls(Some(Counter(c.start, c.count + n)), limit, rest));
    }
  }

  lemma PrependOne(t: Instant, a: seq<Instant>, b: seq<Instant>)
    ensures [t] + (a + b) == ([t] + a) + b
  {
  }

  lemma {:induction false} RepeatCounted(n: nat, t: Instant, from: Instant, to: Instant, rest: seq<Instant>)
    ensures Within(Repeat(n, t) + rest, from, to) == (if InSpan(t, from, to) then n else 0) + Within(rest, from, to)
    decreases n
  {
    var all := Repeat(n, t) + rest;
    if n == 0 {
      assert all == rest;
    } else {
      assert all[0] == t && all[1..] == Repeat(n - 1, t) + rest;
      RepeatCounted(n - 1, t, from, to, rest);
    }
  }

  /** Once a window is over, the next one's calls are all allowed. */
  lemma NextWindow(c: Counter, limit: RateLimit, n: nat, t: Instant)
    requires t - c.start >= limit.window >= 1 && 1 <= n <= limit.maxRequests
    ensures AllowedCalls(Some(c), limit, Repeat(n, t)) == Repeat(n, t)
  {
    assert Repeat(n, t)[1..] == Repeat(n - 1, t);
    assert Repeat(n - 1, t) + [] == Repeat(n - 1, t);
    RepeatAllowed(n - 1, t, Counter(t, 1), limit, []);
  }

  /** All calls of the burst are allowed. */
  lemma BurstAllowed(limit: RateLimit)
    requires limit.maxRequests >= 1 && limit.window >= 1
    ensures AllowedCalls(None, limit, Burst(limit)) == Burst(limit)
  {
    var n, w := limit.maxRequests, limit.window;
    var rest := Repeat(n - 1, w - 1) + Repeat(n, w);
    assert Burst(limit)[1..] == rest;
    RepeatAllowed(n - 1, w - 1, Counter(0, 1), limit, Repeat(n, w));
    NextWindow(Counter(0, n), limit, n, w);
    assert AllowedCalls(None, limit, Burst(limit)) == [0] + AllowedCalls(Some(Counter(0, 1)), limit, rest);
  }

  lemma BurstCounted(limit: RateLimit)
    requires limit.maxRequests >= 1 && limit.window >= 1
    ensures Within(Burst(limit), limit.window - 1, 2 * limit.window - 1) == SpanMost(limit)
  {
    var n, w := limit.maxRequests, limit.window;
    RepeatCounted(n, w, w - 1, 2 * w - 1, []);
    assert Repeat(n, w) + [] == Repeat(n, w);
    RepeatCounted(n - 1, w - 1, w - 1, 2 * w - 1, Repeat(n, w));
    assert Burst(limit)[1..] == Repeat(n - 1, w - 1) + Repeat(n, w);
  }

  /** For every limit, a span of one window can see as many allowed calls as the bound permits. */
  lemma SpanBoundReached(limit: RateLimit)
    requires limit.maxRequests >= 1 && limit.window >= 1
    ensures Rising(0, Burst(limit))
    ensures Within(AllowedCalls(None, limit, Burst(limit)), limit.window - 1, 2 * limit.window - 1) == SpanMost(limit)
  {
    var n, w := limit.maxRequests, limit.window;
    RepeatRises(n, w, w - 1, []);
    assert Repeat(n, w) + [] == Repeat(n, w);
    RepeatRises(n - 1, w - 1, 0, Repeat(n, w));
    assert Burst(limit)[1..] == Repeat(n - 1, w - 1) + Repeat(n, w);
    BurstAllowed(limit);
    BurstCounted(limit);
  }

  // ---------------------------------------------------------------- the whole limiter

  datatype Call = Call(key: Key, now: Instant)

  /** The counters after a call, as `Allow` leaves them. */
  function Next(counters: map<Key, Counter>, limits: string -> RateLimit, call: Call): map<Key, Counter> {
    var stored := Lookup(counters, call.key);
    if Allows(stored, limits(call.key.bucket), call.now)
    then counters[call.key := After(stored, limits(call.key.bucket), call.now).value]
    else counters
  }

  /** When one key's calls were allowed in a run of everybody's calls. */
  function AllowedOf(counters: map<Key, Counter>, limits: string -> RateLimit, calls: seq<Call>, key: Key): seq<Instant>
    decreases |calls|
  {
    if calls == [] then []
    else
      var call := calls[0];
      var later := AllowedOf(Next(counters, limits, call), limits, calls[1..], key);
      if call.key == key && Allows(Lookup(counters, key), limits(key.bucket), call.now) then [call.now] + later else later
  }

  function TimesOf(calls: seq<Call>, key: Key): seq<Instant> {
    if calls == [] then []
    else if calls[0].key == key then [calls[0].now] + TimesOf(calls[1..], key)
    else TimesOf(calls[1..], key)
  }

  /** A key's calls are judged as if they were the only ones. */
  lemma {:induction false} KeysIndependent(counters: map<Key, Counter>, limits: string -> RateLimit, calls: seq<Call>,
                                           key: Key)
    ensures AllowedOf(counters, limits, calls, key) ==
            AllowedCalls(Lookup(counters, key), limits(key.bucket), TimesOf(calls, key))
    decreases |calls|
  {
    if calls != [] {
      var call, after := calls[0], Next(counters, limits, calls[0]);
      KeysIndependent(after, limits, calls[1..], key);
      if call.key == key {
        assert Lookup(after, key) == After(Lookup(counters, key), limits(key.bucket), call.now);
        assert TimesOf(calls, key)[1..] == TimesOf(calls[1..], key);
      } else {
        assert Lookup(after, key) == Lookup(counters, key);
      }
    }
  }

  ghost predicate ClockRises(from: Instant, calls: seq<Call>)
    decreases |calls|
  {
    calls == [] || (from <= calls[0].now && ClockRises(calls[0].now, calls[1..]))
  }

  lemma {:induction false} TimesRise(from: Instant, lower: Instant, calls: seq<Call>, key: Key)
    requires ClockRises(from, calls) && lower <= from
    ensures Rising(lower, TimesOf(calls, key))
    decreases |calls|
  {
    if calls != [] {
      if calls[0].key == key {
        TimesRise(calls[0].now, calls[0].now, calls[1..], key);
        assert TimesOf(calls, key)[1..] == TimesOf(calls[1..], key);
      } else {
        TimesRise(calls[0].now, lower, calls[1..], key);
      }
    }
  }

  /**
   Over any run of everybody's calls against a new limiter, each actor and bucket gets fewer than twice the bucket's
   maximum in any half-open span of one window, and at most the maximum when the window is one tick.
   */
  lemma EveryKeyBounded(limits: string -> RateLimit, start: Instant, calls: seq<Call>, key: Key, from: Instant)
    requires ClockRises(start, calls)
    ensures var limit := limits(key.bucket);
      Within(AllowedOf(map[], limits, calls, key), from, from + limit.window) <= SpanMost(limit)
  {
    KeysIndependent(map[], limits, calls, key);
    TimesRise(start, start, calls, key);
    SpanBound(None, limits(key.bucket), start, TimesOf(calls, key), from);
  }

  /** The counters after a run of calls. */
  function CountersAfter(counters: map<Key, Counter>, limits: string -> RateLimit, calls: seq<Call>): map<Key, Counter>
    decreases |calls|
  {
    if calls == [] then counters else CountersAfter(Next(counters, limits, calls[0]), limits, calls[1..])
  }

  lemma {:induction false} CounterOfKey(counters: map<Key, Counter>, limits: string -> RateLimit, calls: seq<Call>, key: Key)
    ensures Lookup(CountersAfter(counters, limits, calls), key) ==
            StoredAfter(Lookup(counters, key), limits(key.bucket), TimesOf(calls, key))
    decreases |calls|
  {
    if calls != [] {
      var call, after := calls[0], Next(counters, limits, calls[0]);
      CounterOfKey(after, limits, calls[1..], key);
      if call.key == key {
        assert Lookup(after, key) == After(Lookup(counters, key), limits(key.bucket), call.now);
        assert TimesOf(calls, key)[1..] == TimesOf(calls[1..], key);
      } else {
        assert Lookup(after, key) == Lookup(counters, key);
      }
    }
  }

  lemma {:induction false} TimesOfMore(calls: seq<Call>, call: Call)
    ensures TimesOf(calls + [call], call.key) == TimesOf(calls, call.key) + [call.now]
    decreases |calls|
  {
    if calls == [] {
      assert calls + [call] == [call] && [call][1..] == [];
    } else {
      assert (calls + [call])[1..] == calls[1..] + [call];
      TimesOfMore(calls[1..], call);
    }
  }

  /**
   Over any run of everybody's calls against a new limiter, an actor is refused in a bucket only when the bucket's
   maximum of that actor's own calls was allowed within the window that ends with the call.
   */
  lemma EveryRefusalFull(limits: string -> RateLimit, start: Instant, calls: seq<Call>, call: Call)
    requires ClockRises(start, calls + [call]) && limits(call.key.bucket).maxRequests >= 1
    requires !Allows(Lookup(CountersAfter(map[], limits, calls), call.key), limits(call.key.bucket), call.now)
    ensures var limit := limits(call.key.bucket);
      Within(AllowedOf(map[], limits, calls, call.key), call.now - limit.window + 1, call.now + 1) >= limit.maxRequests
  {
    KeysIndependent(map[], limits, calls, call.key);
    CounterOfKey(map[], limits, calls, call.key);
    TimesRise(start, start, calls + [call], call.key);
    TimesOfMore(calls, call);
    RefusedOnlyWhenFull(limits(call.key.bucket), start, TimesOf(calls, call.key), call.now);
  }
}
