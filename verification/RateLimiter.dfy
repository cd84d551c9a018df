/** The per-client token bucket of cmd/query/middleware.go. Times are seconds. */
module RateLimiter {
  import opened Options

  datatype Bucket = Bucket(tokens: real, last: real, seen: real)

  datatype Limits = Limits(rps: real, burst: real, idle: real)

  datatype Call = Call(key: string, now: real)

  type Buckets = map<string, Bucket>

  function Min(a: real, b: real): real {
    if a < b then a else b
  }

  function Accrued(elapsed: real, rps: real): real {
    elapsed * rps
  }

  lemma {:induction false} AccruedDiff(a: real, b: real, rps: real)
    ensures Accrued(b - a, rps) == Accrued(b, rps) - Accrued(a, rps)
  {
  }

  lemma {:induction false} AccruedStrict(x: real, y: real, rps: real)
    requires x > y && rps > 0.0
    ensures Accrued(x, rps) > Accrued(y, rps)
  {
    var more := x - y;
    assert more * rps > 0.0;
    AccruedDiff(y, x, rps);
  }

  lemma {:induction false} AccruedMore(x: real, y: real, rps: real)
    requires x >= y && rps > 0.0
    ensures Accrued(x, rps) >= Accrued(y, rps)
  {
    if x > y {
      AccruedStrict(x, y, rps);
    }
  }

  lemma {:induction false} AccruedNone(rps: real)
    ensures Accrued(0.0, rps) == 0.0
  {
  }

  /** It takes u / rps to earn u. */
  lemma {:induction false} Earns(u: real, rps: real)
    requires rps > 0.0
    ensures Accrued(u / rps, rps) == u
  {
  }

  /** The tokens a bucket holds at `now`. The elapsed time may be negative: `now` is read before
    * the lock is taken. */
  function Refilled(lim: Limits, b: Bucket, now: real): real {
    Min(lim.burst, b.tokens + Accrued(now - b.last, lim.rps))
  }

  function Lookup(lim: Limits, bs: Buckets, key: string, now: real): Bucket {
    if key in bs then bs[key] else Bucket(lim.burst, now, now)
  }

  function Evicted(lim: Limits, bs: Buckets, now: real): Buckets {
    map k | k in bs && now - bs[k].seen <= lim.idle :: bs[k]
  }

  function Spend(tokens: real, now: real): Bucket {
    Bucket(if tokens < 1.0 then tokens else tokens - 1.0, now, now)
  }

  /** One call of `allow`: the buckets afterwards and the answer. */
  function Serve(lim: Limits, bs: Buckets, c: Call): (Buckets, bool) {
    if lim.rps <= 0.0 then (bs, true)
    else
      var tokens := Refilled(lim, Lookup(lim, bs, c.key, c.now), c.now);
      var kept := Evicted(lim, bs[c.key := Bucket(tokens, c.now, c.now)], c.now);
      (if c.key in kept then kept[c.key := Spend(tokens, c.now)] else kept, tokens >= 1.0)
  }

  class Limiter {
    const lim: Limits
    var buckets: Buckets

    constructor (lim: Limits)
      ensures this.lim == lim && buckets == map[]
    {
      this.lim, buckets := lim, map[];
    }

    /** Without the idle buckets among those already visited. */
    ghost function Dropped(bs: Buckets, left: set<string>, now: real): Buckets {
      map k | k in bs && (k in left || now - bs[k].seen <= lim.idle) :: bs[k]
    }

    /** Drops idle buckets, walking the map in any order. */
    method Evict(now: real)
      modifies this
      ensures buckets == Evicted(lim, old(buckets), now)
    {
      var left := buckets.Keys;
      while left != {}
        invariant left <= old(buckets).Keys
        invariant buckets == Dropped(old(buckets), left, now)
        decreases left
      {
        var k :| k in left;
        if now - buckets[k].seen > lim.idle {
          buckets := buckets - {k};
        }
        left := left - {k};
      }
    }

    method Refill(b: Bucket, now: real) returns (tokens: real)
      ensures tokens == Refilled(lim, b, now) && tokens <= lim.burst
    {
      tokens := b.tokens + Accrued(now - b.last, lim.rps);
      if tokens > lim.burst {
        tokens := lim.burst;
      }
    }

    method Allow(key: string, now: real) returns (ok: bool)
      modifies this
      ensures buckets == Serve(lim, old(buckets), Call(key, now)).0
      ensures ok == Serve(lim, old(buckets), Call(key, now)).1
    {
      if lim.rps <= 0.0 {
        return true;
      }
      var b := if key in buckets then buckets[key] else Bucket(lim.burst, now, now);
      var tokens := Refill(b, now);
      buckets := buckets[key := Bucket(tokens, now, now)];
      Evict(now);
      ok := tokens >= 1.0;
      if ok && key in buckets {
        buckets := buckets[key := Bucket(tokens - 1.0, now, now)];
      } else if key in buckets {
        assert buckets == buckets[key := Bucket(tokens, now, now)];
      }
    }
  }

  // ---- runs ----

  /** The answers `key` gets in a run of calls by anybody. */
  function KeyAnswers(lim: Limits, bs: Buckets, calls: seq<Call>, key: string): seq<bool>
    decreases |calls|
  {
    if calls == [] then []
    else
      var (next, ok) := Serve(lim, bs, calls[0]);
      (if calls[0].key == key then [ok] else []) + KeyAnswers(lim, next, calls[1..], key)
  }

  /** One call on a bucket that is never dropped. */
  function ServeAlone(lim: Limits, st: Option<Bucket>, now: real): (Option<Bucket>, bool) {
    if lim.rps <= 0.0 then (st, true)
    else
      var tokens := Refilled(lim, if st.Some? then st.value else Bucket(lim.burst, now, now), now);
      (Some(Spend(tokens, now)), tokens >= 1.0)
  }

  /** The answers of a limiter that never forgets and sees only the calls of `key`. */
  function AloneAnswers(lim: Limits, st: Option<Bucket>, calls: seq<Call>, key: string): seq<bool>
    decreases |calls|
  {
    if calls == [] then []
    else if calls[0].key != key then AloneAnswers(lim, st, calls[1..], key)
    else
      var (next, ok) := ServeAlone(lim, st, calls[0].now);
      [ok] + AloneAnswers(lim, next, calls[1..], key)
  }

  /** The clock never runs backwards, from `clock` on. */
  predicate Monotone(calls: seq<Call>, clock: real)
    decreases |calls|
  {
    calls == [] || (clock <= calls[0].now && Monotone(calls[1..], calls[0].now))
  }

  // ---- eviction is invisible ----

  predicate Sane(lim: Limits, b: Bucket, clock: real) {
    b.last == b.seen && b.last <= clock && b.tokens <= lim.burst && (b.tokens >= 0.0 || b.tokens >= lim.burst)
  }

  /** The real limiter holds the same bucket as the forgetful-free one, or dropped it long ago. */
  ghost predicate Matches(lim: Limits, bs: Buckets, st: Option<Bucket>, key: string, clock: real) {
    && (st.None? ==> key !in bs)
    && (st.Some? ==> Sane(lim, st.value, clock) &&
                     if key in bs then bs[key] == st.value else clock - st.value.seen > lim.idle)
  }

  lemma {:induction false} FullAgain(lim: Limits, b: Bucket, now: real)
    requires lim.rps > 0.0 && lim.idle >= 0.0 && Accrued(lim.idle, lim.rps) >= lim.burst
    requires Sane(lim, b, now) && now - b.seen > lim.idle
    ensures Refilled(lim, b, now) == lim.burst
  {
    AccruedMore(now - b.last, lim.idle, lim.rps);
  }

  lemma {:induction false} OwnCall(lim: Limits, bs: Buckets, st: Option<Bucket>, c: Call, clock: real)
    requires lim.rps > 0.0 && lim.idle >= 0.0 && Accrued(lim.idle, lim.rps) >= lim.burst && clock <= c.now
    requires Matches(lim, bs, st, c.key, clock)
    ensures Serve(lim, bs, c).1 == ServeAlone(lim, st, c.now).1
    ensures Matches(lim, Serve(lim, bs, c).0, ServeAlone(lim, st, c.now).0, c.key, c.now)
  {
    var b := if st.Some? then st.value else Bucket(lim.burst, c.now, c.now);
    assert Sane(lim, b, c.now);
    if st.Some? && c.key !in bs {
      FullAgain(lim, b, c.now);
    }
    RefillSane(lim, b, c.now);
  }

  lemma {:induction false} RefillSane(lim: Limits, b: Bucket, now: real)
    requires lim.rps > 0.0 && Sane(lim, b, now)
    ensures Sane(lim, Spend(Refilled(lim, b, now), now), now)
  {
    AccruedMore(now - b.last, 0.0, lim.rps);
    AccruedNone(lim.rps);
  }

  lemma {:induction false} OtherCall(lim: Limits, bs: Buckets, st: Option<Bucket>, key: string, c: Call, clock: real)
    requires lim.rps > 0.0 && lim.idle >= 0.0 && clock <= c.now && c.key != key && Matches(lim, bs, st, key, clock)
    ensures Matches(lim, Serve(lim, bs, c).0, st, key, c.now)
  {
  }

  lemma {:induction false} MatchedRun(lim: Limits, bs: Buckets, st: Option<Bucket>, calls: seq<Call>, key: string,
                                      clock: real)
    requires lim.rps > 0.0 && lim.idle >= 0.0 && Accrued(lim.idle, lim.rps) >= lim.burst
    requires Monotone(calls, clock) && Matches(lim, bs, st, key, clock)
    ensures KeyAnswers(lim, bs, calls, key) == AloneAnswers(lim, st, calls, key)
    decreases |calls|
  {
    if calls != [] {
      var c := calls[0];
      if c.key == key {
        OwnCall(lim, bs, st, c, clock);
        MatchedRun(lim, Serve(lim, bs, c).0, ServeAlone(lim, st, c.now).0, calls[1..], key, c.now);
      } else {
        OtherCall(lim, bs, st, key, c, clock);
        MatchedRun(lim, Serve(lim, bs, c).0, st, calls[1..], key, c.now);
      }
    }
  }

  lemma {:induction false} OpenRun(lim: Limits, bs: Buckets, st: Option<Bucket>, calls: seq<Call>, key: string)
    requires lim.rps <= 0.0
    ensures KeyAnswers(lim, bs, calls, key) == AloneAnswers(lim, st, calls, key)
    decreases |calls|
  {
    if calls != [] {
      OpenRun(lim, bs, st, calls[1..], key);
    }
  }

  /** With less than one token of capacity nothing is ever allowed, remembered or not. */
  lemma {:induction false} ShutRun(lim: Limits, bs: Buckets, st: Option<Bucket>, calls: seq<Call>, key: string)
    requires lim.rps > 0.0 && lim.burst < 1.0
    ensures KeyAnswers(lim, bs, calls, key) == AloneAnswers(lim, st, calls, key)
    decreases |calls|
  {
    if calls != [] {
      var c := calls[0];
      assert !Serve(lim, bs, c).1 && !ServeAlone(lim, st, c.now).1;
      ShutRun(lim, Serve(lim, bs, c).0, if c.key == key then ServeAlone(lim, st, c.now).0 else st, calls[1..], key);
    }
  }

  /** The limiter forgets without anyone being able to tell. */
  ghost predicate EvictionInvisible(lim: Limits) {
    forall calls, key, clock :: Monotone(calls, clock) ==>
      KeyAnswers(lim, map[], calls, key) == AloneAnswers(lim, None, calls, key)
  }

  /** What a deployment can check beforehand: limiting is off, nothing is ever allowed, or a full
    * bucket refills within the idle window. */
  predicate IdleWindowSuffices(lim: Limits) {
    lim.rps <= 0.0 || lim.burst < 1.0 || Accrued(lim.idle, lim.rps) >= lim.burst
  }

  // ---- ... exactly then ----

  /** A run from here on tells the two limiters apart. */
  ghost predicate Tells(lim: Limits, bs: Buckets, st: Option<Bucket>, calls: seq<Call>, key: string, clock: real) {
    Monotone(calls, clock) && KeyAnswers(lim, bs, calls, key) != AloneAnswers(lim, st, calls, key)
  }

  lemma {:induction false} TellsOwn(lim: Limits, bs: Buckets, st: Option<Bucket>, c: Call, rest: seq<Call>, clock: real)
    requires clock <= c.now
    requires Serve(lim, bs, c).1 != ServeAlone(lim, st, c.now).1 ||
             Tells(lim, Serve(lim, bs, c).0, ServeAlone(lim, st, c.now).0, rest, c.key, c.now)
    requires Monotone(rest, c.now)
    ensures Tells(lim, bs, st, [c] + rest, c.key, clock)
  {
    var calls := [c] + rest;
    assert calls[1..] == rest;
    var x := KeyAnswers(lim, Serve(lim, bs, c).0, rest, c.key);
    var y := AloneAnswers(lim, ServeAlone(lim, st, c.now).0, rest, c.key);
    assert KeyAnswers(lim, bs, calls, c.key) == [Serve(lim, bs, c).1] + x;
    assert AloneAnswers(lim, st, calls, c.key) == [ServeAlone(lim, st, c.now).1] + y;
    if KeyAnswers(lim, bs, calls, c.key) == AloneAnswers(lim, st, calls, c.key) {
      ConsInjective(Serve(lim, bs, c).1, x, ServeAlone(lim, st, c.now).1, y);
    }
  }

  lemma {:induction false} ConsInjective(a: bool, x: seq<bool>, b: bool, y: seq<bool>)
    requires [a] + x == [b] + y
    ensures a == b && x == y
  {
    assert ([a] + x)[0] == ([b] + y)[0];
    assert x == ([a] + x)[1..] && y == ([b] + y)[1..];
  }

  ghost predicate Capped(lim: Limits) {
    lim.rps > 0.0 && lim.burst >= 1.0 && lim.idle >= 0.0
  }

  /** Serving a bucket that is present: it is spent and stays. */
  lemma {:induction false} ServePresent(lim: Limits, bs: Buckets, c: Call, b: Bucket)
    requires Capped(lim) && c.key in bs && bs[c.key] == b
    ensures var (next, ok) := Serve(lim, bs, c);
            ok == (Refilled(lim, b, c.now) >= 1.0) && c.key in next &&
              next[c.key] == Spend(Refilled(lim, b, c.now), c.now)
  {
  }

  lemma {:induction false} SameInstant(lim: Limits, tokens: real, clock: real)
    requires tokens <= lim.burst
    ensures Refilled(lim, Bucket(tokens, clock, clock), clock) == tokens
  {
    assert clock - clock == 0.0;
    AccruedNone(lim.rps);
  }

  lemma {:induction false} AfterWait(lim: Limits, tokens: real, clock: real, wait: real)
    requires tokens + Accrued(wait, lim.rps) <= lim.burst
    ensures Refilled(lim, Bucket(tokens, clock, clock), clock + wait) == tokens + Accrued(wait, lim.rps)
  {
    assert clock + wait - clock == wait;
  }

  /** Below one token: wait until exactly one of the two buckets has reached it. */
  lemma {:induction false} ApartSoon(lim: Limits, bs: Buckets, st: Option<Bucket>, key: string, x: real, y: real,
                                     clock: real) returns (calls: seq<Call>)
    requires Capped(lim) && key in bs && bs[key] == Bucket(x, clock, clock) && st == Some(Bucket(y, clock, clock))
    requires 0.0 <= y < x < 1.0
    ensures Tells(lim, bs, st, calls, key, clock)
  {
    var wait := (1.0 - x) / lim.rps;
    Earns(1.0 - x, lim.rps);
    AfterWait(lim, x, clock, wait);
    AfterWait(lim, y, clock, wait);
    var c := Call(key, clock + wait);
    ServePresent(lim, bs, c, bs[key]);
    TellsOwn(lim, bs, st, c, [], clock);
    calls := [c] + [];
  }

  /** Two buckets with different fillings are told apart by the owner's own calls. */
  lemma {:induction false} Apart(lim: Limits, bs: Buckets, st: Option<Bucket>, key: string, x: real, y: real,
                                 clock: real) returns (calls: seq<Call>)
    requires Capped(lim) && key in bs && bs[key] == Bucket(x, clock, clock) && st == Some(Bucket(y, clock, clock))
    requires 0.0 <= y < x <= lim.burst
    ensures Tells(lim, bs, st, calls, key, clock)
    decreases y.Floor
  {
    if x < 1.0 {
      calls := ApartSoon(lim, bs, st, key, x, y, clock);
    } else {
      var c := Call(key, clock);
      SameInstant(lim, x, clock);
      SameInstant(lim, y, clock);
      ServePresent(lim, bs, c, bs[key]);
      var rest := [];
      if y >= 1.0 {
        rest := Apart(lim, Serve(lim, bs, c).0, ServeAlone(lim, st, clock).0, key, x - 1.0, y - 1.0, clock);
      }
      TellsOwn(lim, bs, st, c, rest, clock);
      calls := [c] + rest;
    }
  }

  lemma {:induction false} TellsOther(lim: Limits, bs: Buckets, st: Option<Bucket>, c: Call, rest: seq<Call>,
                                      key: string, clock: real)
    requires clock <= c.now && c.key != key && Tells(lim, Serve(lim, bs, c).0, st, rest, key, c.now)
    ensures Tells(lim, bs, st, [c] + rest, key, clock)
  {
    var calls := [c] + rest;
    assert calls[1..] == rest;
    assert KeyAnswers(lim, bs, calls, key) == [] + KeyAnswers(lim, Serve(lim, bs, c).0, rest, key);
  }

  /** An empty bucket, forgotten a little too early, comes back full. */
  lemma {:induction false} ForgottenEmpty(lim: Limits, bs: Buckets, st: Option<Bucket>, key: string, other: string,
                                          clock: real) returns (calls: seq<Call>)
    requires Capped(lim) && Accrued(lim.idle, lim.rps) < lim.burst && other != key
    requires key in bs && bs[key] == Bucket(0.0, clock, clock) && st == Some(Bucket(0.0, clock, clock))
    ensures Tells(lim, bs, st, calls, key, clock)
  {
    var wait := (lim.idle + lim.burst / lim.rps) / 2.0;
    WaitBetween(lim, wait);
    var now := clock + wait;
    var c1, c2 := Call(other, now), Call(key, now);
    var bs1 := Serve(lim, bs, c1).0;
    assert key !in bs1;
    AfterWait(lim, 0.0, clock, wait);
    SameInstant(lim, lim.burst, now);
    var y := Accrued(wait, lim.rps);
    var bs2, st2 := Serve(lim, bs1, c2).0, ServeAlone(lim, st, now).0;
    assert bs2[key] == Bucket(lim.burst - 1.0, now, now);
    var rest := [];
    if y >= 1.0 {
      rest := Apart(lim, bs2, st2, key, lim.burst - 1.0, y - 1.0, now);
    }
    TellsOwn(lim, bs1, st, c2, rest, now);
    TellsOther(lim, bs, st, c1, [c2] + rest, key, clock);
    calls := [c1] + ([c2] + rest);
  }

  lemma {:induction false} WaitBetween(lim: Limits, wait: real)
    requires lim.rps > 0.0 && Accrued(lim.idle, lim.rps) < lim.burst && lim.idle >= 0.0
    requires wait == (lim.idle + lim.burst / lim.rps) / 2.0
    ensures lim.idle < wait && 0.0 < Accrued(wait, lim.rps) < lim.burst
  {
    var full := lim.burst / lim.rps;
    Earns(lim.burst, lim.rps);
    if full <= lim.idle {
      AccruedMore(lim.idle, full, lim.rps);
    }
    AccruedStrict(full, wait, lim.rps);
    AccruedStrict(wait, 0.0, lim.rps);
    AccruedNone(lim.rps);
  }

  /** The owner can always empty the bucket, to the last fraction of a token. */
  lemma {:induction false} DrainFirst(lim: Limits, bs: Buckets, st: Option<Bucket>, key: string, other: string, x: real,
                                      clock: real) returns (calls: seq<Call>)
    requires Capped(lim) && Accrued(lim.idle, lim.rps) < lim.burst && other != key && 0.0 <= x <= lim.burst
    requires key in bs && bs[key] == Bucket(x, clock, clock) && st == Some(Bucket(x, clock, clock))
    ensures Tells(lim, bs, st, calls, key, clock)
    decreases x.Floor, x > 0.0
  {
    if x == 0.0 {
      calls := ForgottenEmpty(lim, bs, st, key, other, clock);
    } else {
      var wait := if x >= 1.0 then 0.0 else (1.0 - x) / lim.rps;
      AccruedNone(lim.rps);
      Earns(1.0 - x, lim.rps);
      AfterWait(lim, x, clock, wait);
      var c := Call(key, clock + wait);
      ServePresent(lim, bs, c, bs[key]);
      var rest := DrainFirst(lim, Serve(lim, bs, c).0, ServeAlone(lim, st, c.now).0, key, other,
        if x >= 1.0 then x - 1.0 else 0.0, c.now);
      TellsOwn(lim, bs, st, c, rest, clock);
      calls := [c] + rest;
    }
  }

  lemma {:induction false} Visible(lim: Limits) returns (calls: seq<Call>)
    requires Capped(lim) && Accrued(lim.idle, lim.rps) < lim.burst
    ensures Tells(lim, map[], None, calls, "a", 0.0)
  {
    var c := Call("a", 0.0);
    SameInstant(lim, lim.burst, 0.0);
    var bs, st := Serve(lim, map[], c).0, ServeAlone(lim, None, 0.0).0;
    assert bs["a"] == Bucket(lim.burst - 1.0, 0.0, 0.0);
    assert "b" != "a";
    var rest := DrainFirst(lim, bs, st, "a", "b", lim.burst - 1.0, 0.0);
    TellsOwn(lim, map[], None, c, rest, 0.0);
    calls := [c] + rest;
  }

  /** Eviction is invisible exactly when the idle window suffices. */
  lemma {:induction false} EvictionInvisibleExactly(lim: Limits)
    requires lim.idle >= 0.0
    ensures EvictionInvisible(lim) <==> IdleWindowSuffices(lim)
  {
    if IdleWindowSuffices(lim) {
      forall calls, key, clock | Monotone(calls, clock)
        ensures KeyAnswers(lim, map[], calls, key) == AloneAnswers(lim, None, calls, key)
      {
        if lim.rps <= 0.0 {
          OpenRun(lim, map[], None, calls, key);
        } else if lim.burst < 1.0 {
          ShutRun(lim, map[], None, calls, key);
        } else {
          MatchedRun(lim, map[], None, calls, key, clock);
        }
      }
    } else {
      var calls := Visible(lim);
    }
  }

  // ---- quantity ----

  function Allowed(answers: seq<bool>): nat {
    if answers == [] then 0 else (if answers[0] then 1 else 0) + Allowed(answers[1..])
  }

  /** The bucket of `key` survives every call of the run. */
  ghost predicate Lives(lim: Limits, bs: Buckets, calls: seq<Call>, key: string)
    decreases |calls|
  {
    key in bs && (calls == [] || Lives(lim, Serve(lim, bs, calls[0]).0, calls[1..], key))
  }

  /** Where a run of calls leaves the buckets. */
  function After(lim: Limits, bs: Buckets, calls: seq<Call>): Buckets
    decreases |calls|
  {
    if calls == [] then bs else After(lim, Serve(lim, bs, calls[0]).0, calls[1..])
  }

  lemma {:induction false} AllowedCons(a: bool, rest: seq<bool>)
    ensures Allowed([a] + rest) == (if a then 1 else 0) + Allowed(rest)
  {
    assert ([a] + rest)[1..] == rest;
  }

  /** The tokens of a bucket, less what its clock has brought in: no call can raise it. */
  function Credit(lim: Limits, b: Bucket): real {
    b.tokens - Accrued(b.last, lim.rps)
  }

  lemma {:induction false} OneEntry(lim: Limits, b: Bucket, now: real)
    ensures var t := Refilled(lim, b, now);
            (if t >= 1.0 then 1.0 else 0.0) + Credit(lim, Spend(t, now)) <= Credit(lim, b)
  {
    AccruedDiff(b.last, now, lim.rps);
  }

  lemma {:induction false} OwnEntry(lim: Limits, bs: Buckets, c: Call)
    requires lim.rps > 0.0 && c.key in bs && c.key in Serve(lim, bs, c).0
    ensures (if Serve(lim, bs, c).1 then 1.0 else 0.0) + Credit(lim, Serve(lim, bs, c).0[c.key]) <=
              Credit(lim, bs[c.key])
  {
    OneEntry(lim, bs[c.key], c.now);
  }

  lemma {:induction false} OtherEntry(lim: Limits, bs: Buckets, c: Call, key: string)
    requires lim.rps > 0.0 && key != c.key && key in bs && key in Serve(lim, bs, c).0
    ensures Serve(lim, bs, c).0[key] == bs[key]
  {
  }

  /** The account of a living bucket, whatever the clock does: every allowed call is paid for. */
  lemma {:induction false} Balance(lim: Limits, bs: Buckets, calls: seq<Call>, key: string)
    requires lim.rps > 0.0 && Lives(lim, bs, calls, key)
    ensures key in After(lim, bs, calls)
    ensures Allowed(KeyAnswers(lim, bs, calls, key)) as real + Credit(lim, After(lim, bs, calls)[key]) <=
              Credit(lim, bs[key])
    decreases |calls|
  {
    if calls != [] {
      var c, next := calls[0], Serve(lim, bs, calls[0]).0;
      Balance(lim, next, calls[1..], key);
      var rest := KeyAnswers(lim, next, calls[1..], key);
      if c.key == key {
        AllowedCons(Serve(lim, bs, c).1, rest);
        OwnEntry(lim, bs, c);
      } else {
        assert [] + rest == rest;
        OtherEntry(lim, bs, c, key);
      }
    }
  }

  lemma {:induction false} FirstEntry(lim: Limits, bs: Buckets, c: Call)
    requires lim.rps > 0.0 && c.key in Serve(lim, bs, c).0
    ensures (if Serve(lim, bs, c).1 then 1.0 else 0.0) + Credit(lim, Serve(lim, bs, c).0[c.key]) <=
              lim.burst - Accrued(c.now, lim.rps)
  {
    CappedEntry(lim, Refilled(lim, Lookup(lim, bs, c.key, c.now), c.now), c.now);
  }

  lemma {:induction false} CappedEntry(lim: Limits, tokens: real, now: real)
    requires tokens <= lim.burst
    ensures (if tokens >= 1.0 then 1.0 else 0.0) + Credit(lim, Spend(tokens, now)) <= lim.burst - Accrued(now, lim.rps)
  {
  }

  lemma {:induction false} LastEntry(lim: Limits, bs: Buckets, c: Call)
    requires lim.rps > 0.0 && c.key in bs && Serve(lim, bs, c).1
    ensures 1.0 - Accrued(c.now, lim.rps) <= Credit(lim, bs[c.key])
  {
    AccruedDiff(bs[c.key].last, c.now, lim.rps);
  }

  /** Window bound: the calls `key` gets through from a call at `first.now` up to the call `last`
    * that is still let through number at most burst + rps * (last.now - first.now), even when
    * the clock readings are out of order. */
  lemma {:induction false} WindowBound(lim: Limits, bs: Buckets, first: Call, mid: seq<Call>, last: Call)
    requires lim.rps > 0.0 && first.key == last.key
    requires var bs1 := Serve(lim, bs, first).0; var bs2 := After(lim, bs1, mid);
             Lives(lim, bs1, mid, first.key) && Serve(lim, bs2, last).1
    ensures var bs1 := Serve(lim, bs, first).0;
            (if Serve(lim, bs, first).1 then 1.0 else 0.0) + Allowed(KeyAnswers(lim, bs1, mid, first.key)) as real + 1.0
              <= lim.burst + Accrued(last.now - first.now, lim.rps)
  {
    var bs1 := Serve(lim, bs, first).0;
    Balance(lim, bs1, mid, first.key);
    FirstEntry(lim, bs, first);
    LastEntry(lim, After(lim, bs1, mid), last);
    AccruedDiff(first.now, last.now, lim.rps);
  }

  /** The calls of `key` come at least 1/rps apart, counting from its last one at `since`. */
  predicate Spaced(lim: Limits, calls: seq<Call>, key: string, since: Option<real>)
    requires lim.rps > 0.0
    decreases |calls|
  {
    calls == [] ||
    (if calls[0].key == key then
       (since.Some? ==> Accrued(calls[0].now - since.value, lim.rps) >= 1.0) &&
         Spaced(lim, calls[1..], key, Some(calls[0].now))
     else Spaced(lim, calls[1..], key, since))
  }

  lemma {:induction false} EnoughTokens(lim: Limits, bs: Buckets, key: string, now: real)
    requires lim.burst >= 1.0
    requires key in bs ==> bs[key].tokens >= 0.0 && Accrued(now - bs[key].last, lim.rps) >= 1.0
    ensures Refilled(lim, Lookup(lim, bs, key, now), now) >= 1.0
  {
    assert now - now == 0.0;
    AccruedNone(lim.rps);
  }

  /** A caller who keeps to the rate is never refused, whoever else calls and whatever is evicted. */
  lemma {:induction false} SpacedCallerNeverRefused(lim: Limits, bs: Buckets, calls: seq<Call>, key: string,
                                                    since: Option<real>)
    requires lim.rps > 0.0 && lim.burst >= 1.0 && Spaced(lim, calls, key, since)
    requires key in bs ==> since.Some? && bs[key].last == since.value && bs[key].tokens >= 0.0
    ensures forall i :: 0 <= i < |KeyAnswers(lim, bs, calls, key)| ==> KeyAnswers(lim, bs, calls, key)[i]
    decreases |calls|
  {
    if calls != [] {
      var c, next := calls[0], Serve(lim, bs, calls[0]).0;
      if c.key == key {
        EnoughTokens(lim, bs, key, c.now);
        SpacedCallerNeverRefused(lim, next, calls[1..], key, Some(c.now));
      } else {
        SpacedCallerNeverRefused(lim, next, calls[1..], key, since);
      }
    }
  }
}
