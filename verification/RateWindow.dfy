/** The token bucket over any window of any run, evictions included. */
module RateWindow {
  import opened Options
  import opened RateLimiter

  // ---- runs in two parts ----

  function ClockAfter(calls: seq<Call>, clock: real): real
    decreases |calls|
  {
    if calls == [] then clock else ClockAfter(calls[1..], calls[0].now)
  }

  lemma {:induction false} MonotoneParts(a: seq<Call>, b: seq<Call>, clock: real)
    requires Monotone(a + b, clock)
    ensures Monotone(a, clock) && Monotone(b, ClockAfter(a, clock))
    decreases |a|
  {
    if a == [] {
      assert a + b == b;
    } else {
      assert (a + b)[0] == a[0] && (a + b)[1..] == a[1..] + b;
      MonotoneParts(a[1..], b, a[0].now);
    }
  }

  /** The bucket that is never dropped, after a run. */
  function AloneAfter(lim: Limits, st: Option<Bucket>, calls: seq<Call>, key: string): Option<Bucket>
    decreases |calls|
  {
    if calls == [] then st
    else if calls[0].key != key then AloneAfter(lim, st, calls[1..], key)
    else AloneAfter(lim, ServeAlone(lim, st, calls[0].now).0, calls[1..], key)
  }

  ghost predicate Refills(lim: Limits) {
    lim.rps > 0.0 && lim.idle >= 0.0 && Accrued(lim.idle, lim.rps) >= lim.burst
  }

  /** The two limiters still match at the end of a run. */
  lemma {:induction false} MatchesAfter(lim: Limits, bs: Buckets, st: Option<Bucket>, calls: seq<Call>, key: string,
                                        clock: real)
    requires Refills(lim) && Monotone(calls, clock) && Matches(lim, bs, st, key, clock)
    ensures Matches(lim, After(lim, bs, calls), AloneAfter(lim, st, calls, key), key, ClockAfter(calls, clock))
    decreases |calls|
  {
    if calls != [] {
      var c := calls[0];
      if c.key == key {
        OwnCall(lim, bs, st, c, clock);
        MatchesAfter(lim, Serve(lim, bs, c).0, ServeAlone(lim, st, c.now).0, calls[1..], key, c.now);
      } else {
        OtherCall(lim, bs, st, key, c, clock);
        MatchesAfter(lim, Serve(lim, bs, c).0, st, calls[1..], key, c.now);
      }
    }
  }

  // ---- the account of the bucket that is never dropped ----

  function Granted(ok: bool): real {
    if ok then 1.0 else 0.0
  }

  lemma {:induction false} AloneEntry(lim: Limits, b: Bucket, now: real)
    requires lim.rps > 0.0
    ensures var (next, ok) := ServeAlone(lim, Some(b), now);
            next.Some? && Granted(ok) + Credit(lim, next.value) <= Credit(lim, b)
  {
    OneEntry(lim, b, now);
  }

  lemma {:induction false} AloneBalance(lim: Limits, b: Bucket, calls: seq<Call>, key: string)
    requires lim.rps > 0.0
    ensures AloneAfter(lim, Some(b), calls, key).Some?
    ensures Allowed(AloneAnswers(lim, Some(b), calls, key)) as real +
              Credit(lim, AloneAfter(lim, Some(b), calls, key).value)
         <= Credit(lim, b)
    decreases |calls|
  {
    if calls != [] {
      if calls[0].key != key {
        AloneBalance(lim, b, calls[1..], key);
      } else {
        var (next, ok) := ServeAlone(lim, Some(b), calls[0].now);
        AloneEntry(lim, b, calls[0].now);
        AloneBalance(lim, next.value, calls[1..], key);
        AllowedCons(ok, AloneAnswers(lim, next, calls[1..], key));
      }
    }
  }

  lemma {:induction false} AloneFirst(lim: Limits, st: Option<Bucket>, now: real)
    requires lim.rps > 0.0
    ensures var (next, ok) := ServeAlone(lim, st, now);
            next.Some? && Granted(ok) + Credit(lim, next.value) <= lim.burst - Accrued(now, lim.rps)
  {
    CappedEntry(lim, Refilled(lim, if st.Some? then st.value else Bucket(lim.burst, now, now), now), now);
  }

  lemma {:induction false} AloneLast(lim: Limits, b: Bucket, now: real)
    requires lim.rps > 0.0 && ServeAlone(lim, Some(b), now).1
    ensures 1.0 - Accrued(now, lim.rps) <= Credit(lim, b)
  {
    AccruedDiff(b.last, now, lim.rps);
  }

  lemma {:induction false} AloneWindow(lim: Limits, st: Option<Bucket>, key: string, t0: real, mid: seq<Call>, t: real)
    requires lim.rps > 0.0
    requires var st1 := ServeAlone(lim, st, t0).0; ServeAlone(lim, AloneAfter(lim, st1, mid, key), t).1
    ensures var (st1, ok) := ServeAlone(lim, st, t0);
            Granted(ok) + Allowed(AloneAnswers(lim, st1, mid, key)) as real + 1.0 <=
              lim.burst + Accrued(t - t0, lim.rps)
  {
    var st1 := ServeAlone(lim, st, t0).0;
    AloneFirst(lim, st, t0);
    AloneBalance(lim, st1.value, mid, key);
    AloneLast(lim, AloneAfter(lim, st1, mid, key).value, t);
    AccruedDiff(t0, t, lim.rps);
  }

  // ---- any window of any run ----

  /** The calls of `first.key` let through from `first` to `last`, after a run `pre`. */
  function InWindow(lim: Limits, pre: seq<Call>, first: Call, mid: seq<Call>, last: Call): real {
    var bs := After(lim, map[], pre);
    var (bs1, ok) := Serve(lim, bs, first);
    Granted(ok) + Allowed(KeyAnswers(lim, bs1, mid, first.key)) as real +
      Granted(Serve(lim, After(lim, bs1, mid), last).1)
  }

  lemma {:induction false} MatchedWindow(lim: Limits, bs: Buckets, st: Option<Bucket>, first: Call, mid: seq<Call>,
                                         last: Call, clock: real)
    requires Refills(lim) && first.key == last.key && Matches(lim, bs, st, first.key, clock)
    requires clock <= first.now && Monotone(mid + [last], first.now)
    requires Serve(lim, After(lim, Serve(lim, bs, first).0, mid), last).1
    ensures var (bs1, ok) := Serve(lim, bs, first);
            Granted(ok) + Allowed(KeyAnswers(lim, bs1, mid, first.key)) as real + 1.0
              <= lim.burst + Accrued(last.now - first.now, lim.rps)
  {
    var key, bs1, st1 := first.key, Serve(lim, bs, first).0, ServeAlone(lim, st, first.now).0;
    OwnCall(lim, bs, st, first, clock);
    MonotoneParts(mid, [last], first.now);
    MatchedRun(lim, bs1, st1, mid, key, first.now);
    MatchesAfter(lim, bs1, st1, mid, key, first.now);
    OwnCall(lim, After(lim, bs1, mid), AloneAfter(lim, st1, mid, key), last, ClockAfter(mid, first.now));
    AloneWindow(lim, st, key, first.now, mid, last.now);
  }

  lemma {:induction false} NothingBelowOne(lim: Limits, bs: Buckets, c: Call)
    requires lim.rps > 0.0 && lim.burst < 1.0
    ensures !Serve(lim, bs, c).1
  {
  }

  /** Window bound over whole runs: when a full bucket refills within the idle window, evictions
    * buy nobody anything. With a monotone clock, the calls of a key let through from any call of
    * its own up to any later one that is let through number at most burst + rps * elapsed. */
  lemma {:induction false} WindowBoundOverRuns(lim: Limits, pre: seq<Call>, first: Call, mid: seq<Call>, last: Call,
                                               clock: real)
    requires lim.rps > 0.0 && lim.idle >= 0.0 && IdleWindowSuffices(lim) && first.key == last.key
    requires Monotone(pre + ([first] + (mid + [last])), clock)
    requires Serve(lim, After(lim, Serve(lim, After(lim, map[], pre), first).0, mid), last).1
    ensures InWindow(lim, pre, first, mid, last) <= lim.burst + Accrued(last.now - first.now, lim.rps)
  {
    var bs := After(lim, map[], pre);
    if lim.burst < 1.0 {
      NothingBelowOne(lim, After(lim, Serve(lim, bs, first).0, mid), last);
    } else {
      MonotoneParts(pre, [first] + (mid + [last]), clock);
      assert ([first] + (mid + [last]))[1..] == mid + [last];
      MatchesAfter(lim, map[], None, pre, first.key, clock);
      MatchedWindow(lim, bs, AloneAfter(lim, None, pre, first.key), first, mid, last, ClockAfter(pre, clock));
    }
  }
}
