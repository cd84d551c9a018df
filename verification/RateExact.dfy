/** Exactly which calls the token bucket lets through, in terms of the times of the calls alone. */
module RateExact {
  import opened Options
  import opened RateLimiter

  /** The times at which `key` calls. */
  function Turns(calls: seq<Call>, key: string): seq<real>
    decreases |calls|
  {
    if calls == [] then []
    else (if calls[0].key == key then [calls[0].now] else []) + Turns(calls[1..], key)
  }

  /** One more call at turn `n` keeps the window from turn `i` within burst + rps * length. */
  ghost predicate Fits(lim: Limits, turns: seq<real>, answers: seq<bool>, i: nat, n: nat)
    requires i <= n < |turns| && n <= |answers|
  {
    Allowed(answers[i..n]) as real + 1.0 <= lim.burst + lim.rps * (turns[n] - turns[i])
  }

  ghost predicate FitsEveryWindow(lim: Limits, turns: seq<real>, answers: seq<bool>, n: nat)
    requires n < |turns| && n <= |answers|
  {
    forall i :: 0 <= i <= n ==> Fits(lim, turns, answers, i, n)
  }

  /** One more call at turn `n` is paid for by the tokens `b` held to begin with. */
  ghost predicate FitsFrom(lim: Limits, b: Bucket, turns: seq<real>, answers: seq<bool>, n: nat)
    requires n < |turns| && n <= |answers|
  {
    Allowed(answers[..n]) as real + 1.0 <= b.tokens + lim.rps * (turns[n] - b.last)
  }

  lemma {:induction false} InOtherWords(elapsed: real, rps: real)
    ensures Accrued(elapsed, rps) == rps * elapsed
  {
  }

  lemma {:induction false} AnsweredTurns(lim: Limits, st: Option<Bucket>, calls: seq<Call>, key: string)
    ensures |AloneAnswers(lim, st, calls, key)| == |Turns(calls, key)|
    decreases |calls|
  {
    if calls != [] {
      if calls[0].key == key {
        AnsweredTurns(lim, ServeAlone(lim, st, calls[0].now).0, calls[1..], key);
      } else {
        AnsweredTurns(lim, st, calls[1..], key);
      }
    }
  }

  // ---- the bucket that is never dropped ----

  /** The first call of a bucket: nothing has been let through before it. */
  lemma {:induction false} FirstTurn(lim: Limits, b: Bucket, turns: seq<real>, answers: seq<bool>)
    requires turns != []
    ensures Refilled(lim, b, turns[0]) >= 1.0 <==>
            FitsFrom(lim, b, turns, answers, 0) && FitsEveryWindow(lim, turns, answers, 0)
  {
    InOtherWords(turns[0] - b.last, lim.rps);
    EmptyWindow(lim, turns, answers, 0);
    assert answers[..0] == [];
  }

  lemma {:induction false} EmptyWindow(lim: Limits, turns: seq<real>, answers: seq<bool>, n: nat)
    requires n < |turns| && n <= |answers|
    ensures Fits(lim, turns, answers, n, n) <==> 1.0 <= lim.burst
  {
    assert answers[n..n] == [];
    assert turns[n] - turns[n] == 0.0;
    NoTime(lim.rps);
  }

  lemma {:induction false} NoTime(rps: real)
    ensures rps * 0.0 == 0.0
  {
  }

  lemma {:induction false} SpentThenEarned(lim: Limits, b: Bucket, t0: real, t: real, let: real, used: real)
    requires lim.rps > 0.0 && let == (if Refilled(lim, b, t0) >= 1.0 then 1.0 else 0.0)
    ensures used <= Spend(Refilled(lim, b, t0), t0).tokens + lim.rps * (t - t0) <==>
            used + let <= lim.burst + lim.rps * (t - t0) && used + let <= b.tokens + lim.rps * (t - b.last)
  {
    InOtherWords(t0 - b.last, lim.rps);
    Spread(lim.rps, b.last, t0, t);
  }

  lemma {:induction false} Spread(rps: real, a: real, b: real, c: real)
    ensures rps * (b - a) + rps * (c - b) == rps * (c - a)
  {
    assert (b - a) + (c - b) == c - a;
    Distribute(rps, b - a, c - b);
  }

  lemma {:induction false} Distribute(rps: real, x: real, y: real)
    ensures rps * x + rps * y == rps * (x + y)
  {
  }

  /** The windows of a run whose first call is split off. */
  lemma {:induction false} LaterTurn(lim: Limits, b: Bucket, turns: seq<real>, answers: seq<bool>, n: nat)
    requires lim.rps > 0.0 && 0 < n < |turns| && n <= |answers|
    requires answers[0] == (Refilled(lim, b, turns[0]) >= 1.0)
    ensures var next := Spend(Refilled(lim, b, turns[0]), turns[0]);
            FitsFrom(lim, next, turns[1..], answers[1..], n - 1) &&
              FitsEveryWindow(lim, turns[1..], answers[1..], n - 1) <==>
            FitsFrom(lim, b, turns, answers, n) && FitsEveryWindow(lim, turns, answers, n)
  {
    FirstPaid(lim, b, turns, answers, n);
    WindowsShift(lim, turns, answers, n);
  }

  lemma {:induction false} FirstPaid(lim: Limits, b: Bucket, turns: seq<real>, answers: seq<bool>, n: nat)
    requires lim.rps > 0.0 && 0 < n < |turns| && n <= |answers|
    requires answers[0] == (Refilled(lim, b, turns[0]) >= 1.0)
    ensures var next := Spend(Refilled(lim, b, turns[0]), turns[0]);
            FitsFrom(lim, next, turns[1..], answers[1..], n - 1) <==>
            FitsFrom(lim, b, turns, answers, n) && Fits(lim, turns, answers, 0, n)
  {
    var rest := answers[1..][..n - 1];
    assert answers[..n] == [answers[0]] + rest && answers[0..n] == answers[..n];
    AllowedCons(answers[0], rest);
    SpentThenEarned(lim, b, turns[0], turns[n], if answers[0] then 1.0 else 0.0, Allowed(rest) as real + 1.0);
  }

  lemma {:induction false} WindowShift(lim: Limits, turns: seq<real>, answers: seq<bool>, i: nat, n: nat)
    requires 0 < i <= n < |turns| && n <= |answers|
    ensures Fits(lim, turns, answers, i, n) <==> Fits(lim, turns[1..], answers[1..], i - 1, n - 1)
  {
    SliceShift(answers, i, n);
  }

  lemma {:induction false} SliceShift(answers: seq<bool>, i: nat, n: nat)
    requires 0 < i <= n <= |answers|
    ensures answers[i..n] == answers[1..][i - 1..n - 1]
  {
    var a, b := answers[i..n], answers[1..][i - 1..n - 1];
    forall k | 0 <= k < n - i ensures a[k] == b[k] {
    }
  }

  lemma {:induction false} WindowsShift(lim: Limits, turns: seq<real>, answers: seq<bool>, n: nat)
    requires 0 < n < |turns| && n <= |answers|
    ensures FitsEveryWindow(lim, turns, answers, n) <==>
            Fits(lim, turns, answers, 0, n) && FitsEveryWindow(lim, turns[1..], answers[1..], n - 1)
  {
    forall i | 0 < i <= n
      ensures Fits(lim, turns, answers, i, n) <==> Fits(lim, turns[1..], answers[1..], i - 1, n - 1)
    {
      WindowShift(lim, turns, answers, i, n);
    }
    var turns', answers', m := turns[1..], answers[1..], n - 1;
    if FitsEveryWindow(lim, turns, answers, n) {
      forall i | 0 <= i <= m ensures Fits(lim, turns', answers', i, m) {
        assert Fits(lim, turns, answers, i + 1, n);
      }
    }
  }

  /** A bucket that holds tokens already. */
  lemma {:induction false} HeldExactly(lim: Limits, b: Bucket, calls: seq<Call>, key: string, n: nat)
    requires lim.rps > 0.0 && n < |Turns(calls, key)|
    ensures var answers, turns := AloneAnswers(lim, Some(b), calls, key), Turns(calls, key);
            && |answers| == |turns|
            && (answers[n] <==> FitsFrom(lim, b, turns, answers, n) && FitsEveryWindow(lim, turns, answers, n))
    decreases |calls|
  {
    var answers, turns := AloneAnswers(lim, Some(b), calls, key), Turns(calls, key);
    AnsweredTurns(lim, Some(b), calls, key);
    if calls[0].key != key {
      assert turns == Turns(calls[1..], key);
      HeldExactly(lim, b, calls[1..], key, n);
    } else {
      var t0 := calls[0].now;
      var next := Spend(Refilled(lim, b, t0), t0);
      assert turns[1..] == Turns(calls[1..], key);
      assert answers[1..] == AloneAnswers(lim, Some(next), calls[1..], key);
      if n == 0 {
        FirstTurn(lim, b, turns, answers);
      } else {
        HeldExactly(lim, next, calls[1..], key, n - 1);
        LaterTurn(lim, b, turns, answers, n);
      }
    }
  }

  /** A key that has not called yet: its bucket will be full at its first call. */
  lemma {:induction false} AloneExactly(lim: Limits, calls: seq<Call>, key: string, n: nat)
    requires lim.rps > 0.0 && n < |Turns(calls, key)|
    ensures var answers, turns := AloneAnswers(lim, None, calls, key), Turns(calls, key);
            |answers| == |turns| && (answers[n] <==> FitsEveryWindow(lim, turns, answers, n))
    decreases |calls|
  {
    if calls[0].key != key {
      assert Turns(calls, key) == Turns(calls[1..], key);
      AloneExactly(lim, calls[1..], key, n);
    } else {
      var t0 := calls[0].now;
      var b := Bucket(lim.burst, t0, t0);
      assert AloneAnswers(lim, None, calls, key) == AloneAnswers(lim, Some(b), calls, key);
      HeldExactly(lim, b, calls, key, n);
      var answers, turns := AloneAnswers(lim, None, calls, key), Turns(calls, key);
      assert answers[0..n] == answers[..n] && turns[0] == t0;
      assert FitsEveryWindow(lim, turns, answers, n) ==> Fits(lim, turns, answers, 0, n);
    }
  }

  // ---- the limiter itself ----

  /** The limiter lets a call through exactly when every window that ends with it stays within
    * burst + rps * length: it refuses nothing it could have allowed. */
  lemma {:induction false} AllowedExactly(lim: Limits, calls: seq<Call>, key: string, clock: real, n: nat)
    requires lim.rps > 0.0 && lim.idle >= 0.0 && (lim.burst < 1.0 || lim.rps * lim.idle >= lim.burst)
    requires Monotone(calls, clock) && n < |Turns(calls, key)|
    ensures var answers, turns := KeyAnswers(lim, map[], calls, key), Turns(calls, key);
            |answers| == |turns| && (answers[n] <==> FitsEveryWindow(lim, turns, answers, n))
  {
    InOtherWords(lim.idle, lim.rps);
    EvictionInvisibleExactly(lim);
    assert KeyAnswers(lim, map[], calls, key) == AloneAnswers(lim, None, calls, key);
    AloneExactly(lim, calls, key, n);
  }

  // ---- a bucket in use, whatever the clock does ----

  lemma {:induction false} RefusedEntry(lim: Limits, b: Bucket, now: real)
    requires lim.burst >= 1.0 && Refilled(lim, b, now) < 1.0
    ensures Credit(lim, Spend(Refilled(lim, b, now), now)) == Credit(lim, b)
  {
    AccruedDiff(b.last, now, lim.rps);
  }

  lemma {:induction false} CreditKept(lim: Limits, bs: Buckets, calls: seq<Call>, key: string)
    requires lim.rps > 0.0 && lim.burst >= 1.0 && Lives(lim, bs, calls, key)
    requires Allowed(KeyAnswers(lim, bs, calls, key)) == 0
    ensures key in After(lim, bs, calls) && Credit(lim, After(lim, bs, calls)[key]) == Credit(lim, bs[key])
    decreases |calls|
  {
    if calls != [] {
      var c, next := calls[0], Serve(lim, bs, calls[0]).0;
      var rest := KeyAnswers(lim, next, calls[1..], key);
      if c.key == key {
        AllowedCons(Serve(lim, bs, c).1, rest);
        RefusedEntry(lim, bs[key], c.now);
      } else {
        assert [] + rest == rest;
        OtherEntry(lim, bs, c, key);
      }
      CreditKept(lim, next, calls[1..], key);
    }
  }

  /** By `now` the bucket has made up one token. */
  ghost predicate MadeUp(lim: Limits, b: Bucket, now: real) {
    b.tokens + lim.rps * (now - b.last) >= 1.0
  }

  lemma {:induction false} MadeUpAccrued(lim: Limits, b: Bucket, now: real)
    ensures MadeUp(lim, b, now) <==> b.tokens + Accrued(now - b.last, lim.rps) >= 1.0
  {
    InOtherWords(now - b.last, lim.rps);
  }

  lemma {:induction false} CreditAccrued(lim: Limits, b: Bucket, now: real)
    ensures b.tokens + Accrued(now - b.last, lim.rps) == Credit(lim, b) + Accrued(now, lim.rps)
  {
    AccruedDiff(b.last, now, lim.rps);
  }

  lemma {:induction false} CreditDecides(lim: Limits, bs: Buckets, c: Call, b: Bucket)
    requires lim.rps > 0.0 && lim.burst >= 1.0 && c.key in bs && Credit(lim, bs[c.key]) == Credit(lim, b)
    ensures Serve(lim, bs, c).1 <==> MadeUp(lim, b, c.now)
  {
    CreditAccrued(lim, bs[c.key], c.now);
    CreditAccrued(lim, b, c.now);
    MadeUpAccrued(lim, b, c.now);
  }

  predicate NoneLetThrough(answers: seq<bool>) {
    forall i :: 0 <= i < |answers| ==> !answers[i]
  }

  /** Refused calls cost nothing: after any number of them, the next call of the key is let through
    * exactly when the tokens left by its last allowed call and the time since have made up one. */
  lemma {:induction false} RefusalsCostNothing(lim: Limits, bs: Buckets, refused: seq<Call>, last: Call)
    requires lim.rps > 0.0 && lim.burst >= 1.0 && Lives(lim, bs, refused, last.key)
    requires NoneLetThrough(KeyAnswers(lim, bs, refused, last.key))
    ensures Serve(lim, After(lim, bs, refused), last).1 <==> MadeUp(lim, bs[last.key], last.now)
  {
    NoneAllowed(KeyAnswers(lim, bs, refused, last.key));
    CreditKept(lim, bs, refused, last.key);
    CreditDecides(lim, After(lim, bs, refused), last, bs[last.key]);
  }

  lemma {:induction false} NoneAllowed(answers: seq<bool>)
    requires NoneLetThrough(answers)
    ensures Allowed(answers) == 0
  {
    if answers != [] {
      NoneAllowed(answers[1..]);
    }
  }
}
