/** The token-bucket limiter over real time: one attempt, whole sequences of attempts, and acquire. */
module TokenBuckets {
  import opened Common
  import opened Arith

  datatype Bucket = Bucket(rate: real, capacity: real, tokens: real, updated: real)

  function RealMin(a: real, b: real): real { if a <= b then a else b }

  function RealMax(a: real, b: real): real { if a >= b then a else b }

  /** A non-positive rate disables the limiter; a missing capacity defaults to the rate. */
  function Initial(rate: real, capacity: Option<real>, now: real): Bucket {
    if rate <= 0.0 then Bucket(0.0, 0.0, 0.0, now)
    else
      var cap := match capacity case None => rate case Some(c) => c;
      Bucket(rate, cap, cap, now)
  }

  function Refill(capacity: real, tokens: real, elapsed: real, rate: real): real {
    RealMin(capacity, tokens + elapsed * rate)
  }

  function Refilled(b: Bucket, now: real): real { Refill(b.capacity, b.tokens, now - b.updated, b.rate) }

  /** One pass of the acquire loop: refill, then take n tokens if they are there. */
  function Attempt(b: Bucket, now: real, n: real): (Bucket, bool) {
    var tokens := Refilled(b, now);
    if tokens >= n then (b.(tokens := tokens - n, updated := now), true)
    else (b.(tokens := tokens, updated := now), false)
  }

  /** The sleep requested after a failed attempt. */
  function Sleep(b: Bucket, n: real): real
    requires b.rate > 0.0
  {
    RealMax(0.0, (n - b.tokens) / b.rate)
  }

  // ----- sequences of attempts -----

  datatype Try = Try(now: real, n: real)

  function After(b: Bucket, tries: seq<Try>): Bucket
    decreases |tries|
  {
    if |tries| == 0 then b else
      var init, last := tries[..|tries| - 1], tries[|tries| - 1];
      Attempt(After(b, init), last.now, last.n).0
  }

  function Granted(b: Bucket, tries: seq<Try>): real
    decreases |tries|
  {
    if |tries| == 0 then 0.0 else
      var init, last := tries[..|tries| - 1], tries[|tries| - 1];
      Granted(b, init) + (if Attempt(After(b, init), last.now, last.n).1 then last.n else 0.0)
  }

  ghost predicate Monotone(tries: seq<Try>) {
    forall i, j :: 0 <= i <= j < |tries| ==> tries[i].now <= tries[j].now
  }

  lemma {:induction false} AfterKeeps(b: Bucket, tries: seq<Try>)
    ensures After(b, tries).rate == b.rate && After(b, tries).capacity == b.capacity
    ensures |tries| > 0 ==> After(b, tries).updated == tries[|tries| - 1].now
    decreases |tries|
  {
    if |tries| > 0 { AfterKeeps(b, tries[..|tries| - 1]); }
  }

  /** What an attempt hands out and what it leaves are together what the refill made available. */
  lemma AttemptBalance(b: Bucket, now: real, n: real)
    ensures var (b', ok) := Attempt(b, now, n);
      && (if ok then n else 0.0) + b'.tokens == Refilled(b, now)
      && (ok ==> b'.tokens >= 0.0)
    ensures Refilled(b, now) <= b.capacity && Refilled(b, now) <= b.tokens + (now - b.updated) * b.rate
  {
  }

  /** Time from the first to the last attempt. */
  function Span(tries: seq<Try>): real
    requires |tries| > 0
  {
    tries[|tries| - 1].now - tries[0].now
  }

  /** Tokens granted plus tokens left never exceed a full bucket plus what the rate has added since. */
  lemma {:induction false} Budget(b: Bucket, tries: seq<Try>)
    requires b.rate > 0.0 && |tries| > 0 && Monotone(tries)
    ensures Granted(b, tries) + After(b, tries).tokens <= b.capacity + Span(tries) * b.rate
    decreases |tries|
  {
    hide Attempt, Refilled;
    var n := |tries| - 1;
    var init, last := tries[..n], tries[n];
    AfterKeeps(b, init);
    AttemptBalance(After(b, init), last.now, last.n);
    if n > 0 {
      Budget(b, init);
      var step := last.now - init[n - 1].now;
      assert Span(tries) == Span(init) + step;
      TimesDistributes(Span(init), step, b.rate);
    }
  }

  /** A full bucket plus what the rate adds over a span of time. */
  function Allowance(capacity: real, span: real, rate: real): real { RealMax(0.0, capacity + span * rate) }

  /** The rate bound on any run of consecutive attempts, whatever state it starts from. */
  lemma {:induction false} RateBound(b: Bucket, tries: seq<Try>)
    requires b.rate > 0.0 && |tries| > 0 && Monotone(tries)
    ensures Granted(b, tries) <= Allowance(b.capacity, Span(tries), b.rate)
    decreases |tries|
  {
    hide Attempt, Refilled;
    var n := |tries| - 1;
    var init, last := tries[..n], tries[n];
    AttemptBalance(After(b, init), last.now, last.n);
    if Attempt(After(b, init), last.now, last.n).1 {
      Budget(b, tries);
    } else if n > 0 {
      hide Allowance;
      RateBound(b, init);
      assert Span(init) <= Span(tries);
      BoundGrows(b.capacity, Span(init), Span(tries), b.rate);
    }
  }

  lemma BoundGrows(capacity: real, x: real, y: real, rate: real)
    requires x <= y && rate >= 0.0
    ensures Allowance(capacity, x, rate) <= Allowance(capacity, y, rate)
  {
    TimesMonotone(x, y, rate);
    MaxGrows(capacity, x * rate, y * rate);
  }

  lemma MaxGrows(c: real, p: real, q: real)
    requires p <= q
    ensures RealMax(0.0, c + p) <= RealMax(0.0, c + q)
  {
  }

  lemma {:induction false} AfterConcat(b: Bucket, x: seq<Try>, y: seq<Try>)
    ensures After(b, x + y) == After(After(b, x), y)
    ensures Granted(b, x + y) == Granted(b, x) + Granted(After(b, x), y)
    decreases |y|
  {
    if |y| == 0 {
      assert x + y == x;
    } else {
      assert (x + y)[..|x + y| - 1] == x + y[..|y| - 1];
      AfterConcat(b, x, y[..|y| - 1]);
    }
  }

  lemma LaterPartMonotone(x: seq<Try>, y: seq<Try>)
    requires Monotone(x + y)
    ensures Monotone(y)
  {
    forall i, j | 0 <= i <= j < |y| ensures y[i].now <= y[j].now {
      assert y[i] == (x + y)[|x| + i] && y[j] == (x + y)[|x| + j];
    }
  }

  lemma BoundWithin(b: Bucket, window: seq<Try>, s: real, t: real)
    requires b.rate > 0.0 && Monotone(window) && s <= t
    requires forall i :: 0 <= i < |window| ==> s <= window[i].now <= t
    ensures Granted(b, window) <= Allowance(b.capacity, t - s, b.rate)
  {
    if |window| > 0 {
      hide Allowance;
      RateBound(b, window);
      assert Span(window) <= t - s;
      BoundGrows(b.capacity, Span(window), t - s, b.rate);
    }
  }

  /** In any window [s, t] of any run with a monotone clock, at most capacity + rate * (t - s) tokens
      are handed out (and none at all if that is negative). */
  lemma WindowBound(b: Bucket, earlier: seq<Try>, window: seq<Try>, s: real, t: real)
    requires b.rate > 0.0 && Monotone(earlier + window) && s <= t
    requires forall i :: 0 <= i < |window| ==> s <= window[i].now <= t
    ensures Granted(b, earlier + window) - Granted(b, earlier) <= Allowance(b.capacity, t - s, b.rate)
  {
    hide Allowance, After, Granted;
    AfterConcat(b, earlier, window);
    AfterKeeps(b, earlier);
    LaterPartMonotone(earlier, window);
    BoundWithin(After(b, earlier), window, s, t);
  }

  // ----- acquire -----

  datatype Outcome = Granted(used: nat) | StillWaiting

  function Later(result: (Bucket, Outcome), passes: nat): (Bucket, Outcome) {
    (result.0, if result.1.Granted? then Outcome.Granted(result.1.used + passes) else StillWaiting)
  }

  /** The acquire loop on a list of clock readings: which reading, if any, lets it return. */
  function AcquireOn(b: Bucket, n: real, readings: seq<real>): (Bucket, Outcome)
    decreases |readings|
  {
    if b.rate <= 0.0 then (b, Outcome.Granted(0))
    else if |readings| == 0 then (b, StillWaiting)
    else
      var (b', ok) := Attempt(b, readings[0], n);
      if ok then (b', Outcome.Granted(1))
      else Later(AcquireOn(b', n, readings[1..]), 1)
  }

  /** The sleeps the loop asks for between those readings. */
  function Waits(b: Bucket, n: real, readings: seq<real>): seq<real>
    decreases |readings|
  {
    if b.rate <= 0.0 || |readings| == 0 then []
    else
      var (b', ok) := Attempt(b, readings[0], n);
      if ok then [] else [Sleep(b', n)] + Waits(b', n, readings[1..])
  }

  lemma WaitsStep(b: Bucket, n: real, readings: seq<real>, before: seq<real>)
    requires b.rate > 0.0 && |readings| > 0
    ensures var (b', ok) := Attempt(b, readings[0], n);
      before + Waits(b, n, readings) == if ok then before else before + [Sleep(b', n)] + Waits(b', n, readings[1..])
  {
  }

  lemma WaitsEnd(b: Bucket, n: real, readings: seq<real>)
    ensures b.rate <= 0.0 || |readings| == 0 ==> Waits(b, n, readings) == []
    ensures [] + Waits(b, n, readings) == Waits(b, n, readings)
  {
  }

  /** One pass of the loop. */
  lemma AcquireStep(b: Bucket, n: real, readings: seq<real>, passes: nat)
    requires b.rate > 0.0 && |readings| > 0
    ensures var (b', ok) := Attempt(b, readings[0], n);
      Later(AcquireOn(b, n, readings), passes) ==
        if ok then (b', Outcome.Granted(passes + 1)) else Later(AcquireOn(b', n, readings[1..]), passes + 1)
  {
  }

  lemma AcquireEnds(b: Bucket, n: real, readings: seq<real>)
    ensures b.rate <= 0.0 ==> AcquireOn(b, n, readings) == (b, Outcome.Granted(0))
    ensures b.rate > 0.0 && |readings| == 0 ==> AcquireOn(b, n, readings) == (b, StillWaiting)
    ensures Later(AcquireOn(b, n, readings), 0) == AcquireOn(b, n, readings)
    ensures forall passes: nat :: Later((b, StillWaiting), passes) == (b, StillWaiting)
  {
  }

  /** If n fits the bucket and the sleep lasts at least as long as asked, acquire returns after at most
      one sleep. */
  lemma OneSleepSuffices(b: Bucket, n: real, t0: real, t1: real)
    requires b.rate > 0.0 && n <= b.capacity
    requires var (b', ok) := Attempt(b, t0, n); !ok ==> t1 >= t0 + Sleep(b', n)
    ensures AcquireOn(b, n, [t0, t1]).1.Granted?
  {
    var (b', ok) := Attempt(b, t0, n);
    if !ok {
      var missing := n - b'.tokens;
      assert missing / b.rate * b.rate == missing;
      TimesMonotone(missing / b.rate, t1 - t0, b.rate);
      assert Refilled(b', t1) >= n;
      assert [t0, t1][1..] == [t1];
    }
  }

  lemma SleepProduct(missing: real, rate: real)
    requires rate > 0.0
    ensures missing / rate * rate == missing
    ensures missing > 0.0 ==> missing / rate > 0.0
  {
  }

  lemma TimesLess(x: real, y: real, rate: real)
    requires x < y && rate > 0.0
    ensures x * rate < y * rate
  {
    assert (y - x) * rate > 0.0;
    assert (y - x) * rate == y * rate - x * rate;
  }

  /** Before the sleep is over the bucket does not cover the request. */
  lemma TooSoon(b: Bucket, n: real, now: real, sleep: real)
    requires b.rate > 0.0 && sleep * b.rate == n - b.tokens && now - b.updated < sleep
    ensures !Attempt(b, now, n).1
  {
    TimesLess(now - b.updated, sleep, b.rate);
  }

  /** The sleep is exact: after a failed attempt at a request that fits the capacity, the next attempt succeeds
      if and only if at least the requested time has passed. */
  lemma SleepExact(b: Bucket, n: real, t0: real, t1: real)
    requires b.rate > 0.0 && n <= b.capacity && !Attempt(b, t0, n).1
    ensures Sleep(Attempt(b, t0, n).0, n) > 0.0
    ensures AcquireOn(b, n, [t0, t1]).1.Granted? <==> t1 - t0 >= Sleep(Attempt(b, t0, n).0, n)
  {
    var b' := Attempt(b, t0, n).0;
    assert b'.rate == b.rate && b'.updated == t0 && b'.tokens < n;
    SleepProduct(n - b'.tokens, b.rate);
    var sleep := Sleep(b', n);
    assert sleep == (n - b'.tokens) / b.rate;
    hide Attempt, Sleep, AcquireOn;
    if t1 - t0 >= sleep {
      OneSleepSuffices(b, n, t0, t1);
    } else {
      TooSoon(b', n, t1, sleep);
      SecondAttempt(b, n, t0, t1);
    }
  }

  lemma SecondAttempt(b: Bucket, n: real, t0: real, t1: real)
    requires b.rate > 0.0 && !Attempt(b, t0, n).1
    ensures AcquireOn(b, n, [t0, t1]).1.Granted? <==> Attempt(Attempt(b, t0, n).0, t1, n).1
  {
    hide Refill;
    var b' := Attempt(b, t0, n).0;
    assert [t0, t1][1..] == [t1] && [t1][1..] == [];
    assert AcquireOn(b', n, [t1]).1.Granted? <==> Attempt(b', t1, n).1;
  }

  /** A request larger than the capacity is never granted, however long it waits. */
  lemma {:induction false} TooLargeNeverGranted(b: Bucket, n: real, readings: seq<real>)
    requires b.rate > 0.0 && n > b.capacity
    ensures AcquireOn(b, n, readings).1.StillWaiting?
    decreases |readings|
  {
    if |readings| > 0 { TooLargeNeverGranted(Attempt(b, readings[0], n).0, n, readings[1..]); }
  }

  /** So on an enabled limiter acquire can return at all exactly when the request fits the capacity. */
  lemma AcquireTerminates(b: Bucket, n: real)
    requires b.rate > 0.0
    ensures (exists readings :: AcquireOn(b, n, readings).1.Granted?) <==> n <= b.capacity
  {
    if n <= b.capacity {
      var (b', ok) := Attempt(b, b.updated, n);
      var t1 := b.updated + Sleep(b', n);
      OneSleepSuffices(b, n, b.updated, t1);
    } else {
      forall readings ensures AcquireOn(b, n, readings).1.StillWaiting? { TooLargeNeverGranted(b, n, readings); }
    }
  }

  // ----- what the limiter starts with, how it fills, and what it waits for -----

  /** A positive rate starts with a full bucket, of that rate's size unless a capacity is given; any other rate
      disables the limiter: every acquire returns at once and takes nothing. */
  lemma InitialMeaning(rate: real, capacity: Option<real>, now: real, n: real, readings: seq<real>)
    ensures var b := Initial(rate, capacity, now);
      && b.updated == now && b.tokens == b.capacity
      && (rate > 0.0 ==> b.rate == rate && b.capacity == if capacity.Some? then capacity.value else rate)
      && (rate <= 0.0 ==> b.rate == 0.0 && b.capacity == 0.0 && AcquireOn(b, n, readings) == (b, Outcome.Granted(0)))
  {
  }

  /** Before the request is looked at, the bucket gains the rate times the time passed, cut off at the capacity;
      the request is granted exactly when that covers it, and then costs exactly n. */
  lemma AttemptMeaning(b: Bucket, now: real, n: real)
    ensures var (b', ok) := Attempt(b, now, n);
      var available := b.tokens + (now - b.updated) * b.rate;
      && b'.rate == b.rate && b'.capacity == b.capacity && b'.updated == now
      && (ok <==> n <= available && n <= b.capacity)
      && (available <= b.capacity ==> b'.tokens == available - (if ok then n else 0.0))
      && (available > b.capacity ==> b'.tokens == b.capacity - (if ok then n else 0.0))
  {
  }

  lemma CutOffTwice(capacity: real, tokens: real, p: real, q: real)
    requires q >= 0.0
    ensures RealMin(capacity, RealMin(capacity, tokens + p) + q) == RealMin(capacity, tokens + (p + q))
  {
  }

  /** Looking in between loses nothing: two refills in a row are one. */
  lemma RefillsCompose(b: Bucket, t1: real, t2: real)
    requires b.rate >= 0.0 && t1 <= t2
    ensures Refilled(b.(tokens := Refilled(b, t1), updated := t1), t2) == Refilled(b, t2)
  {
    var x, y := t1 - b.updated, t2 - t1;
    assert x + y == t2 - b.updated;
    hide Times, RealMin;
    TimesDistributes(x, y, b.rate);
    TimesNonNegative(y, b.rate);
    RefillIsCutOff(b, t1);
    RefillIsCutOff(b, t2);
    RefillIsCutOff(b.(tokens := Refilled(b, t1), updated := t1), t2);
    CutOffTwice(b.capacity, b.tokens, Times(x, b.rate), Times(y, b.rate));
  }

  lemma RefillIsCutOff(b: Bucket, now: real)
    ensures Refilled(b, now) == RealMin(b.capacity, b.tokens + Times(now - b.updated, b.rate))
  {
  }

  lemma TimesNonNegative(x: real, rate: real)
    requires x >= 0.0 && rate >= 0.0
    ensures Times(x, rate) >= 0.0
  {
  }

  /** What is missing, over the rate. */
  predicate IsSleep(b: Bucket, n: real, sleep: real) {
    b.rate > 0.0 && sleep > 0.0 && sleep == (n - b.tokens) / b.rate
  }

  /** Each sleep is the one to ask for after the pass of the same place. */
  ghost predicate SleepsFor(b: Bucket, n: real, passes: seq<Try>, sleeps: seq<real>) {
    && |sleeps| <= |passes|
    && forall i :: 0 <= i < |sleeps| ==> IsSleep(After(b, passes[..i + 1]), n, sleeps[i])
  }

  lemma SleepsForLater(b: Bucket, n: real, first: Try, rest: seq<Try>, sleep: real, sleeps: seq<real>)
    requires IsSleep(After(b, [first]), n, sleep)
    requires SleepsFor(After(b, [first]), n, rest, sleeps)
    ensures SleepsFor(b, n, [first] + rest, [sleep] + sleeps)
  {
    hide IsSleep, After;
    var p, w := [first] + rest, [sleep] + sleeps;
    forall i | 0 <= i < |w| ensures IsSleep(After(b, p[..i + 1]), n, w[i]) {
      if i == 0 {
        assert p[..1] == [first];
      } else {
        assert p[..i + 1] == [first] + rest[..i];
        AfterConcat(b, [first], rest[..i]);
      }
    }
  }

  lemma FailedPassSleeps(b: Bucket, now: real, n: real)
    requires b.rate > 0.0 && !Attempt(b, now, n).1
    ensures IsSleep(Attempt(b, now, n).0, n, Sleep(Attempt(b, now, n).0, n))
  {
    SleepProduct(n - Refilled(b, now), b.rate);
  }

  /** The sleeps of an acquire: one for each pass that failed, each the missing tokens over the rate. */
  lemma {:induction false} WaitsMeaning(b: Bucket, n: real, readings: seq<real>)
    requires b.rate > 0.0
    ensures var p, w, r := Passes(b, n, readings), Waits(b, n, readings), AcquireOn(b, n, readings).1;
      |w| == (if r.Granted? then |p| - 1 else |p|) && SleepsFor(b, n, p, w)
    decreases |readings|
  {
    if |readings| > 0 {
      var (b', ok) := Attempt(b, readings[0], n);
      OnePass(b, Try(readings[0], n));
      if !ok {
        FailedPassSleeps(b, readings[0], n);
        hide SleepsFor, IsSleep, Attempt;
        WaitsMeaning(b', n, readings[1..]);
        SleepsForLater(b, n, Try(readings[0], n), Passes(b', n, readings[1..]), Sleep(b', n), Waits(b', n,
          readings[1..]));
      }
    }
  }

  // ----- the rate bound on sequences of acquires -----

  /** The passes one acquire makes on the readings it gets. */
  function Passes(b: Bucket, n: real, readings: seq<real>): seq<Try>
    decreases |readings|
  {
    if b.rate <= 0.0 || |readings| == 0 then []
    else
      var (b', ok) := Attempt(b, readings[0], n);
      [Try(readings[0], n)] + (if ok then [] else Passes(b', n, readings[1..]))
  }

  lemma OnePass(b: Bucket, t: Try)
    ensures After(b, [t]) == Attempt(b, t.now, t.n).0
    ensures Granted(b, [t]) == if Attempt(b, t.now, t.n).1 then t.n else 0.0
  {
    assert [t][..0] == [];
  }

  /** An acquire is a run of attempts: it leaves the bucket they leave, it returns exactly when the last of
      them is granted, and then n tokens in all were handed out. */
  lemma {:induction false} AcquireIsPasses(b: Bucket, n: real, readings: seq<real>)
    requires b.rate > 0.0
    ensures var p, r := Passes(b, n, readings), AcquireOn(b, n, readings);
      && r.0 == After(b, p)
      && Granted(b, p) == (if r.1.Granted? then n else 0.0)
      && (r.1.Granted? ==> |p| == r.1.used)
      && forall i :: 0 <= i < |p| ==> i < |readings| && p[i] == Try(readings[i], n)
    decreases |readings|
  {
    if |readings| > 0 {
      var (b', ok) := Attempt(b, readings[0], n);
      var first, rest := Try(readings[0], n), Passes(b', n, readings[1..]);
      OnePass(b, first);
      if !ok {
        AcquireIsPasses(b', n, readings[1..]);
        AfterConcat(b, [first], rest);
      }
    }
  }

  /** One acquire: how many tokens, and the clock readings it gets. */
  datatype Request = Request(n: real, readings: seq<real>)

  /** A limiter that serves acquires one after the other, as its lock makes it: the bucket left, the tokens
      handed out, and all the passes made. */
  datatype Served = Served(bucket: Bucket, tokens: real, passes: seq<Try>)

  function Serve(b: Bucket, requests: seq<Request>): Served
    decreases |requests|
  {
    if |requests| == 0 then Served(b, 0.0, []) else
      var before, q := Serve(b, requests[..|requests| - 1]), requests[|requests| - 1];
      var (b', outcome) := AcquireOn(before.bucket, q.n, q.readings);
      Served(b', before.tokens + (if outcome.Granted? then q.n else 0.0),
             before.passes + Passes(before.bucket, q.n, q.readings))
  }

  lemma {:induction false} ServeIsPasses(b: Bucket, requests: seq<Request>)
    requires b.rate > 0.0
    ensures var s := Serve(b, requests);
      s.bucket == After(b, s.passes) && s.tokens == Granted(b, s.passes)
    decreases |requests|
  {
    if |requests| > 0 {
      hide After, Granted, AcquireOn, Passes;
      ServeEmpty(b);
      var before, q := Serve(b, requests[..|requests| - 1]), requests[|requests| - 1];
      ServeIsPasses(b, requests[..|requests| - 1]);
      AfterKeeps(b, before.passes);
      AcquireIsPasses(before.bucket, q.n, q.readings);
      AfterConcat(b, before.passes, Passes(before.bucket, q.n, q.readings));
    }
  }

  lemma ServeEmpty(b: Bucket)
    ensures After(b, []) == b && Granted(b, []) == 0.0
  {
  }

  lemma SliceInWindow(passes: seq<Try>, i: nat, j: nat, s: real, t: real)
    requires i <= j <= |passes| && Monotone(passes)
    requires forall k :: i <= k < j ==> s <= passes[k].now <= t
    ensures passes[..i] + passes[i..j] == passes[..j]
    ensures Monotone(passes[..i] + passes[i..j])
    ensures forall k :: 0 <= k < |passes[i..j]| ==> s <= passes[i..j][k].now <= t
  {
    assert passes[..i] + passes[i..j] == passes[..j];
  }

  /** The rate bound on any sequence of acquires, granted or still waiting: the passes whose clock readings
      fall in [s, t], wherever the window cuts the sequence, hand out at most capacity + rate * (t - s). */
  lemma AcquiresBound(b: Bucket, requests: seq<Request>, i: nat, j: nat, s: real, t: real)
    requires b.rate > 0.0 && s <= t && i <= j <= |Serve(b, requests).passes|
    requires Monotone(Serve(b, requests).passes)
    requires forall k :: i <= k < j ==> s <= Serve(b, requests).passes[k].now <= t
    ensures var passes := Serve(b, requests).passes;
      && Serve(b, requests).tokens == Granted(b, passes)
      && Granted(b, passes[..j]) - Granted(b, passes[..i]) <= Allowance(b.capacity, t - s, b.rate)
  {
    ServeIsPasses(b, requests);
    hide Serve, Granted, After, Allowance, Monotone, Passes;
    var passes := Serve(b, requests).passes;
    SliceInWindow(passes, i, j, s, t);
    WindowBound(b, passes[..i], passes[i..j], s, t);
  }

  /** The limiter itself. The clock is not part of the object: each pass of the loop is handed the
      reading it would have taken, and the method reports the sleeps it asked for. */
  class TokenBucket {
    var rate: real
    var capacity: real
    var tokens: real
    var updated: real

    ghost function State(): Bucket
      reads this
    {
      Bucket(rate, capacity, tokens, updated)
    }

    constructor (ratePerSecond: real, cap: Option<real>, now: real)
      ensures State() == Initial(ratePerSecond, cap, now)
    {
      var r, c := ratePerSecond, cap;
      if r <= 0.0 {
        r := 0.0;
        c := Some(0.0);
      }
      if c.None? { c := Some(r); }
      rate, capacity, tokens, updated := r, c.value, c.value, now;
    }

    method Acquire(n: real, readings: seq<real>) returns (outcome: Outcome, sleeps: seq<real>)
      modifies this
      ensures (State(), outcome) == AcquireOn(old(State()), n, readings)
      ensures sleeps == Waits(old(State()), n, readings)
      ensures outcome.Granted? && old(rate) > 0.0 ==> |sleeps| == outcome.used - 1
    {
      hide AcquireOn, Later, Refill, Waits;
      sleeps := [];
      WaitsEnd(State(), n, readings);
      AcquireEnds(State(), n, readings);
      if rate <= 0.0 { return Outcome.Granted(0), sleeps; }
      var i := 0;
      assert readings[0..] == readings;
      while i < |readings|
        invariant 0 <= i <= |readings| && |sleeps| == i
        invariant rate == old(rate) > 0.0
        invariant sleeps + Waits(State(), n, readings[i..]) == Waits(old(State()), n, readings)
        invariant AcquireOn(old(State()), n, readings) == Later(AcquireOn(State(), n, readings[i..]), i)
      {
        var now := readings[i];
        ghost var before := State();
        assert readings[i..][0] == now && readings[i..][1..] == readings[i + 1..];
        AcquireStep(before, n, readings[i..], i);
        WaitsStep(before, n, readings[i..], sleeps);
        tokens := Refill(capacity, tokens, now - updated, rate);
        updated := now;
        if tokens >= n {
          tokens := tokens - n;
          assert (State(), true) == Attempt(before, now, n);
          return Outcome.Granted(i + 1), sleeps;
        }
        assert State() == Attempt(before, now, n).0;
        var missing := n - tokens;
        sleeps := sleeps + [RealMax(0.0, missing / rate)];
        i := i + 1;
      }
      outcome := StillWaiting;
      AcquireEnds(State(), n, readings[i..]);
      WaitsEnd(State(), n, readings[i..]);
    }
  }
}
