/** Retry with exponential backoff and full jitter (packages/shared/src/retry.ts). */
module Retry {
  import opened Vocabulary

  datatype Outcome = SUCCEEDED | FAILED | TIMEOUT

  datatype AttemptInfo = AttemptInfo(attempt: nat, outcome: Outcome, willRetry: bool)

  datatype Result<T, E> = Value(value: T) | Error(error: E)

  /** How withRetry settles. `Threw(None)` is `throw lastError` before any attempt. */
  datatype Settled<T, E> = Returned(value: T) | Threw(error: Option<E>)

  function Pow2(n: nat): (p: nat)
    ensures p >= 1
  {
    if n == 0 then 1 else 2 * Pow2(n - 1)
  }

  function Min(a: nat, b: nat): nat { if a < b then a else b }

  /** The exponential cap on the wait after an attempt. */
  function Cap(attempt: nat, base: nat, max: nat): nat requires attempt >= 1 {
    Min(max, base * Pow2(attempt - 1))
  }

  /** The cap is the base at first and doubles from then on, up to the maximum. */
  lemma CapDoubles(attempt: nat, base: nat, max: nat)
    requires attempt >= 1
    ensures Cap(1, base, max) == if base <= max then base else max
    ensures var twice := 2 * Cap(attempt, base, max);
      Cap(attempt + 1, base, max) == if twice <= max then twice else max
  {
    var wait := base * Pow2(attempt - 1);
    assert base * Pow2(attempt) == 2 * wait;
  }

  /** Full jitter: the random share of the cap, rounded down. Math.random() stays below 1; an
      injected source may return 1. */
  function BackoffDelay(attempt: nat, base: nat, max: nat, random: real): (delay: nat)
    requires attempt >= 1 && 0.0 <= random <= 1.0
    ensures delay <= Cap(attempt, base, max)
    ensures random == 1.0 ==> delay == Cap(attempt, base, max)
    ensures random == 0.0 ==> delay == 0
    ensures var share := random * Cap(attempt, base, max) as real; delay as real <= share < delay as real + 1.0
  {
    JitterFloor(random, Cap(attempt, base, max));
    (random * Cap(attempt, base, max) as real).Floor
  }

  lemma JitterFloor(random: real, cap: nat)
    requires 0.0 <= random <= 1.0
    ensures 0 <= (random * cap as real).Floor <= cap
    ensures random == 1.0 ==> (random * cap as real).Floor == cap
    ensures random == 0.0 ==> (random * cap as real).Floor == 0
  {
    var x := Jitter(random, cap as real);
    FloorBounds(x, cap);
  }

  lemma Jitter(random: real, cap: real) returns (x: real)
    requires 0.0 <= random <= 1.0 && cap >= 0.0
    ensures x == random * cap && 0.0 <= x <= cap
    ensures random == 1.0 ==> x == cap
    ensures random == 0.0 ==> x == 0.0
  {
    x := random * cap;
    Product(random, cap);
    Product(1.0 - random, cap);
    assert cap - x == (1.0 - random) * cap;
  }

  lemma Product(a: real, b: real)
    requires a >= 0.0 && b >= 0.0
    ensures a * b >= 0.0
  {
  }

  lemma FloorBounds(x: real, cap: nat)
    requires 0.0 <= x <= cap as real
    ensures 0 <= x.Floor <= cap
    ensures x == cap as real ==> x.Floor == cap
  {
    assert x.Floor as real <= x < x.Floor as real + 1.0;
  }

  /** Everything a call of withRetry does not decide: what each attempt yields, which errors
      are worth retrying and which are timeouts, the randomness, and the callback, which
      may itself throw at its n-th call. */
  datatype Env<T, !E> = Env(
    fn: nat -> Result<T, E>,
    isRetryable: E -> bool,
    isTimeout: E -> bool,
    random: nat -> real,
    onAttempt: nat -> Option<E>)

  ghost predicate ValidEnv<T, E>(env: Env<T, E>) {
    forall n :: 0.0 <= env.random(n) <= 1.0
  }

  function OutcomeOf<T, E>(env: Env<T, E>, attempt: nat): Outcome {
    match env.fn(attempt)
    case Value(_) => SUCCEEDED
    case Error(e) => if env.isTimeout(e) then TIMEOUT else FAILED
  }

  // ---- One attempt, whatever the callback does ---------------------------------------

  /** How often the callback has been called before attempt k: once for a failed attempt,
      twice for one whose success report threw. */
  function Calls<T, E>(env: Env<T, E>, k: nat): nat {
    if k <= 1 then 0 else Calls(env, k - 1) + if env.fn(k - 1).Value? then 2 else 1
  }

  /** The error an attempt ends with. The success report is made inside the same try block as
      the work, so an error it throws turns the success into a failed attempt. */
  function ErrOf<T, E>(env: Env<T, E>, k: nat): Option<E> {
    match env.fn(k)
    case Value(_) => env.onAttempt(Calls(env, k))
    case Error(e) => Some(e)
  }

  predicate WillRetry<T, E>(env: Env<T, E>, k: nat, maxAttempts: int) {
    ErrOf(env, k).Some? && k < maxAttempts && env.isRetryable(ErrOf(env, k).value)
  }

  /** What the failure report of an attempt throws. */
  function FailureThrow<T, E>(env: Env<T, E>, k: nat): Option<E> {
    env.onAttempt(Calls(env, k) + if env.fn(k).Value? then 1 else 0)
  }

  /** Attempt k is followed by another. */
  predicate Continues<T, E>(env: Env<T, E>, k: nat, maxAttempts: int) {
    WillRetry(env, k, maxAttempts) && FailureThrow(env, k).None?
  }

  /** n is the first attempt that is followed by none. */
  predicate LastAttempt<T, E>(env: Env<T, E>, n: nat, maxAttempts: int) {
    n >= 1 && !Continues(env, n, maxAttempts) && forall k :: 1 <= k < n ==> Continues(env, k, maxAttempts)
  }

  function ErrorOutcome<T, E>(env: Env<T, E>, error: E): Outcome {
    if env.isTimeout(error) then TIMEOUT else FAILED
  }

  /** The reports of attempt k. */
  function Reports<T, E>(env: Env<T, E>, k: nat, maxAttempts: int): seq<AttemptInfo> {
    (if env.fn(k).Value? then [AttemptInfo(k, SUCCEEDED, false)] else []) +
    match ErrOf(env, k)
    case None => []
    case Some(e) => [AttemptInfo(k, ErrorOutcome(env, e), WillRetry(env, k, maxAttempts))]
  }

  /** The reports of attempts 1..n. */
  function FullLog<T, E>(env: Env<T, E>, n: nat, maxAttempts: int): seq<AttemptInfo> {
    if n == 0 then [] else FullLog(env, n - 1, maxAttempts) + Reports(env, n, maxAttempts)
  }

  /** How a call settles whose last attempt is n: an error the failure report throws replaces
      the one it reports. */
  function Settles<T, E>(env: Env<T, E>, n: nat): Settled<T, E> {
    match ErrOf(env, n)
    case Some(e) => Threw(if FailureThrow(env, n).Some? then FailureThrow(env, n) else Some(e))
    case None =>
      match env.fn(n)
      case Value(v) => Returned(v)
      case Error(e) => Threw(Some(e))
  }

  /** The last word in a call is the latest of what its last attempt threw: the failure report's
      error, else the success report's, else the work's own; it returns exactly when the work
      and its success report both went well. */
  lemma SettlesExact<T, E>(env: Env<T, E>, n: nat)
    ensures var went, reported := env.fn(n), env.onAttempt(Calls(env, n));
      && (Settles(env, n).Returned? <==> went.Value? && reported.None?)
      && (went.Value? && reported.None? ==> Settles(env, n).value == went.value)
      && (went.Error? ==> Settles(env, n).error == Some(if reported.Some? then reported.value else went.error))
      && (went.Value? && reported.Some? ==>
            Settles(env, n).error ==
              var again := env.onAttempt(Calls(env, n) + 1); if again.Some? then again else reported)
  {
  }

  /** Work that succeeded is run again exactly when the callback throws a retryable error at
      its success report, attempts are left, and the failure report does not throw. With a
      callback that does not throw at success reports it never is. */
  lemma RunsAgain<T, E>(env: Env<T, E>, n: nat, k: nat, maxAttempts: int)
    requires LastAttempt(env, n, maxAttempts) && 1 <= k <= n && env.fn(k).Value?
    ensures n > k <==>
      && k < maxAttempts
      && env.onAttempt(Calls(env, k)).Some? && env.isRetryable(env.onAttempt(Calls(env, k)).value)
      && env.onAttempt(Calls(env, k) + 1).None?
    ensures env.onAttempt(Calls(env, k)).None? ==> n == k && Settles(env, n) == Returned(env.fn(k).value)
  {
    assert n > k ==> Continues(env, k, maxAttempts);
  }

  /** A callback that throws once, at the first success report. */
  function ThrowsOnce(): Env<int, int> {
    Env(_ => Value(7), _ => true, _ => false, _ => 0.0, n => if n == 0 then Some(1) else None)
  }

  /** The work succeeds at its first attempt and is run a second time; two successes and a
      failure are reported. */
  lemma SuccessRunsTwice()
    ensures LastAttempt(ThrowsOnce(), 2, 3)
    ensures ThrowsOnce().fn(1).Value? && Settles(ThrowsOnce(), 2) == Returned(7)
    ensures FullLog(ThrowsOnce(), 2, 3) ==
      [AttemptInfo(1, SUCCEEDED, false), AttemptInfo(1, FAILED, true), AttemptInfo(2, SUCCEEDED, false)]
  {
    var env := ThrowsOnce();
    assert Calls(env, 1) == 0 && Calls(env, 2) == 2;
    assert FullLog(env, 1, 3) == FullLog(env, 0, 3) + Reports(env, 1, 3);
  }

  // ---- What the trace of a call looks like when the callback does not throw --------

  ghost predicate Quiet<T, E>(env: Env<T, E>) {
    forall n :: env.onAttempt(n).None?
  }

  /** The attempt is the last one. */
  predicate Stops<T, E>(env: Env<T, E>, attempt: nat, maxAttempts: nat) {
    || env.fn(attempt).Value?
    || attempt >= maxAttempts
    || !env.isRetryable(env.fn(attempt).error)
  }

  /** n is the first attempt at which a call stops. */
  predicate StopsFirstAt<T, E>(env: Env<T, E>, n: nat, maxAttempts: nat) {
    && 1 <= n <= maxAttempts && Stops(env, n, maxAttempts)
    && forall k :: 1 <= k < n ==> !Stops(env, k, maxAttempts)
  }

  function Report<T, E>(env: Env<T, E>, n: nat, maxAttempts: nat): seq<AttemptInfo> {
    seq(n, k requires 0 <= k < n => AttemptInfo(k + 1, OutcomeOf(env, k + 1), !Stops(env, k + 1, maxAttempts)))
  }

  function Sum(waits: seq<nat>): nat {
    if waits == [] then 0 else Sum(waits[..|waits| - 1]) + waits[|waits| - 1]
  }

  /** The wait after attempt k is the random share of that attempt's cap, rounded down. */
  predicate IsWait<T, E>(env: Env<T, E>, base: nat, max: nat, k: nat, wait: nat) requires k >= 1 {
    var share := env.random(k) * Cap(k, base, max) as real;
    wait as real <= share < wait as real + 1.0
  }

  predicate AreWaits<T, E>(env: Env<T, E>, base: nat, max: nat, waits: seq<nat>) {
    waits == [] ||
    (AreWaits(env, base, max, waits[..|waits| - 1]) && IsWait(env, base, max, |waits|, waits[|waits| - 1]))
  }

  lemma WaitBound<T, E>(env: Env<T, E>, base: nat, max: nat, k: nat, wait: nat)
    requires k >= 1 && ValidEnv(env) && IsWait(env, base, max, k, wait)
    ensures wait <= max && wait <= base * Pow2(k - 1)
  {
    var share := Jitter(env.random(k), Cap(k, base, max) as real);
  }

  lemma NextWait<T, E>(env: Env<T, E>, base: nat, max: nat, waits: seq<nat>, wait: nat)
    requires AreWaits(env, base, max, waits) && IsWait(env, base, max, |waits| + 1, wait)
    ensures AreWaits(env, base, max, waits + [wait]) && Sum(waits + [wait]) == Sum(waits) + wait
  {
    assert (waits + [wait])[..|waits|] == waits;
  }

  lemma DelayIsWait<T, E>(env: Env<T, E>, base: nat, max: nat, k: nat)
    requires ValidEnv(env) && k >= 1
    ensures IsWait(env, base, max, k, BackoffDelay(k, base, max, env.random(k)))
  {
  }

  lemma OneMore(n: nat, base: nat, max: nat, sum: nat, wait: nat)
    requires sum <= n * max && sum <= base * (Pow2(n) - 1) && wait <= max && wait <= base * Pow2(n)
    ensures sum + wait <= (n + 1) * max && sum + wait <= base * (Pow2(n + 1) - 1)
  {
    Doubling(base, Pow2(n));
    assert (n + 1) * max == n * max + max;
  }

  /** n waits sleep at most n times the cap, and at most base * (2^n - 1). */
  lemma {:induction false} SleepBound<T, E>(env: Env<T, E>, base: nat, max: nat, waits: seq<nat>)
    requires ValidEnv(env) && AreWaits(env, base, max, waits)
    ensures Sum(waits) <= |waits| * max
    ensures Sum(waits) <= base * (Pow2(|waits|) - 1)
  {
    if waits != [] {
      var n := |waits| - 1;
      SleepBound(env, base, max, waits[..n]);
      WaitBound(env, base, max, n + 1, waits[n]);
      OneMore(n, base, max, Sum(waits[..n]), waits[n]);
    }
  }

  lemma Doubling(base: nat, p: nat)
    ensures base * (2 * p - 1) == base * (p - 1) + base * p
  {
  }

  /** The reported trace: attempts 1..n, all but the last failed and about to be retried,
      the last one not retried, and successful exactly when its work was. */
  lemma ReportShape<T, E>(env: Env<T, E>, n: nat, maxAttempts: nat)
    requires StopsFirstAt(env, n, maxAttempts)
    ensures var trace := Report(env, n, maxAttempts);
      && |trace| == n
      && (forall k :: 0 <= k < n ==> trace[k].attempt == k + 1)
      && (forall k :: 0 <= k < n - 1 ==> trace[k].outcome != SUCCEEDED && trace[k].willRetry)
      && !trace[n - 1].willRetry
      && (trace[n - 1].outcome == SUCCEEDED <==> env.fn(n).Value?)
      && (forall k :: 0 <= k < n ==>
            (trace[k].outcome == TIMEOUT <==> env.fn(k + 1).Error? && env.isTimeout(env.fn(k + 1).error)))
  {
    var trace := Report(env, n, maxAttempts);
    forall k | 0 <= k < n - 1 ensures trace[k].outcome != SUCCEEDED && trace[k].willRetry {
      assert !Stops(env, k + 1, maxAttempts);
    }
  }

  /** A callback that never throws: the call is the plain loop that stops at the first
      success, non-retryable error or exhausted limit. */
  lemma {:induction false} QuietCall<T, E>(env: Env<T, E>, n: nat, maxAttempts: nat)
    requires Quiet(env) && LastAttempt(env, n, maxAttempts) && n <= maxAttempts
    ensures StopsFirstAt(env, n, maxAttempts)
    ensures FullLog(env, n, maxAttempts) == Report(env, n, maxAttempts)
    ensures Settles(env, n) == match env.fn(n) { case Value(v) => Returned(v) case Error(e) => Threw(Some(e)) }
  {
    forall k | 1 <= k < n ensures !Stops(env, k, maxAttempts) {
      assert Continues(env, k, maxAttempts);
    }
    QuietLog(env, n, maxAttempts);
  }

  lemma {:induction false} QuietLog<T, E>(env: Env<T, E>, n: nat, maxAttempts: nat)
    requires Quiet(env)
    ensures FullLog(env, n, maxAttempts) == Report(env, n, maxAttempts)
  {
    if n > 0 {
      QuietLog(env, n - 1, maxAttempts);
    }
  }

  /** The body of the loop: the work, its reports, and whether the call ends with it. */
  method TryOnce<T, E>(env: Env<T, E>, attempt: nat, maxAttempts: int, log: seq<AttemptInfo>)
    returns (ended: Option<Settled<T, E>>, more: seq<AttemptInfo>, error: Option<E>)
    requires attempt >= 1 && |log| == Calls(env, attempt)
    ensures more == log + Reports(env, attempt, maxAttempts)
    ensures ended.None? <==> Continues(env, attempt, maxAttempts)
    ensures ended.None? ==> |more| == Calls(env, attempt + 1)
    ensures ended.Some? ==> ended.value == Settles(env, attempt)
  {
    more := log;
    var result := env.fn(attempt);
    error := match result { case Error(e) => Some(e) case Value(_) => None };
    if result.Value? {
      error := env.onAttempt(|more|);
      more := more + [AttemptInfo(attempt, SUCCEEDED, false)];
      if error.None? {
        ended := Some(Returned(result.value));
        return;
      }
    }
    var outcome := if env.isTimeout(error.value) then TIMEOUT else FAILED;
    var willRetry := attempt < maxAttempts && env.isRetryable(error.value);
    var thrown := env.onAttempt(|more|);
    more := more + [AttemptInfo(attempt, outcome, willRetry)];
    ended := if thrown.Some? then Some(Threw(thrown)) else if !willRetry then Some(Threw(error)) else None;
  }

  /** Attempts 1..n have been made and reported, and another follows. */
  predicate Tried<T, E>(env: Env<T, E>, n: nat, maxAttempts: int, log: seq<AttemptInfo>) {
    && log == FullLog(env, n, maxAttempts) && |log| == Calls(env, n + 1)
    && forall k :: 1 <= k <= n ==> Continues(env, k, maxAttempts)
  }

  lemma TriedNext<T, E>(env: Env<T, E>, n: nat, maxAttempts: int, log: seq<AttemptInfo>, more: seq<AttemptInfo>)
    requires n >= 1 && Tried(env, n - 1, maxAttempts, log) && more == log + Reports(env, n, maxAttempts)
    ensures more == FullLog(env, n, maxAttempts)
    ensures if Continues(env, n, maxAttempts) then |more| == Calls(env, n + 1) ==> Tried(env, n, maxAttempts, more)
            else LastAttempt(env, n, maxAttempts)
  {
  }

  /** The sleep after attempt k, on top of the waits so far. */
  method Sleep<T, E>(env: Env<T, E>, k: nat, base: nat, max: nat, slept: nat, ghost waits: seq<nat>)
    returns (total: nat, ghost more: seq<nat>)
    requires ValidEnv(env) && k == |waits| + 1 && AreWaits(env, base, max, waits) && slept == Sum(waits)
    ensures |more| == k && AreWaits(env, base, max, more) && total == Sum(more)
  {
    var delay := BackoffDelay(k, base, max, env.random(k));
    DelayIsWait(env, base, max, k);
    NextWait(env, base, max, waits, delay);
    total, more := slept + delay, waits + [delay];
  }

  /** The loop of withRetry. */
  method Attempts<T, E>(env: Env<T, E>, maxAttempts: int, base: nat, max: nat)
    returns (settled: Settled<T, E>, log: seq<AttemptInfo>, tried: nat, slept: nat, ghost waits: seq<nat>)
    requires ValidEnv(env)
    ensures maxAttempts <= 0 ==> settled == Threw(None) && log == [] && tried == 0 && slept == 0
    ensures maxAttempts > 0 ==>
      && tried <= maxAttempts && LastAttempt(env, tried, maxAttempts)
      && log == FullLog(env, tried, maxAttempts)
      && settled == Settles(env, tried)
    ensures AreWaits(env, base, max, waits) && slept == Sum(waits)
    ensures |waits| == if tried == 0 then 0 else tried - 1
  {
    var lastError: Option<E> := None;
    var attempt := 1;
    log, tried, slept, waits := [], 0, 0, [];
    while attempt <= maxAttempts
      invariant attempt == tried + 1
      invariant tried > 0 ==> tried < maxAttempts
      invariant maxAttempts <= 0 ==> tried == 0 && lastError == None
      invariant |waits| == tried && AreWaits(env, base, max, waits) && slept == Sum(waits)
      invariant Tried(env, tried, maxAttempts, log)
    {
      tried := attempt;
      var ended: Option<Settled<T, E>>;
      ghost var before := log;
      ended, log, lastError := TryOnce(env, attempt, maxAttempts, log);
      TriedNext(env, attempt, maxAttempts, before, log);
      if ended.Some? {
        settled := ended.value;
        return;
      }
      slept, waits := Sleep(env, attempt, base, max, slept, waits);
      attempt := attempt + 1;
    }
    settled := Threw(lastError);
  }

  /** withRetry. `log` is every report handed to the callback, `tried` how often the work
      was started, `slept` the time spent in `waits`: for every work, callback and limit these
      and the outcome are determined, the callback's own errors included. */
  method WithRetry<T, E>(env: Env<T, E>, maxAttempts: int, base: nat, max: nat)
    returns (settled: Settled<T, E>, log: seq<AttemptInfo>, tried: nat, slept: nat, ghost waits: seq<nat>)
    requires ValidEnv(env)
    ensures maxAttempts <= 0 ==> settled == Threw(None) && log == [] && tried == 0 && slept == 0
    ensures maxAttempts > 0 ==>
      && tried <= maxAttempts && LastAttempt(env, tried, maxAttempts)
      && log == FullLog(env, tried, maxAttempts)
      && settled == Settles(env, tried)
    ensures AreWaits(env, base, max, waits) && slept == Sum(waits)
    ensures |waits| == if tried == 0 then 0 else tried - 1
    ensures tried > 0 ==> slept <= (tried - 1) * max && slept <= base * (Pow2(tried - 1) - 1)
  {
    settled, log, tried, slept, waits := Attempts(env, maxAttempts, base, max);
    if tried > 0 {
      SleepBound(env, base, max, waits);
    }
  }
}
