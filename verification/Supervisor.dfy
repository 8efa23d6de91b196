/** The restart loop of the process supervisor. Durations and times are int64
    nanoseconds; everything the loop observes from outside (the clock, hook and launch
    results, run time, cancellation, the random jitter) is one Attempt per iteration. */
module Supervisor {
  import opened Optional
  import opened BurstTracker

  const SECOND := 1_000_000_000

  // ---- Backoff.

  /** Two's-complement wrap-around of int64. */
  function WrapInt64(x: int): int {
    (x + 0x8000_0000_0000_0000) % 0x1_0000_0000_0000_0000 - 0x8000_0000_0000_0000
  }

  /** delta is the jitter drawn for this call, any duration at all. */
  function ClampJitter(d: int, min: int, max: int, jitter: real, delta: int): int {
    if jitter <= 0.0 then d
    else
      var out := WrapInt64(d + delta);
      var out := if out < min then min else out;
      var out := if out > max then max else out;
      if out < 1 then 1 else out
  }

  /** The doubled sleep, clamped to [min, max], before jitter. */
  function Doubled(prev: int, min: int, max: int): int {
    var d := WrapInt64(prev * 2);
    var d := if d < min then min else d;
    if d > max then max else d
  }

  function NextBackoff(prev: int, min: int, max: int, jitter: real, delta: int): int {
    if prev <= 0 then ClampJitter(min, min, max, jitter, delta)
    else ClampJitter(Doubled(prev, min, max), min, max, jitter, delta)
  }

  lemma {:induction false} BackoffInRange(prev: int, min: int, max: int, jitter: real, delta: int)
    requires 0 < min <= max
    ensures min <= NextBackoff(prev, min, max, jitter, delta) <= max
  {
    if prev > 0 {
      assert min <= Doubled(prev, min, max) <= max;
    }
  }

  /** Short of an overflow, jitter moves the sleep by what was drawn, held within the bounds;
      without jitter it is left alone, and with it it never falls below a nanosecond. */
  lemma {:induction false} JitterMovesSleep(d: int, min: int, max: int, jitter: real, delta: int)
    requires -0x8000_0000_0000_0000 <= d + delta < 0x8000_0000_0000_0000
    ensures var r := ClampJitter(d, min, max, jitter, delta);
      && (jitter <= 0.0 ==> r == d)
      && (jitter > 0.0 ==> r >= 1)
      && (jitter > 0.0 && 0 < min <= max ==>
            r == if d + delta < min then min else if d + delta > max then max else d + delta)
  {
    assert WrapInt64(d + delta) == d + delta;
  }

  function Pow2(k: nat): nat { if k == 0 then 1 else 2 * Pow2(k - 1) }

  function Min(a: int, b: int): int { if a < b then a else b }

  /** The sleep after k failures in a row without jitter, by iterating the code. */
  function Iterated(k: nat, min: int, max: int): int {
    if k == 0 then NextBackoff(0, min, max, 0.0, 0) else NextBackoff(Iterated(k - 1, min, max), min, max, 0.0, 0)
  }

  lemma {:induction false} DoubledWithoutWrap(prev: int, min: int, max: int)
    requires 0 < min <= prev <= max < 0x4000_0000_0000_0000
    ensures NextBackoff(prev, min, max, 0.0, 0) == Min(2 * prev, max)
  {
    assert WrapInt64(prev * 2) == prev * 2;
  }

  /** min doubled k times. */
  function Scaled(min: int, k: nat): int { if k == 0 then min else 2 * Scaled(min, k - 1) }

  lemma {:induction false} ScaledIsPower(min: int, k: nat)
    ensures Scaled(min, k) == min * Pow2(k)
  {
    if k == 0 {
    } else {
      ScaledIsPower(min, k - 1);
      assert min * (2 * Pow2(k - 1)) == 2 * (min * Pow2(k - 1));
    }
  }

  lemma {:induction false} BackoffDoubles(k: nat, min: int, max: int)
    requires 0 < min <= max < 0x4000_0000_0000_0000
    ensures Scaled(min, k) >= min && Iterated(k, min, max) == Min(Scaled(min, k), max)
  {
    if k == 0 {
    } else {
      BackoffDoubles(k - 1, min, max);
      DoubledWithoutWrap(Iterated(k - 1, min, max), min, max);
    }
  }

  /** Without jitter the sleeps are min * 2^k, capped at max. */
  lemma {:induction false} BackoffIsExponential(k: nat, min: int, max: int)
    requires 0 < min <= max < 0x4000_0000_0000_0000
    ensures Iterated(k, min, max) == Min(min * Pow2(k), max)
  {
    BackoffDoubles(k, min, max);
    ScaledIsPower(min, k);
  }

  // ---- Settings.

  datatype Settings = Settings(
    backoffMin: int,
    backoffMax: int,
    backoffJitter: Option<real>,
    stableAfter: int,
    burstWindow: int,
    burstMax: int,
    onBurstExit: Option<bool>)

  /** What the restart loop relies on. */
  predicate Usable(s: Settings) {
    && 0 < s.backoffMin <= s.backoffMax && s.backoffJitter.Some? && s.backoffJitter.value >= 0.0
    && s.stableAfter > 0 && s.burstWindow > 0 && s.burstMax >= 1 && s.onBurstExit.Some?
  }

  function Positive(x: int, default: int): int { if x > 0 then x else default }

  function Defaulted(s: Settings): Settings {
    var min, max := Positive(s.backoffMin, SECOND), Positive(s.backoffMax, 30 * SECOND);
    Settings(
      min,
      if max < min then min else max,
      Some(if s.backoffJitter.None? then 0.1 else if s.backoffJitter.value < 0.0 then 0.0 else s.backoffJitter.value),
      Positive(s.stableAfter, 60 * SECOND),
      Positive(s.burstWindow, 300 * SECOND),
      Positive(s.burstMax, 10),
      Some(s.onBurstExit.None? || s.onBurstExit.value))
  }

  /** The defaults make any settings usable and leave usable ones alone. */
  lemma {:induction false} DefaultsAreUsable(s: Settings)
    ensures Usable(Defaulted(s))
    ensures Usable(s) <==> Defaulted(s) == s
    ensures Defaulted(Settings(0, 0, None, 0, 0, 0, None)) ==
      Settings(SECOND, 30 * SECOND, Some(0.1), 60 * SECOND, 300 * SECOND, 10, Some(true))
    ensures var d := Defaulted(s);
      && (s.backoffMin > 0 ==> d.backoffMin == s.backoffMin)
      && (s.backoffMax >= d.backoffMin ==> d.backoffMax == s.backoffMax)
      && (s.backoffJitter.Some? && s.backoffJitter.value >= 0.0 ==> d.backoffJitter == s.backoffJitter)
      && (s.stableAfter > 0 ==> d.stableAfter == s.stableAfter)
      && (s.burstWindow > 0 ==> d.burstWindow == s.burstWindow) && (s.burstMax > 0 ==> d.burstMax == s.burstMax)
      && (s.onBurstExit.Some? ==> d.onBurstExit == s.onBurstExit)
  {
  }

  class Spec {
    var cmd: string
    var backoffMin: int
    var backoffMax: int
    var backoffJitter: Option<real>
    var stableAfter: int
    var burstWindow: int
    var burstMax: int
    var onBurstExit: Option<bool>

    constructor (cmd: string, s: Settings)
      ensures this.cmd == cmd && Values() == s
    {
      this.cmd, backoffMin, backoffMax, backoffJitter := cmd, s.backoffMin, s.backoffMax, s.backoffJitter;
      stableAfter, burstWindow, burstMax, onBurstExit := s.stableAfter, s.burstWindow, s.burstMax, s.onBurstExit;
    }

    function Values(): Settings
      reads this
    {
      Settings(backoffMin, backoffMax, backoffJitter, stableAfter, burstWindow, burstMax, onBurstExit)
    }

    method ApplyDefaults()
      modifies this
      ensures Values() == Defaulted(old(Values())) && cmd == old(cmd)
    {
      ApplyBackoffDefaults();
      if stableAfter <= 0 { stableAfter := 60 * SECOND; }
      if burstWindow <= 0 { burstWindow := 300 * SECOND; }
      if burstMax <= 0 { burstMax := 10; }
      if onBurstExit.None? { onBurstExit := Some(true); }
    }

    method ApplyBackoffDefaults()
      modifies `backoffMin, `backoffMax, `backoffJitter
      ensures var d := Defaulted(old(Values()));
        backoffMin == d.backoffMin && backoffMax == d.backoffMax && backoffJitter == d.backoffJitter
    {
      if backoffMin <= 0 { backoffMin := SECOND; }
      if backoffMax <= 0 { backoffMax := 30 * SECOND; }
      if backoffMax < backoffMin { backoffMax := backoffMin; }
      if backoffJitter.None? {
        backoffJitter := Some(0.1);
      } else if backoffJitter.value < 0.0 {
        backoffJitter := Some(0.0);
      }
    }
  }

  // ---- The loop.

  /** What the outside contributes to one iteration. */
  datatype Attempt = Attempt(
    cancelledBefore: bool,   // ctx already cancelled at the top of the loop
    preStartFails: bool,
    launched: int,           // the clock when the attempt is recorded
    launchFails: bool,
    runDuration: int,
    cancelledAfter: bool,    // ctx cancelled while the worker ran or its hooks did
    checkedAt: int,          // the clock when the breaker is asked
    jitter: int,
    cancelledInSleep: bool)

  datatype Outcome = InvalidSpec | Shutdown | BurstExceeded | StillRunning

  /** The worker ran long enough for the backoff to start over. */
  predicate Stable(a: Attempt, stableAfter: int) {
    !a.preStartFails && !a.launchFails && a.runDuration >= stableAfter
  }

  /** The worker had started when the supervisor was cancelled: leave without a check. */
  predicate LeavesAfterRun(a: Attempt) {
    !a.preStartFails && !a.launchFails && a.cancelledAfter
  }

  ghost predicate ClockNonDecreasing(env: seq<Attempt>) {
    && (forall i :: 0 <= i < |env| ==> env[i].launched <= env[i].checkedAt)
    && (forall i, j :: 0 <= i < j < |env| ==> env[i].checkedAt <= env[j].launched)
  }

  /** Any max+1 consecutive launches span strictly more than the window. */
  ghost predicate Spaced(launches: seq<int>, max: nat, window: int) {
    forall i, j :: 0 <= i < j < |launches| && j == i + max ==> launches[j] - launches[i] > window
  }

  /** The sleep the k-th attempt must take, given the sleeps before it. */
  function SleepAfter(s: Settings, sleeps: seq<int>, a: Attempt): int
    requires Usable(s)
  {
    NextBackoff(if sleeps == [] || Stable(a, s.stableAfter) then 0 else sleeps[|sleeps| - 1],
                s.backoffMin, s.backoffMax, s.backoffJitter.value, a.jitter)
  }

  /** The breaker finds the launches up to the k-th attempt too dense. */
  predicate Trips(s: Settings, launches: seq<int>, a: Attempt)
    requires Usable(s)
  {
    Bursting(launches, s.burstMax, s.burstWindow, a.checkedAt)
  }

  /** The launches and sleeps are those of the loop: one record per attempt, in order;
      every sleep the next backoff, within the bounds; and with OnBurstExit no check
      passed while the breaker was open. */
  ghost predicate Traces(s: Settings, env: seq<Attempt>, launches: seq<int>, sleeps: seq<int>)
    requires Usable(s)
  {
    && |sleeps| <= |launches| <= |sleeps| + 1 && |launches| <= |env|
    && (forall i :: 0 <= i < |launches| ==> launches[i] == env[i].launched)
    && SleepsBackOff(s, env, sleeps)
    && (s.onBurstExit.value ==> ChecksPass(s, env, launches, |sleeps|))
  }

  ghost predicate SleepsBackOff(s: Settings, env: seq<Attempt>, sleeps: seq<int>)
    requires Usable(s) && |sleeps| <= |env|
  {
    forall k :: 0 <= k < |sleeps| ==>
      sleeps[k] == SleepAfter(s, sleeps[..k], env[k]) && s.backoffMin <= sleeps[k] <= s.backoffMax
  }

  /** The first n checks found the breaker closed. */
  ghost predicate ChecksPass(s: Settings, env: seq<Attempt>, launches: seq<int>, n: nat)
    requires Usable(s) && n <= |launches| <= |env|
  {
    forall k :: 0 <= k < n ==> !Trips(s, launches[..k + 1], env[k])
  }

  lemma {:induction false} TracesLaunch(s: Settings, env: seq<Attempt>, launches: seq<int>, sleeps: seq<int>)
    requires Usable(s) && Traces(s, env, launches, sleeps) && |launches| == |sleeps| < |env|
    ensures Traces(s, env, launches + [env[|launches|].launched], sleeps)
  {
    var all := launches + [env[|launches|].launched];
    forall k | 0 <= k < |sleeps| && s.onBurstExit.value
      ensures !Trips(s, all[..k + 1], env[k])
    {
      assert all[..k + 1] == launches[..k + 1];
    }
  }

  lemma {:induction false} SleepsBackOffSnoc(s: Settings, env: seq<Attempt>, sleeps: seq<int>)
    requires Usable(s) && |sleeps| < |env| && SleepsBackOff(s, env, sleeps)
    ensures SleepsBackOff(s, env, sleeps + [SleepAfter(s, sleeps, env[|sleeps|])])
  {
    var a := env[|sleeps|];
    var all := sleeps + [SleepAfter(s, sleeps, a)];
    BackoffInRange(if sleeps == [] || Stable(a, s.stableAfter) then 0 else sleeps[|sleeps| - 1],
                   s.backoffMin, s.backoffMax, s.backoffJitter.value, a.jitter);
    forall k | 0 <= k < |all|
      ensures all[k] == SleepAfter(s, all[..k], env[k]) && s.backoffMin <= all[k] <= s.backoffMax
    {
      assert all[..k] == sleeps[..k];
      assert sleeps[..|sleeps|] == sleeps;
    }
  }

  lemma {:induction false} ChecksPassSnoc(s: Settings, env: seq<Attempt>, launches: seq<int>, n: nat)
    requires Usable(s) && n < |launches| <= |env| && ChecksPass(s, env, launches, n)
    requires !Trips(s, launches[..n + 1], env[n])
    ensures ChecksPass(s, env, launches, n + 1)
  {
  }

  lemma {:induction false} TracesSleep(s: Settings, env: seq<Attempt>, launches: seq<int>, sleeps: seq<int>)
    requires Usable(s) && Traces(s, env, launches, sleeps) && |launches| == |sleeps| + 1
    requires s.onBurstExit.value ==> !Trips(s, launches, env[|sleeps|])
    ensures Traces(s, env, launches, sleeps + [SleepAfter(s, sleeps, env[|sleeps|])])
  {
    SleepsBackOffSnoc(s, env, sleeps);
    assert launches[..|launches|] == launches;
    if s.onBurstExit.value {
      ChecksPassSnoc(s, env, launches, |sleeps|);
    }
  }

  /** A check that found the breaker closed separates the next launch from the one max before it. */
  lemma {:induction false} ClosedChecksSpaceLaunches(
      s: Settings, env: seq<Attempt>, launches: seq<int>, sleeps: seq<int>)
    requires Usable(s) && Traces(s, env, launches, sleeps)
    requires s.onBurstExit.value && ClockNonDecreasing(env)
    ensures Spaced(launches, s.burstMax, s.burstWindow)
  {
    forall i, j | 0 <= i < j < |launches| && j == i + s.burstMax
      ensures launches[j] - launches[i] > s.burstWindow
    {
      assert !Trips(s, launches[..j - 1 + 1], env[j - 1]);
      assert launches[..j][|launches[..j]| - s.burstMax] == launches[i];
      assert env[j - 1].checkedAt <= env[j].launched;
    }
  }

  /** How the loop can have ended after these launches and sleeps. */
  ghost predicate EndsWith(s: Settings, env: seq<Attempt>, launches: seq<int>, sleeps: seq<int>, outcome: Outcome)
    requires Usable(s) && Traces(s, env, launches, sleeps)
  {
    match outcome
    case InvalidSpec => false
    case StillRunning => |launches| == |sleeps| == |env|
    case BurstExceeded =>
      && s.onBurstExit.value && |launches| == |sleeps| + 1
      && Trips(s, launches, env[|sleeps|]) && !LeavesAfterRun(env[|sleeps|])
    case Shutdown =>
      || (|launches| == |sleeps| < |env| && env[|launches|].cancelledBefore)
      || (|launches| == |sleeps| + 1 && LeavesAfterRun(env[|sleeps|]))
      || (|launches| == |sleeps| > 0 && env[|sleeps| - 1].cancelledInSleep)
  }

  /** Nothing is launched once the supervisor is cancelled: not by an attempt cancelled
      before it began, nor after a run or a sleep during which it was. */
  ghost predicate ObeysCancellation(env: seq<Attempt>, launches: seq<int>, sleeps: seq<int>, outcome: Outcome)
    requires |sleeps| <= |launches| <= |env|
  {
    && (forall i :: 0 <= i < |launches| ==> !env[i].cancelledBefore)
    && (forall k :: 0 <= k < |sleeps| && env[k].cancelledAfter ==> env[k].preStartFails || env[k].launchFails)
    && (forall k :: 0 <= k < |sleeps| && env[k].cancelledInSleep ==>
          k == |sleeps| - 1 && |launches| == |sleeps| && outcome.Shutdown?)
    && (|launches| == |sleeps| < |env| ==> outcome.Shutdown?)
  }

  /** No cancellation was seen in the first n attempts. */
  ghost predicate Uncancelled(env: seq<Attempt>, n: nat)
    requires n <= |env|
  {
    forall k :: 0 <= k < n ==> !env[k].cancelledBefore && !LeavesAfterRun(env[k]) && !env[k].cancelledInSleep
  }

  /** All that is promised of a run. */
  ghost predicate IsRunOf(s: Settings, env: seq<Attempt>, launches: seq<int>, sleeps: seq<int>, outcome: Outcome)
    requires Usable(s)
  {
    && Traces(s, env, launches, sleeps) && EndsWith(s, env, launches, sleeps, outcome)
    && ObeysCancellation(env, launches, sleeps, outcome)
  }

  /** A run in progress, between two attempts. */
  ghost predicate Going(s: Settings, env: seq<Attempt>, launches: seq<int>, sleeps: seq<int>)
    requires Usable(s)
  {
    Traces(s, env, launches, sleeps) && |launches| == |sleeps| && Uncancelled(env, |sleeps|)
  }

  /** A run ends before an attempt, or with what was observed of it. */
  lemma {:induction false} EndsBetween(s: Settings, env: seq<Attempt>, launches: seq<int>, sleeps: seq<int>)
    requires Usable(s) && Going(s, env, launches, sleeps)
    ensures |sleeps| == |env| ==> IsRunOf(s, env, launches, sleeps, StillRunning)
    ensures |sleeps| < |env| && env[|sleeps|].cancelledBefore ==> IsRunOf(s, env, launches, sleeps, Shutdown)
  {
  }

  /** A run ends after its last launch. */
  lemma {:induction false} EndsAfterLaunch(s: Settings, env: seq<Attempt>, launches: seq<int>, sleeps: seq<int>)
    requires Usable(s) && Going(s, env, launches, sleeps) && |sleeps| < |env| && !env[|sleeps|].cancelledBefore
    ensures var a := env[|sleeps|]; var all := launches + [a.launched];
      && (LeavesAfterRun(a) ==> IsRunOf(s, env, all, sleeps, Shutdown))
      && (!LeavesAfterRun(a) && s.onBurstExit.value && Trips(s, all, a) ==> IsRunOf(s, env, all, sleeps, BurstExceeded))
  {
    TracesLaunch(s, env, launches, sleeps);
  }

  /** A run ends in a sleep, or goes on after it. */
  lemma {:induction false} GoesOnAfterSleep(s: Settings, env: seq<Attempt>, launches: seq<int>, sleeps: seq<int>)
    requires Usable(s) && Going(s, env, launches, sleeps) && |sleeps| < |env|
    requires var a := env[|sleeps|];
      && !a.cancelledBefore && !LeavesAfterRun(a)
      && (s.onBurstExit.value ==> !Trips(s, launches + [a.launched], a))
    ensures var a := env[|sleeps|]; var all, slept := launches + [a.launched], sleeps + [SleepAfter(s, sleeps, a)];
      if a.cancelledInSleep then IsRunOf(s, env, all, slept, Shutdown) else Going(s, env, all, slept)
  {
    TracesLaunch(s, env, launches, sleeps);
    TracesSleep(s, env, launches + [env[|sleeps|].launched], sleeps);
  }

  /** A sequence whose every entry is a function of those before it is determined. */
  lemma {:induction false} SameRecurrence(a: seq<int>, b: seq<int>, next: (seq<int>, nat) -> int, n: nat)
    requires n <= |a| && n <= |b|
    requires forall k: nat :: k < n ==> a[k] == next(a[..k], k) && b[k] == next(b[..k], k)
    ensures a[..n] == b[..n]
  {
    if n == 0 {
    } else {
      SameRecurrence(a, b, next, n - 1);
      assert a[..n] == a[..n - 1] + [a[n - 1]] && b[..n] == b[..n - 1] + [b[n - 1]];
    }
  }

  lemma {:induction false} SleepsAgree(s: Settings, env: seq<Attempt>, a: seq<int>, b: seq<int>)
    requires Usable(s) && |a| == |b| <= |env| && SleepsBackOff(s, env, a) && SleepsBackOff(s, env, b)
    ensures a == b
  {
    var next := (sleeps: seq<int>, k: nat) => if k < |env| then SleepAfter(s, sleeps, env[k]) else 0;
    SameRecurrence(a, b, next, |a|);
    assert a[..|a|] == a && b[..|b|] == b;
  }

  /** No run stops short of another one on the same observations. */
  lemma {:induction false} NoRunStopsShort(
      s: Settings, env: seq<Attempt>, launches: seq<int>, sleeps: seq<int>, outcome: Outcome,
      launches': seq<int>, sleeps': seq<int>, outcome': Outcome)
    requires Usable(s) && IsRunOf(s, env, launches, sleeps, outcome) && IsRunOf(s, env, launches', sleeps', outcome')
    ensures |sleeps| >= |sleeps'|
    ensures |sleeps| == |sleeps'| ==> |launches| >= |launches'|
  {
    if |launches| <= |launches'| {
      assert launches == launches'[..|launches|];
    }
  }

  /** The worker of attempt k came up and ran for long enough. */
  predicate RanStably(s: Settings, env: seq<Attempt>, k: nat)
    requires k < |env|
  {
    !env[k].preStartFails && !env[k].launchFails && env[k].runDuration >= s.stableAfter
  }

  /** How the sleeps of a run grow without jitter: counted from the last attempt that ran
      stably, or from the first, they are min * 2^i, capped at max. */
  lemma {:induction false} SleepsGrowSinceStable(
      s: Settings, env: seq<Attempt>, launches: seq<int>, sleeps: seq<int>, outcome: Outcome, j: nat, k: nat)
    requires Usable(s) && IsRunOf(s, env, launches, sleeps, outcome)
    requires s.backoffJitter.value == 0.0 && s.backoffMax < 0x4000_0000_0000_0000
    requires j <= k < |sleeps| && (j == 0 || RanStably(s, env, j))
    requires forall i :: j < i <= k ==> !RanStably(s, env, i)
    ensures sleeps[k] == Min(s.backoffMin * Pow2(k - j), s.backoffMax)
  {
    forall i | j <= i <= k
      ensures sleeps[i] == NextBackoff(if i == j then 0 else sleeps[i - 1], s.backoffMin, s.backoffMax, 0.0, 0)
    {
      SleepFromPrevious(s, env, sleeps, i);
    }
    DoublingIsIterated(s.backoffMin, s.backoffMax, sleeps, j, k);
    BackoffIsExponential(k - j, s.backoffMin, s.backoffMax);
  }

  lemma {:induction false} DoublingIsIterated(min: int, max: int, sleeps: seq<int>, j: nat, k: nat)
    requires j <= k < |sleeps| && sleeps[j] == NextBackoff(0, min, max, 0.0, 0)
    requires forall i :: j < i <= k ==> sleeps[i] == NextBackoff(sleeps[i - 1], min, max, 0.0, 0)
    ensures sleeps[k] == Iterated(k - j, min, max)
  {
    if k == j {
    } else {
      DoublingIsIterated(min, max, sleeps, j, k - 1);
    }
  }

  lemma {:induction false} SleepFromPrevious(s: Settings, env: seq<Attempt>, sleeps: seq<int>, k: nat)
    requires Usable(s) && k < |sleeps| <= |env| && SleepsBackOff(s, env, sleeps) && s.backoffJitter.value == 0.0
    ensures sleeps[k] ==
      NextBackoff(if k == 0 || RanStably(s, env, k) then 0 else sleeps[k - 1], s.backoffMin, s.backoffMax, 0.0, 0)
  {
    var before := sleeps[..k];
    assert sleeps[k] == SleepAfter(s, before, env[k]);
    WithoutJitter(if before == [] || Stable(env[k], s.stableAfter) then 0 else before[k - 1], s, env[k].jitter);
  }

  lemma {:induction false} WithoutJitter(prev: int, s: Settings, delta: int)
    ensures NextBackoff(prev, s.backoffMin, s.backoffMax, 0.0, delta) ==
      NextBackoff(prev, s.backoffMin, s.backoffMax, 0.0, 0)
  {
  }

  /** What is observed from outside determines the whole run: every launch, every sleep and
      how it ends. */
  lemma {:induction false} RunIsDetermined(
      s: Settings, env: seq<Attempt>, launches: seq<int>, sleeps: seq<int>, outcome: Outcome,
      launches': seq<int>, sleeps': seq<int>, outcome': Outcome)
    requires Usable(s) && IsRunOf(s, env, launches, sleeps, outcome) && IsRunOf(s, env, launches', sleeps', outcome')
    ensures launches == launches' && sleeps == sleeps' && outcome == outcome'
  {
    NoRunStopsShort(s, env, launches, sleeps, outcome, launches', sleeps', outcome');
    NoRunStopsShort(s, env, launches', sleeps', outcome', launches, sleeps, outcome);
    SleepsAgree(s, env, sleeps, sleeps');
  }

  /** Runs the worker until it is cancelled, the breaker trips, or env is used up (the run
      observed so far). Returns every recorded launch and every backoff slept. */
  method Run(spec: Spec, env: seq<Attempt>) returns (outcome: Outcome, launches: seq<int>, sleeps: seq<int>)
    modifies spec
    ensures outcome.InvalidSpec? <==> old(spec.cmd) == ""
    ensures outcome.InvalidSpec? ==> launches == [] && sleeps == []
    ensures !outcome.InvalidSpec? ==>
      var s := Defaulted(old(spec.Values()));
      && Usable(s) && IsRunOf(s, env, launches, sleeps, outcome)
      && (s.onBurstExit.value && ClockNonDecreasing(env) ==> Spaced(launches, s.burstMax, s.burstWindow))
  {
    if spec.cmd == "" {
      return InvalidSpec, [], [];
    }
    spec.ApplyDefaults();
    DefaultsAreUsable(old(spec.Values()));
    var s := spec.Values();
    outcome, launches, sleeps := RestartLoop(s, env);
    if s.onBurstExit.value && ClockNonDecreasing(env) {
      ClosedChecksSpaceLaunches(s, env, launches, sleeps);
    }
  }

  datatype Verdict = Leave | Burst | Sleep(d: int)

  /** One attempt from its record to the backoff it earns. */
  method AttemptOnce(s: Settings, starts: Tracker, a: Attempt, prev: int) returns (v: Verdict)
    requires Usable(s) && starts.Valid() && starts.max == s.burstMax && starts.window == s.burstWindow
    modifies starts, starts.ring
    ensures starts.Valid() && starts.history == old(starts.history) + [a.launched]
    ensures v.Leave? <==> LeavesAfterRun(a)
    ensures v.Burst? <==> !LeavesAfterRun(a) && s.onBurstExit.value && Trips(s, starts.history, a)
    ensures v.Sleep? ==>
      var last := if Stable(a, s.stableAfter) then 0 else prev;
      v.d == NextBackoff(last, s.backoffMin, s.backoffMax, s.backoffJitter.value, a.jitter)
  {
    var backoff := prev;
    starts.Record(a.launched);
    if !a.preStartFails && !a.launchFails {
      if a.runDuration >= s.stableAfter {
        backoff := 0;
      }
      if a.cancelledAfter {
        return Leave;
      }
    }
    var open := starts.Exceeded(a.checkedAt);
    if open && s.onBurstExit.value {
      return Burst;
    }
    return Sleep(NextBackoff(backoff, s.backoffMin, s.backoffMax, s.backoffJitter.value, a.jitter));
  }

  method RestartLoop(s: Settings, env: seq<Attempt>) returns (outcome: Outcome, launches: seq<int>, sleeps: seq<int>)
    requires Usable(s)
    ensures IsRunOf(s, env, launches, sleeps, outcome)
  {
    launches, sleeps := [], [];
    var starts: Tracker := new Tracker(s.burstMax, s.burstWindow);
    var backoff := 0;
    while |sleeps| < |env|
      invariant Going(s, env, launches, sleeps)
      invariant fresh(starts.ring) && starts.Valid() && starts.history == launches
      invariant backoff == if sleeps == [] then 0 else sleeps[|sleeps| - 1]
      decreases |env| - |sleeps|
    {
      var a := env[|sleeps|];
      EndsBetween(s, env, launches, sleeps);
      if a.cancelledBefore { return Shutdown, launches, sleeps; }
      EndsAfterLaunch(s, env, launches, sleeps);
      var v := AttemptOnce(s, starts, a, backoff);
      if v.Leave? { return Shutdown, launches + [a.launched], sleeps; }
      if v.Burst? { return BurstExceeded, launches + [a.launched], sleeps; }
      GoesOnAfterSleep(s, env, launches, sleeps);
      backoff := v.d;
      launches, sleeps := launches + [a.launched], sleeps + [backoff];
      if a.cancelledInSleep { return Shutdown, launches, sleeps; }
    }
    EndsBetween(s, env, launches, sleeps);
    return StillRunning, launches, sleeps;
  }
}
