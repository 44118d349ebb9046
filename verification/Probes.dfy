/** Bounded readiness probes: one caller-owned deadline, fresh attempts, static reasons. */
module Probes {
  import opened Wrappers
  import opened Events

  datatype ProbeOutcome = Ready | AuthFailed | ConnectFailed | TimedOut | UnexpectedResponse

  datatype Liveness = Alive | NotAlive | Unknown

  datatype ProbeKind = PostgresQuery | RedisAuthPing | GrafanaHealth | GrafanaAdmin

  /** `liveness` is set only when the attempt overrides the category's default. */
  datatype AttemptOutcome = AttemptOutcome(kind: ProbeOutcome, probe: ProbeKind, liveness: Option<Liveness>)

  datatype HealthResult = HealthResult(dependency: Dependency, liveness: Liveness, ready: bool, probe: ProbeKind, code: Code, reason: string)

  /** A remainder this small is treated as no time at all. */
  const MIN_ATTEMPT_BUDGET: real := 0.000001

  function Name(d: Dependency): string {
    match d case Postgres => "postgres" case Redis => "redis" case Grafana => "grafana"
  }

  /** One static reason per category, empty for Ready alone. (The wording is abbreviated.) */
  function SafeReason(d: Dependency, outcome: ProbeOutcome): (r: string)
    ensures r == "" <==> outcome.Ready?
  {
    match outcome
    case Ready => ""
    case AuthFailed => Name(d) + " rejected"
    case ConnectFailed => Name(d) + " unreachable"
    case TimedOut => Name(d) + " timeout"
    case UnexpectedResponse => Name(d) + " unexpected"
  }

  function DefaultLiveness(outcome: ProbeOutcome): Liveness {
    match outcome
    case Ready => Alive
    case AuthFailed => Alive
    case ConnectFailed => NotAlive
    case TimedOut => Unknown
    case UnexpectedResponse => Alive
  }

  function FirstStage(d: Dependency): ProbeKind {
    match d case Postgres => PostgresQuery case Redis => RedisAuthPing case Grafana => GrafanaHealth
  }

  function TimeoutOutcome(d: Dependency): AttemptOutcome {
    AttemptOutcome(TimedOut, FirstStage(d), None)
  }

  function ToResult(d: Dependency, outcome: AttemptOutcome): HealthResult {
    HealthResult(d, if outcome.liveness.Some? then outcome.liveness.value else DefaultLiveness(outcome.kind),
                 outcome.kind.Ready?, outcome.probe,
                 if outcome.kind.Ready? then OK else DependencyNotReady, SafeReason(d, outcome.kind))
  }

  /** What every result of this module satisfies: evidence or a printable reason, never both. */
  predicate Presentable(r: HealthResult) {
    (r.ready <==> r.reason == "") && (r.ready <==> r.code == OK)
  }

  function Min(a: real, b: real): real { if a <= b then a else b }

  /** A monotonic clock. Any reading may be later than the last by an arbitrary amount, and a
      sleep lasts at least as long as asked; `slept` is what was asked. */
  class Clock {
    var now: real
    var readings: nat
    var slept: seq<real>
    const drift: nat -> real

    ghost predicate Valid() {
      forall k :: drift(k) >= 0.0
    }

    constructor (start: real, drift: nat -> real)
      requires forall k :: drift(k) >= 0.0
      ensures Valid() && now == start && slept == []
    {
      now, readings, slept, this.drift := start, 0, [], drift;
    }

    method Read() returns (t: real)
      requires Valid()
      modifies this
      ensures t == now >= old(now) && slept == old(slept)
    {
      assert drift(readings) >= 0.0;
      now := now + drift(readings);
      readings := readings + 1;
      t := now;
    }

    method Sleep(seconds: real)
      requires Valid() && seconds >= 0.0
      modifies this
      ensures now >= old(now) + seconds && slept == old(slept) + [seconds]
    {
      var woken := Read();
      now := now + seconds;
      slept := slept + [seconds];
    }
  }

  /** One attempt as it was made: when, with what budget, what came back, and when that was
      looked at. */
  datatype Attempt = Attempt(started: real, budget: real, outcome: AttemptOutcome, ended: real)

  predicate Retryable(outcome: AttemptOutcome) {
    !outcome.kind.Ready? && !outcome.kind.AuthFailed?
  }

  /** Attempts lie a retry interval apart, each within what the deadline leaves, and all but
      the last came back with something worth retrying. */
  ghost predicate Paced(attempts: seq<Attempt>, begun: real, deadline: real, timeout: real, interval: real) {
    && (forall k :: 0 <= k < |attempts| ==>
          && deadline - attempts[k].started > MIN_ATTEMPT_BUDGET
          && attempts[k].budget == Min(timeout, deadline - attempts[k].started)
          && attempts[k].started <= attempts[k].ended)
    && (forall k :: 0 <= k < |attempts| - 1 ==> Retryable(attempts[k].outcome))
    && (forall k :: 0 <= k < |attempts| - 1 ==> attempts[k + 1].started >= attempts[k].started + interval)
    && (attempts != [] ==> begun <= attempts[0].started)
  }

  /** The result follows the last attempt; readiness noticed after the deadline is a timeout. */
  function Conclusion(d: Dependency, attempts: seq<Attempt>, deadline: real): HealthResult {
    if attempts == [] then ToResult(d, TimeoutOutcome(d))
    else
      var last := attempts[|attempts| - 1];
      ToResult(d, if last.outcome.kind.Ready? && last.ended > deadline then TimeoutOutcome(d) else last.outcome)
  }

  /** After each attempt that is followed by a sleep: one interval, or what the deadline leaves. */
  function Asked(attempts: seq<Attempt>, deadline: real, interval: real): (slept: seq<real>)
    ensures |slept| == |attempts|
  {
    seq(|attempts|, k requires 0 <= k < |attempts| => Min(interval, deadline - attempts[k].ended))
  }

  /** The attempts that are followed by a sleep: all, but a last one that settles it. */
  function Followed(attempts: seq<Attempt>, deadline: real): seq<Attempt> {
    if attempts == [] then []
    else
      var last := attempts[|attempts| - 1];
      if !Retryable(last.outcome) || deadline - last.ended <= MIN_ATTEMPT_BUDGET then attempts[..|attempts| - 1] else attempts
  }

  lemma NoSleeps(deadline: real, interval: real)
    ensures Asked([], deadline, interval) == [] && Followed([], deadline) == []
  {
  }

  lemma OneMoreSleep(attempts: seq<Attempt>, a: Attempt, deadline: real, interval: real)
    ensures Asked(attempts + [a], deadline, interval) == Asked(attempts, deadline, interval) + [Min(interval, deadline - a.ended)]
    ensures Followed(attempts + [a], deadline) == if !Retryable(a.outcome) || deadline - a.ended <= MIN_ATTEMPT_BUDGET then attempts else attempts + [a]
  {
  }

  /** Iterations left if every sleep lasts as asked. */
  ghost function Left(deadline: real, now: real, interval: real): nat
    requires interval > 0.0
  {
    if deadline - now <= MIN_ATTEMPT_BUDGET then 0 else
      var f := ((deadline - now) / interval).Floor;
      assert (deadline - now) / interval >= 0.0;
      f + 1
  }

  lemma SmallerQuotient(x: real, y: real, interval: real, gap: real)
    requires interval > 0.0 && x >= y + gap * interval
    ensures x / interval >= y / interval + gap
  {
    var a, b := x / interval, y / interval;
    assert a * interval == x && b * interval == y;
    assert (b + gap) * interval == b * interval + gap * interval;
  }

  lemma SleepingMakesProgress(deadline: real, earlier: real, later: real, interval: real)
    requires interval > 0.0 && deadline - earlier > MIN_ATTEMPT_BUDGET
    requires later >= earlier + Min(interval, deadline - earlier)
    ensures Left(deadline, later, interval) < Left(deadline, earlier, interval)
  {
    if deadline - later > MIN_ATTEMPT_BUDGET {
      SmallerQuotient(deadline - earlier, deadline - later, interval, 1.0);
    }
  }

  lemma LaterLeavesLess(deadline: real, earlier: real, later: real, interval: real)
    requires interval > 0.0 && earlier <= later
    ensures Left(deadline, later, interval) <= Left(deadline, earlier, interval)
  {
    if deadline - later > MIN_ATTEMPT_BUDGET {
      SmallerQuotient(deadline - earlier, deadline - later, interval, 0.0);
    }
  }

  lemma OneMoreAttempt(attempts: seq<Attempt>, a: Attempt, begun: real, deadline: real, timeout: real, interval: real)
    requires Paced(attempts, begun, deadline, timeout, interval)
    requires deadline - a.started > MIN_ATTEMPT_BUDGET && a.budget == Min(timeout, deadline - a.started) && begun <= a.started <= a.ended
    requires attempts != [] ==>
               Retryable(attempts[|attempts| - 1].outcome) && a.started >= attempts[|attempts| - 1].started + interval
    ensures Paced(attempts + [a], begun, deadline, timeout, interval)
  {
  }

  lemma NoAttempts(begun: real, deadline: real, timeout: real, interval: real)
    ensures Paced([], begun, deadline, timeout, interval)
  {
  }

  /** Where the loop stands: `attempts` made, all worth retrying, the sleep slept. */
  ghost predicate Underway(attempts: seq<Attempt>, script: nat -> AttemptOutcome, begun: real, now: real, deadline: real, timeout: real, interval: real) {
    && begun <= now
    && Paced(attempts, begun, deadline, timeout, interval)
    && (forall k: nat :: k < |attempts| ==> attempts[k].outcome == script(k))
    && (attempts != [] ==>
          var last := attempts[|attempts| - 1];
          && Retryable(last.outcome) && deadline - last.ended > MIN_ATTEMPT_BUDGET
          && last.ended <= now
          && (deadline - now > MIN_ATTEMPT_BUDGET ==> now >= last.started + interval))
  }

  /** The attempts follow the script, the result follows the attempts, and the loop gives up
      on something worth retrying only when no time is left. */
  ghost predicate Answers(d: Dependency, result: HealthResult, attempts: seq<Attempt>, script: nat -> AttemptOutcome,
                          begun: real, now: real, deadline: real, timeout: real, interval: real)
  {
    && result == Conclusion(d, attempts, deadline)
    && Paced(attempts, begun, deadline, timeout, interval)
    && (forall k: nat :: k < |attempts| ==> attempts[k].outcome == script(k))
    && (attempts == [] || Retryable(attempts[|attempts| - 1].outcome) ==> deadline - now <= MIN_ATTEMPT_BUDGET)
    && (attempts != [] ==> attempts[|attempts| - 1].ended <= now)
  }

  /** `script(k)` is what the k-th attempt comes back with; None is the ValueError for a
      timeout or interval that is not positive. */
  method ProbeDependency(d: Dependency, deadline: real, clock: Clock, script: nat -> AttemptOutcome, timeout: real, interval: real)
    returns (result: Option<HealthResult>, ghost attempts: seq<Attempt>)
    requires clock.Valid()
    modifies clock
    ensures result.None? <==> timeout <= 0.0 || interval <= 0.0
    ensures result.Some? ==> Answers(d, result.value, attempts, script, old(clock.now), clock.now, deadline, timeout, interval)
    ensures clock.slept == old(clock.slept) + Asked(Followed(attempts, deadline), deadline, interval)
  {
    hide Left, ToResult, TimeoutOutcome, Paced, Asked, Followed;
    attempts := [];
    NoSleeps(deadline, interval);
    NoAttempts(old(clock.now), deadline, timeout, interval);
    if timeout <= 0.0 || interval <= 0.0 { return None, attempts; }
    var started := clock.Read();
    var last: Option<AttemptOutcome> := None;
    var n := 0;
    while true
      invariant clock.Valid() && n == |attempts|
      invariant Underway(attempts, script, old(clock.now), clock.now, deadline, timeout, interval)
      invariant last == if n == 0 then None else Some(attempts[n - 1].outcome)
      invariant clock.slept == old(clock.slept) + Asked(attempts, deadline, interval) && Followed(attempts, deadline) == attempts
      decreases Left(deadline, clock.now, interval)
    {
      ghost var top := clock.now;
      var now := clock.Read();
      var remaining := deadline - now;
      if remaining <= MIN_ATTEMPT_BUDGET {
        return Some(ToResult(d, if last.Some? then last.value else TimeoutOutcome(d))), attempts;
      }
      var outcome := script(n);
      var ended := clock.Read();
      ghost var attempt := Attempt(now, Min(timeout, remaining), outcome, ended);
      OneMoreAttempt(attempts, attempt, old(clock.now), deadline, timeout, interval);
      OneMoreSleep(attempts, attempt, deadline, interval);
      attempts := attempts + [attempt];
      n, last := n + 1, Some(outcome);
      if outcome.kind.Ready? {
        return Some(ToResult(d, if ended <= deadline then outcome else TimeoutOutcome(d))), attempts;
      }
      if outcome.kind.AuthFailed? || deadline - ended <= MIN_ATTEMPT_BUDGET {
        return Some(ToResult(d, outcome)), attempts;
      }
      LaterLeavesLess(deadline, top, ended, interval);
      clock.Sleep(Min(interval, deadline - ended));
      SleepingMakesProgress(deadline, ended, clock.now, interval);
    }
  }

  lemma OneMoreInterval(n: nat, interval: real)
    ensures (n + 1) as real * interval == n as real * interval + interval
  {
  }

  /** Attempts an interval apart are that late. */
  lemma {:induction false} StartsLate(attempts: seq<Attempt>, n: nat, begun: real, interval: real)
    requires n < |attempts| && begun <= attempts[0].started
    requires forall k :: 0 <= k < |attempts| - 1 ==> attempts[k + 1].started >= attempts[k].started + interval
    ensures attempts[n].started >= begun + n as real * interval
  {
    if n > 0 {
      StartsLate(attempts, n - 1, begun, interval);
      OneMoreInterval(n - 1, interval);
      assert attempts[n - 1 + 1].started >= attempts[n - 1].started + interval;
    }
  }

  /** How many attempts a budget allows: fewer than budget / interval + 1. */
  lemma AttemptsAreBounded(attempts: seq<Attempt>, begun: real, deadline: real, timeout: real, interval: real)
    requires Paced(attempts, begun, deadline, timeout, interval) && attempts != [] && interval > 0.0
    ensures (|attempts| - 1) as real * interval < deadline - begun
    ensures attempts[|attempts| - 1].started >= begun + (|attempts| - 1) as real * interval
  {
    StartsLate(attempts, |attempts| - 1, begun, interval);
    assert attempts[|attempts| - 1].started < deadline;
  }

  /** What is reported of an outcome: the code and the reason go with readiness, the liveness is
      the attempt's own or the category's, the stage is the attempt's. */
  lemma ResultIs(d: Dependency, outcome: AttemptOutcome)
    ensures var r := ToResult(d, outcome);
            && r.dependency == d && r.probe == outcome.probe && (r.ready <==> outcome.kind.Ready?)
            && r.code == (if outcome.kind.Ready? then OK else DependencyNotReady) && (r.reason == "" <==> outcome.kind.Ready?)
            && r.liveness == (if outcome.liveness.Some? then outcome.liveness.value
                              else if outcome.kind.ConnectFailed? then NotAlive else if outcome.kind.TimedOut? then Unknown else Alive)
  {
  }

  /** The result is the last attempt's, unless there was none or it was ready too late: then a
      timeout of the dependency's first stage. */
  lemma ConclusionIs(d: Dependency, attempts: seq<Attempt>, deadline: real)
    ensures var stage := match d case Postgres => PostgresQuery case Redis => RedisAuthPing case Grafana => GrafanaHealth;
            var timeout := ToResult(d, AttemptOutcome(TimedOut, stage, None));
            Conclusion(d, attempts, deadline) ==
            if attempts == [] then timeout
            else
              var last := attempts[|attempts| - 1];
              if last.outcome.kind.Ready? && last.ended > deadline then timeout else ToResult(d, last.outcome)
  {
  }

  /** Ready exactly when the last attempt was ready and noticed in time: nothing earlier, later
      or on another connection counts; every result can be reported. */
  lemma ReadyMeansFreshEvidence(d: Dependency, attempts: seq<Attempt>, deadline: real)
    ensures Conclusion(d, attempts, deadline).ready <==>
            attempts != [] && attempts[|attempts| - 1].outcome.kind.Ready? && attempts[|attempts| - 1].ended <= deadline
    ensures Presentable(Conclusion(d, attempts, deadline)) && Conclusion(d, attempts, deadline).dependency == d
  {
  }

  /** The attempts, written out: each starts more than a microsecond before the deadline and gets
      its timeout or what is left, whichever is less; only a failed connection, a timeout or an
      unexpected response is followed by another attempt, and that an interval later; and the loop
      gives up on one of these only when no time is left. */
  lemma AttemptsAre(d: Dependency, result: HealthResult, attempts: seq<Attempt>, script: nat -> AttemptOutcome,
                    begun: real, now: real, deadline: real, timeout: real, interval: real)
    requires Answers(d, result, attempts, script, begun, now, deadline, timeout, interval)
    ensures forall k :: 0 <= k < |attempts| ==>
              var a := attempts[k];
              && a.outcome == script(k) && a.started <= a.ended && deadline - a.started > 0.000001
              && a.budget <= timeout && a.budget <= deadline - a.started && (a.budget == timeout || a.budget == deadline - a.started)
    ensures forall k :: 0 <= k < |attempts| - 1 ==>
              var kind := attempts[k].outcome.kind;
              && (kind.ConnectFailed? || kind.TimedOut? || kind.UnexpectedResponse?)
              && attempts[k + 1].started >= attempts[k].started + interval
    ensures var kind := if attempts == [] then TimedOut else attempts[|attempts| - 1].outcome.kind;
            kind.Ready? || kind.AuthFailed? || deadline - now <= 0.000001
    ensures attempts != [] ==> begun <= attempts[0].started && attempts[|attempts| - 1].ended <= now
  {
  }

  /** The sleeps, written out. */
  lemma SleepsAre(attempts: seq<Attempt>, deadline: real, interval: real, k: nat)
    requires k < |attempts|
    ensures var a := attempts[k];
            var slept := Asked(Followed(attempts, deadline), deadline, interval);
            && |attempts| - 1 <= |slept| <= |attempts|
            && (|slept| == |attempts| <==>
                  var last := attempts[|attempts| - 1];
                  !last.outcome.kind.Ready? && !last.outcome.kind.AuthFailed? && deadline - last.ended > 0.000001)
            && (k < |slept| ==> slept[k] <= interval && slept[k] <= deadline - a.ended && (slept[k] == interval || slept[k] == deadline - a.ended))
  {
  }
}
