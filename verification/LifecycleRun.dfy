/** What `make dev` and `make dev-down` share: the script of the outside world, the log of
    calls made to it, event emission, and the mapping of failures and interrupts to a final
    outcome. */
module LifecycleRun {
  import opened Wrappers
  import opened Events
  import Op = Operation

  /** Before the lock, inside it, and after the mutation. */
  datatype Where = Outside | Inside | After

  /** Everything a run asks of the outside world. StartDeadline and the two releases are the
      run's own doing; they are logged for their order and never fail. */
  datatype Call =
    | ReadConfig(w: Where)
    | LoadManifest
    | RuntimeBase
    | VerifyRuntime
    | ProjectState(w: Where)
    | AssertOwnership(w: Where)
    | AssertNoPath(w: Where)
    | AssertLoopback(w: Where)
    | PreflightPort(d: Dependency, w: Where)
    | EnsureRuntimeDir
    | AcquireLock
    | VerifiedBytes
    | VerifyRuntimeAgain
    | EnsureImage(d: Dependency)
    | StartDeadline
    | BuildSecrets
    | ReconcileUp
    | AttributePort(d: Dependency)
    | ReleaseSecrets
    | Probe(d: Dependency)
    | ListResources(w: Where)
    | ReconcileDown
    | ListRemaining
    | ListRepository
    | ReleaseLock

  type ErrorCode = c: Code | c != OK witness StepFailed

  type Text = s: string | s != "" witness "x"

  /** Raises is a LocalEnvironmentError, Interrupts a KeyboardInterrupt, Breaks any other
      exception: a plain ValueError or OSError that no handler of a run names. */
  datatype Reply = Returns | Raises(code: ErrorCode, message: Text) | Interrupts | Breaks

  /** How a piece of a run ends: it goes on, returns its own verdict, or lets something
      propagate. Escapes is any other exception (ValueError, an illegal transition raised
      inside a handler). */
  datatype Signal = Continues | Verdict(status: Status, reported: Code) | Raised(code: ErrorCode, message: Text) | Interrupted | Escapes

  /** `final` is the status of the operation when the run returned; None if none existed. */
  datatype RunOutcome = Returned(status: Status, code: Code, final: Option<Op.OperationStatus>) | Escaped

  /** The outcome a signal leads to. */
  predicate Matches(outcome: RunOutcome, s: Signal) {
    match s
    case Continues => false
    case Verdict(status, code) => outcome.Returned? && outcome.status == status && outcome.code == code
    case Raised(code, _) => outcome.Returned? && outcome.status == Failed && outcome.code == code
    case Interrupted => outcome == Returned(Failed, StepFailed, Some(Op.Interrupted))
    case Escapes => outcome.Escaped?
  }

  /** Outcomes by signal: a failure keeps its code, an interrupt is a failed step, and nothing else
      that propagates returns at all. */
  lemma OutcomeIs(outcome: RunOutcome, s: Signal)
    requires Matches(outcome, s)
    ensures s.Verdict? ==> outcome.Returned? && outcome.status == s.status && outcome.code == s.reported
    ensures s.Raised? ==> outcome.Returned? && outcome.status == Failed && outcome.code == s.code
    ensures s.Interrupted? ==> outcome == Returned(Failed, StepFailed, Some(Op.Interrupted))
    ensures s.Escapes? <==> outcome.Escaped?
  {
  }

  predicate Own(c: Call) {
    c.StartDeadline? || c.ReleaseSecrets? || c.ReleaseLock?
  }

  /** Calls that change containers, networks or local images. */
  predicate Mutating(c: Call) {
    c.EnsureImage? || c.ReconcileUp? || c.ReconcileDown?
  }

  type Script = Call -> Reply

  function Answer(script: Script, c: Call): Reply {
    if Own(c) then Returns else script(c)
  }

  /** Several calls in a row: the first that does not return decides. */
  function Chain(cs: seq<Call>, script: Script): Reply
    decreases |cs|
  {
    if cs == [] then Returns
    else if !Answer(script, cs[0]).Returns? then Answer(script, cs[0])
    else Chain(cs[1..], script)
  }

  function AsSignal(r: Reply): Signal {
    match r
    case Returns => Continues
    case Raises(code, message) => Raised(code, message)
    case Interrupts => Interrupted
    case Breaks => Escapes
  }

  /** Exceptions of the adapter, the configuration and the lock as their classes declare them:
      only the lock reports contention, only mode checks report a mode. */
  ghost predicate Declared(script: Script) {
    && (forall c: Call :: script(c).Raises? && script(c).code.OperationInProgress? ==> c == AcquireLock)
    && (forall c: Call :: script(c).Raises? && script(c).code.InvalidMode? ==> c.ReadConfig?)
  }

  predicate AllValid(events: seq<Event>) {
    forall k :: 0 <= k < |events| ==> ValidEvent(events[k])
  }

  lemma {:induction false} ChainConcat(a: seq<Call>, b: seq<Call>, script: Script)
    ensures Chain(a + b, script) == if Chain(a, script).Returns? then Chain(b, script) else Chain(a, script)
    decreases |a|
  {
    if a == [] {
      assert a + b == b;
    } else {
      assert (a + b)[1..] == a[1..] + b;
      ChainConcat(a[1..], b, script);
    }
  }

  /** The calls actually made of a plan: up to and including the first that does not return. */
  function Upto(cs: seq<Call>, script: Script): seq<Call>
    decreases |cs|
  {
    if cs == [] then []
    else if !Answer(script, cs[0]).Returns? then [cs[0]]
    else [cs[0]] + Upto(cs[1..], script)
  }

  lemma {:induction false} UptoConcat(a: seq<Call>, b: seq<Call>, script: Script)
    ensures Upto(a + b, script) == if Chain(a, script).Returns? then a + Upto(b, script) else Upto(a, script)
    decreases |a|
  {
    if a == [] {
      assert a + b == b;
    } else {
      assert (a + b)[1..] == a[1..] + b;
      UptoConcat(a[1..], b, script);
      if Chain(a, script).Returns? { assert [a[0]] + (a[1..] + Upto(b, script)) == a + Upto(b, script); }
    }
  }

  lemma {:induction false} UptoIsPrefix(cs: seq<Call>, script: Script)
    ensures Upto(cs, script) <= cs
    ensures forall c :: c in Upto(cs, script) ==> c in cs
    ensures Chain(cs, script).Returns? <==> Upto(cs, script) == cs && (cs == [] || Answer(script, cs[|cs| - 1]).Returns?)
    decreases |cs|
  {
    if cs != [] { UptoIsPrefix(cs[1..], script); }
  }

  /** A plan made of two stretches, by reply and by calls made. */
  lemma Stretch(a: seq<Call>, b: seq<Call>, script: Script)
    ensures Chain(a + b, script) == if Chain(a, script).Returns? then Chain(b, script) else Chain(a, script)
    ensures Upto(a + b, script) == if Chain(a, script).Returns? then a + Upto(b, script) else Upto(a, script)
  {
    ChainConcat(a, b, script);
    UptoConcat(a, b, script);
  }

  lemma {:induction false} AllMade(cs: seq<Call>, script: Script)
    requires Chain(cs, script).Returns?
    ensures Upto(cs, script) == cs
    decreases |cs|
  {
    if cs != [] { AllMade(cs[1..], script); }
  }

  /** A plan returns exactly if every call in it does; otherwise some call decides. */
  lemma {:induction false} SomeCallDecides(cs: seq<Call>, script: Script)
    ensures Chain(cs, script).Returns? <==> forall c :: c in cs ==> Answer(script, c).Returns?
    ensures !Chain(cs, script).Returns? ==> exists c :: c in cs && !Own(c) && Chain(cs, script) == script(c)
    decreases |cs|
  {
    if cs != [] {
      SomeCallDecides(cs[1..], script);
      assert forall c :: c in cs <==> c == cs[0] || c in cs[1..];
    }
  }

  /** One of the calls made came back with an exception no handler names. */
  predicate SomeBreaks(made: seq<Call>, script: Script) {
    exists c :: c in made && Answer(script, c).Breaks?
  }

  /** A plan breaks exactly if a call made of it does. */
  lemma {:induction false} BreaksExactlyWhen(cs: seq<Call>, script: Script)
    ensures Chain(cs, script).Breaks? <==> SomeBreaks(Upto(cs, script), script)
    decreases |cs|
  {
    if cs != [] {
      BreaksExactlyWhen(cs[1..], script);
      if Answer(script, cs[0]).Returns? {
        SomeBreaksJoins([cs[0]], Upto(cs[1..], script), script);
        assert Upto(cs, script) == [cs[0]] + Upto(cs[1..], script);
      } else {
        assert Upto(cs, script) == [cs[0]];
      }
    }
  }

  lemma SomeBreaksJoins(a: seq<Call>, b: seq<Call>, script: Script)
    ensures SomeBreaks(a + b, script) <==> SomeBreaks(a, script) || SomeBreaks(b, script)
  {
    assert forall c :: c in a + b <==> c in a || c in b;
  }

  lemma NothingBreaks(script: Script)
    ensures !SomeBreaks([], script) && !SomeBreaks([ReleaseLock], script) && !SomeBreaks([ReleaseSecrets], script)
    ensures forall c :: SomeBreaks([c], script) <==> Answer(script, c).Breaks?
  {
    forall c
      ensures SomeBreaks([c], script) <==> Answer(script, c).Breaks?
    {
      assert [c][0] == c;
    }
  }

  lemma FirstDecides(cs: seq<Call>, script: Script)
    requires cs != []
    ensures !Answer(script, cs[0]).Returns? ==> Chain(cs, script) == Answer(script, cs[0]) && Upto(cs, script) == [cs[0]]
    ensures |cs| == 1 ==> Chain(cs, script) == Answer(script, cs[0])
  {
  }

  /** After `i` calls that returned, the next one goes on or settles the matter. */
  lemma OneCall(cs: seq<Call>, i: nat, script: Script)
    requires i < |cs| && Chain(cs[..i], script).Returns?
    ensures if Answer(script, cs[i]).Returns? then Chain(cs[..i + 1], script).Returns?
            else Chain(cs, script) == Answer(script, cs[i]) && Upto(cs, script) == cs[..i + 1]
  {
    hide Chain, Upto;
    assert cs == cs[..i] + cs[i..];
    Stretch(cs[..i], cs[i..], script);
    assert cs[..i + 1] == cs[..i] + [cs[i]];
    Stretch(cs[..i], [cs[i]], script);
    FirstDecides(cs[i..], script);
    FirstDecides([cs[i]], script);
  }

  predicate AllPassed(events: seq<Event>) {
    forall k :: 0 <= k < |events| ==> events[k].status.Passed?
  }

  /** A complete record: valid throughout, closed by a final event that agrees with the
      aggregate of all of them. */
  predicate Concludes(events: seq<Event>, status: Status) {
    && AllValid(events)
    && events != []
    && events[|events| - 1].phase.Final? && events[|events| - 1].status == status
    && AggregateStatus(events) == status
  }

  lemma ConcludesPassed(events: seq<Event>)
    requires AllValid(events) && AllPassed(events) && events != [] && events[|events| - 1].phase.Final?
    ensures Concludes(events, Passed)
  {
    AggregatePassesExactlyWhen(events);
  }

  lemma ConcludesFailed(events: seq<Event>)
    requires AllValid(events) && events != []
    requires events[|events| - 1].phase.Final? && events[|events| - 1].status.Failed?
    ensures Concludes(events, Failed)
  {
    AggregatePassesExactlyWhen(events);
  }

  /** The requested mode, and where make says it came from. */
  datatype Mode = NoMode | EmptyMode | LocalMode | SomeOtherMode

  datatype Origin = Command | CommandLine | Override | Environment | File | NoOrigin

  /** A mode is accepted if omitted, or `local` from the command line. */
  predicate ModeAccepted(mode: Mode, origin: Origin) {
    match mode
    case NoMode => true
    case EmptyMode => true
    case LocalMode => origin.Command? || origin.CommandLine? || origin.Override?
    case SomeOtherMode => false
  }

  /** The state of one run: its emitter's events, the calls it has made, whether it holds the
      project lock (and held it when it last emitted), and its local variables. */
  datatype Run = Run(action: Action, events: seq<Event>, heldAtLast: bool, calls: seq<Call>, held: bool,
                     phase: Phase, current: Option<Dependency>, operation: Option<Op.Operation>)

  function Begun(action: Action, phase: Phase): Run {
    Run(action, [], false, [], false, phase, None, None)
  }

  predicate Valid(run: Run) {
    !run.action.OtherAction? && AllValid(run.events)
  }

  /** Nothing has failed so far. */
  predicate Clean(run: Run) {
    Valid(run) && AllPassed(run.events)
  }

  function EventOf(run: Run, phase: Phase, status: Status, code: Code, message: string, dependency: Option<Dependency>): Event {
    Event(run.action, if dependency.Some? then Infra else Repository, phase, status, code, dependency, message)
  }

  /** Emission raises ValueError, and appends nothing, on an invalid payload. */
  method Emit(run: Run, phase: Phase, status: Status, code: Code, message: string, dependency: Option<Dependency>) returns (next: Run, ok: bool)
    requires Valid(run)
    ensures ok == ValidEvent(EventOf(run, phase, status, code, message, dependency))
    ensures next == if ok then run.(events := run.events + [EventOf(run, phase, status, code, message, dependency)], heldAtLast := run.held) else run
    ensures Valid(next)
  {
    var e := EventOf(run, phase, status, code, message, dependency);
    ok := ValidEvent(e);
    next := if ok then run.(events := run.events + [e], heldAtLast := run.held) else run;
  }

  function Ok(action: Action, phase: Phase, dependency: Option<Dependency>): Event {
    Event(action, if dependency.Some? then Infra else Repository, phase, Passed, OK, dependency, "ok")
  }

  /** A PASSED event; its payload is valid by construction. */
  method Announce(run: Run, phase: Phase, dependency: Option<Dependency>) returns (next: Run)
    requires Clean(run) && (dependency.None? ==> !DependencyPhase(phase))
    ensures Clean(next)
    ensures next == run.(events := run.events + [Ok(run.action, phase, dependency)], heldAtLast := run.held)
  {
    var ok;
    next, ok := Emit(run, phase, Passed, OK, "ok", dependency);
  }

  method Do(run: Run, script: Script, c: Call) returns (next: Run, r: Reply)
    ensures next == run.(calls := run.calls + [c]) && r == Answer(script, c)
  {
    next := run.(calls := run.calls + [c]);
    r := if Own(c) then Returns else script(c);
  }

  /** The last call made. */
  function LastMade(run: Run): Call { if run.calls == [] then ReleaseLock else run.calls[|run.calls| - 1] }

  /** Calls in a row, up to the first that does not return. */
  method DoAll(run: Run, script: Script, cs: seq<Call>) returns (next: Run, r: Reply)
    ensures r == Chain(cs, script) && next == run.(calls := run.calls + Upto(cs, script))
    ensures r.Returns? ==> next.calls == run.calls + cs
    ensures !r.Returns? ==> LastMade(next) in cs && Answer(script, LastMade(next)) == r
  {
    next := run;
    for i := 0 to |cs|
      invariant next == run.(calls := run.calls + cs[..i])
      invariant Chain(cs[..i], script).Returns?
    {
      OneCall(cs, i, script);
      next, r := Do(next, script, cs[i]);
      assert run.calls + cs[..i] + [cs[i]] == run.calls + cs[..i + 1];
      if !r.Returns? { return; }
    }
    assert cs[..|cs|] == cs;
    AllMade(cs, script);
    r := Returns;
  }

  /** The operation moves; an illegal move is an exception of its own. */
  method Move(run: Run, to: Op.OperationStatus) returns (next: Run, ok: bool)
    requires run.operation.Some?
    ensures ok == Op.Allowed(run.operation.value.status, to)
    ensures next == if ok then run.(operation := Op.Transition(run.operation.value, to)) else run
  {
    var moved := Op.Transition(run.operation.value, to);
    ok := moved.Some?;
    next := if ok then run.(operation := moved) else run;
  }

  function FinalStatus(run: Run): Option<Op.OperationStatus> {
    if run.operation.Some? then Some(run.operation.value.status) else None
  }

  function FailedFinal(action: Action, code: ErrorCode, message: Text): Event {
    Event(action, Repository, Final, Failed, if DependencyCode(code) then StepFailed else code, None, message)
  }

  /** Closes a failed run: a dependency-scoped code is degraded in the event, not in the outcome. */
  method Fail(run: Run, code: ErrorCode, message: Text) returns (next: Run, outcome: RunOutcome)
    requires Valid(run)
    ensures Valid(next) && Concludes(next.events, Failed)
    ensures next == run.(events := run.events + [FailedFinal(run.action, code, message)], heldAtLast := run.held)
    ensures outcome == Returned(Failed, code, FinalStatus(run))
  {
    var ok;
    next, ok := Emit(run, Final, Failed, if DependencyCode(code) then StepFailed else code, message, None);
    ConcludesFailed(next.events);
    outcome := Returned(Failed, code, FinalStatus(run));
  }

  /** The phase a failure is reported in when no dependency can be named. */
  function Undirected(phase: Phase): Phase { if DependencyPhase(phase) then Final else phase }

  const INTERRUPTED: Text := "interrupted"

  /** What an interrupt adds to the record: one event in its phase, and the final one. */
  function InterruptEvents(action: Action, phase: Phase): seq<Event> {
    (if Undirected(phase).Final? then [] else [Event(action, Repository, phase, Failed, StepFailed, None, INTERRUPTED)]) +
    [FailedFinal(action, StepFailed, INTERRUPTED)]
  }

  /** An interrupt becomes a FAILED outcome with a final event and an INTERRUPTED operation. */
  method Interrupt(run: Run) returns (next: Run, outcome: RunOutcome)
    requires Valid(run)
    requires run.operation.Some? ==> !Op.Terminal(run.operation.value.status)
    ensures Valid(next) && Concludes(next.events, Failed)
    ensures next == run.(events := run.events + InterruptEvents(run.action, run.phase), heldAtLast := run.held, operation := next.operation)
    ensures run.operation.Some? ==> next.operation.Some? && next.operation.value.status.Interrupted?
    ensures outcome == Returned(Failed, StepFailed, Some(Op.Interrupted))
  {
    hide INTERRUPTED, AggregateStatus, AllPassed;
    var ok;
    next := run;
    if run.operation.Some? {
      next, ok := Move(run, Op.Interrupted);
    }
    var eventPhase := Undirected(run.phase);
    next, ok := Emit(next, eventPhase, Failed, StepFailed, INTERRUPTED, None);
    if !eventPhase.Final? {
      next, ok := Emit(next, Final, Failed, StepFailed, INTERRUPTED, None);
    }
    ConcludesFailed(next.events);
    outcome := Returned(Failed, StepFailed, Some(Op.Interrupted));
  }
}
