/** `make dev`: the guarded start, statement by statement against a script of replies, and the
    few lines that say what it comes to. */
module StartRun {
  import opened Wrappers
  import opened Events
  import opened LifecycleRun
  import Op = Operation
  import Probes
  import Config

  const READINESS_BUDGET: real := 60.0

  /** A remainder this small is treated as no time at all. */
  const MIN_REMAINING: real := 0.000001

  /** One run's outside world: the replies to its calls, the probe evidence with the time each
      probe completed, and the clock at the points where the deadline is looked at. */
  datatype World = World(
    mode: Mode, origin: Origin,
    script: Script,
    health: Dependency -> Probes.HealthResult, completed: Dependency -> real,
    begin: real, beforeReconcile: real, afterReconcile: real)

  const Dependencies := [Postgres, Redis, Grafana]

  function Deadline(w: World): real { w.begin + READINESS_BUDGET }

  // ------------------------------------------------------------------ the plan

  function Ports(w: Where): seq<Call> { [PreflightPort(Postgres, w), PreflightPort(Redis, w), PreflightPort(Grafana, w)] }
  function InspectOutside(): seq<Call> {
    [LoadManifest, RuntimeBase, VerifyRuntime, ProjectState(Outside), AssertOwnership(Outside), AssertNoPath(Outside), AssertLoopback(Outside)]
  }
  function TakeLock(): seq<Call> { [EnsureRuntimeDir, AcquireLock] }
  function InspectInside(): seq<Call> {
    [ReadConfig(Inside), VerifiedBytes, VerifyRuntimeAgain, ProjectState(Inside), AssertOwnership(Inside), AssertNoPath(Inside), AssertLoopback(Inside)]
  }
  function Images(): seq<Call> { [EnsureImage(Postgres), EnsureImage(Redis), EnsureImage(Grafana)] }
  function Arm(): seq<Call> { [StartDeadline, BuildSecrets] }
  function Confirm(): seq<Call> {
    [ProjectState(After), AssertOwnership(After), AssertLoopback(After), Probe(Postgres), Probe(Redis), Probe(Grafana)]
  }

  function Identification(): seq<Call> { [ReadConfig(Outside)] + InspectOutside() }
  function BeforeLock(): seq<Call> { Identification() + Ports(Outside) + TakeLock() }
  function Revalidation(): seq<Call> { InspectInside() + Ports(Inside) }
  function InsideLock(): seq<Call> { Revalidation() + Images() + Arm() }

  // ------------------------------------------------------------------ what a run comes to

  /** The re-checks that pin a lost bind race on the first dependency whose port fails again. */
  function Attribute(): seq<Call> { [AttributePort(Postgres), AttributePort(Redis), AttributePort(Grafana)] }

  predicate Fresh(w: World, d: Dependency) { w.completed(d) <= Deadline(w) }

  predicate ReadyInTime(w: World, d: Dependency) { w.health(d).ready && Fresh(w, d) }

  predicate Unreportable(r: Probes.HealthResult) { !r.ready && r.reason == "" }

  function Results(w: World): seq<Probes.HealthResult> { [w.health(Postgres), w.health(Redis), w.health(Grafana)] }

  function InTime(w: World): seq<bool> { [Fresh(w, Postgres), Fresh(w, Redis), Fresh(w, Grafana)] }

  predicate AllReadyInTime(w: World) {
    ReadyInTime(w, Postgres) && ReadyInTime(w, Redis) && ReadyInTime(w, Grafana)
  }

  function OnEvidence(w: World): Signal {
    if Unreportable(w.health(Postgres)) || Unreportable(w.health(Redis)) || Unreportable(w.health(Grafana)) then Escapes
    else if AllReadyInTime(w) then Verdict(Passed, OK)
    else Verdict(Failed, DependencyNotReady)
  }

  /** What follows once the deadline runs. */
  function AfterDeadline(w: World): Signal {
    if Deadline(w) - w.beforeReconcile <= MIN_REMAINING then Verdict(Failed, DependencyNotReady)
    else match w.script(ReconcileUp)
         case Interrupts => Interrupted
         case Breaks => Escapes
         case Raises(code, message) =>
           if !code.PortConflict? then Verdict(Failed, code)
           else (match Chain(Attribute(), w.script)
                 case Returns => Escapes
                 case Interrupts => Interrupted
                 case Breaks => Escapes
                 case Raises(c, m) => if c.PortConflict? then Verdict(Failed, PortConflict) else Raised(c, m))
         case Returns => AfterReconcile(w)
  }

  function AfterReconcile(w: World): Signal {
    if Deadline(w) - w.afterReconcile <= MIN_REMAINING then Verdict(Failed, DependencyNotReady)
    else if !Chain(Confirm(), w.script).Returns? then AsSignal(Chain(Confirm(), w.script))
    else OnEvidence(w)
  }

  /** The whole run: the first call that does not return decides. */
  function Reference(w: World): Signal {
    if !ModeAccepted(w.mode, w.origin) then Raised(InvalidMode, "x")
    else if !Chain(BeforeLock() + InsideLock(), w.script).Returns? then AsSignal(Chain(BeforeLock() + InsideLock(), w.script))
    else AfterDeadline(w)
  }

  predicate LostTheRace(w: World) {
    w.script(ReconcileUp).Raises? && w.script(ReconcileUp).code.PortConflict?
  }

  /** The calls a run makes, in order. */
  function CallsMade(w: World): seq<Call> {
    if !ModeAccepted(w.mode, w.origin) then []
    else if !Chain(BeforeLock(), w.script).Returns? then Upto(BeforeLock(), w.script)
    else BeforeLock() + CallsInside(w) + [ReleaseLock]
  }

  function CallsInside(w: World): seq<Call> {
    if !Chain(InsideLock(), w.script).Returns? then Upto(InsideLock(), w.script)
    else InsideLock() + DeadlineCalls(w)
  }

  function DeadlineCalls(w: World): seq<Call> {
    if Deadline(w) - w.beforeReconcile <= MIN_REMAINING then []
    else
      [ReconcileUp] + (if LostTheRace(w) then Upto(Attribute(), w.script) else []) + [ReleaseSecrets] +
      (if w.script(ReconcileUp).Returns? && Deadline(w) - w.afterReconcile > MIN_REMAINING then Upto(Confirm(), w.script) else [])
  }

  // ------------------------------------------------------------------ what a passing run reports

  function BeforeLockEvents(): seq<Event> { [Ok(Dev, Identity, None), Ok(Dev, Preflight, None)] }

  /** Pull and verification of the first `n` images, each on its own and apart from readiness. */
  function ImageEvents(n: nat): seq<Event>
    requires n <= 3
  {
    if n == 0 then []
    else ImageEvents(n - 1) + [Ok(Dev, ImagePull, Some(Dependencies[n - 1])), Ok(Dev, ImageVerify, Some(Dependencies[n - 1]))]
  }

  /** One event of a phase for each of the first `n` dependencies. */
  function EachEvents(phase: Phase, n: nat): seq<Event>
    requires n <= 3
  {
    if n == 0 then [] else EachEvents(phase, n - 1) + [Ok(Dev, phase, Some(Dependencies[n - 1]))]
  }

  function InsideEvents(): seq<Event> { [Ok(Dev, Lock, None)] + ImageEvents(3) }

  // ------------------------------------------------------------------ what any run reports

  /** The phase a call is made in. */
  function PhaseAt(p: Where): Phase { match p case Outside => Preflight case Inside => Lock case After => Reconcile }

  function PhaseOf(c: Call): Phase {
    match c
    case LoadManifest => Preflight
    case RuntimeBase => Preflight
    case VerifyRuntime => Preflight
    case ReadConfig(p) => PhaseAt(p)
    case ProjectState(p) => PhaseAt(p)
    case AssertOwnership(p) => PhaseAt(p)
    case AssertNoPath(p) => PhaseAt(p)
    case AssertLoopback(p) => PhaseAt(p)
    case PreflightPort(_, p) => PhaseAt(p)
    case EnsureRuntimeDir => Lock
    case AcquireLock => Lock
    case VerifiedBytes => Lock
    case VerifyRuntimeAgain => Lock
    case EnsureImage(_) => ImagePull
    case _ => Reconcile
  }

  /** The dependency a call is made for. */
  function DependencyOf(c: Call): Option<Dependency> {
    match c
    case PreflightPort(d, _) => Some(d)
    case EnsureImage(d) => Some(d)
    case _ => None
  }

  function Place(d: Dependency): nat { match d case Postgres => 0 case Redis => 1 case Grafana => 2 }

  function EarlyEvents(): seq<Event> { BeforeLockEvents() + InsideEvents() }

  /** What is on record when one of the early calls is made. */
  function EventsBefore(c: Call): seq<Event> {
    match PhaseOf(c)
    case Preflight => if c == ReadConfig(Outside) then [] else [Ok(Dev, Identity, None)]
    case Lock => BeforeLockEvents()
    case ImagePull => if c.EnsureImage? then BeforeLockEvents() + ([Ok(Dev, Lock, None)] + ImageEvents(Place(c.d))) else []
    case _ => EarlyEvents()
  }

  /** What a run adds when it ends by a failure that was raised, or by an interrupt. */
  function Tail(phase: Phase, current: Option<Dependency>, s: Signal): seq<Event> {
    match s
    case Raised(code, message) => [Report(phase, current, code, message), FailedFinal(Dev, code, message)]
    case Interrupted => InterruptEvents(Dev, phase)
    case _ => []
  }

  function Last(cs: seq<Call>): Call { if cs == [] then ReleaseLock else cs[|cs| - 1] }

  /** The early call that did not return. */
  function Stopper(w: World): Call { Last(Upto(BeforeLock() + InsideLock(), w.script)) }

  const NEVER := [false, false, false]

  function TimeoutEvents(): seq<Event> { JudgedEvents(TimeoutResults(), NEVER) + [Closing(Failed)] }

  /** What a run reports once the deadline runs, up to its verdict, or up to what ends it. */
  function LateEvents(w: World): seq<Event> {
    if Deadline(w) - w.beforeReconcile <= MIN_REMAINING then TimeoutEvents()
    else match w.script(ReconcileUp)
         case Interrupts => []
         case Breaks => []
         case Raises(code, message) =>
           if AfterDeadline(w).Verdict? then FailureEvents(w.script, code, message) + [FailedFinal(Dev, code, message)] else []
         case Returns => EachEvents(Reconcile, 3) + ConfirmedEvents(w)
  }

  function ConfirmedEvents(w: World): seq<Event> {
    if Deadline(w) - w.afterReconcile <= MIN_REMAINING then TimeoutEvents()
    else if !Chain(Confirm(), w.script).Returns? then []
    else JudgedEvents(Results(w), InTime(w)) + [Closing(if AllReadyInTime(w) then Passed else Failed)]
  }

  /** The whole record of a run that returns. */
  function Record(w: World): seq<Event> {
    if !ModeAccepted(w.mode, w.origin) then Tail(Preflight, None, Reference(w))
    else if !Chain(BeforeLock() + InsideLock(), w.script).Returns?
    then EventsBefore(Stopper(w)) + Tail(PhaseOf(Stopper(w)), DependencyOf(Stopper(w)), Reference(w))
    else EarlyEvents() + LateEvents(w) + Tail(Reconcile, None, Reference(w))
  }

  /** How the operation stands in the end; None if there never was one. */
  function FinalOf(w: World): Option<Op.OperationStatus> {
    match Reference(w)
    case Verdict(status, _) => Some(if status.Passed? then Op.Succeeded else Op.Failed)
    case Raised(code, _) =>
      if !ModeAccepted(w.mode, w.origin) then None
      else if Chain(BeforeLock() + InsideLock(), w.script).Returns? then Some(Op.Failed)
      else if Stopper(w) == ReadConfig(Outside) then None
      else Some(if PhaseOf(Stopper(w)).Preflight? || code.OperationInProgress? then Op.Rejected else Op.Failed)
    case _ => Some(Op.Interrupted)
  }

  /** A run that was stopped by its last call. */
  predicate Stuck(run: Run) { StuckAt(run, LastMade(run)) }

  predicate StuckAt(run: Run, c: Call) {
    && run.phase == PhaseOf(c) && run.current == DependencyOf(c) && run.events == EventsBefore(c)
    && (run.operation.None? <==> c == ReadConfig(Outside))
  }

  lemma {:induction false} StopperIsMade(cs: seq<Call>, script: Script)
    ensures !Chain(cs, script).Returns? ==> Upto(cs, script) != [] && Chain(cs, script) == Answer(script, Last(Upto(cs, script)))
    decreases |cs|
  {
    if cs != [] && Answer(script, cs[0]).Returns? { StopperIsMade(cs[1..], script); }
  }

  // ------------------------------------------------------------------ the run

  /** The operation can still be settled by the outer handlers. */
  predicate Open(run: Run) {
    && Clean(run) && run.action == Dev
    && (run.operation.Some? ==> run.operation.value.status.Requested? || run.operation.value.status.Running?)
    && (run.operation.Some? && run.operation.value.status.Running? ==> !run.phase.Identity? && !run.phase.Preflight?)
  }

  lemma InspectionIsPreflight()
    ensures forall c :: c in InspectOutside() ==> PhaseOf(c) == Preflight && DependencyOf(c).None? && c != ReadConfig(Outside)
  {
  }

  lemma NothingIsOpen(begun: Run)
    requires begun == Begun(Dev, Preflight)
    ensures Open(begun)
  {
  }

  /** Steps 1 to 5: mode and configuration, then identity, then the read-only inspection. */
  method Identify(begun: Run, w: World) returns (run: Run, s: Signal)
    requires begun == Begun(Dev, Preflight)
    ensures Open(run) && run.phase == Preflight && run.current.None? && !run.held
    ensures s == if ModeAccepted(w.mode, w.origin) then AsSignal(Chain(Identification(), w.script)) else Raised(InvalidMode, "x")
    ensures run.calls == if ModeAccepted(w.mode, w.origin) then Upto(Identification(), w.script) else []
    ensures s.Continues? ==> run.calls == Identification() && run.operation == Some(Op.Fresh) && run.events == [Ok(Dev, Identity, None)]
    ensures run.operation.Some? ==> run.operation == Some(Op.Fresh)
    ensures if !ModeAccepted(w.mode, w.origin) then run == begun else s.Continues? || Stuck(run)
  {
    InspectionIsPreflight();
    hide Chain, Upto, Ok, InspectOutside, AllValid, AllPassed;
    assert Open(begun) by { NothingIsOpen(begun); }
    run := begun;
    if !ModeAccepted(w.mode, w.origin) { return run, Raised(InvalidMode, "x"); }
    Stretch([ReadConfig(Outside)], InspectOutside(), w.script);
    var r;
    run, r := DoAll(run, w.script, [ReadConfig(Outside)]);
    if r.Returns? {
      run := run.(operation := Some(Op.Fresh));
      run := Announce(run, Identity, None);
      run, r := DoAll(run, w.script, InspectOutside());
    }
    s := AsSignal(r);
  }

  lemma NoImagesYet()
    ensures ImageEvents(0) == []
  {
  }

  method AnnounceImage(start: Run, i: nat) returns (run: Run)
    requires Open(start) && i < 3 && start.current == Some(Dependencies[i])
    ensures Open(run) && run == start.(events := run.events, heldAtLast := run.heldAtLast)
    ensures forall before: seq<Event> :: start.events == before + ImageEvents(i) ==> run.events == before + ImageEvents(i + 1)
  {
    run := Announce(start, ImagePull, start.current);
    run := Announce(run, ImageVerify, run.current);
    assert run.events == start.events + [Ok(Dev, ImagePull, start.current), Ok(Dev, ImageVerify, start.current)];
  }

  /** One call per dependency, attributed to it while it runs; for images, with the two
      events that report a pull separately from readiness. */
  method PerDependency(start: Run, script: Script, calls: seq<Call>, images: bool) returns (run: Run, r: Reply)
    requires Open(start) && |calls| == 3 && start.current.None?
    ensures Open(run) && r == Chain(calls, script) && run.calls == start.calls + Upto(calls, script)
    ensures run == start.(events := run.events, heldAtLast := run.heldAtLast, calls := run.calls, current := run.current)
    ensures r.Returns? ==> run.current.None? && run.calls == start.calls + calls
    ensures r.Returns? ==> run.events == start.events + if images then ImageEvents(3) else []
    ensures !r.Returns? ==> exists k :: 0 <= k < 3 && LastMade(run) == calls[k] && run.current == Some(Dependencies[k]) &&
                              run.events == start.events + if images then ImageEvents(k) else []
  {
    hide ImageEvents;
    assert ImageEvents(0) == [] by { NoImagesYet(); }
    run := start;
    for i := 0 to 3
      invariant run.events == start.events + if images then ImageEvents(i) else []
      invariant Open(run) && run.calls == start.calls + calls[..i] && Chain(calls[..i], script).Returns?
      invariant run == start.(events := run.events, heldAtLast := run.heldAtLast, calls := run.calls, current := run.current)
    {
      OneCall(calls, i, script);
      run := run.(current := Some(Dependencies[i]));
      run, r := Do(run, script, calls[i]);
      assert start.calls + calls[..i] + [calls[i]] == start.calls + calls[..i + 1];
      if !r.Returns? { return; }
      if images { run := AnnounceImage(run, i); }
    }
    assert calls[..3] == calls;
    AllMade(calls, script);
    run := run.(current := None);
    r := Returns;
  }

  /** Steps 6 and 7: the per-dependency port preflight, the runtime directory, the lock. */
  method UpToTheLock(begun: Run, w: World) returns (run: Run, s: Signal)
    requires begun == Begun(Dev, Preflight)
    ensures Open(run) && !run.held
    ensures s == if ModeAccepted(w.mode, w.origin) then AsSignal(Chain(BeforeLock(), w.script)) else Raised(InvalidMode, "x")
    ensures run.calls == if ModeAccepted(w.mode, w.origin) then Upto(BeforeLock(), w.script) else []
    ensures s.Continues? ==>
              && run.calls == BeforeLock() && run.current.None? && run.phase == Lock && run.operation == Some(Op.Fresh)
              && run.events == BeforeLockEvents()
    ensures run.operation.Some? ==> run.operation == Some(Op.Fresh)
    ensures if !ModeAccepted(w.mode, w.origin) then run == begun else s.Continues? || Stuck(run)
  {
    hide Chain, Upto, Identification, Ports, TakeLock, Ok, Stuck, AllPassed, AllValid;
    ThreePorts(Outside);
    Stretch(Identification(), Ports(Outside), w.script);
    Stretch(Identification() + Ports(Outside), TakeLock(), w.script);
    run, s := Identify(begun, w);
    if !s.Continues? { return; }
    var r;
    run, r := PerDependency(run, w.script, Ports(Outside), false);
    if r.Returns? {
      run := Announce(run, Preflight, None);
      run := run.(phase := Lock);
      run, r := DoAll(run, w.script, TakeLock());
      if !r.Returns? { StuckTakingLock(run); }
    } else {
      StuckOnPort(run, Outside);
    }
    s := AsSignal(r);
  }

  lemma ThreePorts(p: Where)
    ensures |Ports(p)| == 3 && forall k :: 0 <= k < 3 ==> Ports(p)[k] == PreflightPort(Dependencies[k], p)
  {
  }

  /** Stopped at the check of a port. */
  lemma StuckOnPort(run: Run, p: Where)
    requires p != After && run.phase == PhaseAt(p) && run.operation.Some?
    requires exists k :: 0 <= k < 3 && LastMade(run) == PreflightPort(Dependencies[k], p) && run.current == Some(Dependencies[k])
    requires run.events == if p.Outside? then [Ok(Dev, Identity, None)] else BeforeLockEvents()
    ensures Stuck(run)
  {
    hide BeforeLockEvents, Ok;
  }

  /** Stopped at the lock, or at an inspection under it. */
  lemma StuckTakingLock(run: Run)
    requires LastMade(run) in TakeLock() || LastMade(run) in InspectInside()
    requires run.phase == Lock && run.current.None? && run.operation.Some? && run.events == BeforeLockEvents()
    ensures Stuck(run)
  {
    hide BeforeLockEvents, Ok;
  }

  /** Step 8: everything checked again, now that nobody else can change it. */
  method Revalidate(start: Run, script: Script) returns (run: Run, r: Reply)
    requires Open(start) && start.phase == Lock && start.held && start.current.None? && start.operation == Some(Op.Fresh)
    ensures Open(run) && run.held && run.phase == Lock && run.operation.Some?
    ensures r == Chain(Revalidation(), script) && run.calls == start.calls + Upto(Revalidation(), script)
    ensures r.Returns? ==>
              && run.calls == start.calls + Revalidation() && run.current.None? && run.operation == Some(Op.Operation(Op.Running, None, None))
              && run.events == start.events + [Ok(Dev, Lock, None)]
    ensures start.events == BeforeLockEvents() && !r.Returns? ==> Stuck(run)
  {
    hide Chain, Upto, Ok, BeforeLockEvents, InspectInside, Ports, Stuck, AllPassed, AllValid;
    ThreePorts(Inside);
    Stretch(InspectInside(), Ports(Inside), script);
    run, r := DoAll(start, script, InspectInside());
    if !r.Returns? {
      if start.events == BeforeLockEvents() { StuckTakingLock(run); }
      return;
    }
    run, r := PerDependency(run, script, Ports(Inside), false);
    if !r.Returns? {
      if start.events == BeforeLockEvents() { StuckOnPort(run, Inside); }
      return;
    }
    run := Announce(run, Lock, None);
    var moved;
    run, moved := Move(run, Op.Running);
  }

  lemma ThreeImages()
    ensures |Images()| == 3 && InsideEvents() == [Ok(Dev, Lock, None)] + ImageEvents(3)
  {
  }

  lemma ImagesAreInPlace()
    ensures forall k :: 0 <= k < 3 ==> Images()[k] == EnsureImage(Dependencies[k]) && Place(Dependencies[k]) == k
  {
  }

  /** Step 9: every image pulled and verified. */
  method UpToTheImages(start: Run, script: Script) returns (run: Run, r: Reply)
    requires Open(start) && start.phase == Lock && start.held && start.current.None? && start.operation == Some(Op.Fresh)
    ensures Open(run) && run.held && !run.phase.Identity? && !run.phase.Preflight? && run.operation.Some?
    ensures r == Chain(Revalidation() + Images(), script) && run.calls == start.calls + Upto(Revalidation() + Images(), script)
    ensures r.Returns? ==>
              && run.calls == start.calls + (Revalidation() + Images()) && run.current.None?
              && run.operation == Some(Op.Operation(Op.Running, None, None)) && run.events == start.events + InsideEvents()
    ensures start.events == BeforeLockEvents() && !r.Returns? ==> Stuck(run)
  {
    hide Chain, Upto, Revalidation, Images, ImageEvents, InsideEvents, BeforeLockEvents, Stuck, Ok, AllPassed, AllValid;
    ThreeImages();
    ImagesAreInPlace();
    Stretch(Revalidation(), Images(), script);
    run, r := Revalidate(start, script);
    if !r.Returns? { return; }
    run := run.(phase := ImagePull);
    run, r := PerDependency(run, script, Images(), true);
    if !r.Returns? && start.events == BeforeLockEvents() { StuckOnSomeImage(run); }
  }

  lemma StuckOnSomeImage(run: Run)
    requires run.phase == ImagePull && run.operation.Some?
    requires exists k :: 0 <= k < 3 && LastMade(run) == Images()[k] && run.current == Some(Dependencies[k]) &&
                         run.events == BeforeLockEvents() + [Ok(Dev, Lock, None)] + ImageEvents(k)
    ensures Stuck(run)
  {
    hide ImageEvents, BeforeLockEvents, Ok;
    ImagesAreInPlace();
    var k :| 0 <= k < 3 && LastMade(run) == Images()[k] && run.current == Some(Dependencies[k]) &&
             run.events == BeforeLockEvents() + [Ok(Dev, Lock, None)] + ImageEvents(k);
    StuckOnImage(run, k);
  }

  lemma StuckOnImage(run: Run, k: nat)
    requires k < 3 && LastMade(run) == EnsureImage(Dependencies[k]) && run.current == Some(Dependencies[k]) && run.phase == ImagePull && run.operation.Some?
    requires run.events == BeforeLockEvents() + [Ok(Dev, Lock, None)] + ImageEvents(k)
    ensures Stuck(run)
  {
    hide ImageEvents, BeforeLockEvents, Ok;
    ImagesAreInPlace();
  }

  lemma ArmIsLate()
    ensures forall c :: c in Arm() ==> PhaseOf(c) == Reconcile && DependencyOf(c).None? && c != ReadConfig(Outside)
  {
  }

  /** Then the one deadline, and the secrets. */
  method UpToTheDeadline(start: Run, w: World) returns (run: Run, s: Signal)
    requires Open(start) && start.phase == Lock && start.held && start.current.None? && start.operation == Some(Op.Fresh)
    ensures Open(run) && run.held && !run.phase.Identity? && !run.phase.Preflight? && run.operation.Some?
    ensures s == AsSignal(Chain(InsideLock(), w.script)) && run.calls == start.calls + Upto(InsideLock(), w.script)
    ensures s.Continues? ==>
              && run.calls == start.calls + InsideLock() && run.current.None? && run.phase == Reconcile
              && run.operation == Some(Op.Operation(Op.Running, Some(w.begin), Some(Deadline(w))))
              && run.events == start.events + InsideEvents()
    ensures start.events == BeforeLockEvents() && !s.Continues? ==> Stuck(run)
  {
    hide Chain, Upto, Revalidation, Images, Arm, InsideEvents, BeforeLockEvents, AllPassed, AllValid;
    ArmIsLate();
    Stretch(Revalidation() + Images(), Arm(), w.script);
    var r;
    run, r := UpToTheImages(start, w.script);
    if !r.Returns? { return run, AsSignal(r); }
    run := run.(operation := Op.BeginReadiness(run.operation.value, w.begin, READINESS_BUDGET), phase := Reconcile);
    run, r := DoAll(run, w.script, Arm());
    s := AsSignal(r);
  }

  /** Three results as they came, or three timeouts when no probe could be made. */
  function TimeoutResults(): seq<Probes.HealthResult> {
    seq(3, k requires 0 <= k < 3 => Probes.ToResult(Dependencies[k], Probes.TimeoutOutcome(Dependencies[k])))
  }

  /** The verdict on a batch of results. */
  function Judgement(results: seq<Probes.HealthResult>, inTime: seq<bool>): Signal
    requires |results| == |inTime|
  {
    if exists k :: 0 <= k < |results| && Unreportable(results[k]) then Escapes
    else if forall k :: 0 <= k < |results| ==> results[k].ready && inTime[k] then Verdict(Passed, OK)
    else Verdict(Failed, DependencyNotReady)
  }

  /** Passed if ready in time; otherwise failed for the probe's reason, or for staleness. */
  function JudgedEvent(result: Probes.HealthResult, inTime: bool): Event {
    if result.ready && inTime then Ok(Dev, Readiness, Some(result.dependency))
    else Event(Dev, Infra, Readiness, Failed, DependencyNotReady, Some(result.dependency), if result.ready then "stale" else result.reason)
  }

  /** The final event of a run whose probes were judged. */
  function Closing(status: Status): Event {
    if status.Passed? then Ok(Dev, Final, None) else FailedFinal(Dev, DependencyNotReady, "not ready")
  }

  function JudgedEvents(results: seq<Probes.HealthResult>, inTime: seq<bool>): seq<Event>
    requires |results| == |inTime|
  {
    if results == [] then []
    else
      var n := |results| - 1;
      JudgedEvents(results[..n], inTime[..n]) + [JudgedEvent(results[n], inTime[n])]
  }

  lemma OneMoreJudged(results: seq<Probes.HealthResult>, inTime: seq<bool>, i: nat)
    requires |results| == |inTime| && i < |results|
    ensures JudgedEvents(results[..i + 1], inTime[..i + 1]) == JudgedEvents(results[..i], inTime[..i]) + [JudgedEvent(results[i], inTime[i])]
  {
    assert results[..i + 1][..i] == results[..i] && inTime[..i + 1][..i] == inTime[..i];
  }

  method JudgeOne(start: Run, result: Probes.HealthResult, inTime: bool) returns (run: Run, ok: bool)
    requires Valid(start) && start.action == Dev
    ensures Valid(run) && ok == !Unreportable(result)
    ensures run == start.(events := run.events, heldAtLast := run.heldAtLast)
    ensures ok ==> run.events == start.events + [JudgedEvent(result, inTime)]
  {
    if result.ready && inTime {
      run, ok := Emit(start, Readiness, Passed, OK, "ok", Some(result.dependency));
    } else {
      run, ok := Emit(start, Readiness, Failed, DependencyNotReady, if result.ready then "stale" else result.reason, Some(result.dependency));
    }
  }

  /** One event per result; only readiness seen in time counts. */
  method JudgeEach(start: Run, results: seq<Probes.HealthResult>, inTime: seq<bool>) returns (run: Run, ok: bool, allReady: bool)
    requires Open(start) && |results| == |inTime|
    ensures ok <==> forall k :: 0 <= k < |results| ==> !Unreportable(results[k])
    ensures ok ==> (allReady <==> forall k :: 0 <= k < |results| ==> results[k].ready && inTime[k])
    ensures Valid(run) && (ok && allReady ==> AllPassed(run.events))
    ensures run == start.(events := run.events, heldAtLast := run.heldAtLast)
    ensures ok ==> run.events == start.events + JudgedEvents(results, inTime)
  {
    hide Unreportable, JudgedEvents;
    NothingJudged();
    run, ok, allReady := start, true, true;
    for i := 0 to |results|
      invariant ok && Valid(run) && (allReady ==> AllPassed(run.events))
      invariant run == start.(events := start.events + JudgedEvents(results[..i], inTime[..i]), heldAtLast := run.heldAtLast)
      invariant forall k :: 0 <= k < i ==> !Unreportable(results[k])
      invariant allReady <==> forall k :: 0 <= k < i ==> results[k].ready && inTime[k]
    {
      OneMoreJudged(results, inTime, i);
      run, ok := JudgeOne(run, results[i], inTime[i]);
      if !ok { return; }
      if !(results[i].ready && inTime[i]) { allReady := false; }
    }
    assert results[..|results|] == results && inTime[..|results|] == inTime;
  }

  lemma NothingJudged()
    ensures JudgedEvents([], []) == []
  {
  }

  /** A verdict is on record and the operation has come to rest. */
  predicate Settled(run: Run, status: Status) {
    && Concludes(run.events, status) && run.operation.Some?
    && run.operation.value.status == if status.Passed? then Op.Succeeded else Op.Failed
  }

  /** The operation ends well or badly, and so does the record. */
  method Close(start: Run, passed: bool) returns (run: Run, s: Signal)
    requires Valid(start) && start.action == Dev && (passed ==> AllPassed(start.events))
    requires start.operation.Some? && start.operation.value.status.Running?
    ensures s == if passed then Verdict(Passed, OK) else Verdict(Failed, DependencyNotReady)
    ensures Settled(run, s.status)
    ensures run == start.(events := start.events + [Closing(s.status)], heldAtLast := start.held, operation := run.operation)
  {
    hide AggregateStatus;
    var ok, outcome;
    if passed {
      run, ok := Move(start, Op.Succeeded);
      run := Announce(run, Final, None);
      ConcludesPassed(run.events);
      s := Verdict(Passed, OK);
    } else {
      run, ok := Move(start, Op.Failed);
      run, outcome := Fail(run, DependencyNotReady, "not ready");
      s := Verdict(Failed, DependencyNotReady);
    }
  }

  /** Step 12: a single result that is not ready in time fails the run. */
  method Judge(start: Run, results: seq<Probes.HealthResult>, inTime: seq<bool>) returns (run: Run, s: Signal)
    requires Open(start) && start.operation.Some? && start.operation.value.status.Running?
    requires |results| == |inTime|
    ensures s == Judgement(results, inTime)
    ensures s.Verdict? ==> Settled(run, s.status) && run.heldAtLast == start.held
    ensures s.Verdict? ==> run.events == start.events + JudgedEvents(results, inTime) + [Closing(s.status)]
    ensures run == start.(events := run.events, heldAtLast := run.heldAtLast, phase := Readiness, operation := run.operation)
  {
    hide JudgedEvents, Unreportable, Settled, Closing, AllPassed;
    var ok, allReady;
    run := start.(phase := Readiness);
    run, ok, allReady := JudgeEach(run, results, inTime);
    if !ok { return run, Escapes; }
    run, s := Close(run, allReady);
  }

  /** The first dependency whose port cannot be checked again. */
  function LostTo(script: Script): Dependency {
    if !script(AttributePort(Postgres)).Returns? then Postgres
    else if !script(AttributePort(Redis)).Returns? then Redis
    else Grafana
  }

  function ReconcileFailure(d: Dependency, code: ErrorCode, message: Text): Event { Event(Dev, Infra, Reconcile, Failed, code, Some(d), message) }

  /** The first `n` dependencies blamed for one failed reconcile. */
  function BlameEach(code: ErrorCode, message: Text, n: nat): seq<Event>
    requires n <= 3
  {
    if n == 0 then [] else BlameEach(code, message, n - 1) + [ReconcileFailure(Dependencies[n - 1], code, message)]
  }

  /** Which dependency lost the bind race: the first whose port check fails again. */
  method AttributeConflict(start: Run, script: Script) returns (run: Run, r: Reply, lost: Option<Dependency>)
    ensures r == Chain(Attribute(), script) && run == start.(calls := start.calls + Upto(Attribute(), script))
    ensures lost.Some? <==> r.Raises? && r.code.PortConflict?
    ensures lost.Some? ==> lost == Some(LostTo(script))
  {
    run := start;
    for i := 0 to 3
      invariant run == start.(calls := start.calls + Attribute()[..i]) && Chain(Attribute()[..i], script).Returns?
    {
      OneCall(Attribute(), i, script);
      run, r := Do(run, script, AttributePort(Dependencies[i]));
      assert start.calls + Attribute()[..i] + [Attribute()[i]] == start.calls + Attribute()[..i + 1];
      if !r.Returns? {
        lost := if r.Raises? && r.code.PortConflict? then Some(Dependencies[i]) else None;
        return;
      }
    }
    assert Attribute()[..3] == Attribute();
    AllMade(Attribute(), script);
    r, lost := Returns, None;
  }

  lemma NobodyBlamed(code: ErrorCode, message: Text)
    ensures BlameEach(code, message, 0) == [] && |Dependencies| == 3
  {
  }

  lemma OneMoreBlamed(code: ErrorCode, message: Text, i: nat)
    requires i < 3
    ensures BlameEach(code, message, i + 1) == BlameEach(code, message, i) + [ReconcileFailure(Dependencies[i], code, message)]
  {
  }

  method BlameAll(start: Run, code: ErrorCode, message: Text) returns (run: Run)
    requires Valid(start) && start.action == Dev
    ensures Valid(run) && run == start.(events := start.events + BlameEach(code, message, 3), heldAtLast := run.heldAtLast)
  {
    hide BlameEach, ReconcileFailure, Valid, Dependencies;
    NobodyBlamed(code, message);
    run := start;
    for i := 0 to 3
      invariant Valid(run) && run == start.(events := start.events + BlameEach(code, message, i), heldAtLast := run.heldAtLast)
    {
      OneMoreBlamed(code, message, i);
      run := BlameOne(run, Dependencies[i], code, message);
    }
  }

  method BlameOne(start: Run, d: Dependency, code: ErrorCode, message: Text) returns (run: Run)
    requires Valid(start) && start.action == Dev
    ensures Valid(run) && run == start.(events := start.events + [ReconcileFailure(d, code, message)], heldAtLast := start.held)
  {
    var ok;
    run, ok := Emit(start, Reconcile, Failed, code, message, Some(d));
  }

  function FailureEvents(script: Script, code: ErrorCode, message: Text): seq<Event> {
    if code.PortConflict? then [ReconcileFailure(LostTo(script), PortConflict, message)] else BlameEach(code, message, 3)
  }

  /** Only calls were made since. */
  predicate SameBut(run: Run, start: Run) {
    run.phase == start.phase && run.current == start.current && run.operation == start.operation && run.events == start.events
  }

  /** The reconcile child failed: a lost bind race is attributed by re-checking each port, any
      other failure is reported for every dependency. */
  method ReconcileFailed(start: Run, script: Script, code: ErrorCode, message: Text) returns (run: Run, s: Signal)
    requires Open(start) && start.operation.Some? && start.operation.value.status.Running? && start.phase == Reconcile && start.current.None?
    ensures run.held == start.held && run.calls == start.calls + if code.PortConflict? then Upto(Attribute(), script) else []
    ensures s == if !code.PortConflict? then Verdict(Failed, code)
                 else match Chain(Attribute(), script)
                      case Returns => Escapes
                      case Interrupts => Interrupted
                      case Breaks => Escapes
                      case Raises(c, m) => if c.PortConflict? then Verdict(Failed, PortConflict) else Raised(c, m)
    ensures s.Verdict? ==> Settled(run, s.status) && run.heldAtLast == start.held
    ensures s.Verdict? ==> run.events == start.events + FailureEvents(script, code, message) + [FailedFinal(Dev, code, message)]
    ensures s.Raised? || s.Interrupted? ==> Open(run) && SameBut(run, start)
  {
    hide Chain, Upto, BlameEach, AllPassed, AggregateStatus, Concludes, LostTo;
    run := start;
    var ok, outcome;
    if code.PortConflict? {
      var r, lost;
      run, r, lost := AttributeConflict(run, script);
      if r.Returns? {
        run, ok := Emit(run, Reconcile, Failed, StepFailed, message, None);
        if !ok { return run, Escapes; }
      } else if lost.None? {
        return run, AsSignal(r);
      }
      run, ok := Emit(run, Reconcile, Failed, PortConflict, message, lost);
    } else {
      run := BlameAll(run, code, message);
    }
    run, ok := Move(run, Op.Failed);
    run, outcome := Fail(run, code, message);
    s := Verdict(Failed, code);
  }

  /** No budget for a probe: three timeouts, which fail the run. */
  method JudgeTimeouts(start: Run) returns (run: Run, s: Signal)
    requires Open(start) && start.operation.Some? && start.operation.value.status.Running?
    ensures s == Verdict(Failed, DependencyNotReady) && Settled(run, Failed) && run.heldAtLast == start.held
    ensures run.held == start.held && run.calls == start.calls && run.events == start.events + TimeoutEvents()
  {
    var results := TimeoutResults();
    assert !results[0].ready && !results[1].ready && !results[2].ready;
    run, s := Judge(start, results, NEVER);
    assert start.events + JudgedEvents(results, NEVER) + [Closing(Failed)] == start.events + TimeoutEvents();
  }

  /** Step 11: state evidence again, then the three probes, then the verdict. */
  method ProbeAndJudge(start: Run, w: World) returns (run: Run, s: Signal)
    requires Open(start) && start.phase == Reconcile
    requires start.operation.Some? && start.operation.value.status.Running?
    ensures s == if Chain(Confirm(), w.script).Returns? then OnEvidence(w) else AsSignal(Chain(Confirm(), w.script))
    ensures run.calls == start.calls + Upto(Confirm(), w.script) && run.held == start.held
    ensures s.Verdict? ==> run.events == start.events + JudgedEvents(Results(w), InTime(w)) + [Closing(s.status)]
    ensures s.Verdict? ==> Settled(run, s.status) && run.heldAtLast == start.held
    ensures s.Raised? || s.Interrupted? ==> Open(run) && SameBut(run, start)
  {
    hide Chain, Upto;
    var r;
    run, r := DoAll(start, w.script, Confirm());
    if !r.Returns? { return run, AsSignal(r); }
    var results := Results(w);
    run, s := Judge(run, results, InTime(w));
    assert Unreportable(results[0]) == Unreportable(w.health(Postgres));
    assert Unreportable(results[1]) == Unreportable(w.health(Redis));
    assert Unreportable(results[2]) == Unreportable(w.health(Grafana));
  }

  /** Steps 10 to 12, within the one deadline; the lock is still held. */
  method WithinTheDeadline(start: Run, w: World) returns (run: Run, s: Signal)
    requires Open(start) && start.phase == Reconcile && start.current.None?
    requires start.operation.Some? && start.operation.value.status.Running?
    ensures s == AfterDeadline(w) && run.calls == start.calls + DeadlineCalls(w) && run.held == start.held
    ensures s.Verdict? || s.Raised? || s.Interrupted? ==> run.events == start.events + LateEvents(w)
    ensures s.Verdict? ==> Settled(run, s.status) && run.heldAtLast == start.held
    ensures s.Raised? || s.Interrupted? ==> Open(run) && run.phase == Reconcile && run.current.None? && run.operation == start.operation
  {
    hide Chain, Upto, AfterReconcile, EachEvents, ConfirmedEvents, TimeoutEvents, FailureEvents, Concludes, AllPassed;
    if Deadline(w) - w.beforeReconcile <= MIN_REMAINING {
      run, s := JudgeTimeouts(start);
      return;
    }
    var r, released;
    run, r := Do(start, w.script, ReconcileUp);
    if r.Interrupts? || r.Breaks? {
      run, released := Do(run, w.script, ReleaseSecrets);
      return run, AsSignal(r);
    }
    if r.Raises? {
      run, s := ReconcileFailed(run, w.script, r.code, r.message);
      run, released := Do(run, w.script, ReleaseSecrets);
      return;
    }
    run, released := Do(run, w.script, ReleaseSecrets);
    run, s := Reconciled(run, w);
  }

  method Reconciled(start: Run, w: World) returns (run: Run, s: Signal)
    requires Open(start) && start.phase == Reconcile && start.current.None?
    requires start.operation.Some? && start.operation.value.status.Running?
    ensures s == AfterReconcile(w) && run.held == start.held
    ensures run.calls == start.calls + if Deadline(w) - w.afterReconcile > MIN_REMAINING then Upto(Confirm(), w.script) else []
    ensures s.Verdict? || s.Raised? || s.Interrupted? ==> run.events == start.events + (EachEvents(Reconcile, 3) + ConfirmedEvents(w))
    ensures s.Verdict? ==> Settled(run, s.status) && run.heldAtLast == start.held
    ensures s.Raised? || s.Interrupted? ==> Open(run) && run.phase == Reconcile && run.current.None? && run.operation == start.operation
  {
    hide Chain, Upto, EachEvents, JudgedEvents, Results, InTime, TimeoutEvents, Closing, Unreportable, AllReadyInTime, Concludes, AllPassed;
    run := AnnounceReconciled(start);
    if Deadline(w) - w.afterReconcile <= MIN_REMAINING {
      run, s := JudgeTimeouts(run);
    } else {
      run, s := ProbeAndJudge(run, w);
    }
  }

  method AnnounceReconciled(start: Run) returns (run: Run)
    requires Open(start)
    ensures Open(run) && run == start.(events := run.events, heldAtLast := run.heldAtLast)
    ensures run.events == start.events + EachEvents(Reconcile, 3)
  {
    run := start;
    for i := 0 to 3
      invariant run.events == start.events + EachEvents(Reconcile, i)
      invariant Open(run) && run == start.(events := run.events, heldAtLast := run.heldAtLast)
    {
      run := Announce(run, Reconcile, Some(Dependencies[i]));
    }
  }

  /** Everything between acquiring the lock and releasing it, whatever happens in between. */
  method InsideTheLock(start: Run, w: World) returns (run: Run, s: Signal)
    requires Open(start) && start.phase == Lock && !start.held && start.current.None? && start.operation == Some(Op.Fresh)
    ensures s == if Chain(InsideLock(), w.script).Returns? then AfterDeadline(w) else AsSignal(Chain(InsideLock(), w.script))
    ensures run.calls == start.calls + CallsInside(w) + [ReleaseLock]
    ensures !run.held && (s.Continues? ==> AfterDeadline(w).Continues?)
    ensures s.Verdict? ==> Settled(run, s.status) && run.heldAtLast && run.events == start.events + InsideEvents() + LateEvents(w)
    ensures s.Raised? || s.Interrupted? ==> Open(run) && run.operation.Some? && !run.phase.Identity? && !run.phase.Preflight?
    ensures (s.Raised? || s.Interrupted?) && Chain(InsideLock(), w.script).Returns? ==>
              run.events == start.events + InsideEvents() + LateEvents(w) && run.phase == Reconcile && run.current.None?
    ensures (s.Raised? || s.Interrupted?) && !Chain(InsideLock(), w.script).Returns? && start.events == BeforeLockEvents() ==>
              StuckAt(run, Last(Upto(InsideLock(), w.script)))
  {
    UptoIsPrefix(InsideLock(), w.script);
    StopperIsMade(InsideLock(), w.script);
    hide Chain, Upto, DeadlineCalls, AfterDeadline, InsideLock, InsideEvents, LateEvents, BeforeLockEvents;
    run := start.(held := true);
    run, s := UpToTheDeadline(run, w);
    if s.Continues? {
      run, s := WithinTheDeadline(run, w);
    }
    assert run.calls == start.calls + CallsInside(w);
    var released;
    run, released := Do(run, w.script, ReleaseLock);
    run := run.(held := false);
  }

  /** The event that reports a failure before the final one. */
  function Report(phase: Phase, current: Option<Dependency>, code: ErrorCode, message: Text): Event {
    if current.Some? then Event(Dev, Infra, phase, Failed, code, current, message)
    else Event(Dev, Repository, Undirected(phase), Failed, if DependencyCode(code) then StepFailed else code, None, message)
  }

  /** The outer handler: a failure is reported in its phase, degraded where the payload rules
      ask for a dependency it does not have, and closed by a final event. */
  method HandleFailure(start: Run, code: ErrorCode, message: Text) returns (run: Run, outcome: RunOutcome)
    requires Open(start) && !start.held
    requires code.OperationInProgress? && start.operation.Some? ==> start.operation.value.status.Requested?
    ensures outcome == Returned(Failed, code, FinalStatus(run)) && Concludes(run.events, Failed)
    ensures run == start.(heldAtLast := false, operation := run.operation, events :=
                            start.events + [Report(start.phase, start.current, code, message), FailedFinal(Dev, code, message)])
    ensures run.operation.Some? <==> start.operation.Some?
    ensures run.operation.Some? ==>
              run.operation.value.status == if start.phase.Identity? || start.phase.Preflight? || code.OperationInProgress? then Op.Rejected else Op.Failed
  {
    hide AllPassed, AllValid, AggregateStatus, Concludes;
    var ok;
    var eventPhase := if start.current.None? then Undirected(start.phase) else start.phase;
    var eventCode := if DependencyCode(code) && start.current.None? then StepFailed else code;
    run, ok := Emit(start, eventPhase, Failed, eventCode, message, start.current);
    var rejected := start.phase.Identity? || start.phase.Preflight? || code.OperationInProgress?;
    if run.operation.Some? && !Op.Terminal(run.operation.value.status) {
      run, ok := Move(run, if rejected then Op.Rejected else Op.Failed);
    }
    run, outcome := Fail(run, code, message);
  }

  /** How the outer handlers leave the operation. */
  function Handled(run: Run, s: Signal): Option<Op.OperationStatus> {
    match s
    case Raised(code, _) =>
      if run.operation.None? then None
      else Some(if run.phase.Identity? || run.phase.Preflight? || code.OperationInProgress? then Op.Rejected else Op.Failed)
    case Interrupted => Some(Op.Interrupted)
    case _ => FinalStatus(run)
  }

  /** The outer handlers. */
  method Settle(start: Run, s: Signal) returns (run: Run, outcome: RunOutcome)
    requires !s.Continues? && !start.held
    requires s.Raised? || s.Interrupted? ==> Open(start)
    requires s.Raised? && s.code.OperationInProgress? && start.operation.Some? ==> start.operation.value.status.Requested?
    requires s.Verdict? ==> Settled(start, s.status) && start.heldAtLast
    ensures Matches(outcome, s) && !run.held && run.calls == start.calls
    ensures outcome.Returned? ==> Concludes(run.events, outcome.status) && (run.heldAtLast <==> s.Verdict?)
    ensures outcome.Returned? ==> run.events == start.events + Tail(start.phase, start.current, s) && outcome.final == Handled(start, s)
  {
    hide Concludes, AllPassed;
    run := start;
    match s
    case Verdict(status, code) => outcome := Returned(status, code, FinalStatus(run));
    case Raised(code, message) => run, outcome := HandleFailure(run, code, message);
    case Interrupted => run, outcome := Interrupt(run);
    case Escapes => outcome := Escaped;
  }

  /** The guarded `make dev` run. */
  method StartLocalEnvironment(w: World) returns (run: Run, outcome: RunOutcome)
    requires Declared(w.script)
    ensures Matches(outcome, Reference(w)) && run.calls == CallsMade(w) && !run.held
    ensures outcome.Returned? ==> Concludes(run.events, outcome.status)
    ensures outcome.Returned? ==> (run.heldAtLast <==> Reference(w).Verdict?)
    ensures outcome.Returned? ==> run.events == Record(w) && outcome.final == FinalOf(w)
  {
    hide Chain, Upto, CallsInside, DeadlineCalls, AfterDeadline, InsideLock, BeforeLock, InsideEvents, LateEvents, BeforeLockEvents, EventsBefore, Tail, Concludes, ModeAccepted, AllPassed, AllValid, Ok;
    Stretch(BeforeLock(), InsideLock(), w.script);
    StopperIs(w);
    LockFailureIsLast(w);
    var s;
    run := Begun(Dev, Preflight);
    run, s := UpToTheLock(run, w);
    if s.Continues? {
      run, s := InsideTheLock(run, w);
    }
    assert s == Reference(w);
    ghost var open := run;
    run, outcome := Settle(run, s);
    VerdictsEndThere(s);
    assert [] + Tail(open.phase, open.current, s) == Tail(open.phase, open.current, s);
    assert EarlyEvents() + LateEvents(w) == [] + BeforeLockEvents() + InsideEvents() + LateEvents(w);
  }

  lemma VerdictsEndThere(s: Signal)
    ensures s.Verdict? ==> forall phase, current :: Tail(phase, current, s) == []
  {
  }

  lemma StopperIs(w: World)
    ensures !Chain(BeforeLock(), w.script).Returns? ==> Stopper(w) == Last(Upto(BeforeLock(), w.script))
    ensures Chain(BeforeLock(), w.script).Returns? && !Chain(InsideLock(), w.script).Returns? ==> Stopper(w) == Last(Upto(InsideLock(), w.script))
    ensures Chain(BeforeLock(), w.script).Returns? && !Chain(InsideLock(), w.script).Returns? ==>
              PhaseOf(Stopper(w)) != Preflight && Stopper(w) != ReadConfig(Outside)
  {
    hide Chain, Upto, BeforeLock;
    Stretch(BeforeLock(), InsideLock(), w.script);
    UptoIsPrefix(InsideLock(), w.script);
    StopperIsMade(InsideLock(), w.script);
    InsideIsLater();
    hide InsideLock;
  }

  lemma InsideIsLater()
    ensures forall c :: c in InsideLock() ==> PhaseOf(c) != Preflight && c != ReadConfig(Outside)
  {
  }

  lemma NoContention(cs: seq<Call>, script: Script)
    requires Declared(script) && AcquireLock !in cs
    ensures Chain(cs, script).Raises? ==> !Chain(cs, script).code.OperationInProgress?
  {
    SomeCallDecides(cs, script);
  }

  /** Contention is reported by the lock alone, so never once an operation runs. */
  lemma LockFailureIsLast(w: World)
    requires Declared(w.script)
    ensures Chain(InsideLock(), w.script).Raises? ==> !Chain(InsideLock(), w.script).code.OperationInProgress?
    ensures AfterDeadline(w).Raised? ==> !AfterDeadline(w).code.OperationInProgress?
    ensures !AfterDeadline(w).Continues?
  {
    NoContention(InsideLock(), w.script);
    NoContention(Attribute(), w.script);
    NoContention(Confirm(), w.script);
    hide Chain;
  }

  // ------------------------------------------------------------------ what a start guarantees

  /** The calls before the reconcile, one by one. */
  function EarlyCalls(): seq<Call> {
    [ReadConfig(Outside), LoadManifest, RuntimeBase, VerifyRuntime,
     ProjectState(Outside), AssertOwnership(Outside), AssertNoPath(Outside), AssertLoopback(Outside),
     PreflightPort(Postgres, Outside), PreflightPort(Redis, Outside), PreflightPort(Grafana, Outside),
     EnsureRuntimeDir, AcquireLock,
     ReadConfig(Inside), VerifiedBytes, VerifyRuntimeAgain,
     ProjectState(Inside), AssertOwnership(Inside), AssertNoPath(Inside), AssertLoopback(Inside),
     PreflightPort(Postgres, Inside), PreflightPort(Redis, Inside), PreflightPort(Grafana, Inside),
     EnsureImage(Postgres), EnsureImage(Redis), EnsureImage(Grafana), StartDeadline, BuildSecrets]
  }

  lemma EarlyCallsAreThese()
    ensures BeforeLock() + InsideLock() == EarlyCalls()
  {
  }

  /** The calls of a passing run, by kind. */
  predicate Needed(c: Call) {
    match c
    case ReadConfig(p) => p != After
    case AssertNoPath(p) => p != After
    case PreflightPort(_, p) => p != After
    case ListResources(_) => false
    case AttributePort(_) => false
    case ReconcileDown => false
    case ListRemaining => false
    case ListRepository => false
    case ReleaseSecrets => false
    case ReleaseLock => false
    case _ => true
  }

  lemma EarlyCallsAreNeeded(c: Call)
    ensures c in EarlyCalls() ==> Needed(c)
    ensures Needed(c) && c !in EarlyCalls() ==> c == ReconcileUp || c in Confirm()
    ensures c == ReconcileUp || c in Confirm() ==> Needed(c)
  {
    if c !in EarlyCalls() && Needed(c) {
      LateNeeded(c);
    }
    hide EarlyCalls;
    if c in EarlyCalls() { EarlyNeeded(c); }
  }

  lemma EarlyNeeded(c: Call)
    requires c in EarlyCalls()
    ensures Needed(c)
  {
  }

  lemma LateNeeded(c: Call)
    requires Needed(c) && c !in EarlyCalls()
    ensures c == ReconcileUp || c in Confirm()
  {
    var cs := EarlyCalls();
    assert cs[0] == ReadConfig(Outside) && cs[13] == ReadConfig(Inside);
    match c {
      case ReadConfig(p) => match p { case Outside => case Inside => case After => }
      case ProjectState(p) => match p { case Outside => case Inside => case After => }
      case AssertOwnership(p) => match p { case Outside => case Inside => case After => }
      case AssertNoPath(p) => match p { case Outside => case Inside => case After => }
      case AssertLoopback(p) => match p { case Outside => case Inside => case After => }
      case PreflightPort(d, p) => match p { case Outside => match d { case Postgres => case Redis => case Grafana => } case Inside => match d { case Postgres => case Redis => case Grafana => } case After => }
      case EnsureImage(d) => match d { case Postgres => case Redis => case Grafana => }
      case Probe(d) => match d { case Postgres => case Redis => case Grafana => }
      case _ =>
    }
  }

  /** Up to the reconcile the first call that does not return decides, and the reply is the
      signal: a code is reported as it was raised. */
  lemma FirstFailureDecides(w: World, i: nat)
    requires ModeAccepted(w.mode, w.origin) && i < |EarlyCalls()| && !Answer(w.script, EarlyCalls()[i]).Returns?
    requires forall j :: 0 <= j < i ==> Answer(w.script, EarlyCalls()[j]).Returns?
    ensures Reference(w) == AsSignal(w.script(EarlyCalls()[i]))
  {
    EarlyCallsAreThese();
    var cs := EarlyCalls();
    hide Chain, BeforeLock, InsideLock, EarlyCalls, AfterDeadline;
    SomeCallDecides(cs[..i], w.script);
    assert forall c :: c in cs[..i] ==> exists j :: 0 <= j < i && cs[j] == c;
    OneCall(cs, i, w.script);
  }

  /** A start passes if and only if its mode is omitted, empty, or `local` from the command line;
      configuration, path check and ports hold before and inside the lock; state, ownership and
      loopback publishers hold there and after the reconcile; every image and every probe, and
      each of the single calls, returns; time is left before and after the reconcile; and each
      of the three dependencies was ready no later than sixty seconds after the deadline began. */
  lemma StartPassesExactlyWhen(w: World)
    ensures Reference(w) == Verdict(Passed, OK) <==>
              && (w.mode.NoMode? || w.mode.EmptyMode? || (w.mode.LocalMode? && (w.origin.Command? || w.origin.CommandLine? || w.origin.Override?)))
              && (forall p :: p != After ==> w.script(ReadConfig(p)).Returns? && w.script(AssertNoPath(p)).Returns?)
              && (forall p, d :: p != After ==> w.script(PreflightPort(d, p)).Returns?)
              && (forall p :: w.script(ProjectState(p)).Returns? && w.script(AssertOwnership(p)).Returns? && w.script(AssertLoopback(p)).Returns?)
              && (forall d :: w.script(EnsureImage(d)).Returns? && w.script(Probe(d)).Returns?)
              && w.script(LoadManifest).Returns? && w.script(RuntimeBase).Returns? && w.script(VerifyRuntime).Returns?
              && w.script(EnsureRuntimeDir).Returns? && w.script(AcquireLock).Returns? && w.script(VerifiedBytes).Returns?
              && w.script(VerifyRuntimeAgain).Returns? && w.script(BuildSecrets).Returns? && w.script(ReconcileUp).Returns?
              && w.begin + 60.0 - w.beforeReconcile > 0.000001
              && w.begin + 60.0 - w.afterReconcile > 0.000001
              && (forall d :: w.health(d).ready && w.completed(d) <= w.begin + 60.0)
  {
    PassesByCalls(w);
    if AllNeeded(w.script) { NeededReturn(w.script); }
    EachReturnsIsNeeded(w.script);
    hide Chain, Reference, Needed, AllNeeded;
    assert forall d :: ReadyInTime(w, d) <==> w.health(d).ready && w.completed(d) <= w.begin + 60.0;
  }

  predicate EachReturns(script: Script) {
    && (forall p :: p != After ==> script(ReadConfig(p)).Returns? && script(AssertNoPath(p)).Returns?)
    && (forall p, d :: p != After ==> script(PreflightPort(d, p)).Returns?)
    && (forall p :: script(ProjectState(p)).Returns? && script(AssertOwnership(p)).Returns? && script(AssertLoopback(p)).Returns?)
    && (forall d :: script(EnsureImage(d)).Returns? && script(Probe(d)).Returns?)
    && script(LoadManifest).Returns? && script(RuntimeBase).Returns? && script(VerifyRuntime).Returns?
    && script(EnsureRuntimeDir).Returns? && script(AcquireLock).Returns? && script(VerifiedBytes).Returns?
    && script(VerifyRuntimeAgain).Returns? && script(BuildSecrets).Returns? && script(ReconcileUp).Returns?
  }

  ghost predicate AllNeeded(script: Script) { forall c :: Needed(c) ==> Answer(script, c).Returns? }

  /** Every needed call returns: kind by kind. */
  lemma NeededReturn(script: Script)
    requires AllNeeded(script)
    ensures EachReturns(script)
  {
    hide AllNeeded;
    forall p | p != After
      ensures script(ReadConfig(p)).Returns?
    {
      OneNeeded(script, ReadConfig(p));
    }
    forall p | p != After
      ensures script(AssertNoPath(p)).Returns?
    {
      OneNeeded(script, AssertNoPath(p));
    }
    forall p, d | p != After
      ensures script(PreflightPort(d, p)).Returns?
    {
      OneNeeded(script, PreflightPort(d, p));
    }
    forall p
      ensures script(ProjectState(p)).Returns? && script(AssertOwnership(p)).Returns? && script(AssertLoopback(p)).Returns?
    {
      OneNeeded(script, ProjectState(p));
      OneNeeded(script, AssertOwnership(p));
      OneNeeded(script, AssertLoopback(p));
    }
    forall d
      ensures script(EnsureImage(d)).Returns? && script(Probe(d)).Returns?
    {
      OneNeeded(script, EnsureImage(d));
      OneNeeded(script, Probe(d));
    }
    OneNeeded(script, LoadManifest);
    OneNeeded(script, RuntimeBase);
    OneNeeded(script, VerifyRuntime);
    OneNeeded(script, EnsureRuntimeDir);
    OneNeeded(script, AcquireLock);
    OneNeeded(script, VerifiedBytes);
    OneNeeded(script, VerifyRuntimeAgain);
    OneNeeded(script, BuildSecrets);
    OneNeeded(script, ReconcileUp);
  }

  lemma OneNeeded(script: Script, c: Call)
    requires AllNeeded(script) && Needed(c) && !Own(c)
    ensures script(c).Returns?
  {
    assert Answer(script, c).Returns?;
  }

  lemma EachReturnsIsNeeded(script: Script)
    ensures EachReturns(script) ==> AllNeeded(script)
  {
    forall c | EachReturns(script) && Needed(c)
      ensures Answer(script, c).Returns?
    {
      match c case _ =>
    }
  }

  lemma NeededSplits(script: Script)
    ensures AllNeeded(script) <==>
              && (forall c :: c in EarlyCalls() ==> Answer(script, c).Returns?)
              && script(ReconcileUp).Returns?
              && (forall c :: c in Confirm() ==> Answer(script, c).Returns?)
  {
    forall c
      ensures Needed(c) <==> c in EarlyCalls() || c == ReconcileUp || c in Confirm()
    {
      EarlyCallsAreNeeded(c);
    }
    hide EarlyCalls, Confirm, Needed;
    assert Answer(script, ReconcileUp) == script(ReconcileUp);
    hide Answer;
  }

  lemma PassesByCalls(w: World)
    ensures Reference(w) == Verdict(Passed, OK) <==>
              && ModeAccepted(w.mode, w.origin)
              && AllNeeded(w.script)
              && Deadline(w) - w.beforeReconcile > MIN_REMAINING
              && Deadline(w) - w.afterReconcile > MIN_REMAINING
              && (forall d :: ReadyInTime(w, d))
  {
    hide Chain, BeforeLock, InsideLock, Confirm, EarlyCalls, AllNeeded, Answer;
    EarlyCallsAreThese();
    NeededSplits(w.script);
    SomeCallDecides(EarlyCalls(), w.script);
    SomeCallDecides(Confirm(), w.script);
    EveryDependency(w);
  }

  // ------------------------------------------------------------------ the record, event by event

  function Step(phase: Phase): Event { Event(Dev, Repository, phase, Passed, OK, None, "ok") }

  function StepFor(phase: Phase, d: Dependency): Event { Event(Dev, Infra, phase, Passed, OK, Some(d), "ok") }

  lemma ImageEventsAre()
    ensures ImageEvents(0) == []
    ensures ImageEvents(1) == [StepFor(ImagePull, Postgres), StepFor(ImageVerify, Postgres)]
    ensures ImageEvents(2) == ImageEvents(1) + [StepFor(ImagePull, Redis), StepFor(ImageVerify, Redis)]
    ensures ImageEvents(3) == ImageEvents(2) + [StepFor(ImagePull, Grafana), StepFor(ImageVerify, Grafana)]
  {
  }

  lemma EachEventsAre(phase: Phase)
    ensures EachEvents(phase, 3) == [StepFor(phase, Postgres), StepFor(phase, Redis), StepFor(phase, Grafana)]
  {
    assert EachEvents(phase, 1) == [StepFor(phase, Postgres)];
    assert EachEvents(phase, 2) == [StepFor(phase, Postgres), StepFor(phase, Redis)];
  }

  lemma JudgedEventsAre(results: seq<Probes.HealthResult>, inTime: seq<bool>)
    requires |results| == |inTime| == 3
    ensures JudgedEvents(results, inTime) == [JudgedEvent(results[0], inTime[0]), JudgedEvent(results[1], inTime[1]), JudgedEvent(results[2], inTime[2])]
  {
    hide JudgedEvent;
    assert results[..3] == results && inTime[..3] == inTime;
    OneMoreJudged(results, inTime, 0);
    OneMoreJudged(results, inTime, 1);
    OneMoreJudged(results, inTime, 2);
    NothingJudged();
    assert results[..0] == [] && inTime[..0] == [];
  }

  /** The record of a passing start: identity, preflight, lock; a pull and a verification for
      each image; a reconcile and then a readiness event for each dependency; the final event. */
  lemma PassingRecordIs(w: World)
    requires Reference(w) == Verdict(Passed, OK)
    ensures Record(w) ==
            [Step(Identity), Step(Preflight), Step(Lock)] +
            [StepFor(ImagePull, Postgres), StepFor(ImageVerify, Postgres)] +
            [StepFor(ImagePull, Redis), StepFor(ImageVerify, Redis)] +
            [StepFor(ImagePull, Grafana), StepFor(ImageVerify, Grafana)] +
            [StepFor(Reconcile, Postgres), StepFor(Reconcile, Redis), StepFor(Reconcile, Grafana)] +
            [StepFor(Readiness, w.health(Postgres).dependency), StepFor(Readiness, w.health(Redis).dependency), StepFor(Readiness, w.health(Grafana).dependency)] +
            [Step(Final)]
    ensures FinalOf(w) == Some(Op.Succeeded)
  {
    hide Record, Reference, EarlyEvents, ImageEvents, EachEvents, JudgedEvents, ReadyInTime, Results, InTime;
    ImageEventsAre();
    EachEventsAre(Reconcile);
    VerdictsEndThere(Reference(w));
    PassedRecordParts(w);
    ReadinessEventsAre(w);
    AllEarlyEvents();
  }

  lemma AllEarlyEvents()
    ensures EarlyEvents() == [Step(Identity), Step(Preflight), Step(Lock)] +
                             [StepFor(ImagePull, Postgres), StepFor(ImageVerify, Postgres)] +
                             [StepFor(ImagePull, Redis), StepFor(ImageVerify, Redis)] +
                             [StepFor(ImagePull, Grafana), StepFor(ImageVerify, Grafana)]
  {
    ImageEventsAre();
    hide ImageEvents;
    assert EarlyEvents() == [Step(Identity), Step(Preflight), Step(Lock)] + ImageEvents(3);
  }

  lemma ReadinessEventsAre(w: World)
    requires ReadyInTime(w, Postgres) && ReadyInTime(w, Redis) && ReadyInTime(w, Grafana)
    ensures JudgedEvents(Results(w), InTime(w)) ==
            [StepFor(Readiness, w.health(Postgres).dependency), StepFor(Readiness, w.health(Redis).dependency), StepFor(Readiness, w.health(Grafana).dependency)]
  {
    hide JudgedEvents;
    JudgedEventsAre(Results(w), InTime(w));
    assert JudgedEvent(w.health(Postgres), Fresh(w, Postgres)) == StepFor(Readiness, w.health(Postgres).dependency);
    assert JudgedEvent(w.health(Redis), Fresh(w, Redis)) == StepFor(Readiness, w.health(Redis).dependency);
    assert JudgedEvent(w.health(Grafana), Fresh(w, Grafana)) == StepFor(Readiness, w.health(Grafana).dependency);
  }

  lemma PassedRecordParts(w: World)
    requires Reference(w) == Verdict(Passed, OK)
    ensures Record(w) == EarlyEvents() + EachEvents(Reconcile, 3) + JudgedEvents(Results(w), InTime(w)) + [Step(Final)]
    ensures ReadyInTime(w, Postgres) && ReadyInTime(w, Redis) && ReadyInTime(w, Grafana)
  {
    hide Chain, EarlyEvents, EachEvents, JudgedEvents;
    VerdictsEndThere(Reference(w));
    var late, judged := EachEvents(Reconcile, 3), JudgedEvents(Results(w), InTime(w));
    assert EarlyEvents() + (late + (judged + [Step(Final)])) + [] == EarlyEvents() + late + judged + [Step(Final)];
  }

  /** What is on record when the `i`th early call is made, in which phase it is made, and for
      which dependency. */
  lemma EarlyTable(i: nat)
    requires i < 28
    ensures |EarlyCalls()| == 28
    ensures PhaseOf(EarlyCalls()[i]) == if i < 11 then Preflight else if i < 23 then Lock else if i < 26 then ImagePull else Reconcile
    ensures DependencyOf(EarlyCalls()[i]) ==
            if 8 <= i < 11 then Some(Dependencies[i - 8])
            else if 20 <= i < 23 then Some(Dependencies[i - 20])
            else if 23 <= i < 26 then Some(Dependencies[i - 23]) else None
    ensures EarlyCalls()[i] == ReadConfig(Outside) <==> i == 0
    ensures EarlyCalls()[i].EnsureImage? <==> 23 <= i < 26
  {
  }

  /** A failure raised by the `i`th early call is reported in its phase and for its dependency,
      with its own code unless the payload rules ask for a dependency it does not have; then by
      the final event. The operation is rejected before the lock, or when the lock is taken, and
      failed after. */
  lemma EarlyFailureIsReported(w: World, i: nat)
    requires ModeAccepted(w.mode, w.origin) && i < 28 && i < |EarlyCalls()| && Answer(w.script, EarlyCalls()[i]).Raises?
    requires forall j :: 0 <= j < i ==> Answer(w.script, EarlyCalls()[j]).Returns?
    ensures var reply := w.script(EarlyCalls()[i]);
            var scoped := reply.code.ImageUnavailable? || reply.code.PortConflict? || reply.code.DependencyNotReady?;
            var d := if 8 <= i < 11 then Some(Dependencies[i - 8]) else if 20 <= i < 23 then Some(Dependencies[i - 20])
                     else if 23 <= i < 26 then Some(Dependencies[i - 23]) else None;
            var phase := if i < 11 then Preflight else if i < 23 then Lock else if i < 26 then ImagePull else Final;
            && Reference(w) == Raised(reply.code, reply.message)
            && Record(w) ==
               (if i == 0 then [] else if i < 11 then [Step(Identity)] else if i < 23 then [Step(Identity), Step(Preflight)]
                else [Step(Identity), Step(Preflight)] + ([Step(Lock)] + ImageEvents(if i < 26 then i - 23 else 3))) +
               [Event(Dev, if d.Some? then Infra else Repository, phase, Failed, if scoped && d.None? then StepFailed else reply.code, d, reply.message),
                Event(Dev, Repository, Final, Failed, if scoped then StepFailed else reply.code, None, reply.message)]
            && FinalOf(w) == if i == 0 then None else Some(if i < 11 || reply.code.OperationInProgress? then Op.Rejected else Op.Failed)
  {
    hide EarlyCalls, BeforeLock, InsideLock, Chain, Upto, ImageEvents, Reference, Stopper;
    FirstFailureDecides(w, i);
    StopperAt(w, i);
    EarlyTable(i);
    PlacesAre();
  }

  /** An interrupt of the `i`th early call is reported in its phase, if the payload rules let that
      stand without a dependency, and by the final event. */
  lemma EarlyInterruptIsReported(w: World, i: nat)
    requires ModeAccepted(w.mode, w.origin) && i < 28 && i < |EarlyCalls()| && Answer(w.script, EarlyCalls()[i]).Interrupts?
    requires forall j :: 0 <= j < i ==> Answer(w.script, EarlyCalls()[j]).Returns?
    ensures Reference(w) == Interrupted && FinalOf(w) == Some(Op.Interrupted)
    ensures Record(w) ==
            EventsBefore(EarlyCalls()[i]) +
            (if i < 11 then [Event(Dev, Repository, Preflight, Failed, StepFailed, None, INTERRUPTED)]
             else if i < 23 then [Event(Dev, Repository, Lock, Failed, StepFailed, None, INTERRUPTED)] else []) +
            [Event(Dev, Repository, Final, Failed, StepFailed, None, INTERRUPTED)]
  {
    FirstFailureDecides(w, i);
    StopperAt(w, i);
    EarlyTable(i);
    hide EarlyCalls, BeforeLock, InsideLock, Chain, Upto, Reference, Stopper, EventsBefore, INTERRUPTED;
  }

  lemma PlacesAre()
    ensures Place(Dependencies[0]) == 0 && Place(Dependencies[1]) == 1 && Place(Dependencies[2]) == 2
  {
  }

  lemma StopperAt(w: World, i: nat)
    requires i < |EarlyCalls()| && !Answer(w.script, EarlyCalls()[i]).Returns?
    requires forall j :: 0 <= j < i ==> Answer(w.script, EarlyCalls()[j]).Returns?
    ensures !Chain(BeforeLock() + InsideLock(), w.script).Returns? && Stopper(w) == EarlyCalls()[i]
  {
    EarlyCallsAreThese();
    var cs := EarlyCalls();
    hide Chain, Upto, BeforeLock, InsideLock, EarlyCalls;
    SomeCallDecides(cs[..i], w.script);
    assert forall c :: c in cs[..i] ==> exists j :: 0 <= j < i && cs[j] == c;
    OneCall(cs, i, w.script);
  }

  /** The first port that is taken when looked at again. */
  predicate TakenAgain(script: Script, d: Dependency) {
    && script(AttributePort(d)).Raises? && script(AttributePort(d)).code.PortConflict?
    && forall e :: Place(e) < Place(d) ==> script(AttributePort(e)).Returns?
  }

  /** What a failed reconcile comes to: any code but a port conflict is reported for all three
      dependencies; a port conflict for the first whose port is taken again, with that code; and
      the operation fails. */
  lemma ReconcileFailureIsReported(w: World)
    requires ModeAccepted(w.mode, w.origin) && (forall c :: c in EarlyCalls() ==> Answer(w.script, c).Returns?)
    requires w.begin + 60.0 - w.beforeReconcile > 0.000001 && w.script(ReconcileUp).Raises?
    ensures var reply := w.script(ReconcileUp);
            !reply.code.PortConflict? ==>
              && Reference(w) == Verdict(Failed, reply.code) && FinalOf(w) == Some(Op.Failed)
              && Record(w) == EarlyEvents() +
                 [Event(Dev, Infra, Reconcile, Failed, reply.code, Some(Postgres), reply.message),
                  Event(Dev, Infra, Reconcile, Failed, reply.code, Some(Redis), reply.message),
                  Event(Dev, Infra, Reconcile, Failed, reply.code, Some(Grafana), reply.message)] +
                 [FailedFinal(Dev, reply.code, reply.message)]
    ensures var reply := w.script(ReconcileUp);
            forall d :: reply.code.PortConflict? && TakenAgain(w.script, d) ==>
              && Reference(w) == Verdict(Failed, PortConflict) && FinalOf(w) == Some(Op.Failed)
              && Record(w) == EarlyEvents() + [Event(Dev, Infra, Reconcile, Failed, PortConflict, Some(d), reply.message)] + [FailedFinal(Dev, PortConflict, reply.message)]
  {
    EarlyCallsAreThese();
    SomeCallDecides(EarlyCalls(), w.script);
    hide EarlyCalls, BeforeLock, InsideLock, Chain, EarlyEvents;
    var reply := w.script(ReconcileUp);
    BlamedAre(reply.code, reply.message);
    VerdictsEndThere(Reference(w));
    forall d | reply.code.PortConflict? && TakenAgain(w.script, d)
      ensures Chain(Attribute(), w.script) == w.script(AttributePort(d)) && LostTo(w.script) == d
    {
      FirstLost(w.script, d);
    }
    hide BlameEach, Attribute, LostTo, FailedFinal, Tail;
  }

  lemma BlamedAre(code: ErrorCode, message: Text)
    ensures BlameEach(code, message, 3) ==
            [Event(Dev, Infra, Reconcile, Failed, code, Some(Postgres), message),
             Event(Dev, Infra, Reconcile, Failed, code, Some(Redis), message),
             Event(Dev, Infra, Reconcile, Failed, code, Some(Grafana), message)]
  {
    NobodyBlamed(code, message);
    OneMoreBlamed(code, message, 0);
    OneMoreBlamed(code, message, 1);
    OneMoreBlamed(code, message, 2);
    hide BlameEach;
  }

  lemma FirstLost(script: Script, d: Dependency)
    requires !script(AttributePort(d)).Returns? && forall e :: Place(e) < Place(d) ==> script(AttributePort(e)).Returns?
    ensures Chain(Attribute(), script) == script(AttributePort(d)) && LostTo(script) == d
  {
    assert Place(Postgres) == 0 && Place(Redis) == 1 && Place(Grafana) == 2;
    var cs := Attribute();
    assert cs[1..] == [AttributePort(Redis), AttributePort(Grafana)] && cs[1..][1..] == [AttributePort(Grafana)];
  }

  /** Without readiness in time the record ends in one failed event for each dependency that was
      not ready in time, and the final one. */
  lemma NotReadyIsReported(w: World)
    requires ModeAccepted(w.mode, w.origin) && (forall c :: c in EarlyCalls() + Confirm() ==> Answer(w.script, c).Returns?)
    requires w.begin + 60.0 - w.beforeReconcile > 0.000001 && w.begin + 60.0 - w.afterReconcile > 0.000001 && w.script(ReconcileUp).Returns?
    requires (forall d :: !Unreportable(w.health(d))) && exists d :: !(w.health(d).ready && w.completed(d) <= w.begin + 60.0)
    ensures Reference(w) == Verdict(Failed, DependencyNotReady) && FinalOf(w) == Some(Op.Failed)
    ensures Record(w) == EarlyEvents() + [StepFor(Reconcile, Postgres), StepFor(Reconcile, Redis), StepFor(Reconcile, Grafana)] +
                         [ReadinessEvent(w, Postgres), ReadinessEvent(w, Redis), ReadinessEvent(w, Grafana)] +
                         [Event(Dev, Repository, Final, Failed, StepFailed, None, "not ready")]
  {
    NotReadyParts(w);
    EachEventsAre(Reconcile);
    JudgedEventsAre(Results(w), InTime(w));
    hide EarlyEvents, EachEvents, JudgedEvents, Record, Reference, EarlyCalls, Confirm, FinalOf;
    assert JudgedEvent(w.health(Postgres), Fresh(w, Postgres)) == ReadinessEvent(w, Postgres);
    assert JudgedEvent(w.health(Redis), Fresh(w, Redis)) == ReadinessEvent(w, Redis);
    assert JudgedEvent(w.health(Grafana), Fresh(w, Grafana)) == ReadinessEvent(w, Grafana);
  }

  lemma NotReadyParts(w: World)
    requires ModeAccepted(w.mode, w.origin) && (forall c :: c in EarlyCalls() + Confirm() ==> Answer(w.script, c).Returns?)
    requires w.begin + 60.0 - w.beforeReconcile > 0.000001 && w.begin + 60.0 - w.afterReconcile > 0.000001 && w.script(ReconcileUp).Returns?
    requires (forall d :: !Unreportable(w.health(d))) && exists d :: !(w.health(d).ready && w.completed(d) <= w.begin + 60.0)
    ensures Reference(w) == Verdict(Failed, DependencyNotReady) && FinalOf(w) == Some(Op.Failed)
    ensures Record(w) == EarlyEvents() + EachEvents(Reconcile, 3) + JudgedEvents(Results(w), InTime(w)) + [Closing(Failed)]
  {
    hide EarlyCalls, BeforeLock, InsideLock, Chain, Confirm, Answer, Reference, Record, FinalOf, Unreportable;
    EarlyCallsAreThese();
    assert forall c :: c in EarlyCalls() || c in Confirm() ==> c in EarlyCalls() + Confirm();
    SomeCallDecides(EarlyCalls(), w.script);
    SomeCallDecides(Confirm(), w.script);
    EveryDependency(w);
    var d :| !(w.health(d).ready && w.completed(d) <= w.begin + 60.0);
    assert !ReadyInTime(w, d);
    hide ReadyInTime;
    ConfirmedParts(w);
  }

  lemma ConfirmedParts(w: World)
    requires ModeAccepted(w.mode, w.origin) && Chain(BeforeLock() + InsideLock(), w.script).Returns? && Chain(Confirm(), w.script).Returns?
    requires Deadline(w) - w.beforeReconcile > MIN_REMAINING && Deadline(w) - w.afterReconcile > MIN_REMAINING && w.script(ReconcileUp).Returns?
    requires !Unreportable(w.health(Postgres)) && !Unreportable(w.health(Redis)) && !Unreportable(w.health(Grafana)) && !AllReadyInTime(w)
    ensures Reference(w) == Verdict(Failed, DependencyNotReady) && FinalOf(w) == Some(Op.Failed)
    ensures Record(w) == EarlyEvents() + EachEvents(Reconcile, 3) + JudgedEvents(Results(w), InTime(w)) + [Closing(Failed)]
  {
    hide BeforeLock, InsideLock, Chain, EarlyEvents, EachEvents, JudgedEvents, Confirm, Unreportable, Closing, AllReadyInTime;
    VerdictsEndThere(Reference(w));
    var late, judged := EachEvents(Reconcile, 3), JudgedEvents(Results(w), InTime(w));
    assert EarlyEvents() + (late + (judged + [Closing(Failed)])) + [] == EarlyEvents() + late + judged + [Closing(Failed)];
  }

  /** No time before the reconcile, or none after it: no probe is made, and each dependency is
      reported as timed out. */
  lemma NoTimeIsReported(w: World)
    requires ModeAccepted(w.mode, w.origin) && (forall c :: c in EarlyCalls() ==> Answer(w.script, c).Returns?)
    requires w.begin + 60.0 - w.beforeReconcile > 0.000001 ==> w.script(ReconcileUp).Returns? && w.begin + 60.0 - w.afterReconcile <= 0.000001
    ensures Reference(w) == Verdict(Failed, DependencyNotReady) && FinalOf(w) == Some(Op.Failed)
    ensures Record(w) ==
            EarlyEvents() +
            (if w.begin + 60.0 - w.beforeReconcile <= 0.000001 then []
             else [StepFor(Reconcile, Postgres), StepFor(Reconcile, Redis), StepFor(Reconcile, Grafana)]) +
            [NeverReady(Postgres), NeverReady(Redis), NeverReady(Grafana)] +
            [Event(Dev, Repository, Final, Failed, StepFailed, None, "not ready")]
    ensures CallsMade(w) ==
            EarlyCalls() + (if w.begin + 60.0 - w.beforeReconcile <= 0.000001 then [] else [ReconcileUp, ReleaseSecrets]) + [ReleaseLock]
  {
    hide BeforeLock, InsideLock, Chain, EarlyCalls, EarlyEvents, EachEvents, TimeoutEvents;
    EarlyPass(w);
    EachEventsAre(Reconcile);
    TimeoutsAre();
    VerdictsEndThere(Reference(w));
    var late, timeouts := EachEvents(Reconcile, 3), TimeoutEvents();
    assert EarlyEvents() + (late + timeouts) + [] == EarlyEvents() + late + timeouts && EarlyEvents() + timeouts + [] == EarlyEvents() + [] + timeouts;
    hide NeverReady;
    var pair := [ReconcileUp] + [] + [ReleaseSecrets] + [];
    assert pair == [ReconcileUp, ReleaseSecrets];
    assert BeforeLock() + (InsideLock() + pair) + [ReleaseLock] == EarlyCalls() + pair + [ReleaseLock];
    assert BeforeLock() + (InsideLock() + []) + [ReleaseLock] == EarlyCalls() + [] + [ReleaseLock];
  }

  function NeverReady(d: Dependency): Event {
    Event(Dev, Infra, Readiness, Failed, DependencyNotReady, Some(d), Probes.SafeReason(d, Probes.TimedOut))
  }

  lemma TimeoutsAre()
    ensures TimeoutEvents() == [NeverReady(Postgres), NeverReady(Redis), NeverReady(Grafana)] + [Event(Dev, Repository, Final, Failed, StepFailed, None, "not ready")]
  {
    JudgedEventsAre(TimeoutResults(), NEVER);
    hide JudgedEvents;
  }

  /** Everything early returned. */
  lemma EarlyPass(w: World)
    requires forall c :: c in EarlyCalls() ==> Answer(w.script, c).Returns?
    ensures Chain(BeforeLock() + InsideLock(), w.script).Returns? && BeforeLock() + InsideLock() == EarlyCalls()
    ensures Chain(BeforeLock(), w.script).Returns? && Chain(InsideLock(), w.script).Returns?
  {
    hide Chain, EarlyCalls, BeforeLock, InsideLock;
    EarlyCallsAreThese();
    SomeCallDecides(EarlyCalls(), w.script);
    Stretch(BeforeLock(), InsideLock(), w.script);
  }

  /** What ends a run once the deadline runs, if it is neither a verdict nor an escape. */
  function LateTail(reply: Reply): seq<Event> {
    match reply
    case Raises(code, message) =>
      var reported := if code.ImageUnavailable? || code.PortConflict? || code.DependencyNotReady? then StepFailed else code;
      [Event(Dev, Repository, Final, Failed, reported, None, message), Event(Dev, Repository, Final, Failed, reported, None, message)]
    case Interrupts => [Event(Dev, Repository, Final, Failed, StepFailed, None, INTERRUPTED)]
    case _ => []
  }

  lemma LateTailIs(reply: Reply)
    ensures Tail(Reconcile, None, AsSignal(reply)) == LateTail(reply)
  {
  }

  predicate Reconciles(w: World) {
    && ModeAccepted(w.mode, w.origin) && (forall c :: c in EarlyCalls() ==> Answer(w.script, c).Returns?)
    && w.begin + 60.0 - w.beforeReconcile > 0.000001
  }

  /** An interrupt in the reconcile. */
  lemma InterruptedReconcileIsReported(w: World)
    requires Reconciles(w) && w.script(ReconcileUp).Interrupts?
    ensures Reference(w) == Interrupted && FinalOf(w) == Some(Op.Interrupted)
    ensures Record(w) == EarlyEvents() + [Event(Dev, Repository, Final, Failed, StepFailed, None, INTERRUPTED)]
  {
    hide BeforeLock, InsideLock, Chain, EarlyCalls, EarlyEvents, INTERRUPTED;
    EarlyPass(w);
    LateTailIs(Interrupts);
    hide Tail;
  }

  /** After the reconcile the first call of the confirmation that does not return decides. */
  lemma ConfirmFailureIsReported(w: World, i: nat)
    requires Reconciles(w) && w.script(ReconcileUp).Returns? && w.begin + 60.0 - w.afterReconcile > 0.000001
    requires i < 6 && !w.script(Confirmation()[i]).Returns? && forall j :: 0 <= j < i ==> w.script(Confirmation()[j]).Returns?
    ensures var reply := w.script(Confirmation()[i]);
            && Reference(w) == AsSignal(reply)
            && (!reply.Breaks? ==>
                  && FinalOf(w) == Some(if reply.Raises? then Op.Failed else Op.Interrupted)
                  && Record(w) == EarlyEvents() + [StepFor(Reconcile, Postgres), StepFor(Reconcile, Redis), StepFor(Reconcile, Grafana)] + LateTail(reply))
  {
    hide BeforeLock, InsideLock, Chain, EarlyCalls, EarlyEvents, EachEvents, Confirm, Confirmation, Reference, Record, FinalOf, LateEvents, AfterDeadline, LateTail;
    EarlyPass(w);
    ConfirmStops(w, i);
    LateConfirmation(w);
    EachEventsAre(Reconcile);
    RecordOfLateEnd(w, w.script(Confirmation()[i]));
  }

  lemma LateConfirmation(w: World)
    requires w.begin + 60.0 - w.beforeReconcile > 0.000001 && w.script(ReconcileUp).Returns? && w.begin + 60.0 - w.afterReconcile > 0.000001
    requires !Chain(Confirm(), w.script).Returns?
    ensures AfterDeadline(w) == AsSignal(Chain(Confirm(), w.script)) && LateEvents(w) == EachEvents(Reconcile, 3)
  {
    hide Chain, Confirm, EachEvents;
    assert EachEvents(Reconcile, 3) + [] == EachEvents(Reconcile, 3);
  }

  lemma RecordOfLateEnd(w: World, reply: Reply)
    requires ModeAccepted(w.mode, w.origin) && Chain(BeforeLock() + InsideLock(), w.script).Returns?
    requires AfterDeadline(w) == AsSignal(reply) && !reply.Returns?
    ensures Reference(w) == AsSignal(reply)
    ensures !reply.Breaks? ==>
              FinalOf(w) == Some(if reply.Raises? then Op.Failed else Op.Interrupted) && Record(w) == EarlyEvents() + LateEvents(w) + LateTail(reply)
  {
    hide BeforeLock, InsideLock, Chain, EarlyEvents, LateEvents, AfterDeadline, Tail, LateTail;
    LateTailIs(reply);
  }

  function Confirmation(): (cs: seq<Call>)
    ensures |cs| == 6
  {
    [ProjectState(After), AssertOwnership(After), AssertLoopback(After), Probe(Postgres), Probe(Redis), Probe(Grafana)]
  }

  lemma ConfirmStops(w: World, i: nat)
    requires i < 6 && !w.script(Confirmation()[i]).Returns? && forall j :: 0 <= j < i ==> w.script(Confirmation()[j]).Returns?
    ensures Chain(Confirm(), w.script) == w.script(Confirmation()[i])
  {
    var cs := Confirm();
    assert cs == Confirmation() && forall k :: 0 <= k < 6 ==> Answer(w.script, cs[k]) == w.script(cs[k]);
    hide Chain, Confirm, Confirmation;
    SomeCallDecides(cs[..i], w.script);
    assert forall c :: c in cs[..i] ==> exists j :: 0 <= j < i && cs[j] == c;
    OneCall(cs, i, w.script);
  }

  /** A lost port race whose first re-check that does not return fails for another reason, or is
      interrupted. */
  lemma AttributionFailureIsReported(w: World, d: Dependency)
    requires Reconciles(w) && w.script(ReconcileUp).Raises? && w.script(ReconcileUp).code.PortConflict?
    requires var reply := w.script(AttributePort(d)); reply.Interrupts? || reply.Breaks? || (reply.Raises? && !reply.code.PortConflict?)
    requires forall e :: Place(e) < Place(d) ==> w.script(AttributePort(e)).Returns?
    ensures var reply := w.script(AttributePort(d));
            && Reference(w) == AsSignal(reply)
            && (!reply.Breaks? ==> FinalOf(w) == Some(if reply.Raises? then Op.Failed else Op.Interrupted) && Record(w) == EarlyEvents() + LateTail(reply))
  {
    hide BeforeLock, InsideLock, Chain, EarlyCalls, EarlyEvents, Attribute, Reference, Record, FinalOf, LateEvents, AfterDeadline, LateTail;
    EarlyPass(w);
    FirstLost(w.script, d);
    LateAttribution(w, w.script(AttributePort(d)));
    RecordOfLateEnd(w, w.script(AttributePort(d)));
    assert EarlyEvents() + [] == EarlyEvents();
  }

  lemma LateAttribution(w: World, reply: Reply)
    requires w.begin + 60.0 - w.beforeReconcile > 0.000001 && w.script(ReconcileUp).Raises? && w.script(ReconcileUp).code.PortConflict?
    requires Chain(Attribute(), w.script) == reply && (reply.Interrupts? || reply.Breaks? || (reply.Raises? && !reply.code.PortConflict?))
    ensures AfterDeadline(w) == AsSignal(reply) && LateEvents(w) == []
  {
    hide Chain, Attribute, FailureEvents;
  }

  /** A late success is reported as stale. */
  function ReadinessEvent(w: World, d: Dependency): Event {
    var r := w.health(d);
    if r.ready && w.completed(d) <= w.begin + 60.0 then StepFor(Readiness, r.dependency)
    else Event(Dev, Infra, Readiness, Failed, DependencyNotReady, Some(r.dependency), if r.ready then "stale" else r.reason)
  }

  lemma EveryDependency(w: World)
    ensures AllReadyInTime(w) <==> forall d :: ReadyInTime(w, d)
    ensures (Unreportable(w.health(Postgres)) || Unreportable(w.health(Redis)) || Unreportable(w.health(Grafana))) <==>
            exists d :: Unreportable(w.health(d))
    ensures (w.script(AttributePort(Postgres)).Returns? && w.script(AttributePort(Redis)).Returns? && w.script(AttributePort(Grafana)).Returns?) <==>
            forall d :: w.script(AttributePort(d)).Returns?
  {
    forall d
      ensures AllReadyInTime(w) ==> ReadyInTime(w, d)
      ensures Unreportable(w.health(d)) ==> Unreportable(w.health(Postgres)) || Unreportable(w.health(Redis)) || Unreportable(w.health(Grafana))
      ensures w.script(AttributePort(Postgres)).Returns? && w.script(AttributePort(Redis)).Returns? && w.script(AttributePort(Grafana)).Returns? ==>
                w.script(AttributePort(d)).Returns?
    {
      match d case Postgres => case Redis => case Grafana =>
    }
  }

  /** The reconcile lost a port race that no re-check can pin on a dependency. */
  predicate Unattributed(w: World) {
    && ModeAccepted(w.mode, w.origin)
    && (forall c :: c in BeforeLock() + InsideLock() ==> Answer(w.script, c).Returns?)
    && Deadline(w) - w.beforeReconcile > MIN_REMAINING
    && LostTheRace(w)
    && w.script(AttributePort(Postgres)).Returns? && w.script(AttributePort(Redis)).Returns? && w.script(AttributePort(Grafana)).Returns?
  }

  /** With results that can be reported, a start raises in exactly two cases: some call it makes
      breaks, with an exception that no handler names; or the reconcile lost a port race that
      nobody can be blamed for, so that its event would carry a dependency-scoped phase without
      a dependency. */
  lemma StartEscapesExactlyWhen(w: World)
    requires forall d :: Probes.Presentable(w.health(d))
    ensures Reference(w).Escapes? <==> SomeBreaks(CallsMade(w), w.script) || Unattributed(w)
  {
    hide Chain, Upto, BeforeLock, InsideLock, Confirm, Attribute, SomeBreaks, DeadlineCalls, AfterDeadline;
    var plan := BeforeLock() + InsideLock();
    Stretch(BeforeLock(), InsideLock(), w.script);
    SomeCallDecides(plan, w.script);
    BreaksExactlyWhen(BeforeLock(), w.script);
    BreaksExactlyWhen(InsideLock(), w.script);
    NothingBreaks(w.script);
    if Chain(BeforeLock(), w.script).Returns? {
      AllMade(BeforeLock(), w.script);
      SomeBreaksJoins(BeforeLock() + CallsInside(w), [ReleaseLock], w.script);
      SomeBreaksJoins(BeforeLock(), CallsInside(w), w.script);
      if Chain(InsideLock(), w.script).Returns? {
        AllMade(InsideLock(), w.script);
        SomeBreaksJoins(InsideLock(), DeadlineCalls(w), w.script);
        DeadlineEscapesExactlyWhen(w);
      }
    }
  }

  /** How reading an `.env.local` with this text answers. */
  predicate Answers(r: Reply, text: string, lib: Config.Library) {
    match Config.Parse(lib, text)
    case Success(_) => r.Returns?
    case Failure(PlainValueError) => r.Breaks?
    case Failure(InvalidMode) => r.Raises? && r.code == InvalidMode
    case Failure(InvalidConfig(_)) => r.Raises? && r.code == InvalidConfig
  }

  /** A start that reads the text ends there, by raising, exactly for the texts on which the
      parser lets a ValueError through. */
  lemma RaisingTextEndsTheStart(w: World, lib: Config.Library, text: string)
    requires ModeAccepted(w.mode, w.origin) && Answers(w.script(ReadConfig(Outside)), text, lib)
    ensures Reference(w).Escapes? && CallsMade(w) == [ReadConfig(Outside)] <==> Config.Parse(lib, text) == Failure(Config.PlainValueError)
  {
    hide Config.Parse, CallsInside, AfterDeadline, InsideLock;
    var cs := BeforeLock();
    assert cs[0] == ReadConfig(Outside) && cs[1] == LoadManifest;
    hide BeforeLock;
    assert Upto(cs, w.script) == if w.script(cs[0]).Returns? then [cs[0]] + Upto(cs[1..], w.script) else [cs[0]];
    assert w.script(cs[0]).Returns? ==> |Upto(cs[1..], w.script)| > 0;
  }

  /** Everything returns but the reconcile, which finds a port taken that is free again when it is
      looked at. */
  function RaceScript(message: Text): Script { c => if c == ReconcileUp then Raises(PortConflict, message) else Returns }

  function RaceWorld(message: Text, health: Dependency -> Probes.HealthResult, at: real): World {
    World(NoMode, NoOrigin, RaceScript(message), health, _ => at, at, at, at)
  }

  /** Such a start raises although no call it makes breaks. */
  lemma RaceEscapes(message: Text, health: Dependency -> Probes.HealthResult, at: real)
    ensures var w := RaceWorld(message, health, at); Unattributed(w) && Reference(w).Escapes? && !SomeBreaks(CallsMade(w), w.script)
  {
    var w := RaceWorld(message, health, at);
    NoReconcile();
    SomeCallDecides(BeforeLock() + InsideLock(), w.script);
    SomeCallDecides(Attribute(), w.script);
    hide BeforeLock, InsideLock, Attribute, Confirm, Chain, CallsMade;
  }

  lemma DeadlineEscapesExactlyWhen(w: World)
    requires forall d :: Probes.Presentable(w.health(d))
    ensures AfterDeadline(w).Escapes? <==>
            SomeBreaks(DeadlineCalls(w), w.script) ||
            (Deadline(w) - w.beforeReconcile > MIN_REMAINING && LostTheRace(w) && Chain(Attribute(), w.script).Returns?)
    ensures Chain(Attribute(), w.script).Returns? <==>
            w.script(AttributePort(Postgres)).Returns? && w.script(AttributePort(Redis)).Returns? && w.script(AttributePort(Grafana)).Returns?
  {
    AttributionReturns(w.script);
    hide Chain, Upto, Confirm, Attribute, SomeBreaks;
    NothingBreaks(w.script);
    BreaksExactlyWhen(Attribute(), w.script);
    BreaksExactlyWhen(Confirm(), w.script);
    assert !Unreportable(w.health(Postgres)) && !Unreportable(w.health(Redis)) && !Unreportable(w.health(Grafana));
    if Deadline(w) - w.beforeReconcile > MIN_REMAINING {
      var attributed := if LostTheRace(w) then Upto(Attribute(), w.script) else [];
      var confirmed := if w.script(ReconcileUp).Returns? && Deadline(w) - w.afterReconcile > MIN_REMAINING then Upto(Confirm(), w.script) else [];
      assert DeadlineCalls(w) == [ReconcileUp] + attributed + [ReleaseSecrets] + confirmed;
      SomeBreaksJoins([ReconcileUp], attributed, w.script);
      SomeBreaksJoins([ReconcileUp] + attributed, [ReleaseSecrets], w.script);
      SomeBreaksJoins([ReconcileUp] + attributed + [ReleaseSecrets], confirmed, w.script);
    }
  }

  lemma AttributionReturns(script: Script)
    ensures Chain(Attribute(), script).Returns? <==>
            script(AttributePort(Postgres)).Returns? && script(AttributePort(Redis)).Returns? && script(AttributePort(Grafana)).Returns?
  {
    var cs := Attribute();
    assert cs[1..] == [AttributePort(Redis), AttributePort(Grafana)];
    assert cs[1..][1..] == [AttributePort(Grafana)];
    assert cs[1..][1..][1..] == [];
  }

  /** Nothing is pulled or reconciled except between acquiring the lock and releasing it; a
      run that does not get the lock changes nothing. */
  lemma MutationOnlyUnderTheLock(w: World, k: nat)
    requires k < |CallsMade(w)| && (CallsMade(w)[k].EnsureImage? || CallsMade(w)[k].ReconcileUp? || CallsMade(w)[k].ReconcileDown?)
    ensures w.script(AcquireLock).Returns?
    ensures AcquireLock in CallsMade(w)[..k] && ReleaseLock !in CallsMade(w)[..k]
    ensures CallsMade(w)[|CallsMade(w)| - 1] == ReleaseLock
  {
    hide Chain, Upto, BeforeLock, InsideLock, Attribute, Confirm;
    PlanFacts();
    UptoIsPrefix(BeforeLock(), w.script);
    SomeCallDecides(BeforeLock(), w.script);
    NoReleaseInside(w);
    hide CallsInside;
    var calls, n := CallsMade(w), |BeforeLock()|;
    assert Mutating(calls[k]);
    assert calls[k] !in BeforeLock();
    assert calls == BeforeLock() + CallsInside(w) + [ReleaseLock];
    assert calls[..k] == BeforeLock() + CallsInside(w)[..k - n];
  }

  /** `compose up` comes after everything before it returned: in particular after the ownership
      check made under the lock, and after every image was verified. */
  lemma ReconcileOnlyAfterInspection(w: World, k: nat)
    requires k < |CallsMade(w)| && CallsMade(w)[k] == ReconcileUp
    ensures CallsMade(w)[..k] == BeforeLock() + InsideLock()
    ensures forall c :: c in BeforeLock() + InsideLock() ==> Answer(w.script, c).Returns?
    ensures AssertOwnership(Inside) in InsideLock() && forall d :: EnsureImage(d) in InsideLock()
  {
    hide Chain, Upto, Attribute, Confirm;
    UptoIsPrefix(BeforeLock(), w.script);
    UptoIsPrefix(InsideLock(), w.script);
    UptoIsPrefix(Attribute(), w.script);
    UptoIsPrefix(Confirm(), w.script);
    NoReconcile();
    InspectionFacts();
    SomeCallDecides(BeforeLock(), w.script);
    SomeCallDecides(InsideLock(), w.script);
    hide BeforeLock, InsideLock;
    var calls, n, m := CallsMade(w), |BeforeLock()|, |InsideLock()|;
    assert calls[k] !in BeforeLock() && calls[k] !in InsideLock() && calls[k] != ReleaseLock;
    assert calls == BeforeLock() + CallsInside(w) + [ReleaseLock];
    assert calls[k] == CallsInside(w)[k - n];
    assert CallsInside(w) == InsideLock() + DeadlineCalls(w);
    assert calls[k] == DeadlineCalls(w)[k - n - m];
    OnlyFirst(w, k - n - m);
    assert calls[..k] == BeforeLock() + InsideLock();
  }

  lemma OnlyFirst(w: World, j: nat)
    requires j < |DeadlineCalls(w)| && DeadlineCalls(w)[j] == ReconcileUp
    ensures j == 0
  {
    hide Chain, Upto, Attribute, Confirm, DeadlineCalls;
    var tail := AfterUp(w);
    NoReconcileAfter(w);
    DeadlineCallsSplit(w);
    assert forall i :: 0 < i < |DeadlineCalls(w)| ==> DeadlineCalls(w)[i] == tail[i - 1] && tail[i - 1] in tail;
  }

  /** What follows the reconcile. */
  function AfterUp(w: World): seq<Call> {
    (if LostTheRace(w) then Upto(Attribute(), w.script) else []) + [ReleaseSecrets] +
    (if w.script(ReconcileUp).Returns? && Deadline(w) - w.afterReconcile > MIN_REMAINING then Upto(Confirm(), w.script) else [])
  }

  lemma DeadlineCallsSplit(w: World)
    ensures DeadlineCalls(w) == [] || DeadlineCalls(w) == [ReconcileUp] + AfterUp(w)
  {
    hide Upto, Attribute, Confirm;
  }

  lemma NoReconcileAfter(w: World)
    ensures ReconcileUp !in AfterUp(w)
  {
    NoReconcile();
    UptoIsPrefix(Attribute(), w.script);
    UptoIsPrefix(Confirm(), w.script);
    hide Chain, Upto, Attribute, Confirm;
  }

  lemma NoReconcile()
    ensures forall c :: c in BeforeLock() || c in InsideLock() || c in Attribute() || c in Confirm() ==> c != ReconcileUp
  {
  }

  lemma InspectionFacts()
    ensures AssertOwnership(Inside) in InsideLock() && forall d :: EnsureImage(d) in InsideLock()
  {
    forall d
      ensures EnsureImage(d) in InsideLock()
    {
      match d
      case Postgres => assert EnsureImage(Postgres) in Images();
      case Redis => assert EnsureImage(Redis) in Images();
      case Grafana => assert EnsureImage(Grafana) in Images();
    }
  }

  lemma NoReleaseInside(w: World)
    ensures ReleaseLock !in CallsInside(w)
  {
    hide Chain, Upto, BeforeLock, InsideLock, Attribute, Confirm;
    PlanFacts();
    UptoIsPrefix(InsideLock(), w.script);
    UptoIsPrefix(Attribute(), w.script);
    UptoIsPrefix(Confirm(), w.script);
  }

  lemma PlanFacts()
    ensures AcquireLock in BeforeLock() && forall c :: c in BeforeLock() ==> !Mutating(c) && c != ReleaseLock
    ensures forall c :: c in InsideLock() || c in Attribute() || c in Confirm() ==> c != ReleaseLock
  {
  }

  /** In particular every image is verified before the one deadline starts, the reconcile comes
      before everything is inspected again, ownership included, and that before every probe. */
  lemma PassedRunMakesExactlyThePlan(w: World)
    requires Reference(w) == Verdict(Passed, OK)
    ensures CallsMade(w) ==
            [ReadConfig(Outside), LoadManifest, RuntimeBase, VerifyRuntime,
             ProjectState(Outside), AssertOwnership(Outside), AssertNoPath(Outside), AssertLoopback(Outside),
             PreflightPort(Postgres, Outside), PreflightPort(Redis, Outside), PreflightPort(Grafana, Outside),
             EnsureRuntimeDir, AcquireLock] +
            [ReadConfig(Inside), VerifiedBytes, VerifyRuntimeAgain,
             ProjectState(Inside), AssertOwnership(Inside), AssertNoPath(Inside), AssertLoopback(Inside),
             PreflightPort(Postgres, Inside), PreflightPort(Redis, Inside), PreflightPort(Grafana, Inside),
             EnsureImage(Postgres), EnsureImage(Redis), EnsureImage(Grafana), StartDeadline, BuildSecrets] +
            [ReconcileUp, ReleaseSecrets] +
            [ProjectState(After), AssertOwnership(After), AssertLoopback(After), Probe(Postgres), Probe(Redis), Probe(Grafana)] +
            [ReleaseLock]
  {
    hide CallsMade, Reference, BeforeLock, InsideLock, Confirm;
    PassedRunMakes(w);
    BeforeLockIs();
    InsideLockIs();
    ConfirmIs();
  }

  lemma BeforeLockIs()
    ensures BeforeLock() ==
            [ReadConfig(Outside), LoadManifest, RuntimeBase, VerifyRuntime,
             ProjectState(Outside), AssertOwnership(Outside), AssertNoPath(Outside), AssertLoopback(Outside),
             PreflightPort(Postgres, Outside), PreflightPort(Redis, Outside), PreflightPort(Grafana, Outside),
             EnsureRuntimeDir, AcquireLock]
  {
  }

  lemma InsideLockIs()
    ensures InsideLock() ==
            [ReadConfig(Inside), VerifiedBytes, VerifyRuntimeAgain,
             ProjectState(Inside), AssertOwnership(Inside), AssertNoPath(Inside), AssertLoopback(Inside),
             PreflightPort(Postgres, Inside), PreflightPort(Redis, Inside), PreflightPort(Grafana, Inside),
             EnsureImage(Postgres), EnsureImage(Redis), EnsureImage(Grafana), StartDeadline, BuildSecrets]
  {
  }

  lemma ConfirmIs()
    ensures Confirm() == [ProjectState(After), AssertOwnership(After), AssertLoopback(After), Probe(Postgres), Probe(Redis), Probe(Grafana)]
  {
  }

  /** Position by position: the reconcile, then ownership, then the probes. */
  lemma OwnershipBetweenReconcileAndProbes(w: World, d: Dependency)
    requires Reference(w) == Verdict(Passed, OK)
    ensures exists i, j, k :: 0 <= i < j < k < |CallsMade(w)| &&
              CallsMade(w)[i] == ReconcileUp && CallsMade(w)[j] == AssertOwnership(After) && CallsMade(w)[k] == Probe(d)
  {
    hide CallsMade, Reference, BeforeLock, InsideLock, Confirm;
    PassedRunMakes(w);
    var k := ProbePlace(d);
    Places(CallsMade(w), BeforeLock() + InsideLock(), Confirm(), k);
  }

  lemma Places(calls: seq<Call>, early: seq<Call>, after: seq<Call>, k: nat)
    requires calls == early + [ReconcileUp, ReleaseSecrets] + after + [ReleaseLock] && 1 < k < |after|
    ensures |early| + 2 + k < |calls|
    ensures calls[|early|] == ReconcileUp && calls[|early| + 3] == after[1] && calls[|early| + 2 + k] == after[k]
  {
  }

  lemma ProbePlace(d: Dependency) returns (k: nat)
    ensures 1 < k < |Confirm()| && Confirm()[k] == Probe(d) && Confirm()[1] == AssertOwnership(After)
  {
    match d { case Postgres => k := 3; case Redis => k := 4; case Grafana => k := 5; }
  }

  lemma PassedRunMakes(w: World)
    requires Reference(w) == Verdict(Passed, OK)
    ensures CallsMade(w) == BeforeLock() + InsideLock() + [ReconcileUp, ReleaseSecrets] + Confirm() + [ReleaseLock]
  {
    hide Chain, Upto, BeforeLock, InsideLock, Confirm, AfterDeadline, DeadlineCalls, Deadline;
    Stretch(BeforeLock(), InsideLock(), w.script);
    PassedDeadlineCalls(w);
    var last := [ReconcileUp, ReleaseSecrets] + Confirm();
    assert BeforeLock() + (InsideLock() + last) + [ReleaseLock] == BeforeLock() + InsideLock() + [ReconcileUp, ReleaseSecrets] + Confirm() + [ReleaseLock];
  }

  lemma PassedDeadlineCalls(w: World)
    requires AfterDeadline(w) == Verdict(Passed, OK)
    ensures DeadlineCalls(w) == [ReconcileUp, ReleaseSecrets] + Confirm()
  {
    hide Chain, Upto, Confirm, Attribute, OnEvidence;
    assert Chain(Confirm(), w.script).Returns?;
    AllMade(Confirm(), w.script);
  }
}
