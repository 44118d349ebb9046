/** `make dev-down`: the guarded stop against a script of replies and resource listings. */
module StopRun {
  import opened Wrappers
  import opened Events
  import opened LifecycleRun
  import Op = Operation
  import Compose

  const STOP_BUDGET: real := 75.0

  type Listing = seq<Compose.ProjectResource>

  /** `elapsed` is the time spent when the down budget is computed. */
  datatype World = World(
    mode: Mode, origin: Origin, id: Compose.WorkspaceIdentity,
    script: Script, elapsed: real,
    before: Listing, remaining: Listing, after: Listing, repository: Listing)

  // ------------------------------------------------------------------ listings

  predicate Running(r: Compose.ProjectResource) { !r.kind.Volume? }

  predicate Stopped(rs: Listing) {
    forall k :: 0 <= k < |rs| ==> !Running(rs[k])
  }

  predicate HasVolume(rs: Listing, name: string) {
    exists k :: 0 <= k < |rs| && rs[k].kind.Volume? && rs[k].name == name
  }

  function VolumeName(w: World, suffix: string): string { w.id.projectId + "_" + suffix }

  /** The two named volumes that an ordinary stop must keep if it found them. */
  predicate KeepsVolume(w: World, suffix: string) {
    HasVolume(w.before, VolumeName(w, suffix)) ==> HasVolume(w.after, VolumeName(w, suffix))
  }

  function DependencyOf(r: Compose.ProjectResource): Option<Dependency> {
    var service := Compose.Label(r.labels, Compose.LABEL_SERVICE);
    if !r.kind.Container? then None
    else if service == "postgres" then Some(Postgres)
    else if service == "redis" then Some(Redis)
    else if service == "grafana" then Some(Grafana)
    else None
  }

  predicate Classifiable(id: Compose.WorkspaceIdentity, rs: Listing) {
    forall k :: 0 <= k < |rs| ==>
      Compose.DeployStack(rs[k]) || Compose.Elsewhere(id, rs[k]) || Compose.AuthorizeLabelMutation(id, rs[k].labels).None?
  }

  // ------------------------------------------------------------------ what a run comes to

  function Identification(): seq<Call> { [LoadManifest, RuntimeBase] }
  function TakeLock(): seq<Call> { [EnsureRuntimeDir, AcquireLock] }
  function BeforeLock(): seq<Call> { Identification() + TakeLock() }
  function InsideLock(): seq<Call> { [VerifyRuntime, ListResources(Inside)] }

  function Conflict(): Signal { Raised(ResourceOwnershipConflict, "x") }

  function AfterDown(w: World): Signal {
    if !w.script(ListResources(After)).Returns? then AsSignal(w.script(ListResources(After)))
    else if !Compose.AllAuthorized(w.id, w.after) then Conflict()
    else if !Stopped(w.after) || !KeepsVolume(w, "postgres-data") || !KeepsVolume(w, "redis-data") then Verdict(Failed, StepFailed)
    else Closing(w)
  }

  function Closing(w: World): Signal {
    if !w.script(ListRepository).Returns? then AsSignal(w.script(ListRepository))
    else if !Classifiable(w.id, w.repository) then Conflict()
    else Verdict(Passed, OK)
  }

  function Down(w: World): Signal {
    if STOP_BUDGET - w.elapsed <= 0.0 then Verdict(Failed, StepFailed)
    else match w.script(ReconcileDown)
         case Interrupts => Interrupted
         case Breaks => Escapes
         case Raises(code, _) =>
           if w.script(ListRemaining).Returns? then Verdict(Failed, code) else AsSignal(w.script(ListRemaining))
         case Returns => AfterDown(w)
  }

  function Reference(w: World): Signal {
    if !ModeAccepted(w.mode, w.origin) then Raised(InvalidMode, "x")
    else if !Chain(BeforeLock() + InsideLock(), w.script).Returns? then AsSignal(Chain(BeforeLock() + InsideLock(), w.script))
    else if !Compose.AllAuthorized(w.id, w.before) then Conflict()
    else if Stopped(w.before) then AfterDown(w)
    else Down(w)
  }

  // ------------------------------------------------------------------ the run

  /** The operation can still be settled by the outer handlers. */
  predicate Open(run: Run) {
    && Clean(run) && run.action == DevDown && run.current.None?
    && (run.operation.Some? ==> run.operation.value.status.Requested? || run.operation.value.status.Running?)
  }

  predicate Underway(run: Run) {
    Open(run) && run.held && run.operation.Some? && run.operation.value.status.Running?
  }

  /** Everything but the record of the run stays. */
  predicate SameRun(run: Run, start: Run) {
    run == start.(events := run.events, heldAtLast := run.heldAtLast, calls := run.calls, phase := run.phase, operation := run.operation)
  }

  /** The verdict of a return from inside: on record, emitted under the lock. */
  predicate OnRecord(run: Run, s: Signal) {
    && Valid(run)
    && (s.Verdict? ==> Concludes(run.events, s.status) && run.heldAtLast && run.operation.Some?)
    && (s.Raised? || s.Interrupted? ==> Underway(run))
  }

  function StillPresent(action: Action, d: Dependency): Event {
    Event(action, Infra, Stopping, Failed, StepFailed, Some(d), "still present")
  }

  /** One event per listed dependency container, in listing order. */
  function StillThere(action: Action, rs: Listing): seq<Event> {
    if rs == [] then []
    else
      var d := DependencyOf(rs[|rs| - 1]);
      StillThere(action, rs[..|rs| - 1]) + (if d.Some? then [StillPresent(action, d.value)] else [])
  }

  /** Reports each listed dependency container that is still there. */
  method ReportStillThere(start: Run, rs: Listing) returns (run: Run)
    requires Valid(start)
    ensures Valid(run) && run == start.(events := start.events + StillThere(start.action, rs), heldAtLast := run.heldAtLast)
  {
    hide DependencyOf;
    run := start;
    var ok;
    for i := 0 to |rs|
      invariant Valid(run) && run == start.(events := start.events + StillThere(start.action, rs[..i]), heldAtLast := run.heldAtLast)
    {
      assert rs[..i + 1][..i] == rs[..i];
      var d := DependencyOf(rs[i]);
      if d.Some? {
        run, ok := Emit(run, Stopping, Failed, StepFailed, "still present", d);
      }
    }
    assert rs[..|rs|] == rs;
  }

  /** Some container is left, under whatever service name. */
  predicate AnyNamed(rs: Listing) {
    exists k :: 0 <= k < |rs| && rs[k].kind.Container? && Compose.Label(rs[k].labels, Compose.LABEL_SERVICE) != ""
  }

  predicate Blamed(rs: Listing, d: Dependency) {
    !AnyNamed(rs) || exists k :: 0 <= k < |rs| && DependencyOf(rs[k]) == Some(d)
  }

  function DownFailed(action: Action, rs: Listing, code: ErrorCode, message: Text, d: Dependency): seq<Event> {
    if Blamed(rs, d) then [Event(action, Infra, Stopping, Failed, code, Some(d), message)] else []
  }

  method ReportBlamed(start: Run, rs: Listing, code: ErrorCode, message: Text, d: Dependency) returns (run: Run)
    requires Valid(start)
    ensures Valid(run) && run == start.(events := start.events + DownFailed(start.action, rs, code, message, d), heldAtLast := run.heldAtLast)
  {
    hide Blamed;
    run := start;
    var ok;
    if Blamed(rs, d) {
      run, ok := Emit(run, Stopping, Failed, code, message, Some(d));
    }
  }

  /** Reports a failed down for each dependency that still has a container, or for all three
      if no container is left to name; in alphabetical order. */
  method ReportFailedDown(start: Run, rs: Listing, code: ErrorCode, message: Text) returns (run: Run)
    requires Valid(start)
    ensures Valid(run)
    ensures run == start.(heldAtLast := run.heldAtLast, events :=
                            start.events + DownFailed(start.action, rs, code, message, Grafana) +
                            DownFailed(start.action, rs, code, message, Postgres) + DownFailed(start.action, rs, code, message, Redis))
  {
    hide DownFailed;
    run := ReportBlamed(start, rs, code, message, Grafana);
    run := ReportBlamed(run, rs, code, message, Postgres);
    run := ReportBlamed(run, rs, code, message, Redis);
  }

  const Dependencies := [Postgres, Redis, Grafana]

  /** One event for each of the first `n` dependencies. */
  function StoppedEvents(n: nat): seq<Event>
    requires n <= 3
  {
    if n == 0 then [] else StoppedEvents(n - 1) + [Ok(DevDown, Stopping, Some(Dependencies[n - 1]))]
  }

  /** One event per resource of another workspace. */
  function MovedEvents(n: nat): seq<Event> { if n == 0 then [] else MovedEvents(n - 1) + [Ok(DevDown, Preflight, None)] }

  function Moved(w: World): nat { |Compose.Filter(r => Compose.Elsewhere(w.id, r), w.repository)| }

  /** The last events of a run that passes, and its whole record. */
  function ConcludingEvents(w: World): seq<Event> { StoppedEvents(3) + MovedEvents(Moved(w)) + [Ok(DevDown, Final, None)] }

  /** What the verification after a stop reports, up to its verdict or what ends it. */
  function VerifyEvents(w: World): seq<Event> {
    if !w.script(ListResources(After)).Returns? || !Compose.AllAuthorized(w.id, w.after) then []
    else if !Stopped(w.after) then StillThere(DevDown, w.after) + [FailedFinal(DevDown, StepFailed, NOT_CLEARED)]
    else if !KeepsVolume(w, "postgres-data") || !KeepsVolume(w, "redis-data") then [FailedFinal(DevDown, StepFailed, VOLUME_LOST)]
    else StoppedEvents(3) + (if Closing(w).Verdict? then MovedEvents(Moved(w)) + [Ok(DevDown, Final, None)] else [])
  }

  const NOT_CLEARED: Text := "not cleared"
  const VOLUME_LOST: Text := "volume lost"
  const NO_BUDGET: Text := "budget exhausted"

  /** The same from the attempt at a `down` on. */
  function DownEvents(w: World): seq<Event> {
    if STOP_BUDGET - w.elapsed <= 0.0 then [FailedFinal(DevDown, StepFailed, NO_BUDGET)]
    else match w.script(ReconcileDown)
         case Interrupts => []
         case Breaks => []
         case Raises(code, message) => if w.script(ListRemaining).Returns? then FailedDownEvents(w.remaining, code, message) else []
         case Returns => VerifyEvents(w)
  }

  function FailedDownEvents(rs: Listing, code: ErrorCode, message: Text): seq<Event> {
    DownFailed(DevDown, rs, code, message, Grafana) + DownFailed(DevDown, rs, code, message, Postgres) + DownFailed(DevDown, rs, code, message, Redis) +
    [FailedFinal(DevDown, code, message)]
  }

  /** What is reported under the lock. */
  function InsideEvents(w: World): seq<Event> {
    [Ok(DevDown, Lock, None)] +
    (if !PastOwnership(w) then [] else if Stopped(w.before) then VerifyEvents(w) else DownEvents(w))
  }

  predicate PastOwnership(w: World) { Chain(InsideLock(), w.script).Returns? && Compose.AllAuthorized(w.id, w.before) }

  /** What a run adds when it ends by a failure that was raised, or by an interrupt. */
  function Tail(phase: Phase, s: Signal): seq<Event> {
    match s
    case Raised(code, message) => [Report(phase, code, message), FailedFinal(DevDown, code, message)]
    case Interrupted => InterruptEvents(DevDown, phase)
    case _ => []
  }

  /** The phase a run is in when something ends it before its verdict. */
  function PhaseAtEnd(w: World): Phase {
    if !ModeAccepted(w.mode, w.origin) || !Chain(Identification(), w.script).Returns? then Identity
    else if !Chain(BeforeLock(), w.script).Returns? then Lock
    else if !PastOwnership(w) then Preflight
    else Stopping
  }

  /** The whole record of a run that returns. */
  function Record(w: World): seq<Event> {
    (if !ModeAccepted(w.mode, w.origin) then []
     else [Ok(DevDown, Identity, None)] + (if Chain(BeforeLock(), w.script).Returns? then InsideEvents(w) else [])) +
    Tail(PhaseAtEnd(w), Reference(w))
  }

  /** How the operation stands in the end; None if there never was one. */
  function FinalOf(w: World): Option<Op.OperationStatus> {
    match Reference(w)
    case Verdict(status, _) =>
      Some(if status.Passed? then Op.Succeeded else if !Stopped(w.before) && DownFails(w) then Op.Failed else Op.Running)
    case Raised(code, _) =>
      if !ModeAccepted(w.mode, w.origin) then None
      else Some(if code.OperationInProgress? || code.InvalidMode? then Op.Rejected else Op.Failed)
    case _ => Some(Op.Interrupted)
  }

  method AnnounceStopped(start: Run) returns (run: Run)
    requires Underway(start)
    ensures Underway(run) && run == start.(events := start.events + StoppedEvents(3), heldAtLast := run.heldAtLast)
  {
    run := start;
    for i := 0 to 3
      invariant Underway(run) && run == start.(events := start.events + StoppedEvents(i), heldAtLast := run.heldAtLast)
    {
      run := Announce(run, Stopping, Some(Dependencies[i]));
    }
  }

  /** Another workspace's resources are reported, never touched. */
  method AnnounceMoved(start: Run, moved: Listing) returns (run: Run)
    requires Underway(start)
    ensures Underway(run) && run == start.(events := start.events + MovedEvents(|moved|), heldAtLast := run.heldAtLast)
  {
    run := start;
    for i := 0 to |moved|
      invariant Underway(run) && run == start.(events := start.events + MovedEvents(i), heldAtLast := run.heldAtLast)
    {
      run := Announce(run, Preflight, None);
    }
  }

  method Scan(w: World) returns (found: Option<Listing>)
    ensures found.Some? <==> Classifiable(w.id, w.repository)
    ensures found.Some? ==> found.value == Compose.Filter(r => Compose.Elsewhere(w.id, r), w.repository)
  {
    var classification := Compose.ClassifyRepositoryResources(w.id, w.repository);
    found := if classification.Success? then Some(classification.value.1) else None;
  }

  method Succeed(start: Run) returns (run: Run)
    requires Underway(start)
    ensures Valid(run) && Concludes(run.events, Passed) && run.heldAtLast && run.operation.Some? && run.operation.value.status.Succeeded?
    ensures run == start.(events := start.events + [Ok(DevDown, Final, None)], heldAtLast := true, operation := run.operation)
  {
    var ok;
    run, ok := Move(start, Op.Succeeded);
    run := Announce(run, Final, None);
    ConcludesPassed(run.events);
  }

  /** Steps 7 and 8: evidence per dependency, then the report-only scan of other workspaces. */
  method Conclude(start: Run, w: World) returns (run: Run, s: Signal)
    requires Underway(start)
    ensures s == Closing(w) && SameRun(run, start) && OnRecord(run, s)
    ensures run.calls == start.calls + [ListRepository]
    ensures s.Verdict? ==> s == Verdict(Passed, OK) && run.operation.value.status.Succeeded?
    ensures run.events == start.events + (StoppedEvents(3) + (if s.Verdict? then MovedEvents(Moved(w)) + [Ok(DevDown, Final, None)] else []))
    ensures run.phase == start.phase
  {
    hide Classifiable, StoppedEvents, MovedEvents, AllPassed, AggregateStatus, Ok;
    var r, moved;
    run := AnnounceStopped(start);
    run, r := Do(run, w.script, ListRepository);
    if !r.Returns? { return run, AsSignal(r); }
    moved := Scan(w);
    if moved.None? { return run, Conflict(); }
    run := AnnounceMoved(run, moved.value);
    run := Succeed(run);
    s := Verdict(Passed, OK);
  }

  /** Step 6 on: verification that containers and networks are gone and volumes are not. */
  method VerifyDown(start: Run, w: World) returns (run: Run, s: Signal)
    requires Underway(start)
    ensures s == AfterDown(w) && SameRun(run, start) && OnRecord(run, s)
    ensures run.calls == start.calls + AfterDownCalls(w)
    ensures s.Verdict? ==> (run.operation.value.status.Succeeded? <==> s.status.Passed?)
    ensures s.Verdict? && s.status.Failed? ==> run.operation.value.status.Running?
    ensures !s.Escapes? ==> run.events == start.events + VerifyEvents(w) && run.phase == start.phase
  {
    hide Closing, KeepsVolume, StillThere, StoppedEvents, MovedEvents, Ok, Concludes, AllPassed, AllValid;
    var r, refusal, outcome;
    run, r := Do(start, w.script, ListResources(After));
    if !r.Returns? { return run, AsSignal(r); }
    refusal := Compose.AssertExactResourceOwnership(w.id, w.after);
    if refusal.Some? { return run, Conflict(); }
    if exists k :: 0 <= k < |w.after| && Running(w.after[k]) {
      run := ReportStillThere(run, w.after);
      run, outcome := Fail(run, StepFailed, NOT_CLEARED);
      return run, Verdict(Failed, StepFailed);
    }
    if !KeepsVolume(w, "postgres-data") || !KeepsVolume(w, "redis-data") {
      run, outcome := Fail(run, StepFailed, VOLUME_LOST);
      return run, Verdict(Failed, StepFailed);
    }
    run, s := Conclude(run, w);
  }

  function AfterDownCalls(w: World): seq<Call> {
    [ListResources(After)] +
    (if w.script(ListResources(After)).Returns? && Compose.AllAuthorized(w.id, w.after) && Stopped(w.after)
        && KeepsVolume(w, "postgres-data") && KeepsVolume(w, "redis-data")
     then [ListRepository] else [])
  }

  /** What is still there after a failed down is reported, and the operation fails. */
  method TakeStock(start: Run, w: World, code: ErrorCode, message: Text) returns (run: Run, s: Signal)
    requires Underway(start)
    ensures s == if w.script(ListRemaining).Returns? then Verdict(Failed, code) else AsSignal(w.script(ListRemaining))
    ensures SameRun(run, start) && OnRecord(run, s) && run.calls == start.calls + [ListRemaining, ReleaseSecrets]
    ensures s.Verdict? ==> run.operation.value.status.Failed?
    ensures run.events == start.events + (if s.Verdict? then FailedDownEvents(w.remaining, code, message) else []) && run.phase == start.phase
  {
    hide DownFailed, Concludes, AllPassed, AllValid, FailedFinal;
    var listed, released, outcome, ok;
    run, listed := Do(start, w.script, ListRemaining);
    if !listed.Returns? {
      run, released := Do(run, w.script, ReleaseSecrets);
      return run, AsSignal(listed);
    }
    run := ReportFailedDown(run, w.remaining, code, message);
    run, ok := Move(run, Op.Failed);
    run, outcome := Fail(run, code, message);
    run, released := Do(run, w.script, ReleaseSecrets);
    s := Verdict(Failed, code);
  }

  /** Step 5, when something runs: `compose down` within what is left of the budget, or the
      report of its failure. */
  method TakeDown(start: Run, w: World) returns (run: Run, s: Signal)
    requires Underway(start)
    ensures s == Down(w) && SameRun(run, start) && OnRecord(run, s)
    ensures run.calls == start.calls + DownCalls(w)
    ensures s.Verdict? && !DownFails(w) ==> (run.operation.value.status.Succeeded? <==> s.status.Passed?) && (s.status.Failed? ==> run.operation.value.status.Running?)
    ensures s.Verdict? && DownFails(w) ==> run.operation.value.status.Failed?
    ensures !s.Escapes? ==> run.events == start.events + DownEvents(w) && run.phase == start.phase
  {
    hide AfterDown, AfterDownCalls, VerifyEvents, FailedDownEvents, FailedFinal, Concludes, AllPassed, AllValid, ValidEvent, AggregateStatus, Op.Allowed, Op.Transition;
    var r, released, outcome;
    if STOP_BUDGET - w.elapsed <= 0.0 {
      run, outcome := Fail(start, StepFailed, NO_BUDGET);
      return run, Verdict(Failed, StepFailed);
    }
    run, r := Do(start, w.script, ReconcileDown);
    if r.Raises? {
      run, s := TakeStock(run, w, r.code, r.message);
      return;
    }
    run, released := Do(run, w.script, ReleaseSecrets);
    if r.Interrupts? || r.Breaks? { return run, AsSignal(r); }
    run, s := VerifyDown(run, w);
  }

  predicate DownFails(w: World) {
    STOP_BUDGET - w.elapsed > 0.0 && w.script(ReconcileDown).Raises?
  }

  function DownCalls(w: World): seq<Call> {
    if STOP_BUDGET - w.elapsed <= 0.0 then []
    else [ReconcileDown] + (if w.script(ReconcileDown).Raises? then [ListRemaining] else []) + [ReleaseSecrets] +
         (if w.script(ReconcileDown).Returns? then AfterDownCalls(w) else [])
  }

  // ------------------------------------------------------------------ the whole run

  predicate Granted(w: World) {
    ModeAccepted(w.mode, w.origin) && Chain(BeforeLock(), w.script).Returns?
  }

  predicate ReachesStopping(w: World) {
    ModeAccepted(w.mode, w.origin) && Chain(BeforeLock() + InsideLock(), w.script).Returns? && Compose.AllAuthorized(w.id, w.before)
  }

  /** Something was left behind, or a named volume was lost. */
  predicate VerificationFails(w: World) {
    && w.script(ListResources(After)).Returns? && Compose.AllAuthorized(w.id, w.after)
    && (!Stopped(w.after) || !KeepsVolume(w, "postgres-data") || !KeepsVolume(w, "redis-data"))
  }

  /** The three exits that never move the operation on. */
  predicate LeavesRunning(w: World) {
    ReachesStopping(w) &&
    if Stopped(w.before) then VerificationFails(w)
    else STOP_BUDGET - w.elapsed <= 0.0 || (w.script(ReconcileDown).Returns? && VerificationFails(w))
  }

  /** A stop to which every call returns. */
  function Answered(id: Compose.WorkspaceIdentity, elapsed: real, before: Listing, after: Listing): World {
    World(NoMode, NoOrigin, id, _ => Returns, elapsed, before, after, after, [])
  }

  function OwnContainer(id: Compose.WorkspaceIdentity): Compose.ProjectResource {
    Compose.ProjectResource(Compose.Container, "c", "c",
                            map[Compose.LABEL_WORKSPACE_ID := id.projectId, Compose.LABEL_WORKSPACE_FINGERPRINT := id.fingerprint])
  }

  /** Each of the three exits is taken by some stop of every workspace: something appears after
      nothing ran, no budget is left, or `down` returns and leaves something behind. */
  lemma EachExitHappens(id: Compose.WorkspaceIdentity)
    requires id.projectId != "" && id.fingerprint != ""
    ensures var own := [OwnContainer(id)];
            LeavesRunning(Answered(id, 0.0, [], own)) && LeavesRunning(Answered(id, STOP_BUDGET, own, [])) && LeavesRunning(Answered(id, 0.0, own, own))
  {
    var own := [OwnContainer(id)];
    OwnIsAuthorized(id);
    assert own[0] == OwnContainer(id);
    assert Compose.AllAuthorized(id, own) && Compose.AllAuthorized(id, []) && !Stopped(own) && Stopped([]);
    hide Stopped, Compose.AllAuthorized, BeforeLock, InsideLock, Chain, KeepsVolume, OwnContainer;
    AllReturn(Answered(id, 0.0, [], own));
    AllReturn(Answered(id, STOP_BUDGET, own, []));
    AllReturn(Answered(id, 0.0, own, own));
  }

  lemma OwnIsAuthorized(id: Compose.WorkspaceIdentity)
    requires id.projectId != "" && id.fingerprint != ""
    ensures Compose.AuthorizeLabelMutation(id, OwnContainer(id).labels).None? && Running(OwnContainer(id))
  {
    assert Compose.LABEL_WORKSPACE_ID[26] != Compose.LABEL_WORKSPACE_FINGERPRINT[26];
  }

  lemma AllReturn(w: World)
    requires forall c :: w.script(c) == Returns
    ensures Chain(BeforeLock() + InsideLock(), w.script).Returns?
  {
    SomeCallDecides(BeforeLock() + InsideLock(), w.script);
    hide Chain, BeforeLock, InsideLock;
  }

  function InsideSignal(w: World): Signal {
    if !Chain(InsideLock(), w.script).Returns? then AsSignal(Chain(InsideLock(), w.script))
    else if !Compose.AllAuthorized(w.id, w.before) then Conflict()
    else if Stopped(w.before) then AfterDown(w)
    else Down(w)
  }

  function CallsInside(w: World): seq<Call> {
    if !Chain(InsideLock(), w.script).Returns? then Upto(InsideLock(), w.script)
    else InsideLock() + (if !Compose.AllAuthorized(w.id, w.before) then [] else if Stopped(w.before) then AfterDownCalls(w) else DownCalls(w))
  }

  /** The calls a run makes, in order. */
  function CallsMade(w: World): seq<Call> {
    if !ModeAccepted(w.mode, w.origin) then []
    else if !Chain(BeforeLock(), w.script).Returns? then Upto(BeforeLock(), w.script)
    else BeforeLock() + CallsInside(w) + [ReleaseLock]
  }

  /** Steps 1 to 4: mode, identity, manifest, then the lock before anything else. */
  method UpToTheLock(begun: Run, w: World) returns (run: Run, s: Signal)
    requires begun == Begun(DevDown, Identity)
    ensures Open(run) && !run.held && (run.operation.Some? ==> run.operation == Some(Op.Fresh))
    ensures s == if ModeAccepted(w.mode, w.origin) then AsSignal(Chain(BeforeLock(), w.script)) else Raised(InvalidMode, "x")
    ensures run.calls == if ModeAccepted(w.mode, w.origin) then Upto(BeforeLock(), w.script) else []
    ensures run.operation.Some? <==> ModeAccepted(w.mode, w.origin)
    ensures s.Continues? ==> run.calls == BeforeLock()
    ensures run.events == if ModeAccepted(w.mode, w.origin) then [Ok(DevDown, Identity, None)] else []
    ensures run.phase == if ModeAccepted(w.mode, w.origin) && Chain(Identification(), w.script).Returns? then Lock else Identity
  {
    hide Chain, Upto, Identification, TakeLock, Ok;
    run := begun;
    if !ModeAccepted(w.mode, w.origin) { return run, Raised(InvalidMode, "x"); }
    assert Open(run);
    hide AllValid, AllPassed;
    Stretch(Identification(), TakeLock(), w.script);
    run := run.(operation := Some(Op.Fresh));
    run := Announce(run, Identity, None);
    var r;
    run, r := DoAll(run, w.script, Identification());
    if r.Returns? {
      run := run.(phase := Lock);
      run, r := DoAll(run, w.script, TakeLock());
    }
    s := AsSignal(r);
  }

  /** Everything between acquiring the lock and releasing it. */
  method UnderTheLock(start: Run, w: World) returns (run: Run, s: Signal)
    requires Open(start) && start.held && start.operation == Some(Op.Fresh)
    ensures s == InsideSignal(w) && SameRun(run, start) && OnRecord(run, s)
    ensures run.calls == start.calls + CallsInside(w)
    ensures s.Verdict? && Chain(InsideLock(), w.script).Returns? && Compose.AllAuthorized(w.id, w.before) ==> Accounted(run, w, s)
    ensures s.Verdict? ==> Chain(InsideLock(), w.script).Returns? && Compose.AllAuthorized(w.id, w.before)
    ensures !s.Escapes? ==> run.events == start.events + InsideEvents(w) && run.phase == if PastOwnership(w) then Stopping else Preflight
  {
    hide Chain, Upto, AfterDown, AfterDownCalls, Down, DownCalls, VerificationFails, InsideLock, VerifyEvents, DownEvents, Ok;
    var r, moved, refusal;
    run := Announce(start, Lock, None);
    run, moved := Move(run, Op.Running);
    run := run.(phase := Preflight);
    run, r := DoAll(run, w.script, InsideLock());
    if !r.Returns? { return run, AsSignal(r); }
    refusal := Compose.AssertExactResourceOwnership(w.id, w.before);
    if refusal.Some? { return run, Conflict(); }
    run := run.(phase := Stopping);
    ghost var reached := run;
    if Stopped(w.before) {
      run, s := VerifyDown(run, w);
    } else {
      run, s := TakeDown(run, w);
    }
    assert reached.calls == start.calls + InsideLock();
  }

  /** How the operation stands once a verdict is on record. */
  predicate Accounted(run: Run, w: World, s: Signal)
    requires s.Verdict?
  {
    && run.operation.Some?
    && var status := run.operation.value.status;
       if !Stopped(w.before) && DownFails(w) then status.Failed?
       else (if s.status.Passed? then status.Succeeded? else status.Running?)
  }

  function ReportPhase(phase: Phase, code: ErrorCode): Phase {
    if code.OperationInProgress? then Lock else if code.InvalidMode? then Preflight else Undirected(phase)
  }

  /** The event that reports a failure before the final one. */
  function Report(phase: Phase, code: ErrorCode, message: Text): Event {
    Event(DevDown, Repository, ReportPhase(phase, code), Failed, if DependencyCode(code) then StepFailed else code, None, message)
  }

  /** The outer handler; the stop path never attributes a failure to a dependency. */
  method HandleFailure(start: Run, code: ErrorCode, message: Text) returns (run: Run, outcome: RunOutcome)
    requires Open(start) && !start.held
    requires code.OperationInProgress? || code.InvalidMode? ==> start.operation.None? || start.operation.value.status.Requested?
    ensures outcome == Returned(Failed, code, FinalStatus(run)) && Concludes(run.events, Failed)
    ensures run == start.(heldAtLast := false, operation := run.operation, events :=
                            start.events + [Report(start.phase, code, message), FailedFinal(DevDown, code, message)])
    ensures run.operation.Some? <==> start.operation.Some?
    ensures run.operation.Some? ==>
              run.operation.value.status == if code.OperationInProgress? || code.InvalidMode? then Op.Rejected else Op.Failed
  {
    hide AllValid, AllPassed, Concludes;
    var ok;
    run, ok := Emit(start, ReportPhase(start.phase, code), Failed, if DependencyCode(code) then StepFailed else code, message, None);
    if run.operation.Some? && !Op.Terminal(run.operation.value.status) {
      run, ok := Move(run, if code.OperationInProgress? || code.InvalidMode? then Op.Rejected else Op.Failed);
    }
    run, outcome := Fail(run, code, message);
  }

  lemma NoSuchFailure(cs: seq<Call>, script: Script)
    requires Declared(script) && AcquireLock !in cs && forall c :: c in cs ==> !c.ReadConfig?
    ensures Chain(cs, script).Raises? ==> !Chain(cs, script).code.OperationInProgress? && !Chain(cs, script).code.InvalidMode?
  {
    SomeCallDecides(cs, script);
  }

  /** Contention is reported by the lock alone and a bad mode before anything else. */
  lemma FailuresInside(w: World)
    requires Declared(w.script)
    ensures InsideSignal(w).Raised? ==> !InsideSignal(w).code.OperationInProgress? && !InsideSignal(w).code.InvalidMode?
    ensures !InsideSignal(w).Continues?
  {
    NoSuchFailure(InsideLock(), w.script);
    hide Chain, InsideLock;
  }

  /** A verdict from inside leaves the operation running, unless it passed or the down failed. */
  lemma VerdictsInside(w: World)
    requires Granted(w)
    ensures Reference(w) == InsideSignal(w)
    ensures LeavesRunning(w) <==>
            InsideSignal(w).Verdict? && InsideSignal(w).status.Failed? && !(!Stopped(w.before) && DownFails(w))
  {
    hide Chain, BeforeLock, InsideLock, Stopped, KeepsVolume, Classifiable;
    Stretch(BeforeLock(), InsideLock(), w.script);
  }

  /** The outer handlers. */
  method Settle(start: Run, s: Signal) returns (run: Run, outcome: RunOutcome)
    requires !s.Continues? && !start.held
    requires s.Raised? || s.Interrupted? ==> Open(start)
    requires s.Raised? && (s.code.OperationInProgress? || s.code.InvalidMode?) ==> start.operation.None? || start.operation.value.status.Requested?
    requires s.Verdict? ==> Concludes(start.events, s.status) && start.heldAtLast
    ensures Matches(outcome, s) && !run.held && run.calls == start.calls
    ensures outcome.Returned? ==> Concludes(run.events, outcome.status) && (run.heldAtLast <==> s.Verdict?)
    ensures outcome.Returned? ==> run.events == start.events + Tail(start.phase, s)
    ensures s.Verdict? ==> outcome.final == FinalStatus(start)
    ensures s.Interrupted? ==> outcome.final == Some(Op.Interrupted)
    ensures s.Raised? ==> outcome.final == if start.operation.None? then None
                                           else Some(if s.code.OperationInProgress? || s.code.InvalidMode? then Op.Rejected else Op.Failed)
  {
    hide Concludes, AllPassed, Report, FailedFinal, InterruptEvents;
    run := start;
    match s
    case Verdict(status, code) => outcome := Returned(status, code, FinalStatus(run));
    case Raised(code, message) => run, outcome := HandleFailure(run, code, message);
    case Interrupted => run, outcome := Interrupt(run);
    case Escapes => outcome := Escaped;
  }

  /** The guarded `make dev-down` run. */
  method StopLocalEnvironment(w: World) returns (run: Run, outcome: RunOutcome)
    requires Declared(w.script)
    ensures Matches(outcome, Reference(w)) && run.calls == CallsMade(w) && !run.held
    ensures outcome.Returned? ==> Concludes(run.events, outcome.status)
    ensures outcome.Returned? ==> run.events == Record(w) && outcome.final == FinalOf(w)
    ensures outcome.Returned? ==> (outcome.final.None? <==> !ModeAccepted(w.mode, w.origin))
    ensures outcome.Returned? && outcome.final.Some? ==> (if LeavesRunning(w) then outcome.final.value.Running? else Op.Terminal(outcome.final.value))
    ensures outcome.Returned? ==> (run.heldAtLast <==> Reference(w).Verdict?)
  {
    hide Chain, Upto, CallsInside, AfterDown, Down, BeforeLock, InsideLock, VerificationFails, Ok, Stopped, AllPassed, InsideEvents, Tail, Concludes, PastOwnership;
    Stretch(BeforeLock(), InsideLock(), w.script);
    FirstPart(w.script);
    FailuresInside(w);
    if Granted(w) {
      VerdictsInside(w);
      PastOwnershipMeans(w);
      VerdictKinds(w);
    }
    var s;
    run := Begun(DevDown, Identity);
    run, s := UpToTheLock(run, w);
    if s.Continues? {
      var released;
      run := run.(held := true);
      run, s := UnderTheLock(run, w);
      run, released := Do(run, w.script, ReleaseLock);
      run := run.(held := false);
    }
    VerdictsEndThere(s);
    assert s == Reference(w);
    run, outcome := Settle(run, s);
  }

  lemma FirstPart(script: Script)
    ensures Chain(BeforeLock(), script).Returns? ==> Chain(Identification(), script).Returns?
  {
    hide Chain, Identification, TakeLock;
    Stretch(Identification(), TakeLock(), script);
  }

  lemma PastOwnershipMeans(w: World)
    ensures InsideSignal(w).Verdict? ==> PastOwnership(w)
    ensures PastOwnership(w) <==> Chain(InsideLock(), w.script).Returns? && Compose.AllAuthorized(w.id, w.before)
  {
    hide Chain, InsideLock, Compose.AllAuthorized;
  }

  lemma VerdictKinds(w: World)
    ensures InsideSignal(w).Verdict? ==> InsideSignal(w).status.Passed? || InsideSignal(w).status.Failed?
    ensures InsideSignal(w).Verdict? && !Stopped(w.before) && DownFails(w) ==> InsideSignal(w).status.Failed?
  {
    hide Chain, InsideLock, Stopped, KeepsVolume, Classifiable;
  }

  lemma VerdictsEndThere(s: Signal)
    ensures s.Verdict? ==> forall phase :: Tail(phase, s) == []
  {
  }

  // ------------------------------------------------------------------ what a stop guarantees

  /** A stop passes if and only if its mode is omitted, empty, or `local` from the command line;
      every call up to the listing under the lock, and both listings after it, are answered;
      either nothing but volumes was listed, or some of its 75 seconds were left and `down`
      returned; every resource listed before and after carries both of this workspace's labels;
      nothing but volumes is listed after; the volumes `<project>_postgres-data` and
      `<project>_redis-data` are there if they were before; and every resource of the repository
      is a deploy stack's, another workspace's, or its own. */
  lemma StopPassesExactlyWhen(w: World)
    ensures Reference(w) == Verdict(Passed, OK) <==>
              && (w.mode.NoMode? || w.mode.EmptyMode? || (w.mode.LocalMode? && (w.origin.Command? || w.origin.CommandLine? || w.origin.Override?)))
              && w.script(LoadManifest).Returns? && w.script(RuntimeBase).Returns? && w.script(EnsureRuntimeDir).Returns?
              && w.script(AcquireLock).Returns? && w.script(VerifyRuntime).Returns? && w.script(ListResources(Inside)).Returns?
              && w.script(ListResources(After)).Returns? && w.script(ListRepository).Returns?
              && ((forall k :: 0 <= k < |w.before| ==> w.before[k].kind.Volume?) || (75.0 > w.elapsed && w.script(ReconcileDown).Returns?))
              && (forall k :: 0 <= k < |w.before| ==> Compose.AuthorizeLabelMutation(w.id, w.before[k].labels).None?)
              && (forall k :: 0 <= k < |w.after| ==> Compose.AuthorizeLabelMutation(w.id, w.after[k].labels).None?)
              && (forall k :: 0 <= k < |w.after| ==> w.after[k].kind.Volume?)
              && ((exists k :: 0 <= k < |w.before| && w.before[k].kind.Volume? && w.before[k].name == w.id.projectId + "_postgres-data") ==>
                  (exists k :: 0 <= k < |w.after| && w.after[k].kind.Volume? && w.after[k].name == w.id.projectId + "_postgres-data"))
              && ((exists k :: 0 <= k < |w.before| && w.before[k].kind.Volume? && w.before[k].name == w.id.projectId + "_redis-data") ==>
                  (exists k :: 0 <= k < |w.after| && w.after[k].kind.Volume? && w.after[k].name == w.id.projectId + "_redis-data"))
              && (forall k :: 0 <= k < |w.repository| ==>
                    Compose.DeployStack(w.repository[k]) || Compose.Elsewhere(w.id, w.repository[k]) ||
                    Compose.AuthorizeLabelMutation(w.id, w.repository[k].labels).None?)
  {
    PassesByCalls(w);
    CallsByName(w);
    NamedVolumes(w);
    hide Reference, Chain, KeepsVolume, BeforeLock, InsideLock;
    assert Stopped(w.before) <==> forall k :: 0 <= k < |w.before| ==> w.before[k].kind.Volume?;
    assert Stopped(w.after) <==> forall k :: 0 <= k < |w.after| ==> w.after[k].kind.Volume?;
    assert Compose.AllAuthorized(w.id, w.before) <==> forall k :: 0 <= k < |w.before| ==> Compose.AuthorizeLabelMutation(w.id, w.before[k].labels).None?;
    assert Compose.AllAuthorized(w.id, w.after) <==> forall k :: 0 <= k < |w.after| ==> Compose.AuthorizeLabelMutation(w.id, w.after[k].labels).None?;
    hide Stopped, Compose.AllAuthorized, Compose.AuthorizeLabelMutation, Compose.DeployStack, Compose.Elsewhere;
  }

  /** A stop that lost either volume does not pass. */
  lemma LostVolumeNeverPasses(w: World, name: string)
    requires name == w.id.projectId + "_postgres-data" || name == w.id.projectId + "_redis-data"
    requires (exists k :: 0 <= k < |w.before| && w.before[k].kind.Volume? && w.before[k].name == name)
    requires !(exists k :: 0 <= k < |w.after| && w.after[k].kind.Volume? && w.after[k].name == name)
    ensures Reference(w) != Verdict(Passed, OK)
  {
    StopPassesExactlyWhen(w);
    hide Reference;
  }

  lemma NamedVolumes(w: World)
    ensures KeepsVolume(w, "postgres-data") <==>
              ((exists k :: 0 <= k < |w.before| && w.before[k].kind.Volume? && w.before[k].name == w.id.projectId + "_postgres-data") ==>
               (exists k :: 0 <= k < |w.after| && w.after[k].kind.Volume? && w.after[k].name == w.id.projectId + "_postgres-data"))
    ensures KeepsVolume(w, "redis-data") <==>
              ((exists k :: 0 <= k < |w.before| && w.before[k].kind.Volume? && w.before[k].name == w.id.projectId + "_redis-data") ==>
               (exists k :: 0 <= k < |w.after| && w.after[k].kind.Volume? && w.after[k].name == w.id.projectId + "_redis-data"))
  {
    assert w.id.projectId + "_" + "postgres-data" == w.id.projectId + "_postgres-data";
    assert w.id.projectId + "_" + "redis-data" == w.id.projectId + "_redis-data";
  }

  lemma CallsByName(w: World)
    ensures (forall c :: c in BeforeLock() + InsideLock() ==> w.script(c).Returns?) <==>
              && w.script(LoadManifest).Returns? && w.script(RuntimeBase).Returns? && w.script(EnsureRuntimeDir).Returns?
              && w.script(AcquireLock).Returns? && w.script(VerifyRuntime).Returns? && w.script(ListResources(Inside)).Returns?
  {
    var plan := BeforeLock() + InsideLock();
    assert plan == [LoadManifest, RuntimeBase, EnsureRuntimeDir, AcquireLock, VerifyRuntime, ListResources(Inside)];
    assert plan[0] in plan && plan[1] in plan && plan[2] in plan && plan[3] in plan && plan[4] in plan && plan[5] in plan;
  }

  lemma PassesByCalls(w: World)
    ensures Reference(w) == Verdict(Passed, OK) <==>
              && ModeAccepted(w.mode, w.origin)
              && (forall c :: c in BeforeLock() + InsideLock() ==> w.script(c).Returns?)
              && w.script(ListResources(After)).Returns? && w.script(ListRepository).Returns?
              && (Stopped(w.before) || (STOP_BUDGET > w.elapsed && w.script(ReconcileDown).Returns?))
              && Compose.AllAuthorized(w.id, w.before) && Compose.AllAuthorized(w.id, w.after)
              && Stopped(w.after)
              && KeepsVolume(w, "postgres-data") && KeepsVolume(w, "redis-data")
              && Classifiable(w.id, w.repository)
  {
    hide Chain, Stopped, KeepsVolume, Classifiable, AfterDown, Down, Compose.AllAuthorized;
    var plan := BeforeLock() + InsideLock();
    SomeCallDecides(plan, w.script);
    StopStagePassesExactlyWhen(w);
    assert forall c :: c in plan ==> !Own(c);
    hide BeforeLock, InsideLock;
    assert Reference(w) == Verdict(Passed, OK) ==> forall c :: c in plan ==> w.script(c).Returns?;
  }

  // ------------------------------------------------------------------ the calls and the record, one by one

  function EarlyCalls(): seq<Call> { [LoadManifest, RuntimeBase, EnsureRuntimeDir, AcquireLock, VerifyRuntime, ListResources(Inside)] }

  lemma EarlyCallsAreThese()
    ensures BeforeLock() + InsideLock() == EarlyCalls() && |BeforeLock()| == 4 && |Identification()| == 2
    ensures Identification() + TakeLock() == BeforeLock()
  {
  }

  /** Everything up to the listing under the lock is answered, and the mode accepted. */
  predicate Lists(w: World) { ModeAccepted(w.mode, w.origin) && forall c :: c in EarlyCalls() ==> w.script(c).Returns? }

  lemma AllAnswered(w: World)
    requires Lists(w)
    ensures Chain(BeforeLock() + InsideLock(), w.script).Returns? && Chain(BeforeLock(), w.script).Returns? && Chain(InsideLock(), w.script).Returns?
    ensures Chain(Identification(), w.script).Returns?
    ensures Upto(InsideLock(), w.script) == InsideLock() && ModeAccepted(w.mode, w.origin)
  {
    hide Chain, Upto, BeforeLock, InsideLock, EarlyCalls, Identification, TakeLock;
    EarlyCallsAreThese();
    EarlyCallsAreAsked(w.script);
    SomeCallDecides(BeforeLock() + InsideLock(), w.script);
    Stretch(BeforeLock(), InsideLock(), w.script);
    AllMade(InsideLock(), w.script);
    FirstPart(w.script);
  }

  lemma EarlyCallsAreAsked(script: Script)
    ensures forall c :: c in EarlyCalls() ==> Answer(script, c) == script(c)
  {
  }

  lemma PassedStopMakes(w: World)
    requires Reference(w) == Verdict(Passed, OK)
    ensures CallsMade(w) ==
            [LoadManifest, RuntimeBase, EnsureRuntimeDir, AcquireLock, VerifyRuntime, ListResources(Inside)] +
            (if forall k :: 0 <= k < |w.before| ==> w.before[k].kind.Volume? then [] else [ReconcileDown, ReleaseSecrets]) +
            [ListResources(After), ListRepository, ReleaseLock]
  {
    hide BeforeLock, InsideLock, Chain, Upto, Stopped, CallsMade, Reference, Lists, EarlyCalls;
    StoppedMeans(w.before);
    EarlyCallsAre();
    EarlyCallsAreThese();
    PassedStopCalls(w);
    var rest := if Stopped(w.before) then [] else [ReconcileDown, ReleaseSecrets];
    assert CallsMade(w) == EarlyCalls() + rest + [ListResources(After), ListRepository, ReleaseLock];
  }

  lemma StoppedMeans(rs: Listing)
    ensures Stopped(rs) <==> forall k :: 0 <= k < |rs| ==> rs[k].kind.Volume?
    ensures Stopped(rs) <==> !exists k :: 0 <= k < |rs| && !rs[k].kind.Volume?
  {
  }

  lemma PassedStopCalls(w: World)
    requires Reference(w) == Verdict(Passed, OK)
    ensures CallsMade(w) == BeforeLock() + InsideLock() + (if Stopped(w.before) then [] else [ReconcileDown, ReleaseSecrets]) + [ListResources(After), ListRepository, ReleaseLock]
  {
    hide BeforeLock, InsideLock, Chain, Upto, Stopped, CallsInside, Reference, Lists, AfterDownCalls;
    PassedMeansListed(w);
    AllAnswered(w);
    PassedCallsInside(w);
    var rest := (if Stopped(w.before) then [] else [ReconcileDown, ReleaseSecrets]) + [ListResources(After), ListRepository];
    assert BeforeLock() + (InsideLock() + rest) + [ReleaseLock] == BeforeLock() + InsideLock() + rest + [ReleaseLock];
    assert rest + [ReleaseLock] == (if Stopped(w.before) then [] else [ReconcileDown, ReleaseSecrets]) + [ListResources(After), ListRepository, ReleaseLock];
  }

  lemma PassedCallsInside(w: World)
    requires Reference(w) == Verdict(Passed, OK) && Chain(InsideLock(), w.script).Returns?
    ensures CallsInside(w) == InsideLock() + ((if Stopped(w.before) then [] else [ReconcileDown, ReleaseSecrets]) + [ListResources(After), ListRepository])
  {
    PassedConditions(w);
    hide InsideLock, Chain, Upto, Stopped, KeepsVolume, Compose.AllAuthorized, Reference;
  }

  lemma PassedConditions(w: World)
    requires Reference(w) == Verdict(Passed, OK)
    ensures Compose.AllAuthorized(w.id, w.before) && Compose.AllAuthorized(w.id, w.after) && w.script(ListResources(After)).Returns?
    ensures Stopped(w.after) && KeepsVolume(w, "postgres-data") && KeepsVolume(w, "redis-data")
    ensures Stopped(w.before) || (STOP_BUDGET - w.elapsed > 0.0 && w.script(ReconcileDown).Returns?)
  {
    PassesByCalls(w);
    hide InsideLock, BeforeLock, Chain, Stopped, KeepsVolume, Classifiable, Compose.AllAuthorized, Reference;
  }

  lemma PassedMeansListed(w: World)
    requires Reference(w) == Verdict(Passed, OK)
    ensures Lists(w)
  {
    hide BeforeLock, InsideLock, Chain, Reference, EarlyCalls;
    PassesByCalls(w);
    EarlyCallsAreThese();
  }

  lemma EarlyCallsAre()
    ensures EarlyCalls() == [LoadManifest, RuntimeBase, EnsureRuntimeDir, AcquireLock, VerifyRuntime, ListResources(Inside)]
  {
  }

  function Step(phase: Phase): Event { Event(DevDown, Repository, phase, Passed, OK, None, "ok") }

  function StepFor(phase: Phase, d: Dependency): Event { Event(DevDown, Infra, phase, Passed, OK, Some(d), "ok") }

  lemma StoppedEventsAre()
    ensures StoppedEvents(3) == [StepFor(Stopping, Postgres), StepFor(Stopping, Redis), StepFor(Stopping, Grafana)]
  {
    assert StoppedEvents(1) == [StepFor(Stopping, Postgres)];
    assert StoppedEvents(2) == [StepFor(Stopping, Postgres), StepFor(Stopping, Redis)];
  }

  lemma {:induction false} MovedEventsAre(n: nat)
    ensures |MovedEvents(n)| == n && forall k :: 0 <= k < n ==> MovedEvents(n)[k] == Step(Preflight)
  {
    if n > 0 { MovedEventsAre(n - 1); }
  }

  /** The record of a passing stop: identity, lock, one event for each dependency, one for each
      resource of another workspace, the final one. */
  lemma PassingRecordIs(w: World)
    requires Reference(w) == Verdict(Passed, OK)
    ensures Record(w) == [Step(Identity), Step(Lock), StepFor(Stopping, Postgres), StepFor(Stopping, Redis), StepFor(Stopping, Grafana)] +
                         MovedEvents(|Compose.Filter(r => Compose.Elsewhere(w.id, r), w.repository)|) + [Step(Final)]
    ensures FinalOf(w) == Some(Op.Succeeded)
  {
    PassesByCalls(w);
    EarlyCallsAreThese();
    StoppedEventsAre();
    VerdictsEndThere(Reference(w));
    hide BeforeLock, InsideLock, Chain, Stopped, KeepsVolume, Compose.AllAuthorized, Compose.Filter, StoppedEvents, MovedEvents, Reference, Classifiable, Identification, TakeLock;
    SomeCallDecides(BeforeLock(), w.script);
    SomeCallDecides(InsideLock(), w.script);
    assert forall c :: c in BeforeLock() || c in InsideLock() ==> c in BeforeLock() + InsideLock();
    assert InsideEvents(w) == [Step(Lock)] + (StoppedEvents(3) + (MovedEvents(Moved(w)) + [Step(Final)]));
  }

  /** Up to the listing under the lock the first call that does not return decides; a failure it
      raises is reported in its phase, contention in the phase of the lock, and by the final
      event, without a dependency. */
  lemma EarlyFailureIsReported(w: World, i: nat)
    requires ModeAccepted(w.mode, w.origin) && i < |EarlyCalls()| && w.script(EarlyCalls()[i]).Raises?
    requires forall j :: 0 <= j < i ==> w.script(EarlyCalls()[j]).Returns?
    ensures var reply := w.script(EarlyCalls()[i]);
            var scoped := reply.code.ImageUnavailable? || reply.code.PortConflict? || reply.code.DependencyNotReady?;
            var phase := if reply.code.OperationInProgress? then Lock else if reply.code.InvalidMode? then Preflight
                         else if i < 2 then Identity else if i < 4 then Lock else Preflight;
            var code := if scoped then StepFailed else reply.code;
            && Reference(w) == Raised(reply.code, reply.message)
            && Record(w) == (if i < 4 then [Step(Identity)] else [Step(Identity), Step(Lock)]) +
                            [Event(DevDown, Repository, phase, Failed, code, None, reply.message),
                             Event(DevDown, Repository, Final, Failed, code, None, reply.message)]
            && FinalOf(w) == Some(if reply.code.OperationInProgress? || reply.code.InvalidMode? then Op.Rejected else Op.Failed)
  {
    StopperDecides(w, i);
    PhaseByCall(w, i);
    hide EarlyCalls, BeforeLock, InsideLock, Chain, Identification, Compose.AllAuthorized, AfterDown, Down;
  }

  /** The same for an interrupt. */
  lemma EarlyInterruptIsReported(w: World, i: nat)
    requires ModeAccepted(w.mode, w.origin) && i < |EarlyCalls()| && w.script(EarlyCalls()[i]).Interrupts?
    requires forall j :: 0 <= j < i ==> w.script(EarlyCalls()[j]).Returns?
    ensures Reference(w) == Interrupted && FinalOf(w) == Some(Op.Interrupted)
    ensures var phase := if i < 2 then Identity else if i < 4 then Lock else Preflight;
            Record(w) == (if i < 4 then [Step(Identity)] else [Step(Identity), Step(Lock)]) +
                         [Event(DevDown, Repository, phase, Failed, StepFailed, None, INTERRUPTED),
                          Event(DevDown, Repository, Final, Failed, StepFailed, None, INTERRUPTED)]
  {
    StopperDecides(w, i);
    PhaseByCall(w, i);
    hide EarlyCalls, BeforeLock, InsideLock, Chain, Identification, Compose.AllAuthorized, AfterDown, Down, INTERRUPTED;
  }

  lemma StopperDecides(w: World, i: nat)
    requires i < |EarlyCalls()| && !w.script(EarlyCalls()[i]).Returns? && forall j :: 0 <= j < i ==> w.script(EarlyCalls()[j]).Returns?
    ensures Chain(BeforeLock() + InsideLock(), w.script) == w.script(EarlyCalls()[i])
  {
    EarlyCallsAreThese();
    var cs := EarlyCalls();
    assert forall j :: 0 <= j < |cs| ==> !Own(cs[j]);
    hide Chain, Upto, BeforeLock, InsideLock, EarlyCalls, Identification, TakeLock;
    SomeCallDecides(cs[..i], w.script);
    assert forall c :: c in cs[..i] ==> exists j :: 0 <= j < i && cs[j] == c;
    OneCall(cs, i, w.script);
  }

  lemma PhaseByCall(w: World, i: nat)
    requires i < |EarlyCalls()| && !w.script(EarlyCalls()[i]).Returns? && forall j :: 0 <= j < i ==> w.script(EarlyCalls()[j]).Returns?
    ensures Chain(Identification(), w.script).Returns? <==> i >= 2
    ensures Chain(BeforeLock(), w.script).Returns? <==> i >= 4
    ensures !Chain(InsideLock(), w.script).Returns? || i < 4
  {
    EarlyCallsAreThese();
    StopperDecides(w, i);
    var cs := EarlyCalls();
    assert forall j :: 0 <= j < |cs| ==> !Own(cs[j]);
    assert cs == BeforeLock() + InsideLock() && Identification() == cs[..2] && BeforeLock() == cs[..4];
    hide Chain, BeforeLock, InsideLock, EarlyCalls, Identification, TakeLock;
    Stretch(BeforeLock(), InsideLock(), w.script);
    SomeCallDecides(BeforeLock(), w.script);
    SomeCallDecides(Identification(), w.script);
    assert i < 4 ==> cs[i] in BeforeLock();
    assert i < 2 ==> cs[i] in Identification();
    assert forall c :: c in BeforeLock() ==> exists j :: 0 <= j < 4 && cs[j] == c;
    assert forall c :: c in Identification() ==> exists j :: 0 <= j < 2 && cs[j] == c;
  }

  /** A resource under the lock that is not this workspace's own ends the stop there, before any
      `down`. */
  lemma ForeignResourceIsReported(w: World, k: nat)
    requires Lists(w) && k < |w.before| && Compose.AuthorizeLabelMutation(w.id, w.before[k].labels).Some?
    ensures Reference(w) == Raised(ResourceOwnershipConflict, "x") && FinalOf(w) == Some(Op.Failed) && ReconcileDown !in CallsMade(w)
    ensures Record(w) == [Step(Identity), Step(Lock)] +
                         [Event(DevDown, Repository, Preflight, Failed, ResourceOwnershipConflict, None, "x"),
                          Event(DevDown, Repository, Final, Failed, ResourceOwnershipConflict, None, "x")]
  {
    assert !Compose.AllAuthorized(w.id, w.before);
    hide Chain, Upto, BeforeLock, InsideLock, Lists, Identification, Compose.AllAuthorized, CallsMade, Record, Reference, FinalOf;
    AllAnswered(w);
    ForeignRecord(w);
    if k :| 0 <= k < |CallsMade(w)| && CallsMade(w)[k] == ReconcileDown { DownOnlyUnderTheLock(w, k); }
  }

  lemma ForeignRecord(w: World)
    requires ModeAccepted(w.mode, w.origin) && Chain(BeforeLock(), w.script).Returns? && Chain(BeforeLock() + InsideLock(), w.script).Returns?
    requires Chain(Identification(), w.script).Returns? && !Compose.AllAuthorized(w.id, w.before)
    ensures Reference(w) == Raised(ResourceOwnershipConflict, "x") && FinalOf(w) == Some(Op.Failed)
    ensures Record(w) == [Step(Identity), Step(Lock)] +
                         [Event(DevDown, Repository, Preflight, Failed, ResourceOwnershipConflict, None, "x"),
                          Event(DevDown, Repository, Final, Failed, ResourceOwnershipConflict, None, "x")]
  {
    hide Chain, BeforeLock, InsideLock, Identification, Compose.AllAuthorized, AfterDown, Down, VerifyEvents, DownEvents;
    assert InsideEvents(w) == [Step(Lock)];
    assert Tail(Preflight, Conflict()) == [Event(DevDown, Repository, Preflight, Failed, ResourceOwnershipConflict, None, "x"),
                                           Event(DevDown, Repository, Final, Failed, ResourceOwnershipConflict, None, "x")];
  }

  /** The stop gets as far as deciding what to take down, and something runs. */
  predicate MayTakeDown(w: World) {
    Lists(w) && Compose.AllAuthorized(w.id, w.before) && exists k :: 0 <= k < |w.before| && !w.before[k].kind.Volume?
  }

  lemma TakesDown(w: World)
    requires MayTakeDown(w)
    ensures Reference(w) == Down(w) && !Stopped(w.before)
    ensures Record(w) == [Step(Identity), Step(Lock)] + DownEvents(w) + Tail(PhaseAtEnd(w), Down(w))
  {
    hide Chain, Upto, BeforeLock, InsideLock, Lists, Identification, Compose.AllAuthorized, Stopped, DownEvents, Tail, PhaseAtEnd, Down;
    AllAnswered(w);
    StoppedMeans(w.before);
    RecordOfDown(w);
    assert [Step(Identity)] + ([Step(Lock)] + DownEvents(w)) == [Step(Identity), Step(Lock)] + DownEvents(w);
  }

  /** Without budget nothing is taken down, and the operation stays running. */
  lemma NoBudgetIsReported(w: World)
    requires MayTakeDown(w) && 75.0 - w.elapsed <= 0.0
    ensures Reference(w) == Verdict(Failed, StepFailed) && FinalOf(w) == Some(Op.Running) && ReconcileDown !in CallsMade(w)
    ensures Record(w) == [Step(Identity), Step(Lock)] + [Event(DevDown, Repository, Final, Failed, StepFailed, None, NO_BUDGET)]
  {
    hide MayTakeDown, Reference, Record, CallsMade, Stopped, NO_BUDGET, Tail;
    TakesDown(w);
    VerdictsEndThere(Down(w));
    NoDownWithoutBudget(w);
  }

  /** A `down` that fails is reported for the dependencies to blame, and the operation fails. */
  lemma FailedDownIsReported(w: World)
    requires MayTakeDown(w) && 75.0 - w.elapsed > 0.0 && w.script(ReconcileDown).Raises? && w.script(ListRemaining).Returns?
    ensures var reply := w.script(ReconcileDown);
            && Reference(w) == Verdict(Failed, reply.code) && FinalOf(w) == Some(Op.Failed)
            && Record(w) == [Step(Identity), Step(Lock)] +
               DownFailed(DevDown, w.remaining, reply.code, reply.message, Grafana) +
               DownFailed(DevDown, w.remaining, reply.code, reply.message, Postgres) +
               DownFailed(DevDown, w.remaining, reply.code, reply.message, Redis) +
               [FailedFinal(DevDown, reply.code, reply.message)]
  {
    var reply := w.script(ReconcileDown);
    hide MayTakeDown, Reference, Record, CallsMade, Stopped, FailedDownEvents, Tail;
    TakesDown(w);
    VerdictsEndThere(Down(w));
    FailedDownEventsAre([Step(Identity), Step(Lock)], w.remaining, reply.code, reply.message);
  }

  lemma FailedDownEventsAre(before: seq<Event>, rs: Listing, code: ErrorCode, message: Text)
    ensures before + FailedDownEvents(rs, code, message) ==
            before + DownFailed(DevDown, rs, code, message, Grafana) + DownFailed(DevDown, rs, code, message, Postgres) +
            DownFailed(DevDown, rs, code, message, Redis) + [FailedFinal(DevDown, code, message)]
  {
    hide DownFailed, FailedFinal;
  }

  /** The stop gets as far as looking at what is left: nothing ran, or the `down` returned. */
  predicate Verifies(w: World) {
    && Lists(w) && Compose.AllAuthorized(w.id, w.before)
    && ((forall k :: 0 <= k < |w.before| ==> w.before[k].kind.Volume?) || (75.0 - w.elapsed > 0.0 && w.script(ReconcileDown).Returns?))
  }

  lemma VerifiesThen(w: World)
    requires Verifies(w)
    ensures Reference(w) == AfterDown(w) && (Reference(w).Verdict? ==> FinalOf(w) == Some(if Reference(w).status.Passed? then Op.Succeeded else Op.Running))
    ensures Record(w) == [Step(Identity), Step(Lock)] + VerifyEvents(w) + Tail(Stopping, AfterDown(w))
  {
    hide Chain, Upto, BeforeLock, InsideLock, Lists, Identification, Compose.AllAuthorized, Stopped, VerifyEvents, Tail, AfterDown;
    AllAnswered(w);
    StoppedMeans(w.before);
    assert [Step(Identity)] + ([Step(Lock)] + VerifyEvents(w)) == [Step(Identity), Step(Lock)] + VerifyEvents(w);
  }

  /** What is left is reported by dependency, and the operation stays running. */
  lemma LeftoversAreReported(w: World)
    requires Verifies(w) && w.script(ListResources(After)).Returns?
    requires Compose.AllAuthorized(w.id, w.after) && exists k :: 0 <= k < |w.after| && !w.after[k].kind.Volume?
    ensures Reference(w) == Verdict(Failed, StepFailed) && FinalOf(w) == Some(Op.Running)
    ensures Record(w) == [Step(Identity), Step(Lock)] + StillThere(DevDown, w.after) +
                         [Event(DevDown, Repository, Final, Failed, StepFailed, None, NOT_CLEARED)]
  {
    hide Verifies, Reference, Record, FinalOf, Stopped, StillThere, KeepsVolume, Closing, Compose.AllAuthorized, NOT_CLEARED, Tail;
    VerifiesThen(w);
    StoppedMeans(w.after);
    VerdictsEndThere(AfterDown(w));
  }

  /** `still` is what is reported of the resources at the places `at`, in order. */
  predicate Reports(rs: Listing, at: seq<nat>, still: seq<Event>) {
    && |at| == |still| && (forall j, k :: 0 <= j < k < |at| ==> at[j] < at[k])
    && forall k :: 0 <= k < |at| ==>
         && at[k] < |rs| && DependencyOf(rs[at[k]]).Some?
         && still[k] == Event(DevDown, Infra, Stopping, Failed, StepFailed, DependencyOf(rs[at[k]]), "still present")
  }

  lemma ReportsOneMore(rs: Listing, at: seq<nat>, still: seq<Event>, r: Compose.ProjectResource)
    requires Reports(rs, at, still)
    ensures Reports(rs + [r], at, still)
    ensures DependencyOf(r).Some? ==> Reports(rs + [r], at + [|rs|], still + [StillPresent(DevDown, DependencyOf(r).value)])
  {
    hide DependencyOf;
  }

  /** Exactly one event for each container of a dependency, in listing order. */
  lemma {:induction false} StillThereIs(rs: Listing) returns (at: seq<nat>)
    ensures Reports(rs, at, StillThere(DevDown, rs))
    ensures forall n: nat :: n in at <==> n < |rs| && DependencyOf(rs[n]).Some?
  {
    at := [];
    if rs != [] {
      var init, n := rs[..|rs| - 1], |rs| - 1;
      at := StillThereIs(init);
      ReportsOneMore(init, at, StillThere(DevDown, init), rs[n]);
      assert rs == init + [rs[n]];
      hide Reports, DependencyOf, StillPresent;
      if DependencyOf(rs[n]).Some? { at := at + [n]; }
    }
  }

  /** A volume that is missing is reported, and the operation stays running. */
  lemma LostVolumeIsReported(w: World, name: string)
    requires Verifies(w) && w.script(ListResources(After)).Returns?
    requires Compose.AllAuthorized(w.id, w.after) && forall k :: 0 <= k < |w.after| ==> w.after[k].kind.Volume?
    requires name == w.id.projectId + "_postgres-data" || name == w.id.projectId + "_redis-data"
    requires (exists k :: 0 <= k < |w.before| && w.before[k].kind.Volume? && w.before[k].name == name)
    requires !(exists k :: 0 <= k < |w.after| && w.after[k].kind.Volume? && w.after[k].name == name)
    ensures Reference(w) == Verdict(Failed, StepFailed) && FinalOf(w) == Some(Op.Running)
    ensures Record(w) == [Step(Identity), Step(Lock)] + [Event(DevDown, Repository, Final, Failed, StepFailed, None, VOLUME_LOST)]
  {
    hide Verifies, Reference, Record, FinalOf, Stopped, StillThere, KeepsVolume, Closing, Compose.AllAuthorized, VOLUME_LOST, Tail;
    VerifiesThen(w);
    StoppedMeans(w.after);
    Missing(w, name);
    VerdictsEndThere(AfterDown(w));
  }

  lemma Missing(w: World, name: string)
    requires name == w.id.projectId + "_postgres-data" || name == w.id.projectId + "_redis-data"
    requires (exists k :: 0 <= k < |w.before| && w.before[k].kind.Volume? && w.before[k].name == name)
    requires !(exists k :: 0 <= k < |w.after| && w.after[k].kind.Volume? && w.after[k].name == name)
    ensures !KeepsVolume(w, "postgres-data") || !KeepsVolume(w, "redis-data")
  {
    NamedVolumes(w);
  }

  /** What ends a stop after the ownership check, if it is neither a verdict nor an escape. */
  function LateTail(reply: Reply): seq<Event> {
    match reply
    case Raises(code, message) =>
      var reported := if code.ImageUnavailable? || code.PortConflict? || code.DependencyNotReady? then StepFailed else code;
      var phase := if code.OperationInProgress? then Lock else if code.InvalidMode? then Preflight else Final;
      [Event(DevDown, Repository, phase, Failed, reported, None, message), Event(DevDown, Repository, Final, Failed, reported, None, message)]
    case Interrupts => [Event(DevDown, Repository, Final, Failed, StepFailed, None, INTERRUPTED)]
    case _ => []
  }

  lemma LateTailIs(reply: Reply)
    ensures Tail(Stopping, AsSignal(reply)) == LateTail(reply)
    ensures LateTail(Raises(ResourceOwnershipConflict, "x")) ==
            [Event(DevDown, Repository, Final, Failed, ResourceOwnershipConflict, None, "x"), Event(DevDown, Repository, Final, Failed, ResourceOwnershipConflict, None, "x")]
  {
  }

  /** An interrupted `down`, or a failed one after which listing fails or is interrupted. */
  lemma DownEndIsReported(w: World)
    requires MayTakeDown(w) && 75.0 - w.elapsed > 0.0
    ensures w.script(ReconcileDown).Interrupts? ==>
              Reference(w) == Interrupted && Record(w) == [Step(Identity), Step(Lock)] + LateTail(Interrupts) && FinalOf(w) == Some(Op.Interrupted)
    ensures w.script(ReconcileDown).Raises? && !w.script(ListRemaining).Returns? ==>
              && Reference(w) == AsSignal(w.script(ListRemaining))
              && (!w.script(ListRemaining).Breaks? ==> Record(w) == [Step(Identity), Step(Lock)] + LateTail(w.script(ListRemaining)))
  {
    hide MayTakeDown, Reference, Record, Stopped, Down, DownEvents, Tail, LateTail, PhaseAtEnd, FinalOf;
    TakesDown(w);
    AtStopping(w);
    if w.script(ReconcileDown).Interrupts? {
      DownEnds(w, Interrupts);
      InterruptEnds(w);
    }
    if w.script(ReconcileDown).Raises? && !w.script(ListRemaining).Returns? { DownEnds(w, w.script(ListRemaining)); }
    assert [Step(Identity), Step(Lock)] + [] == [Step(Identity), Step(Lock)];
  }

  lemma DownEnds(w: World, reply: Reply)
    requires 75.0 - w.elapsed > 0.0 && !reply.Returns?
    requires (w.script(ReconcileDown).Interrupts? && reply == Interrupts) || (w.script(ReconcileDown).Raises? && reply == w.script(ListRemaining))
    ensures Down(w) == AsSignal(reply) && DownEvents(w) == [] && Tail(Stopping, Down(w)) == LateTail(reply)
  {
    LateTailIs(reply);
    hide Tail, LateTail, AfterDown, VerifyEvents, FailedDownEvents;
  }

  lemma InterruptEnds(w: World)
    ensures Reference(w) == Interrupted ==> FinalOf(w) == Some(Op.Interrupted)
  {
    hide Reference;
  }

  lemma AtStopping(w: World)
    requires MayTakeDown(w)
    ensures PhaseAtEnd(w) == Stopping
  {
    hide Chain, BeforeLock, InsideLock, Identification, Lists, Compose.AllAuthorized;
    AllAnswered(w);
  }

  /** After a `down` the first of the two listings that fails or is interrupted decides; a resource
      of somebody else, or one that cannot be classified, is that conflict. */
  lemma VerifyEndIsReported(w: World)
    requires Verifies(w)
    ensures var reply := w.script(ListResources(After));
            !reply.Returns? ==> Reference(w) == AsSignal(reply) && Record(w) == [Step(Identity), Step(Lock)] + LateTail(reply)
    ensures w.script(ListResources(After)).Returns? && !Compose.AllAuthorized(w.id, w.after) ==>
              Reference(w) == Conflict() && Record(w) == [Step(Identity), Step(Lock)] + LateTail(Raises(ResourceOwnershipConflict, "x"))
  {
    hide Verifies, Reference, Record, FinalOf, Stopped, StillThere, KeepsVolume, Closing, Compose.AllAuthorized, Tail, LateTail;
    VerifiesThen(w);
    LateTailIs(w.script(ListResources(After)));
    LateTailIs(Raises(ResourceOwnershipConflict, "x"));
    assert [Step(Identity), Step(Lock)] + [] == [Step(Identity), Step(Lock)];
  }

  lemma ScanEndIsReported(w: World)
    requires Verifies(w) && w.script(ListResources(After)).Returns? && Compose.AllAuthorized(w.id, w.after)
    requires Stopped(w.after) && KeepsVolume(w, "postgres-data") && KeepsVolume(w, "redis-data")
    ensures var reply, so := w.script(ListRepository), [Step(Identity), Step(Lock)] + [StepFor(Stopping, Postgres), StepFor(Stopping, Redis), StepFor(Stopping, Grafana)];
            && (!reply.Returns? ==> Reference(w) == AsSignal(reply) && Record(w) == so + LateTail(reply))
            && (reply.Returns? && !Classifiable(w.id, w.repository) ==>
                  Reference(w) == Conflict() && Record(w) == so + LateTail(Raises(ResourceOwnershipConflict, "x")))
  {
    hide Verifies, Reference, Record, FinalOf, Stopped, StillThere, KeepsVolume, Compose.AllAuthorized, Classifiable, Tail, LateTail, StoppedEvents, MovedEvents;
    VerifiesThen(w);
    StoppedEventsAre();
    LateTailIs(w.script(ListRepository));
    LateTailIs(Raises(ResourceOwnershipConflict, "x"));
    assert StoppedEvents(3) + [] == StoppedEvents(3);
  }

  lemma RecordOfDown(w: World)
    requires ModeAccepted(w.mode, w.origin) && Chain(BeforeLock(), w.script).Returns? && Chain(BeforeLock() + InsideLock(), w.script).Returns?
    requires Chain(InsideLock(), w.script).Returns? && Compose.AllAuthorized(w.id, w.before) && !Stopped(w.before)
    ensures Record(w) == [Step(Identity)] + ([Step(Lock)] + DownEvents(w)) + Tail(PhaseAtEnd(w), Reference(w))
    ensures Reference(w) == Down(w)
  {
    hide Chain, BeforeLock, InsideLock, Stopped, Compose.AllAuthorized, DownEvents, Tail, PhaseAtEnd, Down;
  }

  lemma NoDownWithoutBudget(w: World)
    requires STOP_BUDGET - w.elapsed <= 0.0
    ensures ReconcileDown !in CallsMade(w)
  {
    hide Chain, Upto, Stopped, KeepsVolume, BeforeLock, InsideLock, AfterDownCalls;
    UptoIsPrefix(BeforeLock(), w.script);
    UptoIsPrefix(InsideLock(), w.script);
    PlanFacts();
    NothingAfterDownMutates(w);
    assert Mutating(ReconcileDown) && DownCalls(w) == [];
    assert ReconcileDown !in Upto(BeforeLock(), w.script) && ReconcileDown !in Upto(InsideLock(), w.script);
  }

  /** A dependency is blamed for a failed `down` if one of the containers left is its own, by its
      service label, or if no container left has such a label at all. */
  lemma BlamedExactlyWhen(rs: Listing, code: ErrorCode, message: Text, d: Dependency)
    ensures var name := match d case Postgres => "postgres" case Redis => "redis" case Grafana => "grafana";
            DownFailed(DevDown, rs, code, message, d) ==
            if (exists k :: 0 <= k < |rs| && rs[k].kind.Container? && Compose.Label(rs[k].labels, Compose.LABEL_SERVICE) == name) ||
               (forall k :: 0 <= k < |rs| && rs[k].kind.Container? ==> Compose.Label(rs[k].labels, Compose.LABEL_SERVICE) == "")
            then [Event(DevDown, Infra, Stopping, Failed, code, Some(d), message)] else []
  {
    forall k | 0 <= k < |rs|
      ensures DependencyOf(rs[k]) == Some(d) <==>
              rs[k].kind.Container? && Compose.Label(rs[k].labels, Compose.LABEL_SERVICE) == (match d case Postgres => "postgres" case Redis => "redis" case Grafana => "grafana")
    {
      ServiceOf(rs[k], d);
    }
    hide DependencyOf, Compose.Label;
  }

  lemma ServiceOf(r: Compose.ProjectResource, d: Dependency)
    ensures DependencyOf(r) == Some(d) <==>
            r.kind.Container? && Compose.Label(r.labels, Compose.LABEL_SERVICE) == (match d case Postgres => "postgres" case Redis => "redis" case Grafana => "grafana")
  {
    assert |"postgres"| == 8 && |"redis"| == 5 && |"grafana"| == 7;
  }

  lemma StopStagePassesExactlyWhen(w: World)
    ensures (if Stopped(w.before) then AfterDown(w) else Down(w)) == Verdict(Passed, OK) <==>
              && (Stopped(w.before) || (STOP_BUDGET > w.elapsed && w.script(ReconcileDown).Returns?))
              && w.script(ListResources(After)).Returns? && w.script(ListRepository).Returns?
              && Compose.AllAuthorized(w.id, w.after) && Stopped(w.after)
              && KeepsVolume(w, "postgres-data") && KeepsVolume(w, "redis-data")
              && Classifiable(w.id, w.repository)
  {
    hide Stopped, KeepsVolume, Classifiable;
  }

  /** A stop raises exactly if some call it makes breaks, with an exception no handler names; its
      lock is released all the same. */
  lemma StopEscapesExactlyWhen(w: World)
    ensures Reference(w).Escapes? <==> SomeBreaks(CallsMade(w), w.script)
  {
    hide Chain, Upto, BeforeLock, InsideLock, SomeBreaks, AfterDown, Down, AfterDownCalls, DownCalls, Stopped;
    Stretch(BeforeLock(), InsideLock(), w.script);
    BreaksExactlyWhen(BeforeLock(), w.script);
    BreaksExactlyWhen(InsideLock(), w.script);
    NothingBreaks(w.script);
    if Chain(BeforeLock(), w.script).Returns? {
      AllMade(BeforeLock(), w.script);
      SomeBreaksJoins(BeforeLock() + CallsInside(w), [ReleaseLock], w.script);
      SomeBreaksJoins(BeforeLock(), CallsInside(w), w.script);
      if Chain(InsideLock(), w.script).Returns? {
        AllMade(InsideLock(), w.script);
        SomeBreaksJoins(InsideLock(), [], w.script);
        SomeBreaksJoins(InsideLock(), AfterDownCalls(w), w.script);
        SomeBreaksJoins(InsideLock(), DownCalls(w), w.script);
        VerificationEscapesExactlyWhen(w);
        DownEscapesExactlyWhen(w);
      }
    }
  }

  lemma VerificationEscapesExactlyWhen(w: World)
    ensures AfterDown(w).Escapes? <==> SomeBreaks(AfterDownCalls(w), w.script)
  {
    hide SomeBreaks, Stopped, KeepsVolume, Classifiable;
    NothingBreaks(w.script);
    SomeBreaksJoins([ListResources(After)], [], w.script);
    SomeBreaksJoins([ListResources(After)], [ListRepository], w.script);
  }

  lemma DownEscapesExactlyWhen(w: World)
    ensures Down(w).Escapes? <==> SomeBreaks(DownCalls(w), w.script)
  {
    hide SomeBreaks, AfterDown, AfterDownCalls;
    NothingBreaks(w.script);
    VerificationEscapesExactlyWhen(w);
    var listed := if w.script(ReconcileDown).Raises? then [ListRemaining] else [];
    var verified := if w.script(ReconcileDown).Returns? then AfterDownCalls(w) else [];
    SomeBreaksJoins([ReconcileDown], listed, w.script);
    SomeBreaksJoins([ReconcileDown] + listed, [ReleaseSecrets], w.script);
    SomeBreaksJoins([ReconcileDown] + listed + [ReleaseSecrets], verified, w.script);
  }

  /** `compose down` runs only under the lock, and only after everything listed there proved
      to be this workspace's own. */
  lemma DownOnlyUnderTheLock(w: World, k: nat)
    requires k < |CallsMade(w)| && (CallsMade(w)[k].EnsureImage? || CallsMade(w)[k].ReconcileUp? || CallsMade(w)[k].ReconcileDown?)
    ensures CallsMade(w)[k] == ReconcileDown && Compose.AllAuthorized(w.id, w.before) && !Stopped(w.before)
    ensures CallsMade(w)[..k] == BeforeLock() + InsideLock() && AcquireLock in CallsMade(w)[..k]
    ensures CallsMade(w)[|CallsMade(w)| - 1] == ReleaseLock && ReleaseLock !in CallsMade(w)[..k]
  {
    hide Chain, Upto, Stopped, KeepsVolume, BeforeLock, InsideLock, AfterDownCalls;
    UptoIsPrefix(BeforeLock(), w.script);
    UptoIsPrefix(InsideLock(), w.script);
    PlanFacts();
    NothingAfterDownMutates(w);
    var calls, n := CallsMade(w), |BeforeLock()|;
    assert Mutating(calls[k]);
    assert calls[k] !in BeforeLock() && calls[k] !in InsideLock();
    assert calls == BeforeLock() + CallsInside(w) + [ReleaseLock];
    assert calls[k] == CallsInside(w)[k - n];
    assert CallsInside(w) == InsideLock() + DownCalls(w);
    assert DownCalls(w)[0] == ReconcileDown && k == n + |InsideLock()|;
  }

  lemma NothingAfterDownMutates(w: World)
    ensures forall c :: c in AfterDownCalls(w) ==> !Mutating(c) && c != ReleaseLock
    ensures forall k :: 0 < k < |DownCalls(w)| ==> !Mutating(DownCalls(w)[k])
    ensures ReleaseLock !in DownCalls(w)
  {
    hide Stopped, KeepsVolume;
  }

  lemma PlanFacts()
    ensures AcquireLock in BeforeLock()
    ensures forall c :: c in BeforeLock() || c in InsideLock() ==> !Mutating(c) && c != ReleaseLock
  {
  }
}
