/** The v2 workflow event: what a payload may carry, and how a run's events aggregate. */
module Events {
  import opened Wrappers

  datatype Dependency = Postgres | Redis | Grafana

  datatype Action = Dev | DevDown | OtherAction

  datatype Component = Repository | Infra | OtherComponent

  datatype Phase =
    | Identity | Lock | Preflight | ImagePull | ImageVerify
    | Reconcile | Liveness | Readiness | Stopping | Final

  datatype Status = Started | Waiting | Passed | Failed | Skipped

  datatype Code =
    | OK
    | InvalidUsage
    | ToolMissing
    | ToolVersionUnsupported
    | InvalidConfig
    | InvalidMode
    | ProdApprovalRequired
    | Sf02NotReady
    | ComponentNotInitialized
    | NoTestsExecuted
    | StepFailed
    | ContractDrift
    | MigrationInvalid
    | SecretDetected
    | ImageUnavailable
    | PortConflict
    | DependencyNotReady
    | OperationInProgress
    | ResourceOwnershipConflict

  datatype Event = Event(action: Action, component: Component, phase: Phase, status: Status, code: Code,
                         dependency: Option<Dependency>, message: string)

  /** Phases and codes that a payload may carry only together with a dependency. */
  predicate DependencyPhase(p: Phase) {
    p.ImagePull? || p.ImageVerify? || p.Reconcile? || p.Liveness? || p.Readiness? || p.Stopping?
  }

  predicate DependencyCode(c: Code) {
    c.ImageUnavailable? || c.PortConflict? || c.DependencyNotReady?
  }

  /** The strict payload rules: emitting anything else raises ValueError. */
  predicate ValidEvent(e: Event) {
    && (e.status.Waiting? || e.status.Passed? ==> e.code == OK)
    && (e.status.Failed? || e.status.Skipped? ==> e.code != OK)
    && (e.dependency.Some? ==> !e.component.OtherComponent?)
    && (e.dependency.None? && !e.action.OtherAction? ==> !DependencyPhase(e.phase))
    && (e.dependency.None? ==> !DependencyCode(e.code))
    && e.message != ""
  }

  /** What is refused: a code that does not go with the status, a dependency on a component that
      has none, a phase or a code that asks for a dependency without one, an empty message. */
  lemma RefusedExactlyWhen(e: Event)
    ensures !ValidEvent(e) <==>
              || ((e.status.Waiting? || e.status.Passed?) && e.code != OK)
              || ((e.status.Failed? || e.status.Skipped?) && e.code == OK)
              || (e.dependency.Some? && e.component != Repository && e.component != Infra)
              || (e.dependency.None? && (e.action == Dev || e.action == DevDown) &&
                  (e.phase == ImagePull || e.phase == ImageVerify || e.phase == Reconcile || e.phase == Liveness || e.phase == Readiness || e.phase == Stopping))
              || (e.dependency.None? && (e.code == ImageUnavailable || e.code == PortConflict || e.code == DependencyNotReady))
              || |e.message| == 0
  {
  }

  /** How many events carry a status. */
  function Count(events: seq<Event>, status: Status): nat {
    if events == [] then 0
    else Count(events[..|events| - 1], status) + (if events[|events| - 1].status == status then 1 else 0)
  }

  function AggregateStatus(events: seq<Event>): Status {
    if Count(events, Failed) != 0 || Count(events, Waiting) != 0 || (Count(events, Skipped) != 0 && Count(events, Passed) == 0)
    then Failed
    else Passed
  }

  lemma {:induction false} CountIsPositive(events: seq<Event>, status: Status)
    ensures Count(events, status) > 0 <==> exists k :: 0 <= k < |events| && events[k].status == status
  {
    if events != [] {
      var init := events[..|events| - 1];
      CountIsPositive(init, status);
      if Count(init, status) > 0 {
        var k :| 0 <= k < |init| && init[k].status == status;
        assert events[k].status == status;
      }
      if k :| 0 <= k < |events| && events[k].status == status {
        if k < |init| { assert init[k].status == status; }
      }
    }
  }

  /** Partial success never passes: one failed or unresolved event fails the run, and so does
      a run that only skipped. */
  lemma AggregatePassesExactlyWhen(events: seq<Event>)
    ensures AggregateStatus(events) == Passed <==>
              && (forall k :: 0 <= k < |events| ==> !events[k].status.Failed? && !events[k].status.Waiting?)
              && ((exists k :: 0 <= k < |events| && events[k].status.Skipped?) ==> exists k :: 0 <= k < |events| && events[k].status.Passed?)
    ensures AggregateStatus(events) == Passed || AggregateStatus(events) == Failed
  {
    CountIsPositive(events, Failed);
    CountIsPositive(events, Waiting);
    CountIsPositive(events, Skipped);
    CountIsPositive(events, Passed);
  }
}
