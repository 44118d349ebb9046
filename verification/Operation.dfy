/** The state of one lifecycle operation: immutable values, one allowed-transition table, one
    deadline that is set once. */
module Operation {
  import opened Wrappers

  datatype OperationStatus = Requested | Running | Succeeded | Failed | Interrupted | Rejected

  datatype Operation = Operation(status: OperationStatus, startedAt: Option<real>, deadline: Option<real>)

  const Fresh := Operation(Requested, None, None)

  predicate Terminal(s: OperationStatus) {
    !s.Requested? && !s.Running?
  }

  predicate Allowed(s: OperationStatus, t: OperationStatus) {
    (s.Requested? && (t.Running? || t.Failed? || t.Interrupted? || t.Rejected?)) ||
    (s.Running? && (t.Succeeded? || t.Failed? || t.Interrupted?))
  }

  /** None is the raised InvalidStateTransitionError. */
  function Transition(op: Operation, t: OperationStatus): Option<Operation> {
    if Allowed(op.status, t) then Some(op.(status := t)) else None
  }

  /** None when a deadline is already running, or the budget is not positive. */
  function BeginReadiness(op: Operation, at: real, budget: real): Option<Operation> {
    if op.deadline.Some? || budget <= 0.0 then None
    else Some(op.(startedAt := Some(at), deadline := Some(at + budget)))
  }

  datatype Event = Move(to: OperationStatus) | Begin(at: real, budget: real)

  function Apply(op: Operation, e: Event): Option<Operation> {
    match e
    case Move(t) => Transition(op, t)
    case Begin(at, budget) => BeginReadiness(op, at, budget)
  }

  /** Every event accepted. */
  function ApplyAll(op: Operation, es: seq<Event>): Option<Operation>
    decreases |es|
  {
    if es == [] then Some(op)
    else match Apply(op, es[0])
         case None => None
         case Some(next) => ApplyAll(next, es[1..])
  }

  /** Out of requested everything but success; out of running everything but rejection; nothing
      out of the rest. */
  lemma MovesExactlyWhen(op: Operation, t: OperationStatus)
    ensures Transition(op, t).Some? <==>
              || (op.status == Requested && t != Requested && t != Succeeded)
              || (op.status == Running && t != Requested && t != Running && t != Rejected)
    ensures Transition(op, t).Some? ==> Transition(op, t).value == Operation(t, op.startedAt, op.deadline)
  {
  }

  /** A deadline is set once, for a positive budget, and lies that budget after its start. */
  lemma BeginsExactlyWhen(op: Operation, at: real, budget: real)
    ensures BeginReadiness(op, at, budget).Some? <==> op.deadline.None? && budget > 0.0
    ensures BeginReadiness(op, at, budget).Some? ==> Apply(op, Begin(at, budget)) == Some(Operation(op.status, Some(at), Some(at + budget)))
    ensures Fresh == Operation(Requested, None, None)
  {
  }

  /** Over any history a terminal status never moves again, a deadline once set never moves
      and lies one budget after its start, and success comes only out of running. */
  lemma {:induction false} HistoryOnlyMovesForward(op: Operation, es: seq<Event>)
    decreases |es|
    requires ApplyAll(op, es).Some?
    requires op.deadline.Some? <==> op.startedAt.Some?
    ensures var last := ApplyAll(op, es).value;
            && (Terminal(op.status) ==> last.status == op.status)
            && (op.deadline.Some? ==> last.deadline == op.deadline && last.startedAt == op.startedAt)
            && (last.deadline.Some? <==> last.startedAt.Some?)
            && (last.deadline.Some? && op.deadline.None? ==> last.startedAt.value < last.deadline.value)
            && (last.status.Succeeded? && op.status.Requested? ==> exists k :: 0 <= k < |es| && es[k] == Move(Running))
  {
    if es != [] {
      var next := Apply(op, es[0]).value;
      HistoryOnlyMovesForward(next, es[1..]);
      var last := ApplyAll(next, es[1..]).value;
      if last.status.Succeeded? && op.status.Requested? && !next.status.Running? {
        if next.status.Requested? {
          var k :| 0 <= k < |es[1..]| && es[1..][k] == Move(Running);
          assert es[k + 1] == Move(Running);
        }
      } else if next.status.Running? && op.status.Requested? {
        assert es[0] == Move(Running);
      }
    }
  }
}
