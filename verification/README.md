# Verified models of TokenMarket's workflow and limiter logic

TokenMarket's repository holds the tooling that starts and stops a local stack of dependencies
(PostgreSQL, Redis, Grafana), supervises host processes, backs up authentication tables, approves
production actions, and limits login and registration requests. This project models the parts of it
whose correctness depends on order, interleaving, arithmetic on clocks, or exact text, and proves what
they guarantee. Code that works step by step is modelled by methods, loops and classes that are proved
equal to short specification functions; the main results are lemmas about those functions, over all
inputs, all runs or all reachable states.

| file | what it models |
|---|---|
| `LifecycleProtocol.dfy` | any number of concurrent `make dev` and `make dev-down` runs on one world of labelled containers, networks and volumes, with crashes and with workspaces that share a short project id |
| `LifecycleRun.dfy`, `StartRun.dfy`, `StopRun.dfy` | one start and one stop, statement by statement, against a script of replies from Docker, the lock, the configuration and the probes, with every event emitted |
| `Refinement.dfy` | the single runs as runs of the protocol |
| `Events.dfy`, `Operation.dfy` | the strict v2 event payload, the aggregate of a run's events, the operation's transitions and its one deadline |
| `Compose.dfy` | ownership by labels, classification of other workspaces' resources, the bounded exact-label removal |
| `Adapter.dfy` | the missing-only image pull with digest verification, and the bind-only port preflight |
| `Probes.dfy`, `Resp.dfy` | the readiness retry loop on an injected clock; the RESP command printer, reply reader and AUTH-then-PING dialogue |
| `RateLimit.dfy`, `AuthRateLimit.dfy` | the fixed-window registration limiter, the atomic Lua rolling-window limiter, and their in-process stand-ins |
| `Config.dfy`, `ConfigForms.dfy`, `Text.dfy`, `Decimal.dfy` | the strict `.env.local` grammar, its URLs and secrets, and exactly which texts it accepts |
| `BackupSecure.dfy`, `Backup.dfy` | at-rest encryption, the reread check, the auth invariants, and the export-restore-verify pipeline |
| `Supervisor.dfy` | the host-process supervisor and its state file |
| `Approval.dfy` | production approval proofs and the one-use nonce store |
| `Session.dfy` | the browser's session state under asynchronous completions |
| `Migrations.dfy` | stable PostgreSQL readiness and the naming of per-owner databases |

The protocol and the single runs meet in `Refinement.StartRefinesProtocol` and
`Refinement.StopRefinesProtocol`: whatever a start or a stop comes to, statement by statement, is a path of
the protocol's program counter that ends the same way. `StartRun.ReconcileOnlyAfterInspection` and
`StopRun.DownOnlyUnderTheLock` show for the code's own order of calls that resources change only under the
lock and only after the check made there.

## Where the code does not do what its text says

These are results of the models; each is stated by a lemma named here.

- The bounded removal takes a total timeout but never counts it down (`compose.py:1281`): it caps each
  command. The budgets handed out stay within it exactly when there is at most one command or the uncapped
  needs already fit (`Compose.TimeoutBoundsTheCallExactlyWhen`); one PostgreSQL container under the 75-second stop
  budget is already allowed 80 seconds (`Compose.StopBudgetCanBeExceeded`).
- A start raises, instead of returning its outcome, in exactly two cases: a call it makes comes back with an
  exception that no handler names, or its reconcile loses a port race that no re-check can pin on a
  dependency (`lifecycle.py:823`): `StartRun.StartEscapesExactlyWhen`, `StartRun.RaceEscapes`. A stop raises in the first case
  alone: `StopRun.StopEscapesExactlyWhen`.
- One such exception comes from the configuration: the parser promises errors that name a field, but lets a
  plain `ValueError` of the library through for exactly the texts of `Config.RaisesExactlyWhen`, such as the
  five fields with `postgresql://[` as `DATABASE_URL` (`Config.UnclosedBracketRaises`). A start that reads such a text raises
  (`StartRun.RaisingTextEndsTheStart`).
- A stop returns with its operation still running in exactly three situations (`lifecycle.py:1180`, `:1252`, `:1270`):
  `StopRun.StopLocalEnvironment`, last clauses; each happens (`StopRun.EachExitHappens`).
- The lock is described as held across the final event. That is so exactly for verdicts returned from inside
  it; failures raised there are reported after its release (both `...LocalEnvironment` methods).
- Start checks ownership of containers only. Of two workspaces that share the short id, the second one adopts
  the first one's volume, and no stop of it can ever pass again
  (`LifecycleProtocol.CollisionWedgesTheSecondWorkspace`, `LifecycleProtocol.ForeignVolumeBlocksForever`).
- A child started in its own session is killed on a timeout only (`compose.py:213-244`). If a run dies while its
  child lives on, the released lock no longer protects anybody (`LifecycleProtocol.OrphanedChildBreaksSafety`). From any
  reached state a resource can yet be taken from under a held lock, with nobody else orphaned, if and only if
  there is such a child (`LifecycleProtocol.EndangeredExactlyWhen`).
- The fixed window admits twice the limit less one in some interval of its own length, for every positive limit
  per address and every window of at least three ticks (`RateLimit.SlidingBound`, `RateLimit.BoundIsReached`).
- The rolling window keeps its bound for all calls with distinct members if and only if keys outlive the window
  or nothing ever passes (`AuthRateLimit.BoundExactlyWhen`); if members may repeat, only for a limit of one
  whose keys outlive the window, an empty window, or nothing passing (`AuthRateLimit.RepeatedMembersExactlyWhen`).
- The supervisor rewrites its state file in place, and a file that does not parse reads as empty. A crash, or a full
  disk, between the truncation and the end of the write forgets every recorded process: exactly when a live process
  is lost is `Supervisor.CrashLosesExactlyWhen` for a start and `Supervisor.InterruptedStopLosesExactlyWhen` for a stop;
  every start can do it (`Supervisor.EveryStartCanLoseEverything`).
- Carriage returns are described as rejected by the configuration parser. An accepted text has one if and only if one
  stands in a comment, a blank line or another variable (`Config.ReturnsExactlyWhen`), so that in a line of the five
  fields it is always refused; and every configuration has such a text (`Config.ReturnGetsThrough`).
- An empty byte string as the digest of a consumed challenge passes the check before the export and fails the one
  after it (`Backup.SecondCheckExactlyWhen`, `Backup.EmptyDigestFailsTheSecondCheck`).
- The reread after a restore compares counts and id sets; acceptance always means a permutation of the ids if and
  only if, in each table, they are distinct or all the same (`BackupSecure.PayloadPermutationExactlyWhen`).
- A write that fails after the nonce file was created uses the nonce up, although nobody was accepted
  (`Approval.FailingWriteUsesUp`): a verifier that waits can yet be accepted if and only if its checks pass and
  nobody has created its nonce (`Approval.AcceptableExactlyWhen`).
- "Anonymous after logout" is not final: `Session.RevivalExactlyWhen` gives the exact condition,
  `Session.LateRevalidationOutlivesLogout` a run.

## Model

| member | source | states |
|---|---|---|
| LifecycleProtocol.NextKeepsInv | tools/workflow/local_env/lifecycle.py:683-959 | every step but the death of a run whose child lives on keeps the invariant: a holder per lock, and what a run was shown under the lock is still there and its own |
| LifecycleProtocol.EveryReachableStateIsSound | tools/workflow/local_env/lifecycle.py:683-1277 | the invariant over every interleaving of starts, stops, failures and crashes in which no child outlives its run |
| LifecycleProtocol.MutualExclusion | tools/workflow/local_env/identity.py:418-467 | in every state reached without a child outliving its run, at most one run per project id is inside the lock |
| LifecycleProtocol.RunsTouchOnlyTheirOwn | tools/workflow/local_env/compose.py:976-997 | a run creates or removes only inside the lock; a stop removes only resources with its own full fingerprint, a start recreates or removes only containers with it |
| LifecycleProtocol.ContainersNeverMix | tools/workflow/local_env/compose.py:976-997 | containers of one project id that carry one fingerprint never come to carry two, over any run in which no child outlives its run and nothing from outside interferes |
| LifecycleProtocol.VolumesSurvive | tools/workflow/local_env/compose.py:1257-1375 | no sequence of starts, stops, failures, crashes or fallbacks removes a volume, not even by a child that outlives its run |
| LifecycleProtocol.PassedStopLeavesNothing | tools/workflow/local_env/lifecycle.py:1225-1277 | when a stop has passed, no container or network of its project is left and every volume it first saw is still there |
| LifecycleProtocol.FirstCheckIsExact | tools/workflow/local_env/lifecycle.py:1162-1170 | the in-lock check passes if and only if everything of the inspected kinds then in the world belongs to this workspace |
| LifecycleProtocol.LastCheckIsExact | tools/workflow/local_env/lifecycle.py:868-1277 | the check after the mutation passes if and only if what is really there is all its own, and ready for a start, or nothing but the volumes shown before for a stop |
| LifecycleProtocol.ForeignVolumeBlocksForever | tools/workflow/local_env/compose.py:1252-1255 | while another workspace's volume carries the short id, no stop of this workspace ever passes, over any run |
| LifecycleProtocol.CollisionWedgesTheSecondWorkspace | tools/workflow/local_env/compose.py:960-997 | a reachable state in which a colliding workspace has started on a foreign volume and can no longer stop |
| LifecycleProtocol.OrphanedChildBreaksSafety | tools/workflow/local_env/compose.py:213-244 | a reachable state in which the child of a dead stop may remove a container of the current lock holder |
| LifecycleProtocol.EndangeredExactlyWhen | tools/workflow/local_env/compose.py:213-244 | from any reached state, with or without interference from outside: a future in which no further child outlives its run can take a resource from under a held lock if and only if there is an orphaned child now |
| Refinement.StartRefinesProtocol | tools/workflow/local_env/lifecycle.py:551-1023 | for everything its `up` may create and remove, every start is a path of the protocol that passes exactly if the start does, takes the lock and spawns `up` exactly if the start does, leaves the world as `up` left it, the lock free and everybody else as they were, and orphans its child exactly if it was interrupted in its reconcile |
| Refinement.StopRefinesProtocol | tools/workflow/local_env/lifecycle.py:1054-1387 | for everything its `down` may remove, however the stop ends, every stop is a path of the protocol that passes exactly if the stop does and leaves the world as `down` left it; if it passes, exactly the containers and networks of its project are gone; a child is orphaned exactly if the stop was interrupted in its `down` |
| Refinement.FallbackPasses | tools/workflow/local_env/compose.py:1335-1375 | a `down` whose output does not parse lists again, checks, removes one by one in any order, verifies and passes |
| Events.AggregatePassesExactlyWhen | tools/workflow/events.py:419-445 | the aggregate passes if and only if nothing failed or is still waiting and a skip is accompanied by a pass |
| Events.RefusedExactlyWhen | tools/workflow/events.py:318-411 | an event is refused if and only if its code does not fit its status, its dependency does not fit its component, its phase or code lacks one, or its message is empty |
| Operation.HistoryOnlyMovesForward | tools/workflow/local_env/models.py:259-337 | over any accepted history terminal states never move, the deadline is set once, later than its start, and success comes only out of running |
| Operation.MovesExactlyWhen | tools/workflow/local_env/models.py:259-337 | which transitions are accepted, status by status, and that they keep start and deadline |
| Operation.BeginsExactlyWhen | tools/workflow/local_env/models.py:259-337 | the deadline is set once, for a positive budget, that budget after its start |
| LifecycleRun.Emit | tools/workflow/events.py:318-411 | an event is appended if and only if it meets the strict payload rules; what a record of such events then means is Events.AggregatePassesExactlyWhen |
| LifecycleRun.Fail | tools/workflow/local_env/lifecycle.py:590-624 | the final event of a failure, its degraded code, and that the record then concludes FAILED |
| LifecycleRun.Interrupt | tools/workflow/local_env/lifecycle.py:274-343 | an interrupt ends in a FAILED outcome, an INTERRUPTED operation and exactly one or two more events that conclude the record, whatever the phase |
| LifecycleRun.DoAll | tools/workflow/local_env/lifecycle.py:626-718 | calls in a row stop at the first that does not return, and are logged up to it |
| StartRun.Identify | tools/workflow/local_env/lifecycle.py:626-660 | mode, configuration, identity, read-only inspection, in that order |
| StartRun.UpToTheLock | tools/workflow/local_env/lifecycle.py:661-687 | everything before the lock: calls, events and the state in which the lock is asked for |
| StartRun.Revalidate | tools/workflow/local_env/lifecycle.py:689-718 | everything is checked again under the lock before the operation runs |
| StartRun.UpToTheDeadline | tools/workflow/local_env/lifecycle.py:720-783 | every image is verified before the one deadline starts, which lies one budget after it |
| StartRun.AttributeConflict | tools/workflow/local_env/lifecycle.py:530-548 | the dependency blamed is the first whose port check fails again |
| StartRun.ReconcileFailed | tools/workflow/local_env/lifecycle.py:793-858 | what a failed reconcile comes to and exactly what it reports, for attributed, unattributed and other failures |
| StartRun.JudgeEach | tools/workflow/local_env/lifecycle.py:888-922 | one readiness event per result in order, passed if and only if ready in time |
| StartRun.Judge | tools/workflow/local_env/lifecycle.py:888-977 | one result not ready in time fails the run; the record, the final event and the operation agree |
| StartRun.JudgeTimeouts | tools/workflow/local_env/lifecycle.py:489-511 | results made without a probe can only fail the run |
| StartRun.WithinTheDeadline | tools/workflow/local_env/lifecycle.py:784-977 | the run from the deadline on: signal, calls, events, operation |
| StartRun.HandleFailure | tools/workflow/local_env/lifecycle.py:982-1011 | a failure raised anywhere adds exactly its valid report and the final event, and leaves a terminal operation and a concluded record |
| StartRun.StartLocalEnvironment | tools/workflow/local_env/lifecycle.py:551-1023 | the whole start equals its specification: outcome or exception, calls in order, the exact record of every run and how its operation ends, a concluding final event, the lock released |
| StartRun.StartPassesExactlyWhen | tools/workflow/local_env/lifecycle.py:551-977 | call by call: a start passes if and only if the mode is in order, each of the calls written out there returns, at least a microsecond of the sixty seconds is left before and after the reconcile, and each dependency was ready within them |
| StartRun.StartEscapesExactlyWhen | tools/workflow/local_env/lifecycle.py:551-1023 | with presentable probe results a start raises if and only if a call it made broke with an exception no handler names, or it lost a port race that no re-check attributes |
| StartRun.RaceEscapes | tools/workflow/local_env/lifecycle.py:793-829 | a family of starts that raise by an unattributed port race although no call breaks |
| StartRun.RaisingTextEndsTheStart | tools/workflow/local_env/lifecycle.py:364-376 | a start that reads a configuration text ends there, by raising, if and only if the parser lets a ValueError through for that text |
| StartRun.MutationOnlyUnderTheLock | tools/workflow/local_env/lifecycle.py:683-868 | nothing is pulled or reconciled except between acquiring and releasing the lock |
| StartRun.ReconcileOnlyAfterInspection | tools/workflow/local_env/lifecycle.py:689-800 | when `compose up` is issued, every check before it has returned, the in-lock ownership check and all images included |
| StartRun.PassedRunMakesExactlyThePlan | tools/workflow/local_env/lifecycle.py:626-977 | the calls of a passing start, written out one after the other |
| StartRun.OwnershipBetweenReconcileAndProbes | tools/workflow/local_env/lifecycle.py:789-887 | in a passing start the reconcile comes before the ownership check after it, and that before every probe |
| StartRun.FirstFailureDecides | tools/workflow/local_env/lifecycle.py:626-800 | up to the reconcile the first call that does not return decides, with the code it was raised with |
| StartRun.PassingRecordIs | tools/workflow/local_env/lifecycle.py:626-977 | the events of a passing start, written out |
| StartRun.EarlyFailureIsReported | tools/workflow/local_env/lifecycle.py:982-1011 | for each call before the reconcile: the events of a start that it fails, with their phase, code and dependency, and whether the operation is rejected or failed |
| StartRun.EarlyInterruptIsReported | tools/workflow/local_env/lifecycle.py:274-343 | for each call before the reconcile: the events of a start that is interrupted in it |
| StartRun.ReconcileFailureIsReported | tools/workflow/local_env/lifecycle.py:793-858 | a failed reconcile is reported for all three dependencies, a port conflict for the one whose port is taken again, and fails the operation |
| StartRun.InterruptedReconcileIsReported | tools/workflow/local_env/lifecycle.py:793-800 | the events of a start interrupted in its reconcile |
| StartRun.AttributionFailureIsReported | tools/workflow/local_env/lifecycle.py:530-548 | the events of a start whose re-check after a lost race fails for another reason or is interrupted |
| StartRun.NoTimeIsReported | tools/workflow/local_env/lifecycle.py:784-887 | without time before or after the reconcile no probe is made, each dependency is reported as timed out, and the start fails |
| StartRun.ConfirmFailureIsReported | tools/workflow/local_env/lifecycle.py:868-887 | after the reconcile the first call of the confirmation that does not return decides, and its events |
| StartRun.NotReadyIsReported | tools/workflow/local_env/lifecycle.py:888-977 | the events of a start without readiness in time: one for each dependency, failed exactly if it was not ready in time |
| StopRun.ReportStillThere | tools/workflow/local_env/lifecycle.py:1232-1251 | exactly one event per listed dependency container, in order |
| StopRun.ReportFailedDown | tools/workflow/local_env/lifecycle.py:1191-1214 | which dependencies a failed down is reported for, and with what |
| StopRun.VerifyDown | tools/workflow/local_env/lifecycle.py:1225-1344 | the verification after a stop: leftovers, lost volumes, or success with its evidence |
| StopRun.TakeDown | tools/workflow/local_env/lifecycle.py:1174-1223 | `compose down` within the rest of the budget, its failure, and the placeholders released on every path |
| StopRun.HandleFailure | tools/workflow/local_env/lifecycle.py:1347-1376 | the outer handler of a stop: valid payloads, terminal operation, concluded record |
| StopRun.StopLocalEnvironment | tools/workflow/local_env/lifecycle.py:1054-1387 | the whole stop equals its specification: outcome or exception, calls, the exact record of every run, how its operation ends, and exactly when it leaves it running |
| StopRun.StopPassesExactlyWhen | tools/workflow/local_env/lifecycle.py:1054-1344 | call by call: a stop passes if and only if everything listed was its own, the seventy-five seconds were not used up, nothing but volumes is listed afterwards, a volume named after the project and `_postgres-data` or `_redis-data` is still there if it was, and nothing of the repository is unclassifiable |
| StopRun.LostVolumeNeverPasses | tools/workflow/local_env/lifecycle.py:1262-1279 | a stop after which a volume of one of those two names is missing does not pass |
| StopRun.PassedStopMakes | tools/workflow/local_env/lifecycle.py:1121-1344 | the calls of a passing stop, written out |
| StopRun.PassingRecordIs | tools/workflow/local_env/lifecycle.py:1121-1344 | the events of a passing stop, written out |
| StopRun.EarlyFailureIsReported | tools/workflow/local_env/lifecycle.py:1347-1376 | for each call up to the listing under the lock: the events of a stop that it fails and how the operation ends |
| StopRun.EarlyInterruptIsReported | tools/workflow/local_env/lifecycle.py:1377-1387 | the same for an interrupt |
| StopRun.ForeignResourceIsReported | tools/workflow/local_env/lifecycle.py:1162-1170 | a listed resource of somebody else ends the stop with that conflict, before any `down` |
| StopRun.NoBudgetIsReported | tools/workflow/local_env/lifecycle.py:1174-1190 | without budget nothing is taken down, one event says so, and the operation stays running |
| StopRun.FailedDownIsReported | tools/workflow/local_env/lifecycle.py:1191-1223 | the events of a stop whose `down` failed |
| StopRun.BlamedExactlyWhen | tools/workflow/local_env/lifecycle.py:1191-1214 | a dependency is blamed for it if and only if a container left carries its service label, or none left carries any |
| StopRun.LeftoversAreReported | tools/workflow/local_env/lifecycle.py:1232-1261 | the events of a stop that leaves something but volumes |
| StopRun.StillThereIs | tools/workflow/local_env/lifecycle.py:1232-1251 | exactly one event for each container of a dependency that is left, in listing order |
| StopRun.LostVolumeIsReported | tools/workflow/local_env/lifecycle.py:1262-1279 | the events of a stop that lost one of the two volumes |
| StopRun.DownEndIsReported | tools/workflow/local_env/lifecycle.py:1174-1223 | the events of a stop interrupted in its `down`, or whose listing after a failed one does not return |
| StopRun.VerifyEndIsReported | tools/workflow/local_env/lifecycle.py:1225-1231 | the events of a stop whose listing afterwards does not return or shows something of somebody else |
| StopRun.ScanEndIsReported | tools/workflow/local_env/lifecycle.py:1280-1330 | the events of a stop whose report-only scan does not return or cannot classify something |
| StopRun.EachExitHappens | tools/workflow/local_env/lifecycle.py:1174-1277 | for every workspace, stops that take each of the three exits with the operation still running |
| StopRun.StopEscapesExactlyWhen | tools/workflow/local_env/lifecycle.py:1054-1387 | a stop raises if and only if a call it made broke with an exception no handler names |
| StopRun.DownOnlyUnderTheLock | tools/workflow/local_env/lifecycle.py:1149-1190 | `compose down` is issued only under the lock, after everything listed proved to be this workspace's own |
| Compose.AuthorizationIsExact | tools/workflow/local_env/identity.py:139-157 | both labels, present and exact, authorize; no two workspaces are authorized for one resource |
| Compose.AssertExactResourceOwnership | tools/workflow/local_env/compose.py:1252-1255 | accepts if and only if every resource is authorized, else reports the first refusal |
| Compose.ClassifyRepositoryResources | tools/workflow/local_env/identity.py:200-240 | owned and moved resources in order, or a refusal exactly if something is neither deploy stack, elsewhere, nor owned |
| Compose.ClassesAre | tools/workflow/local_env/identity.py:139-240 | deploy stack, elsewhere and own, each by the labels it has |
| Compose.FilterKeeps | tools/workflow/local_env/identity.py:200-240 | what is reported as owned and as moved is exactly that, in listing order |
| Compose.CommandLog.RemoveContainers | tools/workflow/local_env/compose.py:1283-1315 | stop and removal of each container, up to the first failing command |
| Compose.CommandLog.RemoveExactResources | tools/workflow/local_env/compose.py:1257-1333 | no command, and the refusal of the first volume or unowned resource, unless everything is owned and nothing is a volume; otherwise the plan in order up to the first failure |
| Compose.RemovableExactlyWhen | tools/workflow/local_env/compose.py:1257-1281 | what may be removed at all: containers and networks with both labels exact, within a positive budget |
| Compose.CommandLog.ReconcileDown | tools/workflow/local_env/compose.py:1335-1375 | the parse-failure fallback removes exactly what it lists, and nothing else falls back; each error is the first that applies |
| Compose.PlanCoversExactlyTheListed | tools/workflow/local_env/compose.py:1283-1333 | the removal plan addresses all and only the listed containers and networks |
| Compose.PlanIsInOrder | tools/workflow/local_env/compose.py:1283-1333 | each container is stopped with its grace and removed straight after, every network after all containers |
| Compose.PlanKeepsOrder | tools/workflow/local_env/compose.py:1283-1333 | containers are removed in listing order, and so are networks |
| Compose.PlanCounts | tools/workflow/local_env/compose.py:1283-1333 | the plan has two commands for each container, one for each network and no more |
| Compose.BudgetsAre | tools/workflow/local_env/compose.py:1281-1333 | each command gets its need or the timeout, whichever is less |
| Compose.TimeoutBoundsTheCallExactlyWhen | tools/workflow/local_env/compose.py:1281-1331 | the timeout bounds the whole call if and only if there is at most one command or the uncapped needs fit |
| Compose.StopBudgetCanBeExceeded | tools/workflow/local_env/compose.py:1281-1331 | one PostgreSQL container under 75 seconds is allowed 80 |
| Adapter.DockerHost.EnsureImage | tools/workflow/local_env/compose.py:1073-1084 | one image: inspected, pulled only if missing, inspected again, verified |
| Adapter.DockerHost.EnsureImages | tools/workflow/local_env/compose.py:1062-1085 | all images in order up to the first error; local images, pulls and records as specified |
| Adapter.SuccessMeansVerified | tools/workflow/local_env/compose.py:1062-1160 | on success every pinned image is there and verified, nothing present was touched, and exactly what was missing was pulled, once each and in order |
| Adapter.SucceedsExactlyWhen | tools/workflow/local_env/compose.py:1062-1160 | it succeeds if and only if each pin is inspectable and either there and acceptable, or missing with a pull that stores an acceptable image |
| Adapter.FirstUnobtainable | tools/workflow/local_env/compose.py:1062-1085 | the first image that cannot be had ends it: what was missing before it has been pulled, and it itself only if it was missing |
| Adapter.VerifiedMeansAcceptable | tools/workflow/local_env/compose.py:1127-1160 | what verification accepts, field by field |
| Adapter.SecondRunPullsNothing | tools/workflow/local_env/compose.py:1072-1085 | once verified, another run pulls nothing and changes nothing |
| Adapter.OwnedPublisherMatches | tools/workflow/local_env/compose.py:1040-1058 | true if and only if the workspace's own container publishes exactly this port |
| Adapter.PreflightPorts | tools/workflow/local_env/compose.py:1022-1038 | passes if and only if every port is ours already or free, else the first that is neither |
| Adapter.RestartDoesNotConflictWithItself | tools/workflow/local_env/compose.py:1030-1058 | a running environment passes its own preflight although none of its ports can be bound |
| Probes.SafeReason | tools/workflow/local_env/probes.py:230-250 | the reason is empty for readiness alone |
| Probes.ProbeDependency | tools/workflow/local_env/probes.py:591-641 | for any clock and any outcomes the loop ends; attempts are paced, capped by what the deadline leaves, never retried after a rejected login, and the result follows the last one |
| Probes.AttemptsAre | tools/workflow/local_env/probes.py:608-641 | each attempt: when it may start, what budget it gets, what it may be followed by and how much later; and when the loop gives up |
| Probes.SleepsAre | tools/workflow/local_env/probes.py:608-641 | one sleep after each attempt but one that settles it, of one interval or what the deadline leaves, whichever is less |
| Probes.AttemptsAreBounded | tools/workflow/local_env/probes.py:608-641 | one interval per attempt but the last fits strictly into the budget |
| Probes.ReadyMeansFreshEvidence | tools/workflow/local_env/probes.py:618-641 | ready if and only if the last attempt was ready and noticed no later than the deadline |
| Probes.ConclusionIs | tools/workflow/local_env/probes.py:591-641 | the result is the last attempt's, or a timeout if there was none or it was ready too late |
| Probes.ResultIs | tools/workflow/local_env/probes.py:230-250 | what is reported of an outcome: code, reason, liveness and stage |
| Resp.RespCommand | tools/workflow/local_env/probes.py:313-322 | the printed command, or a refusal exactly for a carriage return or line feed |
| Resp.CommandRoundTrip | tools/workflow/local_env/probes.py:313-322 | reading a printed command by the array and bulk-string grammar gives its arguments and stops at its end, for arguments of any content |
| Resp.Connection.ReadReply | tools/workflow/local_env/probes.py:325-339 | the reader equals its specification on the stream: result and position |
| Resp.ReadsExactlyOneReply | tools/workflow/local_env/probes.py:325-339 | every scalar reply is read as itself and consumed exactly, whatever follows |
| Resp.RefusalsAre | tools/workflow/local_env/probes.py:325-339 | which replies are a protocol violation, and which a length that is no integer |
| Resp.PyIntExactly | tools/workflow/local_env/probes.py:325-339 | which texts are read as which lengths: spaces, a sign or none, digits in groups |
| Resp.CutShort | tools/workflow/local_env/probes.py:325-339 | a reply cut short anywhere is never taken for one: the read runs out of bytes or of time |
| Resp.RedisAttempt | tools/workflow/local_env/probes.py:342-395 | outcome and everything written, as a function of secret and peer |
| Resp.ReadyExactlyWhen | tools/workflow/local_env/probes.py:342-395 | ready if and only if the secret can be sent and the peer's stream starts with both expected replies |
| Resp.ReadyBytes | tools/workflow/local_env/probes.py:342-395 | the same, byte by byte |
| Resp.OutcomesAre | tools/workflow/local_env/probes.py:342-395 | each outcome if and only if the replies call for it: a rejected secret, a failed connection, a timeout, readiness |
| Resp.NothingElseOnTheWire | tools/workflow/local_env/probes.py:342-380 | the wire decodes to nothing, AUTH with that secret, or AUTH and PING, the last exactly after `+OK` |
| Resp.WireIs | tools/workflow/local_env/probes.py:342-380 | every byte that is ever written |
| RateLimit.RedisRateLimiter.IncrWindow | services/api-service/app/rate_limit.py:70-75 | one increment in the running window, or the first of a new one |
| RateLimit.RedisRateLimiter.CheckAndIncrement | services/api-service/app/rate_limit.py:51-68 | one undisturbed call equals the step of the specification, lost round trips included; calls that interleave are InterleavedBound's |
| RateLimit.DecidesExactly | services/api-service/app/rate_limit.py:51-68 | each decision if and only if the counts of both keys and what is lost call for it |
| RateLimit.ChargesExactly | services/api-service/app/rate_limit.py:51-75 | exactly the keys charged change: the address unless its round trip was lost unapplied, the number only after an address that passed |
| RateLimit.ChargedKey | services/api-service/app/rate_limit.py:70-75 | a charged key counts one more and keeps its window, or opens one of full length |
| RateLimit.SlidingBound | services/api-service/app/rate_limit.py:51-75 | any half-open interval of one window's length lets through at most twice the limit less one, per address and per number, whatever is lost |
| RateLimit.InterleavedBound | services/api-service/app/rate_limit.py:51-75 | over every interleaving of the round trips of any number of calls, no more than twice the limit less one of those that charge a key within an interval of one window's length are let through |
| RateLimit.ChargersAre | services/api-service/app/rate_limit.py:51-75 | the calls that bound counts are exactly those one of whose trips charges the key within the interval |
| RateLimit.UndisturbedTrips | services/api-service/app/rate_limit.py:51-75 | the two round trips of a call that nobody comes between are exactly its atomic step |
| RateLimit.WindowBound | services/api-service/app/rate_limit.py:51-75 | an interval that starts without a running window lets through at most the limit |
| RateLimit.BoundIsReached | services/api-service/app/rate_limit.py:51-75 | for every positive limit per address and every window of at least three ticks some interval reaches that bound |
| RateLimit.MemoryRateLimiter.CheckAndIncrement | services/api-service/app/rate_limit.py:97-109 | one call of the stand-in equals the counting specification |
| RateLimit.FreshLimitersAgree | services/api-service/app/rate_limit.py:51-109 | on every call sequence inside one window both limiters decide alike |
| RateLimit.AddressIsAlwaysCharged | services/api-service/app/rate_limit.py:54-66 | the address is charged even when the number refuses; a refused address never charges the number; when exactly a call is let through |
| AuthRateLimit.LuaLimiter.RetryAfterFor | services/api-service/app/domain/authentication/rate_limit.lua:34-49 | the advice computed from the oldest score |
| AuthRateLimit.LuaLimiter.CheckAndIncrement | services/api-service/app/domain/authentication/rate_limit.lua:24-64 | one script run equals the step of the specification |
| AuthRateLimit.ScriptDecides | services/api-service/app/domain/authentication/rate_limit.lua:24-64 | the whole decision by the calls let through in both windows: allowed, dimension, counts and whether there is advice |
| AuthRateLimit.StepDecides | services/api-service/app/domain/authentication/rate_limit.lua:24-64 | the same for one run on any store |
| AuthRateLimit.ScriptRecords | services/api-service/app/domain/authentication/rate_limit.lua:24-64 | what a call let through leaves in its two buckets, for how long, and that no other bucket changes |
| AuthRateLimit.ScriptFollowsTheRule | services/api-service/app/domain/authentication/rate_limit.lua:24-64 | over every sequence of calls with distinct members, and keys that live as long as the window, the script lets through exactly those with fewer than the limit before them in their rolling window |
| AuthRateLimit.RollingBound | services/api-service/app/domain/authentication/rate_limit.lua:51-57 | that rule lets at most the limit through in any interval of the window's length |
| AuthRateLimit.ScriptBound | services/api-service/app/domain/authentication/rate_limit.lua:24-64 | hence, with such members and keys, the rolling bound for the script, per phone and per address |
| AuthRateLimit.RetryAfterIsExact | services/api-service/app/domain/authentication/rate_limit.lua:34-57 | a denied call is told the least whole number of seconds after which that dimension would not deny it |
| AuthRateLimit.RepeatedMemberIsNeverDenied | services/api-service/app/domain/authentication/rate_limit.lua:59-60 | a member used again replaces its own entry: under a limit of two or more any number of calls passes within any interval, as long as the other limit is positive |
| AuthRateLimit.RepeatedMembersExactlyWhen | services/api-service/app/domain/authentication/rate_limit.lua:24-64 | for all limits: over all sequences in order of time, whatever their members, a dimension keeps its bound if and only if the window is empty, a limit is zero, or its limit is one and keys live at least as long as the window |
| AuthRateLimit.ShortLifetimeBreaksTheBound | services/api-service/app/domain/authentication/rate_limit.lua:61-62 | for all limits under which something passes: a key that expires before its window ends lets one call more than the limit through |
| AuthRateLimit.BoundExactlyWhen | services/api-service/app/domain/authentication/rate_limit.lua:24-64 | for all limits: every well-behaved sequence keeps the rolling bound if and only if keys live at least as long as the window, or a limit is zero |
| AuthRateLimit.MemoryAuthRateLimiter.CheckAndIncrement | services/api-service/app/auth_rate_limit.py:236-271 | one call of the stand-in equals the counting specification |
| AuthRateLimit.StandInDecides | services/api-service/app/auth_rate_limit.py:236-271 | the stand-in's whole decision by the calls it let through |
| AuthRateLimit.CountersAreConserved | services/api-service/app/auth_rate_limit.py:217-271 | over every sequence each counter is its number of calls let through, within its limit; both sums equal the members; a denial changes nothing |
| AuthRateLimit.MemoryRefinesScript | services/api-service/app/auth_rate_limit.py:236-271 | while the first call is in the window, stand-in and script decide every sequence alike |
| Config.ValidateMode | tools/workflow/local_env/config.py:298-319 | accepted if and only if the values of the MODE lines are exactly one, `local` |
| Config.ParseAssignments | tools/workflow/local_env/config.py:322-342 | the assignments of a file, or the first line or field to blame |
| Config.ScansExactlyWhen | tools/workflow/local_env/config.py:322-342 | a file scans if and only if no line is malformed and no lifecycle field occurs twice, and records each key that occurs |
| Config.ParseLocalEnvironment | tools/workflow/local_env/config.py:230-295 | the parser equals its specification, errors included |
| Config.RaisesExactlyWhen | tools/workflow/local_env/config.py:230-295 | a plain ValueError gets through if and only if mode, lines and fields are in order and the library raises on the first URL that is not, or that URL is the Redis one with more digits than can be read |
| ConfigForms.LibraryRefusesExactlyWhen | tools/workflow/local_env/config.py:413-418 | when the library raises on an authority: one bracket without the other, brackets it does not take, or a normal form with a delimiter |
| Config.UnclosedBracketRaises | tools/workflow/local_env/config.py:413-418 | the five fields with `postgresql://[` as DATABASE_URL raise it, whatever the others hold and whatever else the library knows |
| Config.AcceptedIsWellFormed | tools/workflow/local_env/config.py:230-295 | everything accepted is well formed, and a mode error is reported before anything else |
| Config.AuthorizedSplits | tools/workflow/local_env/config.py:365-467 | splitting a printed URL gives back user, secret, host, port and path, for any host |
| Config.DecodesExactlyTheWritten | tools/workflow/local_env/config.py:380-391 | percent decoding gives a text if and only if it was written by some choice of characters as percent signs with two digits of either case |
| Config.WrittenSecretsReadBack | tools/workflow/local_env/config.py:380-447 | database and Redis URLs parse to their facts however their secret is written in that way |
| ConfigForms.AcceptedExactlyWhen | tools/workflow/local_env/config.py:230-295 | the accepted texts and what is taken from them: lines that scan, mode `local`, the three URLs in one of the forms below, a secret, three different ports |
| ConfigForms.DatabaseAcceptedExactlyWhen | tools/workflow/local_env/config.py:413-429 | the accepted database URLs, character by character: user, written secret, 127.0.0.1, port, database, and at most empty query and fragment |
| ConfigForms.RedisAcceptedExactlyWhen | tools/workflow/local_env/config.py:432-447 | the accepted Redis URLs, character by character |
| ConfigForms.GrafanaAcceptedExactlyWhen | tools/workflow/local_env/config.py:450-467 | the accepted Grafana URLs, character by character |
| ConfigForms.BlameIs | tools/workflow/local_env/config.py:230-295 | which field, or which two, each rejected text is blamed on |
| ConfigForms.LineIs | tools/workflow/local_env/config.py:322-342 | which lines are skipped and which are assignments, character by character |
| ConfigForms.LineBlamedExactlyWhen | tools/workflow/local_env/config.py:322-342 | a line is blamed if and only if it is malformed and everything before it is in order |
| ConfigForms.RepeatBlamedExactlyWhen | tools/workflow/local_env/config.py:322-342 | a field is blamed for its second line if and only if there is one with everything before it in order |
| Config.DatabaseRoundTrip | tools/workflow/local_env/config.py:413-429 | a printed database URL parses to the facts printed |
| Config.RedisRoundTrip | tools/workflow/local_env/config.py:432-447 | a printed Redis URL parses to the facts printed |
| Config.GrafanaRoundTrip | tools/workflow/local_env/config.py:450-467 | a printed Grafana URL parses to its port |
| Config.ContainerUrlsRecoverTheirParts | tools/workflow/local_env/config.py:256-294 | the container URLs split into exactly the accepted user, decoded secret, service, port and database |
| Config.PrintParses | tools/workflow/local_env/config.py:230-295 | every well-formed configuration is what its printed form parses to |
| Config.ParsingIsAFixpoint | tools/workflow/local_env/config.py:230-295 | printing an accepted file and parsing it again gives the same configuration |
| Config.AcceptedExactlyWhenWellFormed | tools/workflow/local_env/config.py:230-295 | a configuration is accepted in some form if and only if it is well formed |
| Config.IrrelevantLinesDoNotMatter | tools/workflow/local_env/config.py:322-342 | comments, blank lines and other variables at the end never change the result |
| Config.OnlyRelevantLinesMatter | tools/workflow/local_env/config.py:230-342 | texts that differ in such lines alone, wherever these are, come to the same but for the number of the line to blame |
| Config.ReturnsExactlyWhen | tools/workflow/local_env/config.py:322-342 | an accepted text has a carriage return if and only if one stands in a comment, a blank line or another variable |
| Config.ReturnGetsThrough | tools/workflow/local_env/config.py:322-342 | every configuration is what some text with a carriage return parses to |
| BackupSecure.DecryptUndoesEncrypt | tools/workflow/auth_backup_secure.py:160-178 | decryption undoes encryption under any nonce |
| BackupSecure.EncryptionIs | tools/workflow/auth_backup_secure.py:160-165 | an encryption byte by byte: mark, nonce, tag, and plaintext under the stream |
| BackupSecure.OnlyEncryptionsDecrypt | tools/workflow/auth_backup_secure.py:168-178 | a blob decrypts if and only if it is an encryption under this key |
| BackupSecure.TamperingNeedsACollision | tools/workflow/auth_backup_secure.py:168-178 | an altered blob with an unaltered tag decrypts only by a collision of the keyed hash |
| BackupSecure.ConfirmRestoreMatches | tools/workflow/auth_backup_secure.py:209-228 | accepted if and only if counts and id sets agree per table, else the first table that differs |
| BackupSecure.AcceptedRereadIsAPermutation | tools/workflow/auth_backup_secure.py:209-228 | with distinct ids, accepted if and only if the ids are the same, each as often |
| BackupSecure.RepeatedIdsHideALoss | tools/workflow/auth_backup_secure.py:209-228 | for all ids: where one occurs twice beside another, a row lost and another one doubled are accepted |
| BackupSecure.PermutationExactlyWhen | tools/workflow/auth_backup_secure.py:209-228 | acceptance means a permutation, whatever is reread, if and only if the ids are distinct or all the same |
| BackupSecure.PayloadPermutationExactlyWhen | tools/workflow/auth_backup_secure.py:209-228 | the same for a whole payload, table by table |
| Backup.CheckSessions | tools/workflow/auth_backup_restore.py:159-186 | each session violation is reported if and only if some sessions break its rule |
| Backup.CheckChallenge | tools/workflow/auth_backup_restore.py:188-234 | what one challenge contributes |
| Backup.VerifyAuthInvariants | tools/workflow/auth_backup_restore.py:143-236 | no violation if and only if the declarative invariants hold, and each violation exactly when it is broken |
| Backup.SoundExactlyWhen | tools/workflow/auth_backup_restore.py:143-236 | the invariants column by column |
| Backup.SessionBrokenExactlyWhen | tools/workflow/auth_backup_restore.py:159-186 | each violation of a session by its columns |
| Backup.ChallengeBrokenExactlyWhen | tools/workflow/auth_backup_restore.py:188-234 | each violation of a challenge by its columns |
| Backup.ExportedIsText | tools/workflow/auth_backup_restore.py:286-301 | what JSON does not know is exported as its printed text |
| Backup.SecondCheckExactlyWhen | tools/workflow/auth_backup_restore.py:286-301 | rows that passed before the export pass after it if and only if no consumed challenge has an empty-bytes digest and no nested user ids collide in print |
| Backup.EmptyDigestFailsTheSecondCheck | tools/workflow/auth_backup_restore.py:196-213 | a row that passes before and fails after |
| Backup.NativeRowsReturn | tools/workflow/auth_backup_restore.py:286-320 | rows of JSON's own values come back as they were |
| Backup.ValidateRestoreTables | tools/workflow/auth_backup_secure.py:122-140 | accepted if and only if every column of every row is allowlisted for its table |
| Backup.WriteLogicalExport | tools/workflow/auth_backup_restore.py:286-301 | the file written, or why none is; what reading it back gives is Backup.NativeRowsReturn and Backup.SecondCheckExactlyWhen |
| Backup.BackupRestoreVerify | tools/workflow/auth_backup_restore.py:347-453 | which stage can refuse and when; a count mismatch or an unreadable file never occurs; success returns the exported rows |
| Backup.NativeTablesReturn | tools/workflow/auth_backup_restore.py:393-453 | for rows of JSON's own values the second check cannot fail and the tables return unchanged |
| Supervisor.Host.AwaitReady | tools/workflow/local_stack/processes.py:380-388 | ready at the first healthy poll, lost at the first dead one |
| Supervisor.Host.StartOne | tools/workflow/local_stack/processes.py:282-411 | one service: reuse, termination, spawn, truncation and write of the record, readiness; its meaning is SucceedsExactlyWhen, ActionsAre and RecordsAre |
| Supervisor.Host.StartProcesses | tools/workflow/local_stack/processes.py:260-422 | a start equals the fold of its visits and its last write; the state file reads as what was last done to it |
| Supervisor.Host.StopProcesses | tools/workflow/local_stack/processes.py:442-462 | a stop attends to each entry in turn, forgets it, and ends with an empty file |
| Supervisor.SuccessMeansCurrent | tools/workflow/local_stack/processes.py:260-422 | if a start returns 0, every service is recorded with its current fingerprint and was seen healthy |
| Supervisor.SucceedsExactlyWhen | tools/workflow/local_stack/processes.py:260-422 | a start returns 0 if and only if each service has its directory and either may be reused, or finds its port free, is spawned and becomes healthy before any poll finds it dead |
| Supervisor.FailuresAre | tools/workflow/local_stack/processes.py:260-422 | otherwise its failures are exactly the other services, in order |
| Supervisor.ReadyExactlyWhen | tools/workflow/local_stack/processes.py:380-388 | readiness is a healthy poll before which, and at which, every poll found the process alive |
| Supervisor.RecordsAre | tools/workflow/local_stack/processes.py:282-371 | each service is recorded afterwards with what was spawned, its port and fingerprint, or as it was |
| Supervisor.ActionsAre | tools/workflow/local_stack/processes.py:282-371 | everything a start does to processes and nothing else: which are told to stop, killed and spawned |
| Supervisor.SecondStartIsIdle | tools/workflow/local_stack/processes.py:287-307 | another start in an unchanged healthy world stops and spawns nothing and returns 0 |
| Supervisor.NoLiveProcessIsForgotten | tools/workflow/local_stack/processes.py:309-371 | every recorded live process is still recorded or was told to stop before its replacement was spawned; a forced restart tells all of them |
| Supervisor.FileAtEveryMoment | tools/workflow/local_stack/processes.py:225-422 | wherever a start dies, the state file reads as exactly this: empty inside a write, one process short right after a spawn, complete anywhere else |
| Supervisor.CrashLosesExactlyWhen | tools/workflow/local_stack/processes.py:225-413 | a crash loses a live process if and only if it falls inside a write while one should be recorded, or right after a spawn |
| Supervisor.EveryStartCanLoseEverything | tools/workflow/local_stack/processes.py:225-413 | every start has such a moment: its last write, cut short, forgets everybody |
| Supervisor.StopAttendsToEverybody | tools/workflow/local_stack/processes.py:442-462 | a stop attends to every recorded live process and leaves nothing recorded |
| Supervisor.StopDoes | tools/workflow/local_stack/processes.py:442-462 | everything a stop does to processes: each recorded live one is told to stop, and killed if and only if it resists |
| Supervisor.InterruptedStopLosesExactlyWhen | tools/workflow/local_stack/processes.py:225-462 | wherever a stop is cut short, a live process is neither recorded nor attended to if and only if the cut falls inside a write before everybody was attended to |
| Supervisor.CutStopLosesTheSecond | tools/workflow/local_stack/processes.py:442-462 | for every state file whose second entry is a live process with a pid other than the first's, the first write, cut short, loses it |
| Approval.CheckProof | tools/workflow/prod_approval.py:317-426 | a proof passes if and only if it is bound to the context, else the code of the first failing check |
| Approval.BoundExactlyWhen | tools/workflow/prod_approval.py:317-426 | acceptance field by field, under either scheme |
| Approval.ObjectionIs | tools/workflow/prod_approval.py:317-426 | each code if and only if its check is the first to fail |
| Approval.BodyIs | tools/workflow/prod_approval.py:19-33 | what a signature covers, field by field |
| Approval.IssuedApprovalIsBound | tools/workflow/prod_approval.py:190-226 | an issued approval passes exactly the contexts it was issued for |
| Approval.IssuesExactlyWhen | tools/workflow/prod_approval.py:190-226 | an approval is issued if and only if issuer and subject are given and differ, and is signed |
| Approval.AlteredProofIsRefused | tools/workflow/prod_approval.py:369-386 | under a collision-free keyed hash an altered copy with the old signature never passes |
| Approval.AcceptedAtMostOnce | tools/workflow/prod_approval.py:285-313 | over every interleaving of verifiers, crashes and failing disks, each nonce is accepted at most once, never if already stored, and only for a bound proof |
| Approval.StepsAre | tools/workflow/prod_approval.py:285-433 | what each step makes of its verifier and of the store |
| Approval.StoreGrowsByPassedChecksOnly | tools/workflow/prod_approval.py:317-433 | every new entry belongs to exactly one verifier whose checks had all passed; refusals leave nothing |
| Approval.FailedWriteBurnsTheNonce | tools/workflow/prod_approval.py:298-313 | after a failed write, or a crash in it, nobody was accepted with that nonce |
| Approval.AcceptableExactlyWhen | tools/workflow/prod_approval.py:285-433 | from any state some future accepts a verifier if and only if it has created its nonce and not failed, or waits with checks passed or about to pass and nobody has created its nonce |
| Approval.FailingWriteUsesUp | tools/workflow/prod_approval.py:298-313 | the run that uses a nonce up: before it its verifier could be accepted, after it nobody with that nonce ever is, and nobody was |
| Session.AuthProvider.FinishRevalidate | frontend/src/auth/AuthContext.tsx:120-152 | what each reply to a revalidation does to the state; its meaning is RevalidationReplies |
| Session.AuthProvider.FinishLogoutBootstrap | frontend/src/auth/AuthContext.tsx:158-182 | what the bootstrap before a logout does, and whether the logout goes on; its meaning is LogoutBootstrapReplies |
| Session.AuthProvider.FinishLogoutCall | frontend/src/auth/AuthContext.tsx:184-217 | what each reply to a logout does, and when it revalidates instead; its meaning is LogoutCallReplies |
| Session.AlwaysCoherent | frontend/src/auth/AuthContext.tsx:95-230 | over every interleaving token, summary and had-session are held together; authenticated means all, anonymous none; at most one revalidation is under way |
| Session.LostExactlyWhen | frontend/src/auth/AuthContext.tsx:95-230 | a held session is lost by a step if and only if it is Clear, completes an operation other than a switch whose reply is that the session is gone, or a logout that succeeded or failed oddly |
| Session.RevalidationReplies | frontend/src/auth/AuthContext.tsx:120-152 | the status and what is held after every reply to a revalidation: without an answer a held session stays authenticated |
| Session.LogoutBootstrapReplies | frontend/src/auth/AuthContext.tsx:158-182 | the same for the bootstrap before a logout, and the logout it sends |
| Session.LogoutCallReplies | frontend/src/auth/AuthContext.tsx:184-217 | the same for the logout, and the revalidation it begins |
| Session.StaysSignedOut | frontend/src/auth/AuthContext.tsx:116-230 | without a login nothing revives a session that neither the server nor a reply holds |
| Session.RevivalExactlyWhen | frontend/src/auth/AuthContext.tsx:116-230 | a signed-out tab can come back without a login if and only if the server still holds its session or a reply with it is on the way |
| Session.LateRevalidationOutlivesLogout | frontend/src/auth/AuthContext.tsx:116-186 | a run in which a revalidation sent before the logout signs the tab in after it |
| Migrations.WaitForReady | tools/workflow/migrations.py:362-437 | ready, exited or timed out, each exactly when; no turn begins at or after the deadline |
| Migrations.ReadyMeansTheFinalServer | tools/workflow/migrations.py:391-437 | each of the consecutive successes saw the container running and came after the marker |
| Migrations.NameExactlyWhen | tools/workflow/migrations.py:164-189 | a good token and component always give a safe name with the run's stem: the checks after the cut never fail |
| Migrations.SlugExactly | tools/workflow/migrations.py:152-161 | a slug is the words of the component joined by single underscores |
| Migrations.ShortNameIs | tools/workflow/migrations.py:164-189 | the name is prefix, token and slug, cut to 63 characters without trailing underscores |
| Migrations.RunsNeverShareADatabase | tools/workflow/migrations.py:164-189 | different run tokens never give the same database name |
| Migrations.PlanOwnerDatabases | tools/workflow/migrations.py:242-272 | all owners named in order and no two alike, or an error exactly otherwise |

## Left out

- Docker, Compose, git, openssl, sockets, file modes and `fcntl` are abstract. The protocol assumes that `compose up` and `compose down` touch only the named project, that `down` keeps volumes, and that nothing outside changes a project's resources while its lock is held; its safety results further assume that no child outlives its run, and LifecycleProtocol.EndangeredExactlyWhen says exactly what is at stake without that.
- StartRun.StartLocalEnvironment: the run is a value threaded through methods, not an emitter object; message wording, durations, plain lines, the retained-state note, redaction, and the computed facts handed to adapters and probes are not modelled. Errors are taken as their classes declare them: only the lock reports contention, only mode checks report a mode; their messages are taken to be non-empty. Which calls break is up to the script, except for the configuration.
- StopRun.StopLocalEnvironment: as for the start; a KeyboardInterrupt can strike only during a call to the outside world.
- LifecycleProtocol.PassedStopLeavesNothing: speaks of every volume the first inspection listed, which is more than the two named volumes the code compares; the code's own comparison by name is in StopRun.StopPassesExactlyWhen.
- LifecycleProtocol.NextKeepsInv: images, ports, probes and readiness budgets are not part of the protocol's world; they are in StartRun.
- Probes.ProbeDependency: the three concurrent probes are three independent scripts; cancellation and the PostgreSQL and Grafana attempts are not modelled.
- Probes.SafeReason: the wording is abbreviated.
- Resp.RespCommand: arguments are given as UTF-8 bytes, so text that cannot be encoded is outside the model.
- Resp.Connection.ReadReply: the stream reader's line-length limit and Python's limit on the digits of an integer are not modelled.
- Adapter.DockerHost.EnsureImages: the reasons for an unreadable or malformed inspection are one predicate of the image reference; timeouts are its failures.
- RateLimit.RedisRateLimiter.CheckAndIncrement: Redis time is assumed not to run backwards; a Redis failure other than a lost round trip is not modelled.
- AuthRateLimit.LuaLimiter.CheckAndIncrement: script loading, reply coercion and key derivation of the Python client are left out; Redis time is assumed not to run backwards.
- ConfigForms.AcceptedExactlyWhen: assumes of the URL library that it takes no brackets around the IPv4 loopback literal, as RFC 3986 and current Python have it.
- Config.ParseLocalEnvironment: which bracketed hosts are IP literals, and compatibility normalisation, are parameters of every result; error wording is left out. The parser is given text: the default reader opens the file in text mode, which turns carriage returns into line feeds before the parser sees them.
- Backup.SecondCheckExactlyWhen: a value whose `str()` differs from its JSON form, such as a string enumeration, prints differently before and after the export and is outside the model.
- Backup.VerifyAuthInvariants: objects JSON does not know are taken to be truthy (times and identifiers are); falsy ones such as a decimal zero are outside the model, and the text of violations is left out.
- Backup.BackupRestoreVerify: the JSON codec is assumed to return exported values; manifests, file modes, directories and the PostgreSQL and pg_dump paths are left out.
- BackupSecure.DecryptUndoesEncrypt: SHAKE-256 and HMAC are arbitrary functions of the right result length.
- Refinement.StartRefinesProtocol: the path is that of an undisturbed run; what others do in between is the protocol's.
- Refinement.StopRefinesProtocol: as for the start; listings are taken to show the resources there are when they are made, and the removals of the parse-failure fallback are among those of `down`.
- Supervisor.Host.StartProcesses: answers of the operating system are a script per service; process ids that are reused by other programs are not told apart, as in the code.
- Approval.CheckProof: the in-memory set of seen nonces used for dry runs is left out; signatures, hexadecimal and date parsing are parameters.
- Session.AuthProvider.FinishSwitch: broadcasting, challenge cleanup and React batching are left out; tokens are taken to be non-empty.
- Migrations.WaitForReady: what the clock and the container would answer is a list of turns, so no assumption on the poll interval is needed; diagnostics are left out.
- Migrations.PlanOwnerDatabases: owner ids and tokens are taken in lower case; the URL rewriting beside each name is left out.
- Manifest constants, `tools/workflow/dsn.py`, release gates, port maps, health endpoints and pages are settled by reading their branches and are not modelled.
