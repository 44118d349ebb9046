/** The single runs are runs of the protocol: what a start or a stop comes to, statement by
    statement, is a path of the protocol's program counter that ends the same way. */
module Refinement {
  import opened Wrappers
  import opened LifecycleRun
  import Events
  import P = LifecycleProtocol
  import StartRun
  import StopRun
  import Compose

  // ------------------------------------------------------------------ paths of one run

  function Steps(r: P.RunId, acts: seq<P.Act>): seq<P.Step> {
    if acts == [] then [] else [P.ByRun(r, acts[0])] + Steps(r, acts[1..])
  }

  /** What is left when a run is over: the lock is free again, and an orphan is there if its child
      outlived it. */
  datatype Rest = Rest(world: P.World, lock: map<P.ProjectId, P.RunId>, orphans: set<(P.Identity, P.Action)>)

  /** The acts can be taken one after the other, and the run is over then. */
  ghost predicate EndsIn(s: P.State, r: P.RunId, acts: seq<P.Act>, passed: bool, rest: Rest) {
    P.Fires(s, Steps(r, acts)) &&
    var end := P.Execute(s, Steps(r, acts));
    && r in end.runs && end.runs == s.runs[r := end.runs[r]]
    && end.runs[r].pc.Done? && (end.runs[r].pc.result.Passed? <==> passed)
    && Rest(end.world, end.lock, end.orphans) == rest
  }

  lemma Prepend(s: P.State, r: P.RunId, act: P.Act, acts: seq<P.Act>, passed: bool, rest: Rest)
    requires P.Enabled(s, P.ByRun(r, act)) && EndsIn(P.Next(s, P.ByRun(r, act)), r, acts, passed, rest)
    ensures EndsIn(s, r, [act] + acts, passed, rest)
  {
    var all := Steps(r, [act] + acts);
    assert ([act] + acts)[1..] == acts;
    assert all[0] == P.ByRun(r, act) && all[1..] == Steps(r, acts);
    hide P.Next, P.Enabled, Steps;
  }

  lemma Nothing(s: P.State, r: P.RunId)
    requires r in s.runs && s.runs[r].pc.Done?
    ensures EndsIn(s, r, [], s.runs[r].pc.result.Passed?, Rest(s.world, s.lock, s.orphans))
  {
  }

  function Released(s: P.State, r: P.RunId): Rest
    requires r in s.runs
  {
    Rest(s.world, s.lock - {s.runs[r].id.project}, s.orphans)
  }

  lemma EndsReleased(s: P.State, r: P.RunId)
    requires r in s.runs && s.runs[r].pc.Finished?
    ensures EndsIn(s, r, [P.Release], s.runs[r].pc.outcome.Passed?, Released(s, r))
  {
    var next := P.Next(s, P.ByRun(r, P.Release));
    Nothing(next, r);
    hide EndsIn;
    Prepend(s, r, P.Release, [], s.runs[r].pc.outcome.Passed?, Released(s, r));
    assert [P.Release] + [] == [P.Release];
  }

  lemma EndsFailed(s: P.State, r: P.RunId)
    requires r in s.runs && P.InLock(s.runs[r].pc) && !P.ChildRunning(s.runs[r].pc) && !s.runs[r].pc.Finished?
    ensures EndsIn(s, r, [P.FailInside, P.Release], false, Released(s, r))
  {
    hide EndsIn;
    EndsReleased(P.Next(s, P.ByRun(r, P.FailInside)), r);
    Prepend(s, r, P.FailInside, [P.Release], false, Released(s, r));
    assert [P.FailInside] + [P.Release] == [P.FailInside, P.Release];
  }

  /** The run dies, or is interrupted, while its child runs. */
  function Bereft(s: P.State, r: P.RunId, childDies: bool): Rest
    requires r in s.runs
  {
    var run := s.runs[r];
    Released(s, r).(orphans := if childDies then s.orphans else s.orphans + {(run.id, run.action)})
  }

  lemma EndsCrashed(s: P.State, r: P.RunId, childDies: bool)
    requires r in s.runs && P.ChildRunning(s.runs[r].pc)
    ensures EndsIn(s, r, [P.Crash(childDies)], false, Bereft(s, r, childDies))
  {
    var next := P.Next(s, P.ByRun(r, P.Crash(childDies)));
    Nothing(next, r);
    hide EndsIn;
    Prepend(s, r, P.Crash(childDies), [], false, Bereft(s, r, childDies));
    assert [P.Crash(childDies)] + [] == [P.Crash(childDies)];
  }

  /** One more kind is listed. */
  lemma Lists(s: P.State, r: P.RunId, acts: seq<P.Act>, passed: bool, rest: Rest)
    requires r in s.runs && s.runs[r].pc.Listing? && s.runs[r].pc.done < P.Needed(s.runs[r].action, s.runs[r].pc.stage)
    requires var run := s.runs[r]; run.seen == P.Snapshot(s.world, run.id.project, run.pc.done)
    requires var run := s.runs[r];
             var listed := run.(pc := P.Listing(run.pc.stage, run.pc.done + 1), seen := P.Snapshot(s.world, run.id.project, run.pc.done + 1));
             EndsIn(s.(runs := s.runs[r := listed]), r, acts, passed, rest)
    ensures EndsIn(s, r, [P.ListNext] + acts, passed, rest)
  {
    var run := s.runs[r];
    assert P.Snapshot(s.world, run.id.project, run.pc.done) + P.OfKind(s.world, run.id.project, run.pc.done) == P.Snapshot(s.world, run.id.project, run.pc.done + 1);
    hide EndsIn;
    Prepend(s, r, P.ListNext, acts, passed, rest);
  }

  // ------------------------------------------------------------------ what a child does

  /** Anything the child of a run may do, in any order: `up` creates and removes, `down` removes;
      neither removes a volume or touches another project. */
  predicate ChildMay(world: P.World, id: P.Identity, action: P.Action, child: seq<P.Act>)
    decreases |child|
  {
    child == [] ||
    (&& (match child[0]
         case Create(rid) => action.Start? && rid !in world
         case Remove(rid) => rid in world && world[rid].project == id.project && !rid.kind.Volume?
         case _ => false)
     && ChildMay(P.NextWorld(world, id, child[0]), id, action, child[1..]))
  }

  function ChildWorld(world: P.World, id: P.Identity, child: seq<P.Act>): P.World
    decreases |child|
  {
    if child == [] then world else ChildWorld(P.NextWorld(world, id, child[0]), id, child[1..])
  }

  /** The child's acts can be taken while it runs. */
  lemma {:induction false} ChildActs(s: P.State, r: P.RunId, child: seq<P.Act>, acts: seq<P.Act>, passed: bool, rest: Rest)
    requires r in s.runs && (if s.runs[r].action.Start? then s.runs[r].pc.UpRunning? else s.runs[r].pc.DownRunning?)
    requires ChildMay(s.world, s.runs[r].id, s.runs[r].action, child)
    requires EndsIn(s.(world := ChildWorld(s.world, s.runs[r].id, child)), r, acts, passed, rest)
    ensures EndsIn(s, r, child + acts, passed, rest)
    decreases |child|
  {
    hide EndsIn;
    if child == [] {
      assert child + acts == acts;
    } else {
      var next := P.Next(s, P.ByRun(r, child[0]));
      assert next == s.(world := P.NextWorld(s.world, s.runs[r].id, child[0])) by { assert s.runs[r := s.runs[r]] == s.runs; }
      ChildActs(next, r, child[1..], acts, passed, rest);
      Prepend(s, r, child[0], child[1..] + acts, passed, rest);
      assert [child[0]] + (child[1..] + acts) == child + acts;
    }
  }

  /** What a child leaves is still the run's own, as far as it was; volumes stay. */
  lemma {:induction false} ChildKeepsOwned(world: P.World, id: P.Identity, action: P.Action, child: seq<P.Act>, n: nat)
    requires ChildMay(world, id, action, child)
    ensures P.AllOwned(id, P.Snapshot(world, id.project, n)) ==> P.AllOwned(id, P.Snapshot(ChildWorld(world, id, child), id.project, n))
    ensures forall rid :: rid in world && rid.kind.Volume? ==> rid in ChildWorld(world, id, child) && ChildWorld(world, id, child)[rid] == world[rid]
    ensures action.Stop? ==> forall rid :: rid in ChildWorld(world, id, child) ==> rid in world && ChildWorld(world, id, child)[rid] == world[rid]
    ensures forall rid :: rid in world && world[rid].project != id.project ==> rid in ChildWorld(world, id, child) && ChildWorld(world, id, child)[rid] == world[rid]
    decreases |child|
  {
    if child != [] {
      OneActKeepsOwned(world, id, child[0], n);
      hide P.AllOwned, P.Snapshot;
      ChildKeepsOwned(P.NextWorld(world, id, child[0]), id, action, child[1..], n);
    }
  }

  lemma OneActKeepsOwned(world: P.World, id: P.Identity, act: P.Act, n: nat)
    requires act.Create? || act.Remove?
    ensures P.AllOwned(id, P.Snapshot(world, id.project, n)) ==> P.AllOwned(id, P.Snapshot(P.NextWorld(world, id, act), id.project, n))
  {
    var before, after := P.Snapshot(world, id.project, n), P.Snapshot(P.NextWorld(world, id, act), id.project, n);
    assert forall rid :: rid in after && rid != act.rid ==> rid in before && after[rid] == before[rid];
    assert act.rid in after ==> after[act.rid] == P.Resource(id.project, Some(id));
  }

  // ------------------------------------------------------------------ a start

  /** The protocol's acts for a start that its script takes this far, and whose child, if it comes to
      one, does all of `child`. */
  function StartActs(w: StartRun.World, child: seq<P.Act>): seq<P.Act> {
    if !ModeAccepted(w.mode, w.origin) || !Chain(StartRun.BeforeLock(), w.script).Returns? then [P.RejectOutside]
    else [P.Acquire] + StartInside(w, child)
  }

  function Shown(): seq<Call> { [ReadConfig(Inside), VerifiedBytes, VerifyRuntimeAgain, ProjectState(Inside)] }

  function StartInside(w: StartRun.World, child: seq<P.Act>): seq<P.Act> {
    if !Chain(Shown(), w.script).Returns? then [P.FailInside, P.Release] else [P.ListNext] + StartShown(w, child)
  }

  function StartShown(w: StartRun.World, child: seq<P.Act>): seq<P.Act> {
    match w.script(AssertOwnership(Inside))
    case Raises(_, _) => [P.Check(true), P.Release]
    case Returns => [P.Check(true)] + StartAuthorized(w, child)
    case _ => [P.FailInside, P.Release]
  }

  /** Everything up to the reconcile returned, and there is time for it. */
  predicate ReachesUp(w: StartRun.World) {
    && ModeAccepted(w.mode, w.origin) && Chain(StartRun.BeforeLock(), w.script).Returns? && Chain(StartRun.InsideLock(), w.script).Returns?
    && StartRun.Deadline(w) - w.beforeReconcile > StartRun.MIN_REMAINING
  }

  function StartAuthorized(w: StartRun.World, child: seq<P.Act>): seq<P.Act> {
    if ReachesUp(w) then [P.SpawnUp] + (child + StartUp(w)) else [P.FailInside, P.Release]
  }

  function StartUp(w: StartRun.World): seq<P.Act> {
    match w.script(ReconcileUp)
    case Interrupts => [P.Crash(false)]
    case Breaks => [P.Crash(true)]
    case Raises(_, _) => [P.UpExit, P.FailInside, P.Release]
    case Returns =>
      [P.UpExit] + (if StartPasses(w) then [P.ListNext, P.Check(true), P.Release] else [P.FailInside, P.Release])
  }

  predicate StartPasses(w: StartRun.World) { StartRun.Reference(w) == Verdict(Events.Passed, Events.OK) }

  /** The lock answers as it stands, and the ownership check as the containers are. */
  ghost predicate StartSees(w: StartRun.World, s: P.State, id: P.Identity) {
    && (w.script(AcquireLock).Returns? ==> id.project !in s.lock)
    && (w.script(AssertOwnership(Inside)).Returns? ==> P.AllOwned(id, P.Snapshot(s.world, id.project, 1)))
    && (w.script(AssertOwnership(Inside)).Raises? ==> !P.AllOwned(id, P.Snapshot(s.world, id.project, 1)))
  }

  /** The child of a start outlives it exactly if the start is interrupted while it runs. */
  predicate StartOrphans(w: StartRun.World) { ReconcileUp in StartRun.CallsMade(w) && w.script(ReconcileUp).Interrupts? }

  function StartRest(w: StartRun.World, s: P.State, id: P.Identity, child: seq<P.Act>): Rest {
    Rest(if ReachesUp(w) then ChildWorld(s.world, id, child) else s.world, s.lock, if StartOrphans(w) then s.orphans + {(id, P.Start)} else s.orphans)
  }

  /** The same from inside the lock. */
  function StartLeft(w: StartRun.World, s: P.State, r: P.RunId, child: seq<P.Act>): Rest
    requires r in s.runs
  {
    Bereft(s, r, !StartOrphans(w)).(world := if ReachesUp(w) then ChildWorld(s.world, s.runs[r].id, child) else s.world)
  }

  /** The child exits, and the rest of the start fails. */
  lemma ExitFails(s: P.State, r: P.RunId)
    requires r in s.runs && s.runs[r].pc.UpRunning?
    ensures EndsIn(s, r, [P.UpExit, P.FailInside, P.Release], false, Released(s, r))
  {
    hide EndsIn;
    EndsFailed(P.Next(s, P.ByRun(r, P.UpExit)), r);
    Prepend(s, r, P.UpExit, [P.FailInside, P.Release], false, Released(s, r));
    assert [P.UpExit] + [P.FailInside, P.Release] == [P.UpExit, P.FailInside, P.Release];
  }

  /** The child exits, and the check that follows passes. */
  lemma ExitPasses(s: P.State, r: P.RunId)
    requires r in s.runs && s.runs[r].pc.UpRunning? && s.runs[r].action.Start?
    requires P.AllOwned(s.runs[r].id, P.Snapshot(s.world, s.runs[r].id.project, 1))
    ensures EndsIn(s, r, [P.UpExit] + [P.ListNext, P.Check(true), P.Release], true, Released(s, r))
  {
    hide EndsIn, P.AllOwned;
    var s1 := P.Next(s, P.ByRun(r, P.UpExit));
    var run := s.runs[r].(pc := P.Listing(P.After, 1), seen := P.Snapshot(s.world, s.runs[r].id.project, 1));
    var s2 := s1.(runs := s1.runs[r := run]);
    EndsReleased(P.Next(s2, P.ByRun(r, P.Check(true))), r);
    Prepend(s2, r, P.Check(true), [P.Release], true, Released(s, r));
    assert s1.runs[r].seen == P.Snapshot(s.world, run.id.project, 0);
    Lists(s1, r, [P.Check(true)] + [P.Release], true, Released(s, r));
    Prepend(s, r, P.UpExit, [P.ListNext] + ([P.Check(true)] + [P.Release]), true, Released(s, r));
    assert [P.ListNext] + ([P.Check(true)] + [P.Release]) == [P.ListNext, P.Check(true), P.Release];
  }

  lemma StartUpEnds(w: StartRun.World, s: P.State, r: P.RunId)
    requires r in s.runs && s.runs[r].pc.UpRunning? && s.runs[r].action.Start?
    requires P.AllOwned(s.runs[r].id, P.Snapshot(s.world, s.runs[r].id.project, 1))
    requires StartPasses(w) ==> w.script(ReconcileUp).Returns?
    ensures EndsIn(s, r, StartUp(w), StartPasses(w), Bereft(s, r, !w.script(ReconcileUp).Interrupts?))
  {
    hide EndsIn, StartPasses, P.AllOwned, P.Snapshot;
    match w.script(ReconcileUp) {
      case Interrupts => EndsCrashed(s, r, false);
      case Breaks => EndsCrashed(s, r, true);
      case Raises(_, _) => ExitFails(s, r);
      case Returns =>
        assert [P.UpExit] + [P.FailInside, P.Release] == [P.UpExit, P.FailInside, P.Release];
        ExitFails(s, r);
        ExitPasses(s, r);
    }
  }

  lemma StartCalls()
    ensures AcquireLock in StartRun.BeforeLock() && AssertOwnership(Inside) in StartRun.InsideLock()
    ensures forall c :: c in Shown() ==> c in StartRun.InsideLock()
  {
  }

  /** How far the replies take a start. */
  lemma StartReturns(w: StartRun.World)
    ensures Chain(StartRun.BeforeLock(), w.script).Returns? ==> w.script(AcquireLock).Returns?
    ensures Chain(StartRun.InsideLock(), w.script).Returns? ==> Chain(Shown(), w.script).Returns? && w.script(AssertOwnership(Inside)).Returns?
    ensures StartPasses(w) ==> ReachesUp(w) && w.script(ReconcileUp).Returns?
  {
    StartCalls();
    hide Chain, Shown, ReachesUp, StartPasses, StartRun.BeforeLock, StartRun.InsideLock;
    SomeCallDecides(StartRun.BeforeLock(), w.script);
    SomeCallDecides(StartRun.InsideLock(), w.script);
    SomeCallDecides(Shown(), w.script);
    PassingReachesUp(w);
  }

  lemma PassingReachesUp(w: StartRun.World)
    ensures StartPasses(w) ==> ReachesUp(w) && w.script(ReconcileUp).Returns?
  {
    hide Chain, StartRun.BeforeLock, StartRun.InsideLock, StartRun.AfterReconcile;
    Stretch(StartRun.BeforeLock(), StartRun.InsideLock(), w.script);
  }

  lemma MadeUp(w: StartRun.World)
    ensures ReconcileUp in StartRun.CallsMade(w) <==> ReachesUp(w)
  {
    hide Chain, Upto, StartRun.BeforeLock, StartRun.InsideLock, StartRun.Confirm, StartRun.Attribute;
    var before, inside, calls := StartRun.BeforeLock(), StartRun.InsideLock(), StartRun.CallsMade(w);
    if ReachesUp(w) {
      assert calls == before + (inside + StartRun.DeadlineCalls(w)) + [ReleaseLock];
      assert StartRun.DeadlineCalls(w)[0] == ReconcileUp;
      assert calls[|before| + |inside|] == ReconcileUp;
    }
    if k :| 0 <= k < |calls| && calls[k] == ReconcileUp {
      StartRun.ReconcileOnlyAfterInspection(w, k);
      SomeCallDecides(before, w.script);
      SomeCallDecides(inside, w.script);
      assert k == |before| + |inside|;
      assert StartRun.DeadlineCalls(w) == [] ==> calls == before + (inside + []) + [ReleaseLock];
    }
  }

  lemma MadeRelease(w: StartRun.World)
    ensures ReleaseLock in StartRun.CallsMade(w) <==> ModeAccepted(w.mode, w.origin) && Chain(StartRun.BeforeLock(), w.script).Returns?
  {
    StartRun.PlanFacts();
    UptoIsPrefix(StartRun.BeforeLock(), w.script);
    var calls := StartRun.CallsMade(w);
    assert calls != [] ==> calls[|calls| - 1] in calls;
    hide Chain, Upto, StartRun.BeforeLock, StartRun.CallsInside;
  }

  lemma StartInsideEnds(w: StartRun.World, s: P.State, r: P.RunId, child: seq<P.Act>)
    requires r in s.runs && s.runs[r].pc == P.Listing(P.First, 0) && s.runs[r].seen == map[] && s.runs[r].action.Start?
    requires var owned := P.AllOwned(s.runs[r].id, P.Snapshot(s.world, s.runs[r].id.project, 1));
             (w.script(AssertOwnership(Inside)).Returns? ==> owned) && (w.script(AssertOwnership(Inside)).Raises? ==> !owned)
    requires ModeAccepted(w.mode, w.origin) && Chain(StartRun.BeforeLock(), w.script).Returns? && ChildMay(s.world, s.runs[r].id, P.Start, child)
    ensures EndsIn(s, r, StartInside(w, child), StartPasses(w), StartLeft(w, s, r, child))
  {
    hide EndsIn, Chain, StartPasses, ReachesUp, StartOrphans, StartLeft, StartShown, Released, ModeAccepted, ChildMay, P.AllOwned, P.Snapshot, P.Next, P.Enabled, StartRun.CallsMade, StartRun.BeforeLock, StartRun.InsideLock, Shown;
    var run := s.runs[r];
    NothingListed(s.world, run.id.project);
    StartReturns(w);
    InsideReaches(w);
    if !Chain(Shown(), w.script).Returns? {
      EndsFailed(s, r);
      LeftUnreached(w, s, r, child);
    } else {
      var shown := run.(pc := P.Listing(P.First, 1), seen := P.Snapshot(s.world, run.id.project, 1));
      var s1 := s.(runs := s.runs[r := shown]);
      StartShownEnds(w, s1, r, child);
      LeftAlike(w, s, s1, r, child);
      Lists(s, r, StartShown(w, child), StartPasses(w), StartLeft(w, s, r, child));
    }
  }

  lemma NothingListed(world: P.World, project: P.ProjectId)
    ensures P.Snapshot(world, project, 0) == map[]
  {
  }

  lemma InsideReaches(w: StartRun.World)
    ensures ReachesUp(w) ==> Chain(StartRun.InsideLock(), w.script).Returns?
    ensures StartOrphans(w) <==> ReachesUp(w) && w.script(ReconcileUp).Interrupts?
  {
    hide Chain, StartRun.BeforeLock, StartRun.InsideLock, StartRun.CallsMade;
    MadeUp(w);
  }

  lemma LeftUnreached(w: StartRun.World, s: P.State, r: P.RunId, child: seq<P.Act>)
    requires r in s.runs && !ReachesUp(w) && !StartOrphans(w)
    ensures StartLeft(w, s, r, child) == Released(s, r)
  {
    hide ReachesUp, StartOrphans;
  }

  lemma LeftAlike(w: StartRun.World, s: P.State, t: P.State, r: P.RunId, child: seq<P.Act>)
    requires r in s.runs && r in t.runs && s.runs[r].id == t.runs[r].id && s.runs[r].action == t.runs[r].action
    requires s.world == t.world && s.lock == t.lock && s.orphans == t.orphans
    ensures StartLeft(w, s, r, child) == StartLeft(w, t, r, child)
  {
    hide ReachesUp, StartOrphans, ChildWorld;
  }

  lemma StartShownEnds(w: StartRun.World, s: P.State, r: P.RunId, child: seq<P.Act>)
    requires r in s.runs && s.runs[r].pc == P.Listing(P.First, 1) && s.runs[r].action.Start?
    requires s.runs[r].seen == P.Snapshot(s.world, s.runs[r].id.project, 1) && ChildMay(s.world, s.runs[r].id, P.Start, child)
    requires var owned := P.AllOwned(s.runs[r].id, s.runs[r].seen);
             (w.script(AssertOwnership(Inside)).Returns? ==> owned) && (w.script(AssertOwnership(Inside)).Raises? ==> !owned)
    requires ReachesUp(w) ==> w.script(AssertOwnership(Inside)).Returns?
    requires StartPasses(w) ==> ReachesUp(w) && w.script(ReconcileUp).Returns?
    requires StartOrphans(w) <==> ReachesUp(w) && w.script(ReconcileUp).Interrupts?
    ensures EndsIn(s, r, StartShown(w, child), StartPasses(w), StartLeft(w, s, r, child))
  {
    hide EndsIn, StartPasses, StartOrphans, ReachesUp, P.AllOwned, P.Snapshot;
    var checked := P.Next(s, P.ByRun(r, P.Check(true)));
    match w.script(AssertOwnership(Inside)) {
      case Raises(_, _) =>
        EndsReleased(checked, r);
        Prepend(s, r, P.Check(true), [P.Release], false, Released(s, r));
        assert [P.Check(true)] + [P.Release] == [P.Check(true), P.Release];
      case Returns =>
        StartAuthorizedEnds(w, checked, r, child);
        Prepend(s, r, P.Check(true), StartAuthorized(w, child), StartPasses(w), StartLeft(w, s, r, child));
      case _ => EndsFailed(s, r);
    }
  }

  lemma StartAuthorizedEnds(w: StartRun.World, s: P.State, r: P.RunId, child: seq<P.Act>)
    requires r in s.runs && s.runs[r].pc == P.Authorized && s.runs[r].action.Start?
    requires P.AllOwned(s.runs[r].id, P.Snapshot(s.world, s.runs[r].id.project, 1)) && ChildMay(s.world, s.runs[r].id, P.Start, child)
    requires StartPasses(w) ==> ReachesUp(w) && w.script(ReconcileUp).Returns?
    requires StartOrphans(w) <==> ReachesUp(w) && w.script(ReconcileUp).Interrupts?
    ensures EndsIn(s, r, StartAuthorized(w, child), StartPasses(w), StartLeft(w, s, r, child))
  {
    hide EndsIn, StartPasses, StartOrphans, ReachesUp, P.AllOwned, P.Snapshot;
    if ReachesUp(w) {
      ChildKeepsOwned(s.world, s.runs[r].id, P.Start, child, 1);
      var up := P.Next(s, P.ByRun(r, P.SpawnUp));
      var done := up.(world := ChildWorld(up.world, up.runs[r].id, child));
      StartUpEnds(w, done, r);
      ChildActs(up, r, child, StartUp(w), StartPasses(w), StartLeft(w, s, r, child));
      Prepend(s, r, P.SpawnUp, child + StartUp(w), StartPasses(w), StartLeft(w, s, r, child));
    } else {
      EndsFailed(s, r);
    }
  }

  lemma {:induction false} ChildOnlyChanges(world: P.World, id: P.Identity, action: P.Action, child: seq<P.Act>)
    requires ChildMay(world, id, action, child)
    ensures forall k :: 0 <= k < |child| ==> child[k].Create? || child[k].Remove?
    decreases |child|
  {
    if child != [] { ChildOnlyChanges(P.NextWorld(world, id, child[0]), id, action, child[1..]); }
  }

  lemma StartActsMarks(w: StartRun.World, child: seq<P.Act>)
    requires forall k :: 0 <= k < |child| ==> child[k].Create? || child[k].Remove?
    ensures P.SpawnUp in StartActs(w, child) <==> ReachesUp(w)
    ensures P.Acquire in StartActs(w, child) <==> ModeAccepted(w.mode, w.origin) && Chain(StartRun.BeforeLock(), w.script).Returns?
  {
    StartReturns(w);
    hide Chain, StartPasses, StartRun.BeforeLock, StartRun.InsideLock, Shown;
  }

  /** Every start is a run of the protocol: from any state with a new start, if the lock and the
      ownership check answer as the state has them, and for everything its child may do, the
      protocol can take the acts of this start one by one; the run then passes exactly if the start does, holds the lock no more, has
      changed nobody else's run, and leaves an orphan exactly if it was interrupted in its
      reconcile. */
  lemma StartRefinesProtocol(w: StartRun.World, s: P.State, r: P.RunId, id: P.Identity, child: seq<P.Act>)
    requires r in s.runs && s.runs[r] == P.Run(id, P.Start, P.Preflight, map[], {}) && StartSees(w, s, id)
    requires ChildMay(s.world, id, P.Start, child)
    ensures EndsIn(s, r, StartActs(w, child), StartPasses(w), StartRest(w, s, id, child))
    ensures P.SpawnUp in StartActs(w, child) <==> ReconcileUp in StartRun.CallsMade(w)
    ensures P.Acquire in StartActs(w, child) <==> ReleaseLock in StartRun.CallsMade(w)
  {
    MadeUp(w);
    MadeRelease(w);
    ChildOnlyChanges(s.world, id, P.Start, child);
    StartActsMarks(w, child);
    hide EndsIn, Chain, StartActs, StartRest, StartPasses, StartSees, ChildMay, ReachesUp, StartRun.CallsMade, StartRun.BeforeLock;
    StartPath(w, s, r, id, child);
  }

  lemma StartPath(w: StartRun.World, s: P.State, r: P.RunId, id: P.Identity, child: seq<P.Act>)
    requires r in s.runs && s.runs[r] == P.Run(id, P.Start, P.Preflight, map[], {}) && StartSees(w, s, id)
    requires ChildMay(s.world, id, P.Start, child)
    ensures EndsIn(s, r, StartActs(w, child), StartPasses(w), StartRest(w, s, id, child))
  {
    StartReturns(w);
    MadeUp(w);
    hide EndsIn, Chain, StartPasses, P.AllOwned, P.Snapshot, StartRun.BeforeLock, StartRun.CallsMade, StartInside, Shown, ChildMay, ChildWorld;
    if !ModeAccepted(w.mode, w.origin) || !Chain(StartRun.BeforeLock(), w.script).Returns? {
      var next := P.Next(s, P.ByRun(r, P.RejectOutside));
      Nothing(next, r);
      Prepend(s, r, P.RejectOutside, [], false, Rest(s.world, s.lock, s.orphans));
      assert [P.RejectOutside] + [] == [P.RejectOutside];
    } else {
      var next := P.Next(s, P.ByRun(r, P.Acquire));
      StartInsideEnds(w, next, r, child);
      assert next.lock - {id.project} == s.lock;
      Prepend(s, r, P.Acquire, StartInside(w, child), StartPasses(w), StartRest(w, s, id, child));
    }
  }

  // ------------------------------------------------------------------ a stop

  /** The same for a stop and the child that is its `compose down`. */
  function StopActs(w: StopRun.World, child: seq<P.Act>): seq<P.Act> {
    if !ModeAccepted(w.mode, w.origin) || !Chain(StopRun.BeforeLock(), w.script).Returns? then [P.RejectOutside]
    else [P.Acquire] + StopInside(w, child)
  }

  function StopInside(w: StopRun.World, child: seq<P.Act>): seq<P.Act> {
    if !Chain(StopRun.InsideLock(), w.script).Returns? then [P.FailInside, P.Release] else ListThree(StopShown(w, child))
  }

  function ListThree(acts: seq<P.Act>): seq<P.Act> { [P.ListNext] + ([P.ListNext] + ([P.ListNext] + acts)) }

  function StopShown(w: StopRun.World, child: seq<P.Act>): seq<P.Act> {
    [P.Check(true)] + (if Compose.AllAuthorized(w.id, w.before) then StopAuthorized(w, child) else [P.Release])
  }

  function StopAuthorized(w: StopRun.World, child: seq<P.Act>): seq<P.Act> {
    if StopRun.Stopped(w.before) then [P.SpawnDown] + StopAfter(w)
    else if StopRun.STOP_BUDGET - w.elapsed <= 0.0 then [P.FailInside, P.Release]
    else [P.SpawnDown] + (child + StopDown(w))
  }

  function StopDown(w: StopRun.World): seq<P.Act> {
    match w.script(ReconcileDown)
    case Interrupts => [P.Crash(false)]
    case Breaks => [P.Crash(true)]
    case Raises(_, _) => [P.DownExit(false)] + [P.FailInside, P.Release]
    case Returns => [P.DownExit(false)] + StopAfter(w)
  }

  function StopAfter(w: StopRun.World): seq<P.Act> {
    if StopPasses(w) then ListThree([P.Check(true), P.Release]) else [P.FailInside, P.Release]
  }

  predicate StopPasses(w: StopRun.World) { StopRun.Reference(w) == Verdict(Events.Passed, Events.OK) }

  predicate StopOrphans(w: StopRun.World) { ReconcileDown in StopRun.CallsMade(w) && w.script(ReconcileDown).Interrupts? }

  /** The lock answers as it stands, and the listings show what is there when they are made. */
  ghost predicate StopSees(w: StopRun.World, s: P.State, id: P.Identity, child: seq<P.Act>) {
    && (w.script(AcquireLock).Returns? ==> id.project !in s.lock)
    && Shows(w, s.world, id) && ShowsAfter(w, StopWorld(w, s.world, id, child), id)
  }

  ghost predicate Shows(w: StopRun.World, world: P.World, id: P.Identity) {
    && (Compose.AllAuthorized(w.id, w.before) <==> P.AllOwned(id, P.Snapshot(world, id.project, 3)))
    && (StopRun.Stopped(w.before) <==> P.NothingRunning(P.Snapshot(world, id.project, 3)))
  }

  ghost predicate ShowsAfter(w: StopRun.World, world: P.World, id: P.Identity) {
    w.script(ListResources(After)).Returns? ==> (StopRun.Stopped(w.after) <==> P.NothingRunning(P.Snapshot(world, id.project, 3)))
  }

  /** The world a stop leaves. */
  function StopWorld(w: StopRun.World, world: P.World, id: P.Identity, child: seq<P.Act>): P.World {
    if ReachesDown(w) then ChildWorld(world, id, child) else world
  }

  lemma ListsThree(s: P.State, r: P.RunId, acts: seq<P.Act>, passed: bool, rest: Rest)
    requires r in s.runs && s.runs[r].pc.Listing? && s.runs[r].pc.done == 0 && s.runs[r].seen == map[] && P.Needed(s.runs[r].action, s.runs[r].pc.stage) == 3
    requires var run := s.runs[r];
             var listed := run.(pc := P.Listing(run.pc.stage, 3), seen := P.Snapshot(s.world, run.id.project, 3));
             EndsIn(s.(runs := s.runs[r := listed]), r, acts, passed, rest)
    ensures EndsIn(s, r, ListThree(acts), passed, rest)
  {
    var run := s.runs[r];
    assert run.seen == P.Snapshot(s.world, run.id.project, 0);
    hide EndsIn, P.Snapshot;
    var one := run.(pc := P.Listing(run.pc.stage, 1), seen := P.Snapshot(s.world, run.id.project, 1));
    var two := run.(pc := P.Listing(run.pc.stage, 2), seen := P.Snapshot(s.world, run.id.project, 2));
    var three := run.(pc := P.Listing(run.pc.stage, 3), seen := P.Snapshot(s.world, run.id.project, 3));
    assert s.runs[r := two][r := three] == s.runs[r := three] && s.runs[r := one][r := two] == s.runs[r := two];
    Lists(s.(runs := s.runs[r := two]), r, acts, passed, rest);
    Lists(s.(runs := s.runs[r := one]), r, [P.ListNext] + acts, passed, rest);
    Lists(s, r, [P.ListNext] + ([P.ListNext] + acts), passed, rest);
  }

  lemma StopAfterEnds(w: StopRun.World, s: P.State, r: P.RunId)
    requires r in s.runs && s.runs[r].pc == P.Listing(P.After, 0) && s.runs[r].seen == map[] && s.runs[r].action.Stop?
    requires var shown := P.Snapshot(s.world, s.runs[r].id.project, 3);
             StopPasses(w) ==> P.AllOwned(s.runs[r].id, shown) && P.NothingRunning(shown) && s.runs[r].before <= shown.Keys
    ensures EndsIn(s, r, StopAfter(w), StopPasses(w), Released(s, r))
  {
    hide EndsIn, StopPasses, P.AllOwned, P.NothingRunning, P.Snapshot;
    if StopPasses(w) {
      PassesAfter(s, r);
    } else {
      EndsFailed(s, r);
    }
  }

  /** What the lock and the world are after a stop that got the lock. */
  function StopLeft(w: StopRun.World, s: P.State, r: P.RunId, child: seq<P.Act>): Rest
    requires r in s.runs
  {
    Bereft(s, r, !StopOrphans(w)).(world := StopWorld(w, s.world, s.runs[r].id, child))
  }

  /** Volumes shown before `down` are still shown after it. */
  lemma VolumesStillShown(world: P.World, id: P.Identity, child: seq<P.Act>)
    requires ChildMay(world, id, P.Stop, child)
    ensures P.VolumesOf(P.Snapshot(world, id.project, 3)) <= P.Snapshot(ChildWorld(world, id, child), id.project, 3).Keys
  {
    ChildKeepsOwned(world, id, P.Stop, child, 3);
  }

  lemma StopDownEnds(w: StopRun.World, s: P.State, r: P.RunId)
    requires r in s.runs && s.runs[r].pc.DownRunning? && s.runs[r].action.Stop?
    requires var shown := P.Snapshot(s.world, s.runs[r].id.project, 3);
             StopPasses(w) ==> w.script(ReconcileDown).Returns? && P.AllOwned(s.runs[r].id, shown) && P.NothingRunning(shown) && s.runs[r].before <= shown.Keys
    ensures EndsIn(s, r, StopDown(w), StopPasses(w), Bereft(s, r, !w.script(ReconcileDown).Interrupts?))
  {
    hide EndsIn, StopPasses, P.AllOwned, P.NothingRunning, P.Snapshot, StopAfter;
    match w.script(ReconcileDown) {
      case Interrupts => EndsCrashed(s, r, false);
      case Breaks => EndsCrashed(s, r, true);
      case Raises(_, _) =>
        EndsFailed(P.Next(s, P.ByRun(r, P.DownExit(false))), r);
        Prepend(s, r, P.DownExit(false), [P.FailInside, P.Release], false, Released(s, r));
      case Returns =>
        StopAfterEnds(w, P.Next(s, P.ByRun(r, P.DownExit(false))), r);
        Prepend(s, r, P.DownExit(false), StopAfter(w), StopPasses(w), Released(s, r));
    }
  }

  /** `down` is spawned, does what it does, and the stop ends as it does. */
  lemma StopSpawnedEnds(w: StopRun.World, s: P.State, r: P.RunId, child: seq<P.Act>)
    requires r in s.runs && s.runs[r].pc.DownRunning? && s.runs[r].action.Stop? && ReachesDown(w)
    requires ChildMay(s.world, s.runs[r].id, P.Stop, child) && P.AllOwned(s.runs[r].id, P.Snapshot(s.world, s.runs[r].id.project, 3))
    requires s.runs[r].before == P.VolumesOf(P.Snapshot(s.world, s.runs[r].id.project, 3))
    requires StopPasses(w) ==> w.script(ReconcileDown).Returns? && P.NothingRunning(P.Snapshot(ChildWorld(s.world, s.runs[r].id, child), s.runs[r].id.project, 3))
    requires StopOrphans(w) <==> w.script(ReconcileDown).Interrupts?
    ensures EndsIn(s, r, child + StopDown(w), StopPasses(w), StopLeft(w, s, r, child))
  {
    ChildKeepsOwned(s.world, s.runs[r].id, P.Stop, child, 3);
    VolumesStillShown(s.world, s.runs[r].id, child);
    hide EndsIn, StopPasses, StopOrphans, ReachesDown, P.AllOwned, P.NothingRunning, P.Snapshot, P.VolumesOf, StopDown, ChildMay, ChildWorld;
    var done := s.(world := ChildWorld(s.world, s.runs[r].id, child));
    StopDownEnds(w, done, r);
    ChildActs(s, r, child, StopDown(w), StopPasses(w), StopLeft(w, s, r, child));
  }

  lemma StopAuthorizedEnds(w: StopRun.World, s: P.State, r: P.RunId, child: seq<P.Act>)
    requires r in s.runs && s.runs[r].pc.Authorized? && s.runs[r].action.Stop?
    requires s.runs[r].seen == P.Snapshot(s.world, s.runs[r].id.project, 3) && s.runs[r].before == P.VolumesOf(s.runs[r].seen)
    requires ChildMay(s.world, s.runs[r].id, P.Stop, child) && P.AllOwned(s.runs[r].id, s.runs[r].seen)
    requires StopRun.Stopped(w.before) <==> P.NothingRunning(s.runs[r].seen)
    requires ReachesDown(w) <==> !StopRun.Stopped(w.before) && StopRun.STOP_BUDGET - w.elapsed > 0.0
    requires StopPasses(w) ==> P.NothingRunning(P.Snapshot(StopWorld(w, s.world, s.runs[r].id, child), s.runs[r].id.project, 3))
    requires StopPasses(w) && !StopRun.Stopped(w.before) ==> ReachesDown(w) && w.script(ReconcileDown).Returns?
    requires StopOrphans(w) <==> ReachesDown(w) && w.script(ReconcileDown).Interrupts?
    ensures EndsIn(s, r, StopAuthorized(w, child), StopPasses(w), StopLeft(w, s, r, child))
  {
    assert P.VolumesOf(s.runs[r].seen) <= s.runs[r].seen.Keys;
    hide EndsIn, StopPasses, StopOrphans, ReachesDown, StopRun.Stopped, P.AllOwned, P.NothingRunning, P.Snapshot, P.VolumesOf, StopAfter, StopDown, ChildMay, ChildWorld;
    var next := P.Next(s, P.ByRun(r, P.SpawnDown));
    if StopRun.Stopped(w.before) {
      StopAfterEnds(w, next, r);
      Prepend(s, r, P.SpawnDown, StopAfter(w), StopPasses(w), StopLeft(w, s, r, child));
    } else if StopRun.STOP_BUDGET - w.elapsed <= 0.0 {
      EndsFailed(s, r);
    } else {
      StopSpawnedEnds(w, next, r, child);
      Prepend(s, r, P.SpawnDown, child + StopDown(w), StopPasses(w), StopLeft(w, s, r, child));
    }
  }

  /** The way of a stop past its listing. */
  predicate ReachesDown(w: StopRun.World) {
    && ModeAccepted(w.mode, w.origin) && Chain(StopRun.BeforeLock(), w.script).Returns? && Chain(StopRun.InsideLock(), w.script).Returns?
    && Compose.AllAuthorized(w.id, w.before) && !StopRun.Stopped(w.before) && StopRun.STOP_BUDGET - w.elapsed > 0.0
  }

  lemma StopReturns(w: StopRun.World)
    ensures Chain(StopRun.BeforeLock(), w.script).Returns? ==> w.script(AcquireLock).Returns?
    ensures StopPasses(w) ==>
              && ModeAccepted(w.mode, w.origin) && Chain(StopRun.BeforeLock(), w.script).Returns? && Chain(StopRun.InsideLock(), w.script).Returns?
              && Compose.AllAuthorized(w.id, w.before) && (StopRun.Stopped(w.before) || (ReachesDown(w) && w.script(ReconcileDown).Returns?))
              && w.script(ListResources(After)).Returns? && StopRun.Stopped(w.after)
  {
    StopRun.PlanFacts();
    hide Chain, StopRun.BeforeLock, StopRun.InsideLock, StopRun.Stopped, StopRun.KeepsVolume, StopRun.Classifiable, Compose.AllAuthorized;
    SomeCallDecides(StopRun.BeforeLock(), w.script);
    Stretch(StopRun.BeforeLock(), StopRun.InsideLock(), w.script);
  }

  lemma MadeDown(w: StopRun.World)
    ensures ReconcileDown in StopRun.CallsMade(w) <==> ReachesDown(w)
    ensures ReleaseLock in StopRun.CallsMade(w) <==> ModeAccepted(w.mode, w.origin) && Chain(StopRun.BeforeLock(), w.script).Returns?
  {
    StopRun.PlanFacts();
    hide Chain, Upto, StopRun.BeforeLock, StopRun.InsideLock, StopRun.AfterDownCalls, StopRun.Stopped, StopRun.KeepsVolume;
    UptoIsPrefix(StopRun.BeforeLock(), w.script);
    UptoIsPrefix(StopRun.InsideLock(), w.script);
    var before, inside, calls := StopRun.BeforeLock(), StopRun.InsideLock(), StopRun.CallsMade(w);
    assert calls != [] ==> calls[|calls| - 1] in calls;
    if ReachesDown(w) {
      assert calls == before + (inside + StopRun.DownCalls(w)) + [ReleaseLock];
      assert StopRun.DownCalls(w)[0] == ReconcileDown;
      assert calls[|before| + |inside|] == ReconcileDown;
    }
    if k :| 0 <= k < |calls| && calls[k] == ReconcileDown {
      StopRun.DownOnlyUnderTheLock(w, k);
      assert k == |before| + |inside|;
      assert StopRun.DownCalls(w) == [] ==> calls == before + (inside + []) + [ReleaseLock];
    }
  }

  lemma StopInsideEnds(w: StopRun.World, s: P.State, r: P.RunId, child: seq<P.Act>)
    requires r in s.runs && s.runs[r].pc == P.Listing(P.First, 0) && s.runs[r].seen == map[] && s.runs[r].action.Stop?
    requires Shows(w, s.world, s.runs[r].id) && ShowsAfter(w, StopWorld(w, s.world, s.runs[r].id, child), s.runs[r].id)
    requires ChildMay(s.world, s.runs[r].id, P.Stop, child)
    requires ModeAccepted(w.mode, w.origin) && Chain(StopRun.BeforeLock(), w.script).Returns?
    ensures EndsIn(s, r, StopInside(w, child), StopPasses(w), StopLeft(w, s, r, child))
  {
    StopReturns(w);
    MadeDown(w);
    hide EndsIn, Chain, StopPasses, P.AllOwned, P.NothingRunning, P.Snapshot, P.VolumesOf, StopRun.CallsMade, StopRun.BeforeLock, StopRun.InsideLock, ChildMay, ChildWorld;
    hide StopRun.Stopped, Compose.AllAuthorized, StopAuthorized, ListThree;
    if !Chain(StopRun.InsideLock(), w.script).Returns? {
      EndsFailed(s, r);
    } else {
      var run := s.runs[r].(pc := P.Listing(P.First, 3), seen := P.Snapshot(s.world, s.runs[r].id.project, 3));
      var s3 := s.(runs := s.runs[r := run]);
      var checked := P.Next(s3, P.ByRun(r, P.Check(true)));
      if Compose.AllAuthorized(w.id, w.before) {
        StopAuthorizedEnds(w, checked, r, child);
        Prepend(s3, r, P.Check(true), StopAuthorized(w, child), StopPasses(w), StopLeft(w, s, r, child));
      } else {
        EndsReleased(checked, r);
        Prepend(s3, r, P.Check(true), [P.Release], false, Released(s, r));
      }
      ListsThree(s, r, StopShown(w, child), StopPasses(w), StopLeft(w, s, r, child));
    }
  }

  function StopRest(w: StopRun.World, s: P.State, id: P.Identity, child: seq<P.Act>): Rest {
    Rest(StopWorld(w, s.world, id, child), s.lock, if StopOrphans(w) then s.orphans + {(id, P.Stop)} else s.orphans)
  }

  /** Every stop is a run of the protocol, in the same sense; if it passes, exactly the
      containers and networks of its project are gone. */
  lemma StopRefinesProtocol(w: StopRun.World, s: P.State, r: P.RunId, id: P.Identity, child: seq<P.Act>)
    requires r in s.runs && s.runs[r] == P.Run(id, P.Stop, P.Preflight, map[], {})
    requires StopSees(w, s, id, child) && ChildMay(s.world, id, P.Stop, child)
    ensures EndsIn(s, r, StopActs(w, child), StopPasses(w), StopRest(w, s, id, child))
    ensures P.Acquire in StopActs(w, child) <==> ReleaseLock in StopRun.CallsMade(w)
    ensures StopPasses(w) ==> forall rid :: rid in s.world && s.world[rid].project == id.project ==>
              (rid in StopRest(w, s, id, child).world <==> rid.kind.Volume?)
  {
    MadeDown(w);
    StopActsMarks(w, child);
    StopClears(w, s.world, id, child);
    hide EndsIn, Chain, StopActs, StopPasses, StopSees, ChildMay, StopWorld, StopRun.CallsMade, StopRun.BeforeLock;
    StopPath(w, s, r, id, child);
  }

  lemma StopClears(w: StopRun.World, world: P.World, id: P.Identity, child: seq<P.Act>)
    requires ChildMay(world, id, P.Stop, child) && ShowsAfter(w, StopWorld(w, world, id, child), id)
    ensures StopPasses(w) ==> forall rid :: rid in world && world[rid].project == id.project ==>
              (rid in StopWorld(w, world, id, child) <==> rid.kind.Volume?)
  {
    StopReturns(w);
    ChildKeepsOwned(world, id, P.Stop, child, 3);
    var left := StopWorld(w, world, id, child);
    hide StopPasses, ReachesDown, ChildMay, ChildWorld, StopRun.Stopped;
    assert forall rid :: rid in left && left[rid].project == id.project ==> rid in P.Snapshot(left, id.project, 3);
  }

  lemma StopPath(w: StopRun.World, s: P.State, r: P.RunId, id: P.Identity, child: seq<P.Act>)
    requires r in s.runs && s.runs[r] == P.Run(id, P.Stop, P.Preflight, map[], {})
    requires StopSees(w, s, id, child) && ChildMay(s.world, id, P.Stop, child)
    ensures EndsIn(s, r, StopActs(w, child), StopPasses(w), StopRest(w, s, id, child))
  {
    StopReturns(w);
    MadeDown(w);
    hide EndsIn, Chain, StopPasses, P.AllOwned, P.Snapshot, StopRun.BeforeLock, StopRun.CallsMade, StopInside, StopRun.Stopped, Shows, ShowsAfter, ChildMay, ChildWorld;
    if !ModeAccepted(w.mode, w.origin) || !Chain(StopRun.BeforeLock(), w.script).Returns? {
      var next := P.Next(s, P.ByRun(r, P.RejectOutside));
      Nothing(next, r);
      Prepend(s, r, P.RejectOutside, [], false, Rest(s.world, s.lock, s.orphans));
      assert [P.RejectOutside] + [] == [P.RejectOutside];
    } else {
      var next := P.Next(s, P.ByRun(r, P.Acquire));
      StopInsideEnds(w, next, r, child);
      assert next.lock - {id.project} == s.lock;
      Prepend(s, r, P.Acquire, StopInside(w, child), StopPasses(w), StopRest(w, s, id, child));
    }
  }

  lemma StopActsMarks(w: StopRun.World, child: seq<P.Act>)
    ensures P.Acquire in StopActs(w, child) <==> ModeAccepted(w.mode, w.origin) && Chain(StopRun.BeforeLock(), w.script).Returns?
  {
  }

  // ------------------------------------------------------------------ the parse-failure fallback

  /** Every container and network of the project, once. */
  ghost predicate Enumerates(gone: seq<P.ResourceId>, world: P.World, p: P.ProjectId) {
    && (forall i, j :: 0 <= i < j < |gone| ==> gone[i] != gone[j])
    && forall rid :: rid in gone <==> rid in world && world[rid].project == p && !rid.kind.Volume?
  }

  function Removals(gone: seq<P.ResourceId>): seq<P.Act> { if gone == [] then [] else [P.Remove(gone[0])] + Removals(gone[1..]) }

  function Without(world: P.World, gone: seq<P.ResourceId>): P.World { map rid | rid in world && rid !in gone :: world[rid] }

  lemma RemovesFirst(s: P.State, r: P.RunId, first: P.ResourceId)
    requires r in s.runs && s.runs[r].pc.Removing? && first in s.runs[r].seen && first in s.world
    ensures P.Enabled(s, P.ByRun(r, P.Remove(first)))
    ensures var next := P.Next(s, P.ByRun(r, P.Remove(first)));
            && next.world == s.world - {first} && next.lock == s.lock && next.orphans == s.orphans && r in next.runs
            && next.runs[r] == s.runs[r].(seen := s.runs[r].seen - {first})
            && next.runs == s.runs[r := next.runs[r]]
  {
  }

  /** What the fallback lists, it removes, and only then it is through. */
  lemma {:induction false} RemovesWhatItListed(s: P.State, r: P.RunId, gone: seq<P.ResourceId>, acts: seq<P.Act>, passed: bool, rest: Rest)
    requires r in s.runs && s.runs[r].pc.Removing?
    requires (forall i, j :: 0 <= i < j < |gone| ==> gone[i] != gone[j]) && forall rid :: rid in gone <==> rid in s.runs[r].seen
    requires forall rid :: rid in gone ==> rid in s.world
    requires EndsIn(s.(world := Without(s.world, gone), runs := s.runs[r := s.runs[r].(pc := P.Listing(P.After, 0), seen := map[])]), r, acts, passed, rest)
    ensures EndsIn(s, r, Removals(gone) + ([P.RemovalsDone] + acts), passed, rest)
    decreases |gone|
  {
    hide EndsIn;
    if gone == [] {
      assert s.runs[r].seen == map[] by { assert forall rid :: rid !in s.runs[r].seen; }
      assert Without(s.world, gone) == s.world;
      Prepend(s, r, P.RemovalsDone, acts, passed, rest);
      assert Removals(gone) + ([P.RemovalsDone] + acts) == [P.RemovalsDone] + acts;
    } else {
      var first, others := gone[0], gone[1..];
      assert first in gone && first !in others;
      assert forall rid :: rid in gone <==> rid == first || rid in others;
      RemovesFirst(s, r, first);
      var next := P.Next(s, P.ByRun(r, P.Remove(first)));
      hide P.Next, P.Enabled;
      assert Without(next.world, others) == Without(s.world, gone);
      var listed := s.runs[r].(pc := P.Listing(P.After, 0), seen := map[]);
      assert next.runs[r := listed] == s.runs[r := listed];
      RemovesWhatItListed(next, r, others, acts, passed, rest);
      Prepend(s, r, P.Remove(first), Removals(others) + ([P.RemovalsDone] + acts), passed, rest);
      assert [P.Remove(first)] + (Removals(others) + ([P.RemovalsDone] + acts)) == Removals(gone) + ([P.RemovalsDone] + acts);
    }
  }

  /** A `down` whose output does not parse falls back: the project's containers and networks are
      listed again, checked, and removed one by one, in any order; then the stop verifies as
      ever, and passes. */
  lemma FallbackPasses(s: P.State, r: P.RunId, gone: seq<P.ResourceId>)
    requires r in s.runs && s.runs[r].pc.DownRunning? && s.runs[r].action.Stop?
    requires P.AllOwned(s.runs[r].id, P.Snapshot(s.world, s.runs[r].id.project, 3)) && Enumerates(gone, s.world, s.runs[r].id.project)
    requires s.runs[r].before == P.VolumesOf(P.Snapshot(s.world, s.runs[r].id.project, 3))
    ensures EndsIn(s, r, [P.DownExit(true)] + ([P.ListNext] + ([P.ListNext] + ([P.Check(true)] + (Removals(gone) + ([P.RemovalsDone] + ListThree([P.Check(true), P.Release])))))),
                   true, Rest(Without(s.world, gone), s.lock - {s.runs[r].id.project}, s.orphans))
  {
    var run := s.runs[r];
    var p, left := run.id.project, Without(s.world, gone);
    var rest := Rest(left, s.lock - {p}, s.orphans);
    RemainsOwned(s.world, run.id, gone);
    TwoKinds(s.world, run.id, gone);
    var shown := P.Snapshot(s.world, p, 2);
    hide EndsIn, P.AllOwned, P.NothingRunning, P.Snapshot, P.VolumesOf, Enumerates;
    var removing := s.(runs := s.runs[r := run.(pc := P.Removing, seen := shown)]);
    var last := s.(world := left, runs := s.runs[r := run.(pc := P.Listing(P.After, 0), seen := map[])]);
    PassesAfter(last, r);
    assert removing.runs[r := last.runs[r]] == last.runs;
    RemovesWhatItListed(removing, r, gone, ListThree([P.Check(true), P.Release]), true, rest);
    FallsBack(s, r, Removals(gone) + ([P.RemovalsDone] + ListThree([P.Check(true), P.Release])), rest);
  }

  /** Up to the removals. */
  lemma FallsBack(s: P.State, r: P.RunId, acts: seq<P.Act>, rest: Rest)
    requires r in s.runs && s.runs[r].pc.DownRunning? && s.runs[r].action.Stop?
    requires P.AllOwned(s.runs[r].id, P.Snapshot(s.world, s.runs[r].id.project, 2))
    requires EndsIn(s.(runs := s.runs[r := s.runs[r].(pc := P.Removing, seen := P.Snapshot(s.world, s.runs[r].id.project, 2))]), r, acts, true, rest)
    ensures EndsIn(s, r, [P.DownExit(true)] + ([P.ListNext] + ([P.ListNext] + ([P.Check(true)] + acts))), true, rest)
  {
    var run := s.runs[r];
    var p := run.id.project;
    var listed := s.(runs := s.runs[r := run.(pc := P.Listing(P.Fallback, 0), seen := map[])]);
    hide EndsIn, P.AllOwned, P.Snapshot;
    assert listed.runs[r := run.(pc := P.Removing, seen := P.Snapshot(s.world, p, 2))] == s.runs[r := run.(pc := P.Removing, seen := P.Snapshot(s.world, p, 2))];
    FallbackLists(listed, r, acts, rest);
    Prepend(s, r, P.DownExit(true), [P.ListNext] + ([P.ListNext] + ([P.Check(true)] + acts)), true, rest);
  }

  lemma FallbackLists(s: P.State, r: P.RunId, acts: seq<P.Act>, rest: Rest)
    requires r in s.runs && s.runs[r].pc == P.Listing(P.Fallback, 0) && s.runs[r].seen == map[] && s.runs[r].action.Stop?
    requires P.AllOwned(s.runs[r].id, P.Snapshot(s.world, s.runs[r].id.project, 2))
    requires EndsIn(s.(runs := s.runs[r := s.runs[r].(pc := P.Removing, seen := P.Snapshot(s.world, s.runs[r].id.project, 2))]), r, acts, true, rest)
    ensures EndsIn(s, r, [P.ListNext] + ([P.ListNext] + ([P.Check(true)] + acts)), true, rest)
  {
    var run := s.runs[r];
    var p := run.id.project;
    assert run.seen == P.Snapshot(s.world, p, 0);
    hide EndsIn, P.AllOwned, P.Snapshot;
    var one := run.(pc := P.Listing(P.Fallback, 1), seen := P.Snapshot(s.world, p, 1));
    var two := run.(pc := P.Listing(P.Fallback, 2), seen := P.Snapshot(s.world, p, 2));
    FallbackChecks(s.(runs := s.runs[r := two]), r, acts, rest, run.(pc := P.Removing, seen := P.Snapshot(s.world, p, 2)), s);
    assert s.runs[r := one][r := two] == s.runs[r := two];
    Lists(s.(runs := s.runs[r := one]), r, [P.Check(true)] + acts, true, rest);
    Lists(s, r, [P.ListNext] + ([P.Check(true)] + acts), true, rest);
  }

  lemma FallbackChecks(s: P.State, r: P.RunId, acts: seq<P.Act>, rest: Rest, removing: P.Run, start: P.State)
    requires r in s.runs && s.runs[r].pc == P.Listing(P.Fallback, 2) && s.runs[r].action.Stop? && P.AllOwned(s.runs[r].id, s.runs[r].seen)
    requires removing == s.runs[r].(pc := P.Removing) && r in start.runs && s == start.(runs := start.runs[r := s.runs[r]])
    requires EndsIn(start.(runs := start.runs[r := removing]), r, acts, true, rest)
    ensures EndsIn(s, r, [P.Check(true)] + acts, true, rest)
  {
    hide EndsIn, P.AllOwned;
    assert P.Next(s, P.ByRun(r, P.Check(true))).runs == start.runs[r := removing];
    Prepend(s, r, P.Check(true), acts, true, rest);
  }

  lemma TwoKinds(world: P.World, id: P.Identity, gone: seq<P.ResourceId>)
    requires P.AllOwned(id, P.Snapshot(world, id.project, 3)) && Enumerates(gone, world, id.project)
    ensures P.AllOwned(id, P.Snapshot(world, id.project, 2)) && forall rid :: rid in gone <==> rid in P.Snapshot(world, id.project, 2)
    ensures forall rid :: rid in gone ==> rid in world
    ensures forall i, j :: 0 <= i < j < |gone| ==> gone[i] != gone[j]
  {
    var two, three := P.Snapshot(world, id.project, 2), P.Snapshot(world, id.project, 3);
    assert forall rid :: rid in two ==> rid in three && two[rid] == three[rid];
  }

  /** Taking containers and networks away leaves the rest as it was. */
  lemma RemainsOwned(world: P.World, id: P.Identity, gone: seq<P.ResourceId>)
    requires P.AllOwned(id, P.Snapshot(world, id.project, 3)) && Enumerates(gone, world, id.project)
    ensures var shown := P.Snapshot(Without(world, gone), id.project, 3);
            P.AllOwned(id, shown) && P.NothingRunning(shown) && P.VolumesOf(P.Snapshot(world, id.project, 3)) <= shown.Keys
  {
    var all, shown := P.Snapshot(world, id.project, 3), P.Snapshot(Without(world, gone), id.project, 3);
    assert forall rid :: rid in shown ==> rid in all && shown[rid] == all[rid];
  }

  /** The verification after a stop, when there is nothing to object to. */
  lemma PassesAfter(s: P.State, r: P.RunId)
    requires r in s.runs && s.runs[r].pc == P.Listing(P.After, 0) && s.runs[r].seen == map[] && s.runs[r].action.Stop?
    requires var shown := P.Snapshot(s.world, s.runs[r].id.project, 3);
             P.AllOwned(s.runs[r].id, shown) && P.NothingRunning(shown) && s.runs[r].before <= shown.Keys
    ensures EndsIn(s, r, ListThree([P.Check(true), P.Release]), true, Released(s, r))
  {
    hide EndsIn, P.AllOwned, P.NothingRunning, P.Snapshot;
    var run := s.runs[r].(pc := P.Listing(P.After, 3), seen := P.Snapshot(s.world, s.runs[r].id.project, 3));
    var s3 := s.(runs := s.runs[r := run]);
    EndsReleased(P.Next(s3, P.ByRun(r, P.Check(true))), r);
    Prepend(s3, r, P.Check(true), [P.Release], true, Released(s, r));
    assert [P.Check(true)] + [P.Release] == [P.Check(true), P.Release];
    ListsThree(s, r, [P.Check(true), P.Release], true, Released(s, r));
  }
}
