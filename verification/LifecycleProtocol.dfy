/** The local lifecycle as a concurrent protocol.

    Any number of `make dev` and `make dev-down` runs act on one shared world of labelled
    containers, networks and volumes. A run is a small-step program counter; a step list is
    an interleaving. Docker is abstract: while a `compose up` child runs it may create
    resources labelled with the run's identity and may remove containers and networks of the
    run's project (a recreate); a `compose down` child may remove containers and networks of
    the project. Neither child removes a volume or touches another project. */
module LifecycleProtocol {
  import opened Wrappers

  type ProjectId = nat // the 12-hex project id: two workspaces may share it
  type RunId = nat

  /** Short project id and full 64-hex fingerprint of one workspace. */
  datatype Identity = Identity(project: ProjectId, fingerprint: nat)

  datatype Kind = Container | Network | Volume

  /** Docker names containers, networks and volumes in separate spaces. */
  datatype ResourceId = ResourceId(kind: Kind, key: nat)

  /** `project` is the Compose project label; `owner` holds the two ownership labels
      (None when either is missing). */
  datatype Resource = Resource(project: ProjectId, owner: Option<Identity>)

  type World = map<ResourceId, Resource>

  datatype Action = Start | Stop

  /** Which of a run's in-lock inspections is going on. */
  datatype Stage = First | Fallback | After

  datatype Outcome = Passed | Failed | Crashed

  datatype Pc =
    | Preflight                         // before the lock: read-only
    | Listing(stage: Stage, done: nat)  // `done` of the kinds have been listed
    | Authorized                        // the first in-lock ownership check passed
    | UpRunning                         // the `compose up` child is running
    | DownRunning                       // the `compose down` child is running
    | Removing                          // parse-failure fallback: removing what was listed
    | Finished(outcome: Outcome)        // verdict reached, lock still held
    | Done(result: Outcome)             // lock released, or never held

  /** `seen` is what the inspection in progress (or last completed) has listed; `before` is
      the set of volumes the first inspection of a stop listed. While the fallback removes,
      `seen` is what is left of its list. */
  datatype Run = Run(id: Identity, action: Action, pc: Pc, seen: World, before: set<ResourceId>)

  /** `orphans` are children that outlived their run. */
  datatype State = State(world: World, lock: map<ProjectId, RunId>, runs: map<RunId, Run>,
                         orphans: set<(Identity, Action)>)

  datatype Act =
    | Launch(id: Identity, action: Action)
    | RejectOutside
    | Acquire
    | ListNext
    | Check(ready: bool)
    | FailInside
    | SpawnUp
    | SpawnDown
    | Create(rid: ResourceId)
    | Remove(rid: ResourceId)
    | UpExit
    | DownExit(parseFailure: bool)
    | RemovalsDone
    | Release
    | Crash(childDies: bool)

  datatype Step =
    | ByRun(r: RunId, act: Act)
    | OrphanRemove(id: Identity, action: Action, rid: ResourceId)
    | Outside(rid: ResourceId, now: Option<Resource>)

  // ------------------------------------------------------------------ definitions

  function KindIndex(k: Kind): nat {
    match k case Container => 0 case Network => 1 case Volume => 2
  }

  /** How many kinds an inspection lists: `compose ps` shows containers only, the stop path
      lists containers, networks and volumes, its fallback containers and networks. */
  function Needed(action: Action, stage: Stage): nat {
    if action.Start? then 1 else if stage.Fallback? then 2 else 3
  }

  predicate Owned(id: Identity, r: Resource) {
    r.project == id.project && r.owner == Some(id)
  }

  /** The resources of a project among the first `n` kinds. */
  function Snapshot(w: World, p: ProjectId, n: nat): World {
    map rid | rid in w && w[rid].project == p && KindIndex(rid.kind) < n :: w[rid]
  }

  /** What one listing command returns: the project's resources of kind number `n`. */
  function OfKind(w: World, p: ProjectId, n: nat): World {
    map rid | rid in w && w[rid].project == p && KindIndex(rid.kind) == n :: w[rid]
  }

  predicate AllOwned(id: Identity, w: World) {
    forall rid :: rid in w ==> Owned(id, w[rid])
  }

  predicate NothingRunning(w: World) {
    forall rid :: rid in w ==> rid.kind.Volume?
  }

  function VolumesOf(w: World): set<ResourceId> {
    set rid | rid in w && rid.kind.Volume?
  }

  predicate InLock(pc: Pc) {
    !pc.Preflight? && !pc.Done?
  }

  predicate ChildRunning(pc: Pc) {
    pc.UpRunning? || pc.DownRunning?
  }

  /** What one inspection concludes from what it listed. */
  function Verdict(run: Run, ready: bool): Pc
    requires run.pc.Listing?
  {
    if !AllOwned(run.id, run.seen) then Finished(Failed)
    else match run.pc.stage
      case First => Authorized
      case Fallback => Removing
      case After =>
        if run.action.Start? then Finished(if ready then Passed else Failed)
        else if NothingRunning(run.seen) && run.before <= run.seen.Keys then Finished(Passed)
        else Finished(Failed)
  }

  // ------------------------------------------------------------------ steps

  /** Removals a run may perform: its child removes containers and networks of its project,
      the fallback removes exactly what it listed. */
  predicate MayRemove(run: Run, w: World, rid: ResourceId) {
    rid in w &&
    match run.pc
    case UpRunning => w[rid].project == run.id.project && !rid.kind.Volume?
    case DownRunning => w[rid].project == run.id.project && !rid.kind.Volume?
    case Removing => rid in run.seen
    case _ => false
  }

  predicate RunEnabled(s: State, run: Run, act: Act) {
    match act
    case Launch(_, _) => false
    case RejectOutside => run.pc.Preflight?
    case Acquire => run.pc.Preflight?
    case ListNext => run.pc.Listing? && run.pc.done < Needed(run.action, run.pc.stage)
    case Check(_) => run.pc.Listing? && run.pc.done == Needed(run.action, run.pc.stage)
    case FailInside => InLock(run.pc) && !ChildRunning(run.pc) && !run.pc.Finished?
    case SpawnUp => run.pc.Authorized? && run.action.Start?
    case SpawnDown => run.pc.Authorized? && run.action.Stop?
    case Create(rid) => run.pc.UpRunning? && rid !in s.world
    case Remove(rid) => MayRemove(run, s.world, rid)
    case UpExit => run.pc.UpRunning?
    case DownExit(_) => run.pc.DownRunning?
    case RemovalsDone => run.pc.Removing? && run.seen == map[]
    case Release => run.pc.Finished?
    case Crash(childDies) => !run.pc.Done? && (childDies || ChildRunning(run.pc))
  }

  /** When a step can be taken. Anything outside the protocol may change a resource of a
      project whose lock is free. */
  predicate Enabled(s: State, step: Step) {
    match step
    case ByRun(r, act) => if act.Launch? then r !in s.runs else r in s.runs && RunEnabled(s, s.runs[r], act)
    case OrphanRemove(id, action, rid) =>
      (id, action) in s.orphans && rid in s.world &&
      s.world[rid].project == id.project && !rid.kind.Volume?
    case Outside(rid, now) =>
      (rid in s.world ==> s.world[rid].project !in s.lock) &&
      (now.Some? ==> now.value.project !in s.lock)
  }

  /** The run after its own step. */
  function NextRun(s: State, run: Run, act: Act): Run
    requires RunEnabled(s, run, act)
  {
    match act
    case RejectOutside => run.(pc := Done(Failed))
    case Acquire =>
      run.(pc := if run.id.project in s.lock then Done(Failed) else Listing(First, 0), seen := map[])
    case ListNext =>
      run.(pc := run.pc.(done := run.pc.done + 1), seen := run.seen + OfKind(s.world, run.id.project, run.pc.done))
    case Check(ready) =>
      run.(pc := Verdict(run, ready),
           before := if run.pc.stage.First? then VolumesOf(run.seen) else run.before)
    case FailInside => run.(pc := Finished(Failed))
    case SpawnUp => run.(pc := UpRunning)
    case SpawnDown =>
      if NothingRunning(run.seen) then run.(pc := Listing(After, 0), seen := map[]) else run.(pc := DownRunning)
    case Create(_) => run
    case Remove(rid) => if run.pc.Removing? then run.(seen := run.seen - {rid}) else run
    case UpExit => run.(pc := Listing(After, 0), seen := map[])
    case DownExit(parseFailure) =>
      run.(pc := Listing(if parseFailure then Fallback else After, 0), seen := map[])
    case RemovalsDone => run.(pc := Listing(After, 0), seen := map[])
    case Release => run.(pc := Done(run.pc.outcome))
    case Crash(_) => run.(pc := Done(Crashed))
  }

  function NextLock(s: State, r: RunId, run: Run, act: Act): map<ProjectId, RunId> {
    var p := run.id.project;
    match act
    case Acquire => if p in s.lock then s.lock else s.lock[p := r]
    case Release => s.lock - {p}
    case Crash(_) => if InLock(run.pc) then s.lock - {p} else s.lock
    case _ => s.lock
  }

  function NextWorld(w: World, id: Identity, act: Act): World {
    match act
    case Create(rid) => w[rid := Resource(id.project, Some(id))]
    case Remove(rid) => w - {rid}
    case _ => w
  }

  function Next(s: State, step: Step): State
    requires Enabled(s, step)
  {
    match step
    case ByRun(r, act) =>
      if act.Launch? then s.(runs := s.runs[r := Run(act.id, act.action, Preflight, map[], {})])
      else
        var run := s.runs[r];
        State(NextWorld(s.world, run.id, act), NextLock(s, r, run, act), s.runs[r := NextRun(s, run, act)],
              if act.Crash? && !act.childDies then s.orphans + {(run.id, run.action)} else s.orphans)
    case OrphanRemove(_, _, rid) => s.(world := s.world - {rid})
    case Outside(rid, now) => s.(world := if now.Some? then s.world[rid := now.value] else s.world - {rid})
  }

  predicate DiesAlone(step: Step) {
    step.ByRun? && step.act.Crash? && !step.act.childDies
  }

  predicate Fires(s: State, steps: seq<Step>)
    decreases |steps|
  {
    steps == [] || (Enabled(s, steps[0]) && Fires(Next(s, steps[0]), steps[1..]))
  }

  function Execute(s: State, steps: seq<Step>): State
    requires Fires(s, steps)
    decreases |steps|
  {
    if steps == [] then s else Execute(Next(s, steps[0]), steps[1..])
  }

  /** Any world, nothing running. */
  predicate Init(s: State) {
    s.lock == map[] && s.runs == map[] && s.orphans == {}
  }

  /** No run dies leaving its child behind. */
  predicate ChildrenDie(steps: seq<Step>) {
    forall k :: 0 <= k < |steps| ==> !DiesAlone(steps[k])
  }

  // ------------------------------------------------------------------ the invariant

  /** What a run inside the lock may rely on: what it has listed is still what is there, and
      past its check every resource it was shown is its own. */
  predicate Sound(w: World, run: Run) {
    var p := run.id.project;
    (run.pc.Listing? ==>
       && run.pc.done <= Needed(run.action, run.pc.stage)
       && run.seen == Snapshot(w, p, run.pc.done)
       && (run.pc.stage.Fallback? ==> run.action.Stop?)
       && (!run.pc.stage.First? ==> AllOwned(run.id, Snapshot(w, p, Needed(run.action, First)))))
    && (run.pc.Authorized? ==>
          && run.seen == Snapshot(w, p, Needed(run.action, First))
          && AllOwned(run.id, run.seen))
    && (run.pc.UpRunning? ==> run.action.Start? && AllOwned(run.id, Snapshot(w, p, 1)))
    && (run.pc.DownRunning? ==> run.action.Stop? && AllOwned(run.id, Snapshot(w, p, 3)))
    && (run.pc.Removing? ==>
          && run.action.Stop?
          && AllOwned(run.id, Snapshot(w, p, 3))
          && (forall rid :: rid in run.seen ==> rid in Snapshot(w, p, 2)))
    && (run.pc == Finished(Passed) ==>
          && AllOwned(run.id, Snapshot(w, p, Needed(run.action, First)))
          && (run.action.Stop? ==> NothingRunning(Snapshot(w, p, 3))))
    && (run.action.Stop? && (InLock(run.pc) && !(run.pc.Listing? && run.pc.stage.First?)) && !(run.pc.Finished? && run.pc.outcome.Failed?) ==>
          run.before <= VolumesOf(Snapshot(w, p, 3)))
  }

  predicate Inv(s: State) {
    && s.orphans == {}
    && (forall r :: r in s.runs && InLock(s.runs[r].pc) ==>
          s.runs[r].id.project in s.lock && s.lock[s.runs[r].id.project] == r)
    && (forall r :: r in s.runs && InLock(s.runs[r].pc) ==> Sound(s.world, s.runs[r]))
  }

  // ------------------------------------------------------------------ every step keeps it

  /** A run's facts depend only on its own project's resources. */
  lemma SoundFrame(w: World, w': World, run: Run)
    requires Sound(w, run)
    requires forall n: nat :: Snapshot(w', run.id.project, n) == Snapshot(w, run.id.project, n)
    ensures Sound(w', run)
  {
  }

  /** A change of one resource is invisible to every project it belonged to neither before
      nor after. */
  lemma SnapshotFrame(w: World, w': World, rid: ResourceId, p: ProjectId)
    requires w - {rid} == w' - {rid}
    requires rid in w ==> w[rid].project != p
    requires rid in w' ==> w'[rid].project != p
    ensures forall n: nat :: Snapshot(w', p, n) == Snapshot(w, p, n)
  {
    forall n: nat
      ensures Snapshot(w', p, n) == Snapshot(w, p, n)
    {
      forall x
        ensures x in Snapshot(w', p, n) <==> x in Snapshot(w, p, n)
        ensures x in Snapshot(w, p, n) ==> Snapshot(w', p, n)[x] == Snapshot(w, p, n)[x]
      {
        if x != rid {
          assert x in w <==> x in w - {rid};
          assert x in w' <==> x in w' - {rid};
          if x in w { assert (w - {rid})[x] == w[x] && (w' - {rid})[x] == w'[x]; }
        }
      }
    }
  }

  /** Removing a resource shrinks every snapshot; a removed container or network leaves the
      volumes as they are. */
  lemma SnapshotAfterRemoval(w: World, rid: ResourceId, p: ProjectId)
    requires rid in w && !rid.kind.Volume?
    ensures forall n: nat :: Snapshot(w - {rid}, p, n) == Snapshot(w, p, n) - {rid}
    ensures VolumesOf(Snapshot(w - {rid}, p, 3)) == VolumesOf(Snapshot(w, p, 3))
  {
  }

  lemma CreateStepSound(s: State, r: RunId, rid: ResourceId)
    requires Inv(s) && Enabled(s, ByRun(r, Create(rid)))
    ensures Sound(Next(s, ByRun(r, Create(rid))).world, s.runs[r])
  {
    var run := s.runs[r];
    var w' := Next(s, ByRun(r, Create(rid))).world;
    forall x | x in Snapshot(w', run.id.project, 1)
      ensures Owned(run.id, w'[x])
    {
      if x != rid { assert x in Snapshot(s.world, run.id.project, 1); }
    }
  }

  lemma RemoveStepSound(s: State, r: RunId, rid: ResourceId)
    requires Inv(s) && Enabled(s, ByRun(r, Remove(rid)))
    ensures Sound(Next(s, ByRun(r, Remove(rid))).world, Next(s, ByRun(r, Remove(rid))).runs[r])
  {
    var run := s.runs[r];
    var p := run.id.project;
    if run.pc.Removing? { assert rid in Snapshot(s.world, p, 2); }
    SnapshotAfterRemoval(s.world, rid, p);
  }

  lemma ListStepSound(s: State, r: RunId)
    requires Inv(s) && Enabled(s, ByRun(r, ListNext))
    ensures Sound(s.world, Next(s, ByRun(r, ListNext)).runs[r])
  {
    var run := s.runs[r];
    var p := run.id.project;
    assert Snapshot(s.world, p, run.pc.done) + OfKind(s.world, p, run.pc.done) == Snapshot(s.world, p, run.pc.done + 1);
  }

  lemma CheckStepSound(s: State, r: RunId, ready: bool)
    requires Inv(s) && Enabled(s, ByRun(r, Check(ready)))
    ensures Sound(s.world, Next(s, ByRun(r, Check(ready))).runs[r])
  {
    var run := s.runs[r];
    var p := run.id.project;
    if run.pc.stage.Fallback? {
      assert forall rid :: rid in run.seen ==> rid in Snapshot(s.world, p, 2);
    }
  }

  /** The acting run's own facts survive its step. */
  lemma OwnStepSound(s: State, r: RunId, act: Act)
    requires Inv(s) && Enabled(s, ByRun(r, act)) && !act.Launch?
    ensures InLock(Next(s, ByRun(r, act)).runs[r].pc) ==> Sound(Next(s, ByRun(r, act)).world, Next(s, ByRun(r, act)).runs[r])
  {
    assert Snapshot(s.world, s.runs[r].id.project, 0) == map[];
    match act {
      case Create(rid) => CreateStepSound(s, r, rid);
      case Remove(rid) => RemoveStepSound(s, r, rid);
      case ListNext => ListStepSound(s, r);
      case Check(ready) => CheckStepSound(s, r, ready);
      case _ =>
    }
  }

  /** A step leaves alone every project whose lock some other run holds. */
  lemma OthersUndisturbed(s: State, step: Step, q: RunId)
    requires Inv(s) && Enabled(s, step)
    requires q in s.runs && InLock(s.runs[q].pc) && !(step.ByRun? && step.r == q)
    ensures Sound(Next(s, step).world, s.runs[q])
    ensures s.runs[q].id.project in Next(s, step).lock && Next(s, step).lock[s.runs[q].id.project] == q
  {
    var s' := Next(s, step);
    var p := s.runs[q].id.project;
    if step.ByRun? && step.act.Create? {
      SnapshotFrame(s.world, s'.world, step.act.rid, p);
    } else if step.ByRun? && step.act.Remove? {
      SnapshotFrame(s.world, s'.world, step.act.rid, p);
    } else if step.Outside? {
      SnapshotFrame(s.world, s'.world, step.rid, p);
    }
    SoundFrame(s.world, s'.world, s.runs[q]);
  }

  lemma NextKeepsInv(s: State, step: Step)
    requires Inv(s) && Enabled(s, step)
    requires !DiesAlone(step)
    ensures Inv(Next(s, step))
  {
    var s' := Next(s, step);
    forall q | q in s'.runs && InLock(s'.runs[q].pc)
      ensures s'.runs[q].id.project in s'.lock && s'.lock[s'.runs[q].id.project] == q
      ensures Sound(s'.world, s'.runs[q])
    {
      if step.ByRun? && step.r == q {
        if !step.act.Launch? { OwnStepSound(s, q, step.act); }
      } else {
        OthersUndisturbed(s, step, q);
      }
    }
  }

  // ------------------------------------------------------------------ safety over whole runs

  /** Every interleaving in which a dying run takes its child with it keeps the invariant. */
  lemma {:induction false} EveryReachableStateIsSound(s: State, steps: seq<Step>)
    requires Inv(s) && Fires(s, steps) && ChildrenDie(steps)
    ensures Inv(Execute(s, steps))
    decreases |steps|
  {
    if steps != [] {
      assert !DiesAlone(steps[0]);
      NextKeepsInv(s, steps[0]);
      EveryReachableStateIsSound(Next(s, steps[0]), steps[1..]);
    }
  }

  /** Reached from any world with nothing running. */
  ghost predicate Reachable(s: State) {
    Reaches(s, true)
  }

  /** The same, with (`dies`) or without the assumption that children die with their run. */
  ghost predicate Reaches(s: State, dies: bool) {
    exists s0, steps :: Init(s0) && Fires(s0, steps) && (dies ==> ChildrenDie(steps)) && Execute(s0, steps) == s
  }

  lemma ReachableIsSound(s: State)
    requires Reachable(s)
    ensures Inv(s)
  {
    var s0, steps :| Init(s0) && Fires(s0, steps) && ChildrenDie(steps) && Execute(s0, steps) == s;
    EveryReachableStateIsSound(s0, steps);
  }

  /** At most one run per project id is inside the lock, colliding workspaces included. */
  lemma MutualExclusion(s: State, q: RunId, r: RunId)
    requires Reachable(s)
    requires q in s.runs && InLock(s.runs[q].pc) && r in s.runs && InLock(s.runs[r].pc)
    requires s.runs[q].id.project == s.runs[r].id.project
    ensures q == r
  {
    ReachableIsSound(s);
  }

  /** Whatever a run removes: it holds its project's lock, the resource belongs to its
      project and is no volume; a container carries the run's full fingerprint, and a stop
      removes nothing at all that carries another one. Whatever it creates carries its own. */
  lemma RunsTouchOnlyTheirOwn(s: State, r: RunId, act: Act, rid: ResourceId)
    requires Reachable(s) && Enabled(s, ByRun(r, act)) && !act.Launch?
    ensures var run := s.runs[r];
            var s' := Next(s, ByRun(r, act));
            && (rid in s.world && (rid !in s'.world || s'.world[rid] != s.world[rid]) ==>
                  && run.id.project in s.lock && s.lock[run.id.project] == r
                  && s.world[rid].project == run.id.project
                  && !rid.kind.Volume?
                  && (rid.kind.Container? || run.action.Stop? ==> Owned(run.id, s.world[rid])))
            && (rid in s'.world && rid !in s.world ==>
                  && run.id.project in s.lock && s.lock[run.id.project] == r
                  && Owned(run.id, s'.world[rid]))
  {
    ReachableIsSound(s);
    if act == Remove(rid) {
      var run := s.runs[r];
      if run.pc.Removing? { assert rid in Snapshot(s.world, run.id.project, 2); }
      assert rid in Snapshot(s.world, run.id.project, 3);
      if run.pc.UpRunning? && rid.kind.Container? { assert rid in Snapshot(s.world, run.id.project, 1); }
    }
  }

  /** All containers of one project id carry one fingerprint. */
  predicate OneFingerprint(w: World) {
    forall a, b :: a in w && b in w && a.kind.Container? && b.kind.Container? && w[a].project == w[b].project ==>
      w[a].owner == w[b].owner
  }

  predicate NothingOutside(steps: seq<Step>) {
    forall k :: 0 <= k < |steps| ==> !steps[k].Outside?
  }

  lemma {:induction false} ContainersNeverMix(s: State, steps: seq<Step>)
    requires Inv(s) && OneFingerprint(s.world)
    requires Fires(s, steps) && ChildrenDie(steps) && NothingOutside(steps)
    ensures OneFingerprint(Execute(s, steps).world)
    decreases |steps|
  {
    if steps != [] {
      var step := steps[0];
      assert !DiesAlone(step);
      NextKeepsInv(s, step);
      if step.ByRun? && step.act.Create? {
        var p := s.runs[step.r].id.project;
        assert forall x :: x in s.world && x.kind.Container? && s.world[x].project == p ==> x in Snapshot(s.world, p, 1);
      }
      ContainersNeverMix(Next(s, step), steps[1..]);
    }
  }

  /** No interleaving of starts, stops, fallbacks, crashes and even orphaned children ever
      removes or relabels a volume. */
  lemma {:induction false} VolumesSurvive(s: State, steps: seq<Step>, v: ResourceId)
    requires Fires(s, steps) && NothingOutside(steps)
    requires v in s.world && v.kind.Volume?
    requires ListsInOrder(s)
    ensures v in Execute(s, steps).world && Execute(s, steps).world[v] == s.world[v]
    decreases |steps|
  {
    if steps != [] {
      assert !steps[0].Outside?;
      ListsInOrderStep(s, steps[0]);
      VolumesSurvive(Next(s, steps[0]), steps[1..], v);
    }
  }

  /** An inspection lists containers, then networks, then volumes; so what a fallback has
      listed are containers and networks. */
  predicate RunListsInOrder(run: Run) {
    && (run.pc.Listing? ==> forall rid :: rid in run.seen ==> KindIndex(rid.kind) < run.pc.done)
    && (run.pc.Listing? && run.pc.stage.Fallback? ==> run.pc.done <= 2)
    && (run.pc.Removing? ==> forall rid :: rid in run.seen ==> !rid.kind.Volume?)
  }

  predicate ListsInOrder(s: State) {
    forall r :: r in s.runs ==> RunListsInOrder(s.runs[r])
  }

  lemma NextRunListsInOrder(s: State, run: Run, act: Act)
    requires RunListsInOrder(run) && RunEnabled(s, run, act)
    ensures RunListsInOrder(NextRun(s, run, act))
  {
  }

  lemma ListsInOrderStep(s: State, step: Step)
    requires ListsInOrder(s) && Enabled(s, step)
    ensures ListsInOrder(Next(s, step))
  {
    if step.ByRun? && !step.act.Launch? { NextRunListsInOrder(s, s.runs[step.r], step.act); }
  }

  /** A stop that passed has left no container and no network of its project, and every
      volume it saw at the start; this holds until its lock is released. */
  lemma PassedStopLeavesNothing(s: State, r: RunId)
    requires Reachable(s)
    requires r in s.runs && s.runs[r].action.Stop? && s.runs[r].pc == Finished(Passed)
    ensures forall rid :: rid in s.world && s.world[rid].project == s.runs[r].id.project ==>
              rid.kind.Volume? && Owned(s.runs[r].id, s.world[rid])
    ensures forall v :: v in s.runs[r].before ==> v in s.world
  {
    ReachableIsSound(s);
    var p := s.runs[r].id.project;
    forall rid | rid in s.world && s.world[rid].project == p
      ensures rid.kind.Volume? && Owned(s.runs[r].id, s.world[rid])
    {
      assert rid in Snapshot(s.world, p, 3);
    }
    forall v | v in s.runs[r].before
      ensures v in s.world
    {
      assert v in VolumesOf(Snapshot(s.world, p, 3));
    }
  }

  /** The in-lock check decides by what is really there: a stop may mutate if and only if
      every container, network and volume of the project is its own; a start asks that of
      the containers alone. */
  lemma FirstCheckIsExact(s: State, r: RunId, ready: bool)
    requires Reachable(s) && Enabled(s, ByRun(r, Check(ready))) && s.runs[r].pc.stage.First?
    ensures var run := s.runs[r];
            Next(s, ByRun(r, Check(ready))).runs[r].pc.Authorized? <==>
            forall rid :: rid in s.world && s.world[rid].project == run.id.project && (run.action.Stop? || rid.kind.Container?) ==>
              Owned(run.id, s.world[rid])
  {
    ReachableIsSound(s);
    var run := s.runs[r];
    var shown := Snapshot(s.world, run.id.project, Needed(run.action, First));
    assert run.seen == shown;
    assert forall rid :: rid in shown <==> rid in s.world && s.world[rid].project == run.id.project && (run.action.Stop? || rid.kind.Container?);
    assert forall rid :: rid in shown ==> shown[rid] == s.world[rid];
  }

  /** The last check of a run decides by what is really there: a start passes if and only if every
      container is its own and all are ready; a stop if and only if everything is its own, nothing
      but volumes is left, and no volume shown at first is missing. */
  lemma LastCheckIsExact(s: State, r: RunId, ready: bool)
    requires Reachable(s) && Enabled(s, ByRun(r, Check(ready))) && s.runs[r].pc.stage.After?
    ensures var run := s.runs[r];
            Next(s, ByRun(r, Check(ready))).runs[r].pc == Finished(Passed) <==>
            && (forall rid :: rid in s.world && s.world[rid].project == run.id.project && (run.action.Stop? || rid.kind.Container?) ==>
                  Owned(run.id, s.world[rid]))
            && (run.action.Start? ==> ready)
            && (run.action.Stop? ==>
                  && (forall rid :: rid in s.world && s.world[rid].project == run.id.project ==> rid.kind.Volume?)
                  && (forall v :: v in run.before ==> v in s.world && s.world[v].project == run.id.project))
    ensures Next(s, ByRun(r, Check(ready))).runs[r].pc.Finished? && Next(s, ByRun(r, Check(ready))).world == s.world
  {
    ReachableIsSound(s);
    var run := s.runs[r];
    var shown := Snapshot(s.world, run.id.project, Needed(run.action, After));
    assert run.seen == shown;
    assert forall rid :: rid in shown <==> rid in s.world && s.world[rid].project == run.id.project && (run.action.Stop? || rid.kind.Container?);
    assert forall rid :: rid in shown ==> shown[rid] == s.world[rid];
  }

  // ------------------------------------------------------------------ two workspaces, one short id

  /** The project holds a volume that workspace `id` does not own. */
  predicate ForeignVolume(s: State, id: Identity) {
    exists v :: v in s.world && v.kind.Volume? && s.world[v].project == id.project && s.world[v].owner != Some(id)
  }

  /** Stops of workspace `id` that have passed, or may still mutate. */
  predicate StopUnderway(run: Run, id: Identity) {
    run.id == id && run.action.Stop? &&
    (InLock(run.pc) && !(run.pc.Listing? && run.pc.stage.First?) && run.pc != Finished(Failed) && run.pc != Finished(Crashed))
  }

  lemma StopUnderwayOwnsAll(w: World, run: Run)
    requires Sound(w, run) && StopUnderway(run, run.id)
    ensures AllOwned(run.id, Snapshot(w, run.id.project, 3))
  {
    hide AllOwned, Snapshot;
    match run.pc {
      case Listing(_, _) => assert AllOwned(run.id, Snapshot(w, run.id.project, Needed(Stop, First)));
      case Authorized => assert run.seen == Snapshot(w, run.id.project, Needed(Stop, First));
      case _ =>
    }
  }

  lemma ForeignVolumeBlocks(s: State, id: Identity, r: RunId)
    requires Inv(s) && ForeignVolume(s, id) && r in s.runs
    ensures !StopUnderway(s.runs[r], id)
  {
    var v :| v in s.world && v.kind.Volume? && s.world[v].project == id.project && s.world[v].owner != Some(id);
    var shown := Snapshot(s.world, id.project, 3);
    assert v in shown && shown[v] == s.world[v];
    assert !AllOwned(id, shown) by { assert !Owned(id, shown[v]); }
    hide Sound, Snapshot, AllOwned;
    if StopUnderway(s.runs[r], id) { StopUnderwayOwnsAll(s.world, s.runs[r]); }
  }

  lemma ForeignVolumeStays(s: State, step: Step, id: Identity)
    requires ListsInOrder(s) && Enabled(s, step) && !step.Outside? && ForeignVolume(s, id)
    ensures ForeignVolume(Next(s, step), id)
  {
    var v :| v in s.world && v.kind.Volume? && s.world[v].project == id.project && s.world[v].owner != Some(id);
    assert v in Next(s, step).world && Next(s, step).world[v] == s.world[v];
  }

  /** A run keeps its identity, and passes only from inside its lock. */
  lemma RunStep(s: State, step: Step, r: RunId)
    requires Enabled(s, step)
    ensures r in s.runs ==> r in Next(s, step).runs && Next(s, step).runs[r].id == s.runs[r].id && Next(s, step).runs[r].action == s.runs[r].action
    ensures r in s.runs && Next(s, step).runs[r].pc == Done(Passed) ==> s.runs[r].pc == Done(Passed) || s.runs[r].pc == Finished(Passed)
    ensures r in Next(s, step).runs && r !in s.runs ==> Next(s, step).runs[r].pc == Preflight
  {
  }

  /** Once a volume of another workspace lies in the project, no stop of workspace `id` ever
      gets past its ownership check again, in any future: a start checks containers only, so
      a workspace that collides on the short id can start, but never stop. */
  lemma {:induction false} ForeignVolumeBlocksForever(s: State, steps: seq<Step>, id: Identity, r: RunId)
    requires Inv(s) && ListsInOrder(s) && ForeignVolume(s, id)
    requires Fires(s, steps) && ChildrenDie(steps) && NothingOutside(steps)
    requires r in Execute(s, steps).runs
    ensures !StopUnderway(Execute(s, steps).runs[r], id)
    ensures Execute(s, steps).runs[r].id == id && Execute(s, steps).runs[r].action.Stop? && Execute(s, steps).runs[r].pc == Done(Passed) ==>
              r in s.runs && s.runs[r].pc == Done(Passed)
    decreases |steps|
  {
    if r in s.runs { ForeignVolumeBlocks(s, id, r); }
    if steps != [] {
      var step := steps[0];
      assert !DiesAlone(step);
      assert !step.Outside?;
      NextKeepsInv(s, step);
      ListsInOrderStep(s, step);
      ForeignVolumeStays(s, step, id);
      RunStep(s, step, r);
      if r in Next(s, step).runs { IdentityStays(Next(s, step), steps[1..], r); }
      ForeignVolumeBlocksForever(Next(s, step), steps[1..], id, r);
    }
  }

  lemma {:induction false} IdentityStays(s: State, steps: seq<Step>, r: RunId)
    requires Fires(s, steps) && r in s.runs
    ensures r in Execute(s, steps).runs
    ensures Execute(s, steps).runs[r].id == s.runs[r].id && Execute(s, steps).runs[r].action == s.runs[r].action
    decreases |steps|
  {
    if steps != [] {
      RunStep(s, steps[0], r);
      IdentityStays(Next(s, steps[0]), steps[1..], r);
    }
  }

  // ------------------------------------------------------------------ reaching particular states

  /** `s` lies ahead of `o`, with nothing from outside in between. */
  ghost predicate From(o: State, s: State, dies: bool) {
    exists steps :: Fires(o, steps) && (dies ==> ChildrenDie(steps)) && NothingOutside(steps) && Execute(o, steps) == s
  }

  lemma {:induction false} ExecuteOneMore(s: State, steps: seq<Step>, step: Step)
    requires Fires(s, steps) && Enabled(Execute(s, steps), step)
    ensures Fires(s, steps + [step]) && Execute(s, steps + [step]) == Next(Execute(s, steps), step)
    decreases |steps|
  {
    if steps == [] {
      assert [step][1..] == [];
      assert steps + [step] == [step];
    } else {
      ExecuteOneMore(Next(s, steps[0]), steps[1..], step);
      assert (steps + [step])[1..] == steps[1..] + [step];
    }
  }

  lemma Take(o: State, s: State, step: Step, dies: bool) returns (s': State)
    requires From(o, s, dies) && Enabled(s, step) && !step.Outside? && (dies ==> !DiesAlone(step))
    ensures s' == Next(s, step) && From(o, s', dies)
  {
    s' := Next(s, step);
    var steps :| Fires(o, steps) && (dies ==> ChildrenDie(steps)) && NothingOutside(steps) && Execute(o, steps) == s;
    ExecuteOneMore(o, steps, step);
    assert NothingOutside(steps + [step]) && (dies ==> ChildrenDie(steps + [step]));
  }

  lemma Begin(o: State, s: State, dies: bool, r: RunId, id: Identity, action: Action) returns (s': State)
    requires From(o, s, dies) && r !in s.runs && id.project !in s.lock
    ensures From(o, s', dies)
    ensures s' == State(s.world, s.lock[id.project := r], s.runs[r := Run(id, action, Listing(First, 0), map[], {})], s.orphans)
  {
    hide From;
    s' := Take(o, s, ByRun(r, Launch(id, action)), dies);
    s' := Take(o, s', ByRun(r, Acquire), dies);
    assert s.runs[r := Run(id, action, Preflight, map[], {})][r := s'.runs[r]] == s.runs[r := s'.runs[r]];
  }

  lemma ListOne(o: State, s: State, dies: bool, r: RunId) returns (s': State)
    requires From(o, s, dies) && r in s.runs && s.runs[r].pc.Listing? && s.runs[r].pc.done < Needed(s.runs[r].action, s.runs[r].pc.stage)
    requires s.runs[r].seen == Snapshot(s.world, s.runs[r].id.project, s.runs[r].pc.done)
    ensures From(o, s', dies)
    ensures var run := s.runs[r];
            s' == s.(runs := s.runs[r := run.(pc := Listing(run.pc.stage, run.pc.done + 1), seen := Snapshot(s.world, run.id.project, run.pc.done + 1))])
  {
    hide From;
    var run := s.runs[r];
    s' := Take(o, s, ByRun(r, ListNext), dies);
    assert Snapshot(s.world, run.id.project, run.pc.done) + OfKind(s.world, run.id.project, run.pc.done) == Snapshot(s.world, run.id.project, run.pc.done + 1);
  }

  lemma ListAll(o: State, s: State, dies: bool, r: RunId) returns (s': State)
    requires From(o, s, dies) && r in s.runs && s.runs[r].pc.Listing? && s.runs[r].pc.stage.First?
    requires s.runs[r].pc.done <= Needed(s.runs[r].action, First)
    requires s.runs[r].seen == Snapshot(s.world, s.runs[r].id.project, s.runs[r].pc.done)
    ensures From(o, s', dies)
    ensures var n := Needed(s.runs[r].action, First);
            s' == s.(runs := s.runs[r := s.runs[r].(pc := Listing(First, n), seen := Snapshot(s.world, s.runs[r].id.project, n))])
    decreases Needed(s.runs[r].action, First) - s.runs[r].pc.done
  {
    hide From;
    if s.runs[r].pc.done == Needed(s.runs[r].action, First) {
      s' := s;
      assert s.runs[r := s.runs[r]] == s.runs;
    } else {
      var s1 := ListOne(o, s, dies, r);
      s' := ListAll(o, s1, dies, r);
      assert s1.runs[r := s'.runs[r]] == s.runs[r := s'.runs[r]];
    }
  }

  lemma PassFirstCheck(o: State, s: State, dies: bool, r: RunId) returns (s': State)
    requires From(o, s, dies) && r in s.runs && s.runs[r].pc == Listing(First, Needed(s.runs[r].action, First))
    requires AllOwned(s.runs[r].id, s.runs[r].seen)
    ensures From(o, s', dies)
    ensures s' == s.(runs := s.runs[r := s.runs[r].(pc := Authorized, before := VolumesOf(s.runs[r].seen))])
  {
    hide From;
    s' := Take(o, s, ByRun(r, Check(true)), dies);
  }

  lemma Spawn(o: State, s: State, dies: bool, r: RunId) returns (s': State)
    requires From(o, s, dies) && r in s.runs && s.runs[r].pc.Authorized?
    requires s.runs[r].action.Stop? ==> !NothingRunning(s.runs[r].seen)
    ensures From(o, s', dies)
    ensures s' == s.(runs := s.runs[r := s.runs[r].(pc := if s.runs[r].action.Start? then UpRunning else DownRunning)])
  {
    s' := Take(o, s, ByRun(r, if s.runs[r].action.Start? then SpawnUp else SpawnDown), dies);
  }

  /** Leave the lock after the child has exited. */
  lemma Leave(o: State, s: State, dies: bool, r: RunId) returns (s': State)
    requires From(o, s, dies) && r in s.runs && ChildRunning(s.runs[r].pc)
    ensures From(o, s', dies)
    ensures s'.world == s.world && s'.orphans == s.orphans && s'.runs.Keys == s.runs.Keys
    ensures s'.lock == s.lock - {s.runs[r].id.project}
  {
    hide From;
    var s1 := Take(o, s, ByRun(r, if s.runs[r].pc.UpRunning? then UpExit else DownExit(false)), dies);
    assert s1.runs[r].pc.Listing? && s1.runs[r].id == s.runs[r].id && s1.lock == s.lock;
    var s2 := Take(o, s1, ByRun(r, FailInside), dies);
    assert s2.runs[r].pc == Finished(Failed) && s2.runs[r].id == s.runs[r].id && s2.lock == s.lock;
    s' := Take(o, s2, ByRun(r, Release), dies);
  }

  lemma CreateOne(o: State, s: State, dies: bool, r: RunId, rid: ResourceId) returns (s': State)
    requires From(o, s, dies) && r in s.runs && s.runs[r].pc.UpRunning? && rid !in s.world
    ensures From(o, s', dies)
    ensures s' == s.(world := s.world[rid := Resource(s.runs[r].id.project, Some(s.runs[r].id))])
  {
    hide From;
    s' := Take(o, s, ByRun(r, Create(rid)), dies);
    assert s.runs[r := s.runs[r]] == s.runs;
  }

  /** A start whose project holds no foreign container gets to run `compose up`. */
  lemma StartUpTo(o: State, s: State, dies: bool, r: RunId, id: Identity) returns (s': State)
    requires From(o, s, dies) && r !in s.runs && id.project !in s.lock
    requires AllOwned(id, Snapshot(s.world, id.project, 1))
    ensures From(o, s', dies)
    ensures s'.world == s.world && s'.orphans == s.orphans && s'.lock == s.lock[id.project := r]
    ensures s'.runs.Keys == s.runs.Keys + {r}
    ensures s'.runs[r].id == id && s'.runs[r].action == Start && s'.runs[r].pc == UpRunning
  {
    hide From;
    s' := Begin(o, s, dies, r, id, Start);
    assert Snapshot(s.world, id.project, 0) == map[];
    s' := ListAll(o, s', dies, r);
    s' := PassFirstCheck(o, s', dies, r);
    s' := Spawn(o, s', dies, r);
  }

  /** A stop of a project that is wholly its own gets to run `compose down`. */
  lemma StopUpTo(o: State, s: State, dies: bool, r: RunId, id: Identity, c: ResourceId) returns (s': State)
    requires From(o, s, dies) && r !in s.runs && id.project !in s.lock
    requires AllOwned(id, Snapshot(s.world, id.project, 3))
    requires c in s.world && c.kind.Container? && s.world[c].project == id.project
    ensures From(o, s', dies)
    ensures s'.world == s.world && s'.orphans == s.orphans && s'.lock == s.lock[id.project := r]
    ensures s'.runs.Keys == s.runs.Keys + {r}
    ensures s'.runs[r].id == id && s'.runs[r].action == Stop && s'.runs[r].pc == DownRunning
  {
    hide From;
    s' := Begin(o, s, dies, r, id, Stop);
    assert Snapshot(s.world, id.project, 0) == map[];
    s' := ListAll(o, s', dies, r);
    s' := PassFirstCheck(o, s', dies, r);
    assert c in s'.runs[r].seen;
    s' := Spawn(o, s', dies, r);
  }

  /** A start that creates a container and, if missing, a volume, and then leaves. */
  lemma StartCanRun(o: State, s: State, dies: bool, r: RunId, id: Identity, c: ResourceId, v: ResourceId) returns (s': State)
    requires From(o, s, dies) && r !in s.runs && id.project !in s.lock
    requires AllOwned(id, Snapshot(s.world, id.project, 1))
    requires c !in s.world && c.kind.Container? && v.kind.Volume?
    ensures From(o, s', dies)
    ensures s'.lock == s.lock && s'.orphans == s.orphans
    ensures s'.runs.Keys == s.runs.Keys + {r}
    ensures s'.world == (if v in s.world then s.world else s.world[v := Resource(id.project, Some(id))])[c := Resource(id.project, Some(id))]
  {
    hide From, AllOwned, Snapshot;
    s' := StartUpTo(o, s, dies, r, id);
    if v !in s'.world { s' := CreateOne(o, s', dies, r, v); }
    s' := CreateOne(o, s', dies, r, c);
    s' := Leave(o, s', dies, r);
    assert s'.lock == s.lock;
  }

  const EMPTY := State(map[], map[], map[], {})

  lemma EmptyBegins(dies: bool)
    ensures Init(EMPTY) && From(EMPTY, EMPTY, dies)
  {
    Stays(EMPTY, dies);
  }

  lemma Stays(s: State, dies: bool)
    ensures From(s, s, dies)
  {
    assert Fires(s, []) && Execute(s, []) == s && ChildrenDie([]) && NothingOutside([]);
  }

  lemma ReachedFrom(o: State, s: State, dies: bool)
    requires Init(o) && From(o, s, dies)
    ensures Reaches(s, dies)
  {
  }

  /** Two workspaces with one short id: A starts and stops, which keeps its volume; B then
      starts on top of it, adopting the volume. From there no stop of B ever gets past its
      check or passes, whatever happens next. */
  lemma CollisionWedgesTheSecondWorkspace(a: Identity, b: Identity, c: ResourceId, d: ResourceId, v: ResourceId) returns (s: State)
    requires a.project == b.project && a != b
    requires c.kind.Container? && d.kind.Container? && v.kind.Volume?
    ensures Reachable(s) && d in s.world && Owned(b, s.world[d]) && v in s.world && Owned(a, s.world[v])
    ensures forall steps, r :: Fires(s, steps) && ChildrenDie(steps) && NothingOutside(steps) && r in Execute(s, steps).runs ==>
              !StopUnderway(Execute(s, steps).runs[r], b)
  {
    hide From;
    var o := EMPTY;
    EmptyBegins(true);
    s := StartedAndStopping(true, a, c, v);
    s := RemoveOne(o, s, true, 1, c);
    s := Leave(o, s, true, 1);
    assert s.world == map[v := Resource(a.project, Some(a))];
    assert Snapshot(s.world, b.project, 1) == map[];
    s := StartCanRun(o, s, true, 2, b, d, v);
    ReachedFrom(o, s, true);
    ReachableIsSound(s);
    assert ForeignVolume(s, b);
    ReachableListsInOrder(s);
    forall steps, r | Fires(s, steps) && ChildrenDie(steps) && NothingOutside(steps) && r in Execute(s, steps).runs
      ensures !StopUnderway(Execute(s, steps).runs[r], b)
    {
      ForeignVolumeBlocksForever(s, steps, b, r);
    }
  }

  lemma RemoveOne(o: State, s: State, dies: bool, r: RunId, rid: ResourceId) returns (s': State)
    requires From(o, s, dies) && r in s.runs && s.runs[r].pc.DownRunning?
    requires rid in s.world && s.world[rid].project == s.runs[r].id.project && !rid.kind.Volume?
    ensures From(o, s', dies)
    ensures s' == s.(world := s.world - {rid})
  {
    s' := Take(o, s, ByRun(r, Remove(rid)), dies);
    assert s.runs[r := s.runs[r]] == s.runs;
  }

  /** Workspace `a` has started from nothing and its stop is running `compose down`. */
  lemma StartedAndStopping(dies: bool, a: Identity, c: ResourceId, v: ResourceId) returns (s: State)
    requires c.kind.Container? && v.kind.Volume?
    ensures From(EMPTY, s, dies) && s.world == map[v := Resource(a.project, Some(a)), c := Resource(a.project, Some(a))]
    ensures s.lock == map[a.project := 1] && s.orphans == {} && s.runs.Keys == {0, 1}
    ensures s.runs[1].id == a && s.runs[1].action == Stop && s.runs[1].pc == DownRunning
  {
    hide From;
    var o := EMPTY;
    s := EMPTY;
    EmptyBegins(dies);
    assert AllOwned(a, Snapshot(s.world, a.project, 1));
    s := StartCanRun(o, s, dies, 0, a, c, v);
    assert s.world == map[v := Resource(a.project, Some(a)), c := Resource(a.project, Some(a))];
    assert AllOwned(a, Snapshot(s.world, a.project, 3));
    s := StopUpTo(o, s, dies, 1, a, c);
  }

  lemma OrphanStep(o: State, s: State, id: Identity, action: Action, rid: ResourceId) returns (s': State)
    requires From(o, s, false) && Enabled(s, OrphanRemove(id, action, rid))
    ensures From(o, s', false) && s' == s.(world := s.world - {rid})
  {
    s' := Take(o, s, OrphanRemove(id, action, rid), false);
  }

  lemma DieAlone(o: State, s: State, r: RunId) returns (s': State)
    requires From(o, s, false) && r in s.runs && ChildRunning(s.runs[r].pc)
    ensures From(o, s', false)
    ensures s'.world == s.world && s'.runs.Keys == s.runs.Keys && s'.lock == s.lock - {s.runs[r].id.project}
    ensures s'.orphans == s.orphans + {(s.runs[r].id, s.runs[r].action)}
  {
    s' := Take(o, s, ByRun(r, Crash(false)), false);
  }

  lemma {:induction false} ListsStayInOrder(s: State, steps: seq<Step>)
    requires ListsInOrder(s) && Fires(s, steps)
    ensures ListsInOrder(Execute(s, steps))
    decreases |steps|
  {
    if steps != [] {
      ListsInOrderStep(s, steps[0]);
      ListsStayInOrder(Next(s, steps[0]), steps[1..]);
    }
  }

  lemma ReachableListsInOrder(s: State)
    requires Reachable(s)
    ensures ListsInOrder(s)
  {
    var s0, steps :| Init(s0) && Fires(s0, steps) && ChildrenDie(steps) && Execute(s0, steps) == s;
    ListsStayInOrder(s0, steps);
  }

  /** The assumption about children is needed. An interrupted stop releases the lock while
      its `compose down` child, started in its own session, lives on; that child then removes
      a container of the workspace that holds the lock. */
  lemma OrphanedChildBreaksSafety(a: Identity, b: Identity, c: ResourceId, d: ResourceId, v: ResourceId) returns (s: State)
    requires a.project == b.project && a != b
    requires c.kind.Container? && d.kind.Container? && v.kind.Volume?
    ensures Reaches(s, false) && Enabled(s, OrphanRemove(a, Stop, d))
    ensures d in s.world && Owned(b, s.world[d]) && d !in Next(s, OrphanRemove(a, Stop, d)).world
    ensures a.project in s.lock && s.lock[a.project] in s.runs && s.runs[s.lock[a.project]].id == b
  {
    hide From;
    var o := EMPTY;
    EmptyBegins(false);
    s := StartedAndStopping(false, a, c, v);
    s := DieAlone(o, s, 1);
    assert (a, Stop) in s.orphans;
    s := OrphanStep(o, s, a, Stop, c);
    assert Snapshot(s.world, b.project, 1) == map[];
    s := StartUpTo(o, s, false, 2, b);
    s := CreateOne(o, s, false, 2, d);
    ReachedFrom(o, s, false);
  }

  // ------------------------------------------------------------------ exactly when harm is possible

  /** A lock entry and a run inside the lock are the same thing. */
  predicate Locks(s: State) {
    && (forall p :: p in s.lock ==> s.lock[p] in s.runs && InLock(s.runs[s.lock[p]].pc) && s.runs[s.lock[p]].id.project == p)
    && (forall r :: r in s.runs && InLock(s.runs[r].pc) ==> s.runs[r].id.project in s.lock && s.lock[s.runs[r].id.project] == r)
  }

  /** Only taking the lock brings a run in, only release and a crash take it out. */
  lemma InAndOut(s: State, run: Run, act: Act)
    requires RunEnabled(s, run, act)
    ensures NextRun(s, run, act).id == run.id
    ensures InLock(NextRun(s, run, act).pc) <==>
            (InLock(run.pc) && !act.Release? && !act.Crash?) || (act.Acquire? && run.id.project !in s.lock)
    ensures act.Acquire? ==> !InLock(run.pc)
    ensures act.Release? ==> InLock(run.pc)
  {
  }

  lemma LocksStep(s: State, step: Step)
    requires Locks(s) && Enabled(s, step)
    ensures Locks(Next(s, step))
  {
    assert !InLock(Preflight) by { NotYetInside(); }
    if step.ByRun? && !step.act.Launch? {
      OwnLockStep(s, step.r, step.act);
    } else {
      hide RunEnabled, NextRun, NextLock, NextWorld, InLock;
    }
  }

  lemma OwnLockStep(s: State, r: RunId, act: Act)
    requires Locks(s) && Enabled(s, ByRun(r, act)) && !act.Launch?
    ensures Locks(Next(s, ByRun(r, act)))
  {
    var run := s.runs[r];
    InAndOut(s, run, act);
    var next, lock := NextRun(s, run, act), NextLock(s, r, run, act);
    assert Next(s, ByRun(r, act)).lock == lock && Next(s, ByRun(r, act)).runs == s.runs[r := next];
    assert forall p :: p != run.id.project ==> (p in lock <==> p in s.lock) && (p in s.lock ==> lock[p] == s.lock[p]);
    hide RunEnabled, NextRun, NextWorld, InLock, Next, Enabled;
  }

  lemma NotYetInside()
    ensures !InLock(Preflight)
  {
  }

  lemma {:induction false} LocksStay(s: State, steps: seq<Step>)
    requires Locks(s) && Fires(s, steps)
    ensures Locks(Execute(s, steps))
    decreases |steps|
  {
    if steps != [] {
      LocksStep(s, steps[0]);
      LocksStay(Next(s, steps[0]), steps[1..]);
    }
  }

  /** No orphan is ever forgotten; without one, no run has died alone. */
  lemma {:induction false} OrphansRemain(s: State, steps: seq<Step>)
    requires Fires(s, steps)
    ensures s.orphans <= Execute(s, steps).orphans
    ensures Execute(s, steps).orphans == {} ==> ChildrenDie(steps)
    decreases |steps|
  {
    if steps != [] { OrphansRemain(Next(s, steps[0]), steps[1..]); }
  }

  /** The step removes or relabels a resource of a project whose lock is held, and not by the
      run that takes the step. */
  ghost predicate Harms(s: State, step: Step)
    requires Enabled(s, step)
  {
    exists rid :: rid in s.world && s.world[rid].project in s.lock && !(step.ByRun? && s.lock[s.world[rid].project] == step.r) &&
      (rid !in Next(s, step).world || Next(s, step).world[rid] != s.world[rid])
  }

  /** Some future in which no further child outlives its run comes to harm; `within` keeps out
      everything from outside the protocol. */
  ghost predicate Endangered(s: State, within: bool) {
    exists steps, step :: Fires(s, steps) && ChildrenDie(steps) && (within ==> NothingOutside(steps)) &&
      Enabled(Execute(s, steps), step) && !DiesAlone(step) && (within ==> !step.Outside?) && Harms(Execute(s, steps), step)
  }

  lemma SoundMeansHarmless(s: State, step: Step)
    requires Inv(s) && Enabled(s, step)
    ensures !Harms(s, step)
  {
    if step.ByRun? && step.act.Remove? {
      var run := s.runs[step.r];
      if run.pc.Removing? { assert step.act.rid in Snapshot(s.world, run.id.project, 2); }
    }
  }

  lemma SmallerKeys(keys: set<nat>) returns (k: nat)
    ensures forall x :: x in keys ==> x < k
  {
    k := 0;
    var left := keys;
    while left != {}
      invariant left <= keys && forall x :: x in keys ==> x in left || x < k
    {
      var x :| x in left;
      left := left - {x};
      if x >= k { k := x + 1; }
    }
  }

  lemma Unused(s: State) returns (r: RunId, c: ResourceId)
    ensures r !in s.runs && c !in s.world && c.kind.Container?
  {
    r := SmallerKeys(s.runs.Keys);
    var keys := set rid | rid in s.world :: rid.key;
    assert forall rid :: rid in s.world ==> rid.key in keys;
    var k := SmallerKeys(keys);
    c := ResourceId(Container, k);
  }

  lemma CrashHolder(o: State, s: State, p: ProjectId) returns (s': State)
    requires From(o, s, true) && Locks(s)
    ensures From(o, s', true) && p !in s'.lock && s'.world == s.world && s'.orphans == s.orphans && s'.runs.Keys == s.runs.Keys
  {
    s' := s;
    if p in s.lock { s' := Take(o, s, ByRun(s.lock[p], Crash(true)), true); }
  }

  /** A container or network of the project, while a run holds the lock. */
  lemma SomethingToRemove(s: State, id: Identity) returns (s': State, rid: ResourceId)
    requires Locks(s)
    ensures From(s, s', true) && id.project in s'.lock && s'.orphans == s.orphans
    ensures rid in s'.world && s'.world[rid].project == id.project && !rid.kind.Volume?
  {
    Stays(s, true);
    var r, c := Unused(s);
    if x :| x in s.world && s.world[x].project == id.project && !x.kind.Volume? {
      s', rid := s, x;
      if id.project !in s.lock { s' := Begin(s, s, true, r, id, Start); }
    } else {
      s' := CrashHolder(s, s, id.project);
      assert Snapshot(s'.world, id.project, 1) == map[];
      s' := StartUpTo(s, s', true, r, id);
      s' := CreateOne(s, s', true, r, c);
      rid := c;
    }
  }

  lemma NeverEndangered(s: State, within: bool)
    requires Inv(s)
    ensures !Endangered(s, within)
  {
    hide Inv, Harms, Enabled;
    forall steps, step | Fires(s, steps) && ChildrenDie(steps) && Enabled(Execute(s, steps), step)
      ensures !Harms(Execute(s, steps), step)
    {
      EveryReachableStateIsSound(s, steps);
      SoundMeansHarmless(Execute(s, steps), step);
    }
  }

  lemma EndangeredBy(s: State, s': State, step: Step, within: bool)
    requires From(s, s', true) && Enabled(s', step) && !DiesAlone(step) && !step.Outside? && Harms(s', step)
    ensures Endangered(s, within)
  {
    hide Harms, Enabled;
    var steps :| Fires(s, steps) && ChildrenDie(steps) && NothingOutside(steps) && Execute(s, steps) == s';
    assert Enabled(Execute(s, steps), step);
  }

  /** From a state that was reached: even if nobody else is orphaned, and with or without
      interference from outside, somebody's resource can be taken from under a held lock exactly
      if there is an orphaned child now. */
  lemma EndangeredExactlyWhen(s: State, within: bool)
    requires Reaches(s, false)
    ensures Endangered(s, within) <==> s.orphans != {}
  {
    var s0, before :| Init(s0) && Fires(s0, before) && Execute(s0, before) == s;
    LocksStay(s0, before);
    OrphansRemain(s0, before);
    if s.orphans == {} {
      EveryReachableStateIsSound(s0, before);
      NeverEndangered(s, within);
    } else {
      hide Endangered, From, Locks, Execute, Fires;
      var orphan :| orphan in s.orphans;
      var s', rid := SomethingToRemove(s, orphan.0);
      var step := OrphanRemove(orphan.0, orphan.1, rid);
      assert rid !in Next(s', step).world;
      EndangeredBy(s, s', step, within);
    }
  }
}
