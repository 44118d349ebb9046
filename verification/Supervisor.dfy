/** The host-process supervisor: start or reuse the application processes, remember them in a
    state file after every spawn, and stop what the file remembers. */
module Supervisor {
  import opened Wrappers

  type Pid = int

  /** Anything else is a missing record. */
  predicate Process(pid: Pid) { pid > 0 }

  datatype Entry = Entry(pid: Pid, port: nat, fingerprint: string)

  type Services = map<string, Entry>

  /** `inputs` is everything the fingerprint covers, serialized. */
  datatype Spec = Spec(id: string, port: nat, inputs: string)

  /** Writing the state file empties it first; until the text is complete it does not parse, and
      a file that does not parse reads as no services at all. */
  datatype Action = Term(pid: Pid) | Kill(pid: Pid) | Spawn(id: string, entry: Entry) | Truncate | Persist(state: Services)

  /** One write of the state file. */
  function Writes(state: Services): seq<Action> { [Truncate, Persist(state)] }

  /** How a process takes SIGTERM: it was gone, it goes within the grace period, or it stays. */
  datatype Exit = Gone | Obeys | Resists

  datatype Poll = Poll(alive: bool, healthy: bool)

  /** What the run would see of one service, asked in this order; `polls` are those that fit
      before the readiness deadline. */
  datatype Seen = Seen(cwd: bool, alive: bool, healthy: bool, exit: Exit, portOpen: bool, spawned: Option<Pid>, polls: seq<Poll>)

  type World = Spec -> Seen

  /** A process just spawned has a pid of its own, which is positive. */
  ghost predicate Plausible(world: World) {
    forall spec: Spec :: world(spec).spawned.Some? ==> world(spec).spawned.value > 0
  }

  function Recorded(services: Services, id: string): Entry {
    if id in services then services[id] else Entry(0, 0, "")
  }

  function TermActions(pid: Pid, exit: Exit): seq<Action> {
    [Term(pid)] + (if exit.Resists? then [Kill(pid)] else [])
  }

  /** Ready as soon as one poll finds the process healthy, lost as soon as one finds it dead. */
  function BecomesReady(polls: seq<Poll>): bool {
    polls != [] && polls[0].alive && (polls[0].healthy || BecomesReady(polls[1..]))
  }

  // ------------------------------------------------------------------ one run, declaratively

  datatype Progress = Progress(services: Services, actions: seq<Action>, failures: seq<string>)

  predicate Live(services: Services, spec: Spec, seen: Seen) {
    Process(Recorded(services, spec.id).pid) && seen.alive
  }

  predicate Reusable(services: Services, spec: Spec, seen: Seen, hash: string -> string, restart: bool) {
    !restart && Live(services, spec, seen) && Recorded(services, spec.id).fingerprint == hash(spec.inputs) && seen.healthy
  }

  /** What visiting one service comes to. */
  function Visit(p: Progress, spec: Spec, seen: Seen, hash: string -> string, restart: bool): Progress {
    if !seen.cwd then p.(failures := p.failures + [spec.id])
    else if Reusable(p.services, spec, seen, hash, restart) then p
    else
      var stopped := p.actions + (if Live(p.services, spec, seen) then TermActions(Recorded(p.services, spec.id).pid, seen.exit) else []);
      if seen.portOpen || seen.spawned.None? then p.(actions := stopped, failures := p.failures + [spec.id])
      else
        var entry := Entry(seen.spawned.value, spec.port, hash(spec.inputs));
        var services := p.services[spec.id := entry];
        Progress(services, stopped + [Spawn(spec.id, entry)] + Writes(services),
                 if BecomesReady(seen.polls) then p.failures else p.failures + [spec.id])
  }

  function Visited(services: Services, specs: seq<Spec>, world: World, hash: string -> string, restart: bool): Progress {
    if specs == [] then Progress(services, [], [])
    else
      var last := specs[|specs| - 1];
      Visit(Visited(services, specs[..|specs| - 1], world, hash, restart), last, world(last), hash, restart)
  }

  /** What a state file reads as after some actions. */
  function Persisted(before: Services, actions: seq<Action>): Services {
    if actions == [] then before
    else
      match actions[|actions| - 1]
      case Persist(state) => state
      case Truncate => map[]
      case _ => Persisted(before, actions[..|actions| - 1])
  }

  // ------------------------------------------------------------------ the runs

  /** The machine: its state file, and everything done to its processes and that file. */
  class Host {
    var file: Services
    var actions: seq<Action>
    const original: Services

    /** The file says what was last written to it. */
    ghost predicate Valid() reads this { file == Persisted(original, actions) }

    constructor (file: Services)
      ensures Valid() && this.file == original == file && actions == []
    {
      this.file, original, actions := file, file, [];
    }

    method Write(state: Services)
      modifies this
      ensures Valid() && file == state && actions == old(actions) + Writes(state)
    {
      file, actions := map[], actions + [Truncate];
      assert Valid();
      file, actions := state, actions + [Persist(state)];
      assert actions == old(actions) + Writes(state);
    }

    method TerminatePid(pid: Pid, exit: Exit)
      requires Valid()
      modifies this`actions
      ensures Valid() && actions == old(actions) + TermActions(pid, exit)
    {
      var before := actions;
      actions := before + [Term(pid)];
      assert actions[..|actions| - 1] == before;
      if exit.Resists? {
        var termed := actions;
        actions := termed + [Kill(pid)];
        assert actions[..|actions| - 1] == termed;
      }
    }

    method AwaitReady(polls: seq<Poll>) returns (healthy: bool)
      ensures healthy == BecomesReady(polls)
    {
      for k := 0 to |polls|
        invariant BecomesReady(polls) == BecomesReady(polls[k..])
      {
        if !polls[k].alive { return false; }
        if polls[k].healthy { return true; }
        assert polls[k..][1..] == polls[k + 1..];
      }
      healthy := false;
    }

    /** One service of the start loop. */
    method StartOne(services: Services, spec: Spec, seen: Seen, hash: string -> string, restart: bool, failures: seq<string>)
      returns (after: Services, failed: seq<string>)
      requires Valid()
      modifies this
      ensures Valid() && Progress(after, actions, failed) == Visit(Progress(services, old(actions), failures), spec, seen, hash, restart)
    {
      after, failed := services, failures;
      if !seen.cwd { return after, failed + [spec.id]; }
      var prev := Recorded(services, spec.id);
      var previousAlive := Process(prev.pid) && seen.alive;
      if !restart && previousAlive && prev.fingerprint == hash(spec.inputs) && seen.healthy { return; }
      if previousAlive { TerminatePid(prev.pid, seen.exit); }
      ghost var stopped := actions;
      if seen.portOpen || seen.spawned.None? { return after, failed + [spec.id]; }
      var entry := Entry(seen.spawned.value, spec.port, hash(spec.inputs));
      actions := actions + [Spawn(spec.id, entry)];
      after := services[spec.id := entry];
      Write(after);
      var ready := AwaitReady(seen.polls);
      if !ready { failed := failed + [spec.id]; }
      assert actions == stopped + [Spawn(spec.id, entry)] + Writes(after);
    }

    method StartProcesses(specs: seq<Spec>, world: World, hash: string -> string, restart: bool) returns (exit: nat)
      requires Valid()
      modifies this
      ensures Valid()
      ensures var run := Visited(old(file), specs, world, hash, restart);
              && actions == old(actions) + StartActions(old(file), specs, world, hash, restart)
              && file == run.services
              && exit == if run.failures == [] then 0 else 1
    {
      var services, failures := file, [];
      for i := 0 to |specs|
        invariant Valid()
        invariant Progress(services, actions, failures) ==
                  (var run := Visited(old(file), specs[..i], world, hash, restart); run.(actions := old(actions) + run.actions))
      {
        assert specs[..i + 1][..i] == specs[..i];
        ghost var run := Visited(old(file), specs[..i], world, hash, restart);
        VisitAppends(run, old(actions), specs[i], world(specs[i]), hash, restart);
        services, failures := StartOne(services, specs[i], world(specs[i]), hash, restart, failures);
      }
      assert specs[..|specs|] == specs;
      Write(services);
      exit := if failures == [] then 0 else 1;
    }

    /** One entry attended to and forgotten. */
    method StopService(services: Services, entry: Entry, id: string, alive: Pid -> bool, exits: Pid -> Exit) returns (left: Services)
      requires Valid()
      modifies this
      ensures Valid() && left == services - {id}
      ensures actions == old(actions) + StopOne(entry, alive, exits) + Writes(left)
    {
      if Process(entry.pid) && alive(entry.pid) { TerminatePid(entry.pid, exits(entry.pid)); }
      left := services - {id};
      Write(left);
    }

    method StopEach(recorded: Services, order: seq<string>, alive: Pid -> bool, exits: Pid -> Exit)
      requires Valid() && forall k :: 0 <= k < |order| ==> order[k] in recorded
      modifies this
      ensures Valid() && actions == old(actions) + StopActions(recorded, order, alive, exits)
    {
      hide Without, StopOne, Persisted;
      var services := recorded;
      assert Without(recorded, []) == recorded by { NothingForgotten(recorded); }
      for i := 0 to |order|
        invariant Valid() && services == Without(recorded, order[..i])
        invariant actions == old(actions) + StopActions(recorded, order[..i], alive, exits)
      {
        StopStep(recorded, order, i, alive, exits);
        services := StopService(services, recorded[order[i]], order[i], alive, exits);
      }
      assert order[..|order|] == order;
    }

    /** `order` is the order of the entries in the file. */
    method StopProcesses(order: seq<string>, alive: Pid -> bool, exits: Pid -> Exit)
      requires Valid() && Enumerates(order, file)
      modifies this
      ensures Valid() && file == map[]
      ensures actions == old(actions) + WholeStop(old(file), order, alive, exits)
    {
      if file == map[] {
        ListsNothing(order, file);
        return;
      }
      ghost var stop := StopActions(file, order, alive, exits);
      StopEach(file, order, alive, exits);
      Write(map[]);
      assert actions == old(actions) + (stop + Writes(map[]));
    }
  }

  lemma VisitAppends(p: Progress, before: seq<Action>, spec: Spec, seen: Seen, hash: string -> string, restart: bool)
    ensures Visit(p.(actions := before + p.actions), spec, seen, hash, restart) ==
            (var next := Visit(p, spec, seen, hash, restart); next.(actions := before + next.actions))
  {
    var stopped := if Live(p.services, spec, seen) then TermActions(Recorded(p.services, spec.id).pid, seen.exit) else [];
    assert before + p.actions + stopped == before + (p.actions + stopped);
    if seen.spawned.Some? {
      var services := p.services[spec.id := Entry(seen.spawned.value, spec.port, hash(spec.inputs))];
      var tail := [Spawn(spec.id, services[spec.id])] + Writes(services);
      assert before + p.actions + stopped + tail == before + (p.actions + stopped + tail);
    }
  }

  predicate Enumerates(order: seq<string>, services: Services) {
    && (forall k :: 0 <= k < |order| ==> order[k] in services)
    && (forall i, j :: 0 <= i < j < |order| ==> order[i] != order[j])
    && (forall id :: id in services ==> id in order)
  }

  lemma ListsNothing(order: seq<string>, services: Services)
    requires Enumerates(order, services)
    ensures services == map[] ==> order == []
  {
    if order != [] { assert order[0] in services; }
  }

  function Without(services: Services, ids: seq<string>): Services {
    map id | id in services && id !in ids :: services[id]
  }

  lemma NothingForgotten(services: Services)
    ensures Without(services, []) == services
  {
  }

  function StopOne(entry: Entry, alive: Pid -> bool, exits: Pid -> Exit): seq<Action> {
    if Process(entry.pid) && alive(entry.pid) then TermActions(entry.pid, exits(entry.pid)) else []
  }

  /** Each entry attended to, then forgotten, one after the other. */
  function StopActions(services: Services, order: seq<string>, alive: Pid -> bool, exits: Pid -> Exit): seq<Action>
    requires forall k :: 0 <= k < |order| ==> order[k] in services
  {
    if order == [] then []
    else
      var n := |order| - 1;
      StopActions(services, order[..n], alive, exits) + (StopOne(services[order[n]], alive, exits) + Writes(Without(services, order)))
  }

  lemma StopStep(services: Services, order: seq<string>, i: nat, alive: Pid -> bool, exits: Pid -> Exit)
    requires i < |order| && forall k :: 0 <= k < |order| ==> order[k] in services
    ensures StopActions(services, order[..i + 1], alive, exits) ==
            StopActions(services, order[..i], alive, exits) + (StopOne(services[order[i]], alive, exits) + Writes(Without(services, order[..i + 1])))
    ensures Without(services, order[..i + 1]) == Without(services, order[..i]) - {order[i]}
  {
    assert order[..i + 1][..i] == order[..i];
    assert order[..i + 1] == order[..i] + [order[i]];
    assert forall id :: id in order[..i + 1] <==> id in order[..i] || id == order[i];
  }

  // ------------------------------------------------------------------ what a start guarantees

  predicate Distinct(specs: seq<Spec>) {
    forall i, j :: 0 <= i < j < |specs| ==> specs[i].id != specs[j].id
  }

  /** The service runs under its current configuration: the recorded process was found alive
      and healthy, or was spawned by this run and became healthy. */
  predicate Settled(before: Services, after: Services, spec: Spec, seen: Seen, hash: string -> string) {
    && spec.id in after && after[spec.id].fingerprint == hash(spec.inputs)
    && ((Recorded(before, spec.id) == after[spec.id] && Process(after[spec.id].pid) && seen.alive && seen.healthy) ||
        (seen.spawned == Some(after[spec.id].pid) && BecomesReady(seen.polls)))
  }

  /** A visit concerns its own service alone. */
  lemma {:induction false} OthersUntouched(services: Services, specs: seq<Spec>, world: World, hash: string -> string, restart: bool, id: string)
    requires forall k :: 0 <= k < |specs| ==> specs[k].id != id
    ensures var after := Visited(services, specs, world, hash, restart).services;
            (id in after <==> id in services) && (id in services ==> after[id] == services[id])
  {
    if specs != [] { OthersUntouched(services, specs[..|specs| - 1], world, hash, restart, id); }
  }

  /** If a start returns 0, every service is recorded with its current fingerprint and was seen
      healthy. */
  lemma {:induction false} SuccessMeansCurrent(services: Services, specs: seq<Spec>, world: World, hash: string -> string, restart: bool)
    requires Distinct(specs)
    ensures var run := Visited(services, specs, world, hash, restart);
            run.failures == [] ==> forall k :: 0 <= k < |specs| ==> Settled(services, run.services, specs[k], world(specs[k]), hash)
  {
    if specs != [] {
      var init, last := specs[..|specs| - 1], specs[|specs| - 1];
      SuccessMeansCurrent(services, init, world, hash, restart);
      OthersUntouched(services, init, world, hash, restart, last.id);
      var before, run := Visited(services, init, world, hash, restart), Visited(services, specs, world, hash, restart);
      if run.failures == [] {
        assert before.failures == [];
        forall k | 0 <= k < |specs|
          ensures Settled(services, run.services, specs[k], world(specs[k]), hash)
        {
          if k < |init| { assert Settled(services, before.services, init[k], world(init[k]), hash); }
        }
      }
    }
  }

  /** Some poll finds the process healthy, and until then every poll finds it alive. */
  lemma {:induction false} ReadyExactlyWhen(polls: seq<Poll>)
    ensures BecomesReady(polls) <==> exists k :: 0 <= k < |polls| && polls[k].healthy && forall j :: 0 <= j <= k ==> polls[j].alive
  {
    if polls != [] {
      ReadyExactlyWhen(polls[1..]);
      if k :| 0 <= k < |polls| && polls[k].healthy && forall j :: 0 <= j <= k ==> polls[j].alive {
        assert k > 0 ==> polls[1..][k - 1].healthy && forall j :: 0 <= j <= k - 1 ==> polls[1..][j] == polls[j + 1];
      }
      if BecomesReady(polls[1..]) && polls[0].alive {
        var k :| 0 <= k < |polls| - 1 && polls[1..][k].healthy && forall j :: 0 <= j <= k ==> polls[1..][j].alive;
        assert polls[k + 1].healthy && forall j :: 0 < j <= k + 1 ==> polls[j] == polls[1..][j - 1];
        assert forall j :: 0 <= j <= k + 1 ==> polls[j].alive;
      }
    }
  }

  /** The service runs when the start is through with it: it has a directory, and either it was
      recorded, alive, current and healthy, and no restart was asked for, or its port was free,
      it was spawned, and it became healthy while it lived. */
  predicate Settles(services: Services, spec: Spec, seen: Seen, hash: string -> string, restart: bool) {
    seen.cwd &&
    ((!restart && spec.id in services && services[spec.id].pid > 0 && seen.alive && services[spec.id].fingerprint == hash(spec.inputs) && seen.healthy) ||
     (!seen.portOpen && seen.spawned.Some? &&
      exists k :: 0 <= k < |seen.polls| && seen.polls[k].healthy && forall j :: 0 <= j <= k ==> seen.polls[j].alive))
  }

  /** The ids of the services that do not, in order. */
  function Unsettled(services: Services, specs: seq<Spec>, world: World, hash: string -> string, restart: bool): seq<string> {
    if specs == [] then []
    else
      var last := specs[|specs| - 1];
      Unsettled(services, specs[..|specs| - 1], world, hash, restart) + (if Settles(services, last, world(last), hash, restart) then [] else [last.id])
  }

  lemma OneVisit(p: Progress, spec: Spec, seen: Seen, hash: string -> string, restart: bool)
    ensures Visit(p, spec, seen, hash, restart).failures ==
            p.failures + (if Settles(p.services, spec, seen, hash, restart) then [] else [spec.id])
  {
    ReadyExactlyWhen(seen.polls);
    hide BecomesReady;
  }

  lemma SettlesByItself(a: Services, b: Services, spec: Spec, seen: Seen, hash: string -> string, restart: bool)
    requires (spec.id in a <==> spec.id in b) && (spec.id in a ==> a[spec.id] == b[spec.id])
    ensures Settles(a, spec, seen, hash, restart) <==> Settles(b, spec, seen, hash, restart)
  {
  }

  /** The failures of a start are exactly the services that do not run then. */
  lemma {:induction false} FailuresAre(services: Services, specs: seq<Spec>, world: World, hash: string -> string, restart: bool)
    requires Distinct(specs)
    ensures Visited(services, specs, world, hash, restart).failures == Unsettled(services, specs, world, hash, restart)
  {
    if specs != [] {
      var init, last := specs[..|specs| - 1], specs[|specs| - 1];
      FailuresAre(services, init, world, hash, restart);
      OthersUntouched(services, init, world, hash, restart, last.id);
      var before := Visited(services, init, world, hash, restart);
      hide Visit, Settles;
      OneVisit(before, last, world(last), hash, restart);
      SettlesByItself(before.services, services, last, world(last), hash, restart);
    }
  }

  lemma {:induction false} NoneUnsettled(services: Services, specs: seq<Spec>, world: World, hash: string -> string, restart: bool)
    ensures Unsettled(services, specs, world, hash, restart) == [] <==>
            forall i :: 0 <= i < |specs| ==> Settles(services, specs[i], world(specs[i]), hash, restart)
  {
    hide Settles;
    if specs != [] {
      var init := specs[..|specs| - 1];
      NoneUnsettled(services, init, world, hash, restart);
      assert forall i :: 0 <= i < |init| ==> init[i] == specs[i];
    }
  }

  /** A start succeeds if and only if every service runs then. */
  lemma SucceedsExactlyWhen(services: Services, specs: seq<Spec>, world: World, hash: string -> string, restart: bool)
    requires Distinct(specs)
    ensures Visited(services, specs, world, hash, restart).failures == [] <==>
            forall i :: 0 <= i < |specs| ==>
              var spec, seen := specs[i], world(specs[i]);
              seen.cwd &&
              ((!restart && spec.id in services && services[spec.id].pid > 0 && seen.alive && services[spec.id].fingerprint == hash(spec.inputs) && seen.healthy) ||
               (!seen.portOpen && seen.spawned.Some? &&
                exists k :: 0 <= k < |seen.polls| && seen.polls[k].healthy && forall j :: 0 <= j <= k ==> seen.polls[j].alive))
  {
    FailuresAre(services, specs, world, hash, restart);
    NoneUnsettled(services, specs, world, hash, restart);
    hide Visited, Unsettled;
  }

  /** The record of a service afterwards: what was spawned, with its port and what its
      fingerprint covers, or what it was. */
  lemma {:induction false} RecordsAre(services: Services, specs: seq<Spec>, world: World, hash: string -> string, restart: bool, i: nat)
    requires Distinct(specs) && i < |specs|
    ensures var run, spec, seen := Visited(services, specs, world, hash, restart), specs[i], world(specs[i]);
            var reused := !restart && spec.id in services && services[spec.id].pid > 0 && seen.alive && services[spec.id].fingerprint == hash(spec.inputs) && seen.healthy;
            if seen.cwd && !reused && !seen.portOpen && seen.spawned.Some?
            then spec.id in run.services && run.services[spec.id] == Entry(seen.spawned.value, spec.port, hash(spec.inputs))
            else (spec.id in run.services <==> spec.id in services) && (spec.id in services ==> run.services[spec.id] == services[spec.id])
  {
    var n := |specs| - 1;
    var init, last := specs[..n], specs[n];
    if i == n {
      OthersUntouched(services, init, world, hash, restart, last.id);
    } else {
      RecordsAre(services, init, world, hash, restart, i);
      assert init[i] == specs[i] && specs[i].id != last.id;
    }
  }

  /** What a start does for one service, besides writing the file: a live process that is not
      reused is told to stop, killed only if it resists, and replaced only if the port is free. */
  predicate Does(services: Services, spec: Spec, seen: Seen, hash: string -> string, restart: bool, a: Action) {
    var recorded := spec.id in services && services[spec.id].pid > 0 && seen.alive;
    var reused := !restart && recorded && services[spec.id].fingerprint == hash(spec.inputs) && seen.healthy;
    seen.cwd && !reused &&
    match a
    case Term(pid) => recorded && pid == services[spec.id].pid
    case Kill(pid) => recorded && pid == services[spec.id].pid && seen.exit.Resists?
    case Spawn(id, entry) =>
      !seen.portOpen && seen.spawned.Some? && id == spec.id && entry == Entry(seen.spawned.value, spec.port, hash(spec.inputs))
    case _ => false
  }

  lemma OneVisitDoes(p: Progress, spec: Spec, seen: Seen, hash: string -> string, restart: bool, a: Action)
    requires !a.Truncate? && !a.Persist?
    ensures a in Visit(p, spec, seen, hash, restart).actions <==> a in p.actions || Does(p.services, spec, seen, hash, restart, a)
  {
    hide BecomesReady;
    var pid := Recorded(p.services, spec.id).pid;
    assert a in TermActions(pid, seen.exit) <==> a == Term(pid) || (a == Kill(pid) && seen.exit.Resists?);
    hide TermActions;
  }

  lemma DoesByItself(a: Services, b: Services, spec: Spec, seen: Seen, hash: string -> string, restart: bool, action: Action)
    requires (spec.id in a <==> spec.id in b) && (spec.id in a ==> a[spec.id] == b[spec.id])
    ensures Does(a, spec, seen, hash, restart, action) <==> Does(b, spec, seen, hash, restart, action)
  {
  }

  /** Everything a start does to processes, and nothing else. */
  lemma {:induction false} ActionsAre(services: Services, specs: seq<Spec>, world: World, hash: string -> string, restart: bool, a: Action)
    requires Distinct(specs) && !a.Truncate? && !a.Persist?
    ensures a in StartActions(services, specs, world, hash, restart) <==>
            exists i :: 0 <= i < |specs| && Does(services, specs[i], world(specs[i]), hash, restart, a)
  {
    VisitedDoes(services, specs, world, hash, restart, a);
  }

  lemma {:induction false} VisitedDoes(services: Services, specs: seq<Spec>, world: World, hash: string -> string, restart: bool, a: Action)
    requires Distinct(specs) && !a.Truncate? && !a.Persist?
    ensures a in Visited(services, specs, world, hash, restart).actions <==>
            exists i :: 0 <= i < |specs| && Does(services, specs[i], world(specs[i]), hash, restart, a)
  {
    if specs != [] {
      var n := |specs| - 1;
      var init, last := specs[..n], specs[n];
      VisitedDoes(services, init, world, hash, restart, a);
      OthersUntouched(services, init, world, hash, restart, last.id);
      var before := Visited(services, init, world, hash, restart);
      hide Visit, Does;
      OneVisitDoes(before, last, world(last), hash, restart, a);
      DoesByItself(before.services, services, last, world(last), hash, restart, a);
      if i :| 0 <= i < n && Does(services, init[i], world(init[i]), hash, restart, a) {
        assert init[i] == specs[i];
      }
      if i :| 0 <= i < |specs| && Does(services, specs[i], world(specs[i]), hash, restart, a) {
        assert i < n ==> init[i] == specs[i];
      }
    }
  }

  /** What a stop does to one recorded process: tell a live one to stop, kill it if it resists. */
  predicate StopTouches(entry: Entry, alive: Pid -> bool, exits: Pid -> Exit, a: Action) {
    entry.pid > 0 && alive(entry.pid) && (a == Term(entry.pid) || (a == Kill(entry.pid) && exits(entry.pid).Resists?))
  }

  /** Everything a stop does to processes: each recorded live one is told to stop, and killed only
      if it resists. */
  lemma {:induction false} StopDoes(services: Services, order: seq<string>, alive: Pid -> bool, exits: Pid -> Exit, a: Action)
    requires (forall k :: 0 <= k < |order| ==> order[k] in services) && !a.Truncate? && !a.Persist?
    ensures a in StopActions(services, order, alive, exits) <==>
            exists k :: 0 <= k < |order| && StopTouches(services[order[k]], alive, exits, a)
  {
    hide StopOne, StopTouches, StopActions, Without;
    if order == [] {
      StopStarts(services, alive, exits);
    } else {
      var n := |order| - 1;
      var init := order[..n];
      StopDoes(services, init, alive, exits, a);
      StopOneTouches(services[order[n]], alive, exits, a);
      StopStep(services, order, n, alive, exits);
      assert order[..n + 1] == order;
      NotAWrite(StopActions(services, init, alive, exits), StopOne(services[order[n]], alive, exits), Without(services, order), a);
      if k :| 0 <= k < |order| && StopTouches(services[order[k]], alive, exits, a) {
        assert k < n ==> init[k] == order[k];
      }
    }
  }

  lemma NotAWrite(before: seq<Action>, one: seq<Action>, left: Services, a: Action)
    requires !a.Truncate? && !a.Persist?
    ensures a in before + (one + Writes(left)) <==> a in before || a in one
  {
  }

  lemma StopOneTouches(entry: Entry, alive: Pid -> bool, exits: Pid -> Exit, a: Action)
    ensures a in StopOne(entry, alive, exits) <==> StopTouches(entry, alive, exits, a)
  {
  }

  /** A second look at services that are all recorded as current, alive and healthy touches
      nothing. */
  lemma {:induction false} HealthyServicesAreLeftAlone(services: Services, specs: seq<Spec>, world: World, hash: string -> string)
    requires forall k :: 0 <= k < |specs| ==>
               && specs[k].id in services && Process(services[specs[k].id].pid) && services[specs[k].id].fingerprint == hash(specs[k].inputs)
               && world(specs[k]).cwd && world(specs[k]).alive && world(specs[k]).healthy
    ensures Visited(services, specs, world, hash, false) == Progress(services, [], [])
  {
    if specs != [] { HealthyServicesAreLeftAlone(services, specs[..|specs| - 1], world, hash); }
  }

  /** Convergence: after a start that returned 0, another start that finds the same services
      still alive and healthy neither stops nor spawns anything, and returns 0. */
  lemma SecondStartIsIdle(services: Services, specs: seq<Spec>, first: World, second: World, hash: string -> string, restart: bool)
    requires Distinct(specs) && Plausible(first)
    requires Visited(services, specs, first, hash, restart).failures == []
    requires forall k :: 0 <= k < |specs| ==> second(specs[k]).cwd && second(specs[k]).alive && second(specs[k]).healthy
    ensures var after := Visited(services, specs, first, hash, restart).services;
            Visited(after, specs, second, hash, false) == Progress(after, [], [])
  {
    SuccessMeansCurrent(services, specs, first, hash, restart);
    var after := Visited(services, specs, first, hash, restart).services;
    forall k | 0 <= k < |specs|
      ensures specs[k].id in after && Process(after[specs[k].id].pid) && after[specs[k].id].fingerprint == hash(specs[k].inputs)
    {
      assert Settled(services, after, specs[k], first(specs[k]), hash);
    }
    HealthyServicesAreLeftAlone(after, specs, second, hash);
  }

  /** `first` happened, and after it `then`. */
  predicate InOrder(actions: seq<Action>, first: Action, next: Action) {
    exists j, k :: 0 <= j < k < |actions| && actions[j] == first && actions[k] == next
  }

  lemma InOrderGrows(actions: seq<Action>, more: seq<Action>, first: Action, next: Action)
    requires InOrder(actions, first, next)
    ensures InOrder(actions + more, first, next)
  {
    var j, k :| 0 <= j < k < |actions| && actions[j] == first && actions[k] == next;
    assert (actions + more)[j] == first && (actions + more)[k] == next;
  }

  /** One service's visit: what was recorded and alive stays recorded, or is told to stop before
      its replacement is spawned. */
  lemma VisitReplacesInOrder(p: Progress, spec: Spec, seen: Seen, hash: string -> string, restart: bool)
    requires Live(p.services, spec, seen)
    ensures var next := Visit(p, spec, seen, hash, restart);
            && spec.id in p.services && spec.id in next.services
            && (next.services[spec.id] == p.services[spec.id] ||
                InOrder(next.actions, Term(p.services[spec.id].pid), Spawn(spec.id, next.services[spec.id])))
            && (seen.cwd && !Reusable(p.services, spec, seen, hash, restart) ==> Term(p.services[spec.id].pid) in next.actions)
  {
    var next, pid := Visit(p, spec, seen, hash, restart), p.services[spec.id].pid;
    if seen.cwd && !Reusable(p.services, spec, seen, hash, restart) {
      var n := |p.actions|;
      assert next.actions[n] == Term(pid);
      if next.services != p.services {
        var k := |next.actions| - 3;
        assert next.actions[k] == Spawn(spec.id, next.services[spec.id]);
      }
    }
  }

  predicate Replaced(before: Services, after: Services, actions: seq<Action>, id: string) {
    id in before && id in after && InOrder(actions, Term(before[id].pid), Spawn(id, after[id]))
  }

  /** No recorded live process is ever forgotten: it is still recorded, or it was told to stop
      before its replacement was spawned. A forced restart tells every one of them. */
  lemma {:induction false} NoLiveProcessIsForgotten(services: Services, specs: seq<Spec>, world: World, hash: string -> string, restart: bool, i: nat)
    requires Distinct(specs) && i < |specs| && Live(services, specs[i], world(specs[i]))
    ensures var run, id := Visited(services, specs, world, hash, restart), specs[i].id;
            && id in services
            && ((id in run.services && run.services[id] == services[id]) || Replaced(services, run.services, run.actions, id))
            && (restart && world(specs[i]).cwd ==> Term(services[id].pid) in run.actions)
  {
    var n := |specs| - 1;
    var init, last, id := specs[..n], specs[n], specs[i].id;
    var before := Visited(services, init, world, hash, restart);
    if i == n {
      OthersUntouched(services, init, world, hash, restart, id);
      VisitReplacesInOrder(before, last, world(last), hash, restart);
    } else {
      NoLiveProcessIsForgotten(services, init, world, hash, restart, i);
      var more := VisitAdds(before, last, world(last), hash, restart);
      hide Visit, Live, Reusable, InOrder;
      if Replaced(services, before.services, before.actions, id) {
        InOrderGrows(before.actions, more, Term(services[id].pid), Spawn(id, before.services[id]));
      }
    }
  }

  lemma VisitAdds(p: Progress, spec: Spec, seen: Seen, hash: string -> string, restart: bool) returns (more: seq<Action>)
    ensures var next := Visit(p, spec, seen, hash, restart);
            && next.actions == p.actions + more
            && forall id :: id != spec.id && id in p.services ==> id in next.services && next.services[id] == p.services[id]
  {
    more := Visit(p, spec, seen, hash, restart).actions[|p.actions|..];
  }

  // ------------------------------------------------------------------ crashes

  /** What the state file should say: everything recorded before, and every spawn. */
  function Owed(before: Services, actions: seq<Action>): Services {
    if actions == [] then before
    else
      var owed, last := Owed(before, actions[..|actions| - 1]), actions[|actions| - 1];
      if last.Spawn? then owed[last.id := last.entry] else owed
  }

  predicate CutInAWrite(done: seq<Action>) { done != [] && done[|done| - 1].Truncate? }

  /** The state file if the supervisor died after exactly these actions: empty inside a write,
      one process short right after a spawn, complete anywhere else. */
  predicate FileIs(before: Services, done: seq<Action>) {
    Persisted(before, done) ==
    if CutInAWrite(done) then map[]
    else if done != [] && done[|done| - 1].Spawn? then Owed(before, done[..|done| - 1])
    else Owed(before, done)
  }

  predicate FileThroughout(before: Services, actions: seq<Action>) {
    forall n :: 0 <= n <= |actions| ==> FileIs(before, actions[..n])
  }

  predicate UpToDate(before: Services, actions: seq<Action>) {
    FileThroughout(before, actions) && Persisted(before, actions) == Owed(before, actions)
  }

  lemma OneMoreAction(before: Services, actions: seq<Action>, a: Action)
    ensures (actions + [a])[..|actions|] == actions && (actions + [a])[|actions|] == a
    ensures Owed(before, actions + [a]) == if a.Spawn? then Owed(before, actions)[a.id := a.entry] else Owed(before, actions)
    ensures Persisted(before, actions + [a]) == if a.Persist? then a.state else if a.Truncate? then map[] else Persisted(before, actions)
    ensures FileThroughout(before, actions) && FileIs(before, actions + [a]) ==> FileThroughout(before, actions + [a])
  {
    var all := actions + [a];
    assert all[..|actions|] == actions && all[..|all|] == all;
    assert forall n :: 0 <= n <= |actions| ==> all[..n] == actions[..n];
  }

  lemma {:induction false} QuietKeepsTrack(before: Services, actions: seq<Action>, quiet: seq<Action>)
    requires UpToDate(before, actions) && forall k :: 0 <= k < |quiet| ==> quiet[k].Term? || quiet[k].Kill?
    ensures UpToDate(before, actions + quiet) && Owed(before, actions + quiet) == Owed(before, actions)
    decreases |quiet|
  {
    if quiet == [] {
      assert actions + quiet == actions;
    } else {
      var init, last := quiet[..|quiet| - 1], quiet[|quiet| - 1];
      assert actions + quiet == actions + init + [last];
      hide FileThroughout, Owed, Persisted;
      QuietKeepsTrack(before, actions, init);
      OneMoreAction(before, actions + init, last);
    }
  }

  lemma WriteBringsUpToDate(before: Services, actions: seq<Action>)
    requires FileThroughout(before, actions)
    ensures var all := actions + Writes(Owed(before, actions)); UpToDate(before, all) && Owed(before, all) == Owed(before, actions)
  {
    hide FileThroughout, Owed, Persisted;
    var owed := Owed(before, actions);
    OneMoreAction(before, actions, Truncate);
    OneMoreAction(before, actions + [Truncate], Persist(owed));
    assert actions + Writes(owed) == actions + [Truncate] + [Persist(owed)];
  }

  lemma SpawnIsRecorded(before: Services, actions: seq<Action>, id: string, entry: Entry)
    requires UpToDate(before, actions)
    ensures var owed := Owed(before, actions)[id := entry];
            var all := actions + [Spawn(id, entry)] + Writes(owed);
            UpToDate(before, all) && Owed(before, all) == owed
  {
    hide FileThroughout, Owed, Persisted;
    OneMoreAction(before, actions, Spawn(id, entry));
    WriteBringsUpToDate(before, actions + [Spawn(id, entry)]);
  }

  lemma VisitKeepsTrack(before: Services, p: Progress, spec: Spec, seen: Seen, hash: string -> string, restart: bool)
    requires UpToDate(before, p.actions) && Owed(before, p.actions) == p.services
    ensures var next := Visit(p, spec, seen, hash, restart); UpToDate(before, next.actions) && Owed(before, next.actions) == next.services
  {
    var quiet := if Live(p.services, spec, seen) then TermActions(Recorded(p.services, spec.id).pid, seen.exit) else [];
    hide UpToDate, Owed, Live, Reusable;
    QuietKeepsTrack(before, p.actions, quiet);
    if seen.spawned.Some? {
      SpawnIsRecorded(before, p.actions + quiet, spec.id, Entry(seen.spawned.value, spec.port, hash(spec.inputs)));
    }
  }

  /** Everything a start does, with its last write. */
  function StartActions(services: Services, specs: seq<Spec>, world: World, hash: string -> string, restart: bool): seq<Action> {
    var run := Visited(services, specs, world, hash, restart);
    run.actions + Writes(run.services)
  }

  lemma {:induction false} VisitedIsUpToDate(services: Services, specs: seq<Spec>, world: World, hash: string -> string, restart: bool)
    ensures var run := Visited(services, specs, world, hash, restart); UpToDate(services, run.actions) && Owed(services, run.actions) == run.services
  {
    if specs != [] {
      var init, last := specs[..|specs| - 1], specs[|specs| - 1];
      hide UpToDate, Owed, Visit;
      VisitedIsUpToDate(services, init, world, hash, restart);
      VisitKeepsTrack(services, Visited(services, init, world, hash, restart), last, world(last), hash, restart);
    }
  }

  /** Whatever the supervisor dies of, and wherever: the state file is exactly what FileIs says;
      after the last write it is complete. */
  lemma FileAtEveryMoment(services: Services, specs: seq<Spec>, world: World, hash: string -> string, restart: bool, n: nat)
    requires n <= |StartActions(services, specs, world, hash, restart)|
    ensures FileIs(services, StartActions(services, specs, world, hash, restart)[..n])
    ensures var all := StartActions(services, specs, world, hash, restart);
            Persisted(services, all) == Owed(services, all) == Visited(services, specs, world, hash, restart).services
  {
    var run := Visited(services, specs, world, hash, restart);
    VisitedIsUpToDate(services, specs, world, hash, restart);
    WriteBringsUpToDate(services, run.actions);
  }

  /** A process that should be recorded and lives is not recorded. */
  ghost predicate Loses(before: Services, done: seq<Action>, alive: Pid -> bool) {
    var owed, file := Owed(before, done), Persisted(before, done);
    exists id :: id in owed && alive(owed[id].pid) && (id !in file || file[id] != owed[id])
  }

  ghost predicate SomeLive(services: Services, alive: Pid -> bool) { exists id :: id in services && alive(services[id].pid) }

  /** The last thing done was to spawn a process, which lives and is not what the file has. */
  predicate JustSpawned(before: Services, done: seq<Action>, alive: Pid -> bool) {
    && done != [] && done[|done| - 1].Spawn? && var last := done[|done| - 1]; var known := Owed(before, done[..|done| - 1]);
    alive(last.entry.pid) && (last.id !in known || known[last.id] != last.entry)
  }

  /** A crash loses a live process exactly if it falls inside a write while any live process
      should be recorded, or right after a spawn. */
  lemma CrashLosesExactlyWhen(services: Services, specs: seq<Spec>, world: World, hash: string -> string, restart: bool, alive: Pid -> bool, n: nat)
    requires n <= |StartActions(services, specs, world, hash, restart)|
    ensures var done := StartActions(services, specs, world, hash, restart)[..n];
            Loses(services, done, alive) <==> (CutInAWrite(done) && SomeLive(Owed(services, done), alive)) || JustSpawned(services, done, alive)
  {
    FileAtEveryMoment(services, specs, world, hash, restart, n);
    var done := StartActions(services, specs, world, hash, restart)[..n];
    hide StartActions, Persisted;
    if JustSpawned(services, done, alive) {
      var last, owed := done[|done| - 1], Owed(services, done);
      assert last.id in owed && owed[last.id] == last.entry;
    }
  }

  /** Every start ends in such a write, so that every start, even one that only finds everything
      running, can lose all of it; a full disk after the truncation does the same. */
  lemma EveryStartCanLoseEverything(services: Services, specs: seq<Spec>, world: World, hash: string -> string, restart: bool, alive: Pid -> bool)
    ensures var all, after := StartActions(services, specs, world, hash, restart), Visited(services, specs, world, hash, restart).services;
            Persisted(services, all[..|all| - 1]) == map[] && (Loses(services, all[..|all| - 1], alive) <==> SomeLive(after, alive))
  {
    var run := Visited(services, specs, world, hash, restart);
    var all := StartActions(services, specs, world, hash, restart);
    VisitedIsUpToDate(services, specs, world, hash, restart);
    OneMoreAction(services, run.actions, Truncate);
    assert all[..|all| - 1] == run.actions + [Truncate];
    CrashLosesExactlyWhen(services, specs, world, hash, restart, alive, |all| - 1);
  }

  // ------------------------------------------------------------------ what a stop guarantees

  /** Told to stop, or not there to be told. */
  predicate Attended(entry: Entry, actions: seq<Action>, alive: Pid -> bool) {
    Process(entry.pid) && alive(entry.pid) ==> Term(entry.pid) in actions
  }

  /** Every process is still recorded, as it was, or has been attended to. */
  ghost predicate Accounted(services: Services, done: seq<Action>, alive: Pid -> bool) {
    var file := Persisted(services, done);
    forall id :: id in services ==> (id in file && file[id] == services[id]) || Attended(services[id], done, alive)
  }

  lemma AttendedGrows(entry: Entry, done: seq<Action>, more: seq<Action>, alive: Pid -> bool)
    requires Attended(entry, done, alive)
    ensures Attended(entry, done + more, alive)
  {
  }

  /** Nobody is lost unless the stop is cut inside a write. */
  ghost predicate AccountedUnlessCut(services: Services, done: seq<Action>, alive: Pid -> bool) {
    CutInAWrite(done) || Accounted(services, done, alive)
  }

  lemma {:induction false} QuietStop(services: Services, done: seq<Action>, quiet: seq<Action>, alive: Pid -> bool)
    requires Accounted(services, done, alive) && forall k :: 0 <= k < |quiet| ==> quiet[k].Term? || quiet[k].Kill?
    ensures Accounted(services, done + quiet, alive) && Persisted(services, done + quiet) == Persisted(services, done)
    ensures !CutInAWrite(done) ==> !CutInAWrite(done + quiet)
    decreases |quiet|
  {
    if quiet == [] {
      assert done + quiet == done;
    } else {
      var init, last := quiet[..|quiet| - 1], quiet[|quiet| - 1];
      assert done + quiet == done + init + [last];
      QuietStop(services, done, init, alive);
      OneMoreAction(services, done + init, last);
    }
  }

  /** Writing the file without an entry that was attended to. */
  lemma ForgetAttended(services: Services, done: seq<Action>, id: string, alive: Pid -> bool)
    requires id in services && Accounted(services, done, alive) && Attended(services[id], done, alive)
    ensures var left := Persisted(services, done) - {id};
            Accounted(services, done + Writes(left), alive) && Persisted(services, done + Writes(left)) == left
  {
    hide Process;
    var left := Persisted(services, done) - {id};
    var all := done + Writes(left);
    assert all[|all| - 1] == Persist(left);
    forall x | x in services
      ensures (x in left && left[x] == services[x]) || Attended(services[x], all, alive)
    {
      if Attended(services[x], done, alive) { AttendedGrows(services[x], done, Writes(left), alive); }
    }
  }

  lemma StopOneAttends(entry: Entry, done: seq<Action>, alive: Pid -> bool, exits: Pid -> Exit)
    ensures Attended(entry, done + StopOne(entry, alive, exits), alive)
    ensures forall k :: 0 <= k < |StopOne(entry, alive, exits)| ==> StopOne(entry, alive, exits)[k].Term? || StopOne(entry, alive, exits)[k].Kill?
  {
    var one := StopOne(entry, alive, exits);
    assert one != [] ==> (done + one)[|done|] == Term(entry.pid);
  }

  /** In the end everybody has been attended to, and nobody is recorded. */
  lemma {:induction false} StopAttendsToEverybody(services: Services, order: seq<string>, alive: Pid -> bool, exits: Pid -> Exit)
    requires forall k :: 0 <= k < |order| ==> order[k] in services
    ensures var all := StopActions(services, order, alive, exits);
            && Accounted(services, all, alive) && Persisted(services, all) == Without(services, order) && !CutInAWrite(all)
            && forall id :: id in order ==> Attended(services[id], all, alive)
    decreases |order|
  {
    if order == [] {
      NothingForgotten(services);
    } else {
      var m := |order| - 1;
      var init, id := order[..m], order[m];
      var before := StopActions(services, init, alive, exits);
      StopAttendsToEverybody(services, init, alive, exits);
      OneMoreStopped(services, order, before, alive, exits);
    }
  }

  lemma OneMoreStopped(services: Services, order: seq<string>, before: seq<Action>, alive: Pid -> bool, exits: Pid -> Exit)
    requires order != [] && forall k :: 0 <= k < |order| ==> order[k] in services
    requires var init := order[..|order| - 1];
             && before == StopActions(services, init, alive, exits)
             && Accounted(services, before, alive) && Persisted(services, before) == Without(services, init) && !CutInAWrite(before)
             && forall id :: id in init ==> Attended(services[id], before, alive)
    ensures var all := StopActions(services, order, alive, exits);
            && Accounted(services, all, alive) && Persisted(services, all) == Without(services, order) && !CutInAWrite(all)
            && forall id :: id in order ==> Attended(services[id], all, alive)
  {
    hide Accounted, Attended, Persisted, StopActions, StopOne, Without, CutInAWrite;
    var m := |order| - 1;
    var id, left := order[m], Without(services, order);
    StopStep(services, order, m, alive, exits);
    assert order[..m + 1] == order;
    var one := StopOne(services[id], alive, exits);
    var all := StopActions(services, order, alive, exits);
    assert all == before + one + Writes(left);
    EndsWithWrites(before + one, left);
    StopOneAttends(services[id], before, alive, exits);
    QuietStop(services, before, one, alive);
    ForgetAttended(services, before + one, id, alive);
    forall x | x in order
      ensures Attended(services[x], all, alive)
    {
      AttendedStays(services[x], before, one, Writes(left), alive);
    }
  }

  lemma EndsWithWrites(done: seq<Action>, left: Services)
    ensures !CutInAWrite(done + Writes(left))
    ensures CutInAWrite((done + Writes(left))[..|done| + 1])
  {
  }

  lemma AttendedStays(entry: Entry, done: seq<Action>, one: seq<Action>, more: seq<Action>, alive: Pid -> bool)
    requires Attended(entry, done, alive) || Attended(entry, done + one, alive)
    ensures Attended(entry, done + one + more, alive)
  {
  }

  /** Everything a stop does; nothing if nothing is recorded. */
  function WholeStop(services: Services, order: seq<string>, alive: Pid -> bool, exits: Pid -> Exit): seq<Action>
    requires forall k :: 0 <= k < |order| ==> order[k] in services
  {
    StopActions(services, order, alive, exits) + if services == map[] then [] else Writes(map[])
  }

  /** A stop cut short outside a write has lost nobody. */
  lemma {:induction false} UncutStopLosesNobody(services: Services, order: seq<string>, alive: Pid -> bool, exits: Pid -> Exit, n: nat)
    requires forall k :: 0 <= k < |order| ==> order[k] in services
    requires n <= |StopActions(services, order, alive, exits)|
    ensures AccountedUnlessCut(services, StopActions(services, order, alive, exits)[..n], alive)
    decreases |order|
  {
    hide Accounted, Attended, Persisted, StopActions, StopOne, Without, CutInAWrite;
    var all := StopActions(services, order, alive, exits);
    if n == |all| {
      assert all[..n] == all;
      StopAttendsToEverybody(services, order, alive, exits);
    } else {
      StopStarts(services, alive, exits);
      assert order != [];
      var m := |order| - 1;
      var init, id := order[..m], order[m];
      StopStep(services, order, m, alive, exits);
      assert order[..m + 1] == order;
      var before, one := StopActions(services, init, alive, exits), StopOne(services[id], alive, exits);
      var more := Writes(Without(services, order));
      assert all == before + one + more;
      if n <= |before| {
        UncutStopLosesNobody(services, init, alive, exits, n);
        assert all[..n] == before[..n];
      } else if n <= |before| + |one| {
        StopAttendsToEverybody(services, init, alive, exits);
        StopOneAttends(services[id], before, alive, exits);
        QuietStop(services, before, one[..n - |before|], alive);
        assert all[..n] == before + one[..n - |before|];
      } else {
        EndsWithWrites(before + one, Without(services, order));
      }
    }
  }

  lemma StopStarts(services: Services, alive: Pid -> bool, exits: Pid -> Exit)
    ensures StopActions(services, [], alive, exits) == []
  {
  }

  /** Wherever a stop is cut short: a recorded live process is lost, neither still recorded nor
      attended to, exactly if the cut falls inside a write before everybody was attended to. */
  lemma InterruptedStopLosesExactlyWhen(services: Services, order: seq<string>, alive: Pid -> bool, exits: Pid -> Exit, n: nat)
    requires Enumerates(order, services) && n <= |WholeStop(services, order, alive, exits)|
    ensures var done := WholeStop(services, order, alive, exits)[..n];
            !Accounted(services, done, alive) <==> CutInAWrite(done) && exists id :: id in services && !Attended(services[id], done, alive)
  {
    var stop, whole := StopActions(services, order, alive, exits), WholeStop(services, order, alive, exits);
    var done := whole[..n];
    if n <= |stop| {
      assert done == stop[..n];
      UncutStopLosesNobody(services, order, alive, exits, n);
    } else {
      StopAttendsToEverybody(services, order, alive, exits);
      assert done == stop + whole[|stop|..n];
      forall id | id in services
        ensures Attended(services[id], done, alive)
      {
        AttendedGrows(services[id], stop, whole[|stop|..n], alive);
      }
    }
  }

  /** The loss, for every state file that lists a live process after its first entry: the first
      write, cut short, forgets it untold. */
  lemma CutStopLosesTheSecond(services: Services, order: seq<string>, alive: Pid -> bool, exits: Pid -> Exit)
    requires Enumerates(order, services) && |order| > 1
    requires var second := services[order[1]]; Process(second.pid) && alive(second.pid) && second.pid != services[order[0]].pid
    ensures var n := |StopOne(services[order[0]], alive, exits)| + 1;
            && n <= |WholeStop(services, order, alive, exits)|
            && !Accounted(services, WholeStop(services, order, alive, exits)[..n], alive)
  {
    var one := StopOne(services[order[0]], alive, exits);
    StopBegins(services, order, alive, exits);
    var done := WholeStop(services, order, alive, exits)[..|one| + 1];
    assert done == one + [Truncate];
    assert order[1] in services && !Attended(services[order[1]], done, alive);
    assert Persisted(services, done) == map[];
  }

  lemma {:induction false} StopBegins(services: Services, order: seq<string>, alive: Pid -> bool, exits: Pid -> Exit)
    requires order != [] && forall k :: 0 <= k < |order| ==> order[k] in services
    ensures StopOne(services[order[0]], alive, exits) + [Truncate] <= StopActions(services, order, alive, exits)
  {
    var m := |order| - 1;
    if m == 0 {
      assert order[..0] == [];
    } else {
      StopBegins(services, order[..m], alive, exits);
    }
  }
}
