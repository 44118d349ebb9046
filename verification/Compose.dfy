/** The parts of the Compose adapter that decide and carry out removals: ownership by labels,
    the report-only classification of other workspaces, and the bounded exact-label fallback
    of `compose down`. Every subprocess is an entry of the command log. */
module Compose {
  import opened Wrappers

  datatype ResourceKind = Container | Network | Volume

  type Labels = map<string, string>

  datatype ProjectResource = ProjectResource(kind: ResourceKind, resourceId: string, name: string, labels: Labels)

  datatype WorkspaceIdentity = WorkspaceIdentity(projectId: string, fingerprint: string)

  const LABEL_WORKSPACE_ID := "com.tokenmarket.workspace-id"
  const LABEL_WORKSPACE_FINGERPRINT := "com.tokenmarket.workspace-fingerprint"
  const LABEL_STACK := "com.tokenmarket.stack"
  const LABEL_SERVICE := "com.docker.compose.service"

  datatype OwnershipError = MissingLabels | OtherProject | Collision | VolumeRefused

  datatype DownError = Ownership(reason: OwnershipError) | BudgetExhausted | CommandFailed | TimedOut | AssetDrift

  function Label(labels: Labels, key: string): string {
    if key in labels then labels[key] else ""
  }

  // ------------------------------------------------------------------ ownership

  /** None authorizes the mutation. */
  function AuthorizeLabelMutation(id: WorkspaceIdentity, labels: Labels): Option<OwnershipError> {
    var project := Label(labels, LABEL_WORKSPACE_ID);
    var fingerprint := Label(labels, LABEL_WORKSPACE_FINGERPRINT);
    if project == "" || fingerprint == "" then Some(MissingLabels)
    else if project != id.projectId then Some(OtherProject)
    else if fingerprint != id.fingerprint then Some(Collision)
    else None
  }

  /** Mutation takes both labels, present, non-empty and exact: neither the short id alone nor
      the fingerprint alone authorizes. */
  lemma AuthorizationIsExact(id: WorkspaceIdentity, labels: Labels)
    requires id.projectId != "" && id.fingerprint != ""
    ensures AuthorizeLabelMutation(id, labels).None? <==>
              && LABEL_WORKSPACE_ID in labels && labels[LABEL_WORKSPACE_ID] == id.projectId
              && LABEL_WORKSPACE_FINGERPRINT in labels && labels[LABEL_WORKSPACE_FINGERPRINT] == id.fingerprint
    ensures forall other: WorkspaceIdentity :: AuthorizeLabelMutation(id, labels).None? && AuthorizeLabelMutation(other, labels).None? ==> other == id
  {
    forall other: WorkspaceIdentity | AuthorizeLabelMutation(id, labels).None? && AuthorizeLabelMutation(other, labels).None?
      ensures other == id
    {
    }
  }

  predicate AllAuthorized(id: WorkspaceIdentity, rs: seq<ProjectResource>) {
    forall k :: 0 <= k < |rs| ==> AuthorizeLabelMutation(id, rs[k].labels).None?
  }

  /** The first refusal in listing order. */
  method AssertExactResourceOwnership(id: WorkspaceIdentity, rs: seq<ProjectResource>) returns (error: Option<OwnershipError>)
    ensures error.None? <==> AllAuthorized(id, rs)
    ensures error.Some? ==> exists k :: 0 <= k < |rs| && AllAuthorized(id, rs[..k]) && AuthorizeLabelMutation(id, rs[k].labels) == error
  {
    for i := 0 to |rs|
      invariant AllAuthorized(id, rs[..i])
    {
      error := AuthorizeLabelMutation(id, rs[i].labels);
      if error.Some? { return; }
    }
    error := None;
  }

  // ------------------------------------------------------------------ other workspaces: report only

  /** Both ownership labels missing or empty; the deploy stack is the one tolerated case. */
  predicate Unlabelled(r: ProjectResource) {
    Label(r.labels, LABEL_WORKSPACE_ID) == "" || Label(r.labels, LABEL_WORKSPACE_FINGERPRINT) == ""
  }

  predicate DeployStack(r: ProjectResource) {
    Unlabelled(r) && Label(r.labels, LABEL_STACK) == "deploy"
  }

  predicate Mine(id: WorkspaceIdentity, r: ProjectResource) {
    !Unlabelled(r) && Label(r.labels, LABEL_WORKSPACE_ID) == id.projectId
  }

  predicate Elsewhere(id: WorkspaceIdentity, r: ProjectResource) {
    !Unlabelled(r) && Label(r.labels, LABEL_WORKSPACE_ID) != id.projectId
  }

  function Filter(p: ProjectResource -> bool, rs: seq<ProjectResource>): seq<ProjectResource> {
    if rs == [] then []
    else Filter(p, rs[..|rs| - 1]) + (if p(rs[|rs| - 1]) then [rs[|rs| - 1]] else [])
  }

  /** `kept` is what stands at the places `at` of `rs`, in order. */
  predicate Stands(rs: seq<ProjectResource>, at: seq<nat>, kept: seq<ProjectResource>) {
    && |at| == |kept|
    && (forall k :: 0 <= k < |at| ==> at[k] < |rs| && rs[at[k]] == kept[k])
    && (forall j, k :: 0 <= j < k < |at| ==> at[j] < at[k])
  }

  lemma StandsOneMore(rs: seq<ProjectResource>, at: seq<nat>, kept: seq<ProjectResource>, r: ProjectResource)
    requires Stands(rs, at, kept)
    ensures Stands(rs + [r], at, kept) && Stands(rs + [r], at + [|rs|], kept + [r])
  {
  }

  /** A filter keeps exactly what the predicate holds of, in order. */
  lemma {:induction false} FilterKeeps(p: ProjectResource -> bool, rs: seq<ProjectResource>) returns (at: seq<nat>)
    ensures Stands(rs, at, Filter(p, rs))
    ensures forall n: nat :: n in at <==> n < |rs| && p(rs[n])
  {
    at := [];
    if rs != [] {
      var init, n := rs[..|rs| - 1], |rs| - 1;
      at := FilterKeeps(p, init);
      StandsOneMore(init, at, Filter(p, init), rs[n]);
      assert rs == init + [rs[n]];
      assert forall k :: 0 <= k < n ==> init[k] == rs[k];
      hide Stands;
      if p(rs[n]) { at := at + [n]; }
    }
  }

  /** Owned and moved resources in listing order. One unlabelled resource outside the deploy
      stack, or one collision on the short id, refuses the whole listing. */
  method ClassifyRepositoryResources(id: WorkspaceIdentity, rs: seq<ProjectResource>)
    returns (result: Result<(seq<ProjectResource>, seq<ProjectResource>), OwnershipError>)
    ensures result.Success? <==>
            forall k :: 0 <= k < |rs| ==> DeployStack(rs[k]) || Elsewhere(id, rs[k]) || AuthorizeLabelMutation(id, rs[k].labels).None?
    ensures result.Success? ==>
              && result.value.0 == Filter(r => Mine(id, r), rs) && AllAuthorized(id, result.value.0)
              && result.value.1 == Filter(r => Elsewhere(id, r), rs)
  {
    var owned, moved := [], [];
    for i := 0 to |rs|
      invariant forall k :: 0 <= k < i ==> DeployStack(rs[k]) || Elsewhere(id, rs[k]) || AuthorizeLabelMutation(id, rs[k].labels).None?
      invariant owned == Filter(r => Mine(id, r), rs[..i]) && AllAuthorized(id, owned)
      invariant moved == Filter(r => Elsewhere(id, r), rs[..i])
    {
      var r := rs[i];
      assert rs[..i + 1][..i] == rs[..i];
      if Unlabelled(r) {
        if Label(r.labels, LABEL_STACK) != "deploy" { return Failure(MissingLabels); }
      } else if Label(r.labels, LABEL_WORKSPACE_ID) == id.projectId {
        var error := AuthorizeLabelMutation(id, r.labels);
        if error.Some? { return Failure(error.value); }
        owned := owned + [r];
      } else {
        moved := moved + [r];
      }
    }
    assert rs[..|rs|] == rs;
    result := Success((owned, moved));
  }

  // ------------------------------------------------------------------ bounded removal

  datatype Command =
    | ComposeDown
    | DockerStop(id: string, grace: nat)
    | DockerRm(id: string)
    | NetworkRm(id: string)

  datatype Issued = Issued(command: Command, budget: real)

  datatype Exit = Zero | NonZero | Expired

  function Min(a: real, b: real): real { if a <= b then a else b }

  function StopGrace(r: ProjectResource): nat {
    if Label(r.labels, LABEL_SERVICE) == "postgres" then 60 else 30
  }

  /** What one command would be given if the caller's timeout were unlimited. */
  function Need(c: Command): real {
    match c
    case ComposeDown => 0.0
    case DockerStop(_, grace) => grace as real + 5.0
    case DockerRm(_) => 15.0
    case NetworkRm(_) => 15.0
  }

  function ContainerCommands(rs: seq<ProjectResource>): seq<Command> {
    if rs == [] then []
    else ContainerCommands(rs[..|rs| - 1]) +
         (var r := rs[|rs| - 1]; if r.kind.Container? then [DockerStop(r.resourceId, StopGrace(r)), DockerRm(r.resourceId)] else [])
  }

  function NetworkCommands(rs: seq<ProjectResource>): seq<Command> {
    if rs == [] then []
    else NetworkCommands(rs[..|rs| - 1]) +
         (var r := rs[|rs| - 1]; if r.kind.Network? then [NetworkRm(r.resourceId)] else [])
  }

  /** Every container stopped and then removed, then every network; nothing else. */
  function RemovalPlan(rs: seq<ProjectResource>): seq<Command> {
    ContainerCommands(rs) + NetworkCommands(rs)
  }

  function WithBudgets(cs: seq<Command>, timeout: real): seq<Issued> {
    seq(|cs|, k requires 0 <= k < |cs| => Issued(cs[k], Min(Need(cs[k]), timeout)))
  }

  /** The budgets of a command list added up. */
  function Total(issued: seq<Issued>): real {
    if issued == [] then 0.0 else Total(issued[..|issued| - 1]) + issued[|issued| - 1].budget
  }

  function TotalNeed(cs: seq<Command>): real {
    if cs == [] then 0.0 else TotalNeed(cs[..|cs| - 1]) + Need(cs[|cs| - 1])
  }

  lemma {:induction false} ContainerPrefix(rs: seq<ProjectResource>, i: nat)
    requires i <= |rs|
    ensures ContainerCommands(rs[..i]) <= ContainerCommands(rs)
    decreases |rs|
  {
    if i < |rs| {
      ContainerPrefix(rs[..|rs| - 1], i);
      assert rs[..|rs| - 1][..i] == rs[..i];
    } else {
      assert rs[..i] == rs;
    }
  }

  lemma {:induction false} NetworkPrefix(rs: seq<ProjectResource>, i: nat)
    requires i <= |rs|
    ensures NetworkCommands(rs[..i]) <= NetworkCommands(rs)
    decreases |rs|
  {
    if i < |rs| {
      NetworkPrefix(rs[..|rs| - 1], i);
      assert rs[..|rs| - 1][..i] == rs[..i];
    } else {
      assert rs[..i] == rs;
    }
  }

  /** Where a listed container's two commands stand in the plan. */
  lemma ContainerSlot(rs: seq<ProjectResource>, i: nat)
    requires i < |rs|
    ensures var n := |ContainerCommands(rs[..i])|;
            if rs[i].kind.Container? then
              && |ContainerCommands(rs[..i + 1])| == n + 2 && n + 2 <= |RemovalPlan(rs)|
              && RemovalPlan(rs)[n] == DockerStop(rs[i].resourceId, StopGrace(rs[i]))
              && RemovalPlan(rs)[n + 1] == DockerRm(rs[i].resourceId)
            else |ContainerCommands(rs[..i + 1])| == n
  {
    ContainerPrefix(rs, i + 1);
    assert rs[..i + 1][..i] == rs[..i];
  }

  lemma NetworkSlot(rs: seq<ProjectResource>, i: nat)
    requires i < |rs|
    ensures var n := |ContainerCommands(rs)| + |NetworkCommands(rs[..i])|;
            if rs[i].kind.Network? then
              && |NetworkCommands(rs[..i + 1])| == |NetworkCommands(rs[..i])| + 1 && n < |RemovalPlan(rs)|
              && RemovalPlan(rs)[n] == NetworkRm(rs[i].resourceId)
            else |NetworkCommands(rs[..i + 1])| == |NetworkCommands(rs[..i])|
  {
    NetworkPrefix(rs, i + 1);
    assert rs[..i + 1][..i] == rs[..i];
  }

  /** From `before`, the first `n` commands of the plan have been issued, each but perhaps the
      last with exit zero; there is an error exactly if the last one failed. */
  predicate Progress(before: seq<Issued>, now: seq<Issued>, plan: seq<Command>, timeout: real, exits: nat -> Exit, n: nat, error: Option<DownError>) {
    && n <= |plan|
    && now == before + WithBudgets(plan[..n], timeout)
    && (forall k: nat :: |before| <= k < |before| + n - 1 ==> exits(k) == Zero)
    && match error
       case None => n > 0 ==> exits(|before| + n - 1) == Zero
       case Some(e) => n > 0 && exits(|before| + n - 1) != Zero && e == Reported(exits(|before| + n - 1))
  }

  function Reported(exit: Exit): DownError {
    if exit.Expired? then TimedOut else CommandFailed
  }

  /** One more command of the plan issued. */
  lemma OneMore(before: seq<Issued>, now: seq<Issued>, plan: seq<Command>, timeout: real, exits: nat -> Exit, n: nat, error: Option<DownError>)
    requires n < |plan| && Progress(before, now, plan, timeout, exits, n, None)
    requires error == if exits(|now|) == Zero then None else Some(Reported(exits(|now|)))
    ensures Progress(before, now + [Issued(plan[n], Min(Need(plan[n]), timeout))], plan, timeout, exits, n + 1, error)
  {
    assert WithBudgets(plan[..n + 1], timeout) == WithBudgets(plan[..n], timeout) + [Issued(plan[n], Min(Need(plan[n]), timeout))];
  }

  /** The command log of one adapter; `exits(k)` is how its k-th subprocess ends. */
  class CommandLog {
    var issued: seq<Issued>
    const exits: nat -> Exit

    constructor (exits: nat -> Exit)
      ensures issued == [] && this.exits == exits
    {
      issued := [];
      this.exits := exits;
    }

    method Spawn(c: Command, budget: real) returns (error: Option<DownError>)
      modifies this
      ensures issued == old(issued) + [Issued(c, budget)]
      ensures error == if exits(|old(issued)|) == Zero then None else Some(Reported(exits(|old(issued)|)))
    {
      var exit := exits(|issued|);
      issued := issued + [Issued(c, budget)];
      error := if exit == Zero then None else Some(Reported(exit));
    }

    /** The next command of a plan under way, capped by the caller's timeout. */
    method SpawnNext(c: Command, need: real, timeout: real, ghost before: seq<Issued>, ghost plan: seq<Command>, ghost n: nat)
      returns (error: Option<DownError>)
      requires n < |plan| && plan[n] == c && need == Need(c)
      requires Progress(before, issued, plan, timeout, exits, n, None)
      modifies this
      ensures Progress(before, issued, plan, timeout, exits, n + 1, error)
    {
      ghost var now := issued;
      error := Spawn(c, Min(need, timeout));
      OneMore(before, now, plan, timeout, exits, n, error);
    }

    method RemoveContainers(rs: seq<ProjectResource>, timeout: real) returns (error: Option<DownError>, ghost n: nat)
      modifies this
      ensures Progress(old(issued), issued, RemovalPlan(rs), timeout, exits, n, error)
      ensures error.None? ==> n == |ContainerCommands(rs)|
    {
      ghost var before, plan := issued, RemovalPlan(rs);
      n := 0;
      for i := 0 to |rs|
        invariant Progress(before, issued, plan, timeout, exits, n, None)
        invariant n == |ContainerCommands(rs[..i])|
      {
        ContainerSlot(rs, i);
        if rs[i].kind.Container? {
          error := SpawnNext(DockerStop(rs[i].resourceId, StopGrace(rs[i])), StopGrace(rs[i]) as real + 5.0, timeout, before, plan, n);
          n := n + 1;
          if error.Some? { return; }
          error := SpawnNext(DockerRm(rs[i].resourceId), 15.0, timeout, before, plan, n);
          n := n + 1;
          if error.Some? { return; }
        }
      }
      assert rs[..|rs|] == rs;
      error := None;
    }

    method RemoveNetworks(rs: seq<ProjectResource>, timeout: real, ghost before: seq<Issued>) returns (error: Option<DownError>, ghost n: nat)
      requires Progress(before, issued, RemovalPlan(rs), timeout, exits, |ContainerCommands(rs)|, None)
      modifies this
      ensures Progress(before, issued, RemovalPlan(rs), timeout, exits, n, error)
      ensures error.None? ==> n == |RemovalPlan(rs)|
    {
      ghost var plan := RemovalPlan(rs);
      n := |ContainerCommands(rs)|;
      for i := 0 to |rs|
        invariant Progress(before, issued, plan, timeout, exits, n, None)
        invariant n == |ContainerCommands(rs)| + |NetworkCommands(rs[..i])|
      {
        NetworkSlot(rs, i);
        if rs[i].kind.Network? {
          error := SpawnNext(NetworkRm(rs[i].resourceId), 15.0, timeout, before, plan, n);
          n := n + 1;
          if error.Some? { return; }
        }
      }
      assert rs[..|rs|] == rs;
      error := None;
    }

    /** A volume, a foreign resource or an empty budget: no command at all. Otherwise the plan,
        in order, up to the first command that does not exit with zero. */
    method RemoveExactResources(id: WorkspaceIdentity, rs: seq<ProjectResource>, timeout: real) returns (error: Option<DownError>)
      modifies this
      ensures !Removable(id, rs, timeout) ==> issued == old(issued) && RefusedWith(id, rs, timeout, error)
      ensures Removable(id, rs, timeout) ==>
                exists n :: Progress(old(issued), issued, RemovalPlan(rs), timeout, exits, n, error) &&
                            (error.None? ==> n == |RemovalPlan(rs)|)
    {
      if timeout <= 0.0 { return Some(BudgetExhausted); }
      for i := 0 to |rs|
        invariant issued == old(issued)
        invariant AllAuthorized(id, rs[..i]) && forall k :: 0 <= k < i ==> !rs[k].kind.Volume?
      {
        assert Removable(id, rs[..i], timeout);
        if rs[i].kind.Volume? { return Some(Ownership(VolumeRefused)); }
        var refusal := AuthorizeLabelMutation(id, rs[i].labels);
        if refusal.Some? { return Some(Ownership(refusal.value)); }
      }
      ghost var n;
      error, n := RemoveContainers(rs, timeout);
      if error.Some? { return; }
      error, n := RemoveNetworks(rs, timeout, old(issued));
    }

    /** `compose down`, and the exact-label fallback if the model does not parse: what is
        removed then is what is listed then, containers and networks, all of it owned. */
    method ReconcileDown(id: WorkspaceIdentity, assetVerified: bool, parseFailure: bool, listed: seq<ProjectResource>, timeout: real)
      returns (error: Option<DownError>)
      requires forall k :: 0 <= k < |listed| ==> !listed[k].kind.Volume?
      modifies this
      ensures timeout <= 0.0 || !assetVerified ==> issued == old(issued) && error == Some(if timeout <= 0.0 then BudgetExhausted else AssetDrift)
      ensures timeout > 0.0 && assetVerified ==>
                var start := old(issued) + [Issued(ComposeDown, timeout)];
                var exit := exits(|old(issued)|);
                if exit == Zero then error.None? && issued == start
                else if exit == NonZero && parseFailure && AllAuthorized(id, listed) then
                  exists n :: Progress(start, issued, RemovalPlan(listed), timeout, exits, n, error) && (error.None? ==> n == |RemovalPlan(listed)|)
                else if exit == NonZero && parseFailure then issued == start && RefusedWith(id, listed, timeout, error)
                else issued == start && error == Some(if exit == Expired then TimedOut else CommandFailed)
    {
      if timeout <= 0.0 { return Some(BudgetExhausted); }
      if !assetVerified { return Some(AssetDrift); }
      error := Spawn(ComposeDown, timeout);
      if error == Some(CommandFailed) && parseFailure {
        var refusal := AssertExactResourceOwnership(id, listed);
        if refusal.Some? {
          UnownedIsRefused(id, listed, timeout, refusal.value);
          return Some(Ownership(refusal.value));
        }
        error := RemoveExactResources(id, listed, timeout);
      }
    }
  }

  /** The refusal of a removal: no budget, or the first resource that is a volume or not owned. */
  predicate RefusedWith(id: WorkspaceIdentity, rs: seq<ProjectResource>, timeout: real, error: Option<DownError>) {
    if timeout <= 0.0 then error == Some(BudgetExhausted)
    else
      exists k :: 0 <= k < |rs| && Removable(id, rs[..k], timeout) &&
        if rs[k].kind.Volume? then error == Some(Ownership(VolumeRefused))
        else AuthorizeLabelMutation(id, rs[k].labels).Some? && error == Some(Ownership(AuthorizeLabelMutation(id, rs[k].labels).value))
  }

  predicate Removable(id: WorkspaceIdentity, rs: seq<ProjectResource>, timeout: real) {
    timeout > 0.0 && AllAuthorized(id, rs) && forall k :: 0 <= k < |rs| ==> !rs[k].kind.Volume?
  }

  lemma UnownedIsRefused(id: WorkspaceIdentity, rs: seq<ProjectResource>, timeout: real, refusal: OwnershipError)
    requires timeout > 0.0 && forall k :: 0 <= k < |rs| ==> !rs[k].kind.Volume?
    requires exists k :: 0 <= k < |rs| && AllAuthorized(id, rs[..k]) && AuthorizeLabelMutation(id, rs[k].labels) == Some(refusal)
    ensures RefusedWith(id, rs, timeout, Some(Ownership(refusal)))
  {
    var k :| 0 <= k < |rs| && AllAuthorized(id, rs[..k]) && AuthorizeLabelMutation(id, rs[k].labels) == Some(refusal);
    assert Removable(id, rs[..k], timeout);
  }

  /** What may be removed at all, by labels and kinds. */
  lemma RemovableExactlyWhen(id: WorkspaceIdentity, rs: seq<ProjectResource>, timeout: real)
    ensures Removable(id, rs, timeout) <==>
            && timeout > 0.0
            && forall k :: 0 <= k < |rs| ==>
                 && (rs[k].kind.Container? || rs[k].kind.Network?)
                 && Label(rs[k].labels, "com.tokenmarket.workspace-id") == id.projectId != ""
                 && Label(rs[k].labels, "com.tokenmarket.workspace-fingerprint") == id.fingerprint != ""
  {
    forall k | 0 <= k < |rs|
      ensures AuthorizeLabelMutation(id, rs[k].labels).None? <==>
                && Label(rs[k].labels, "com.tokenmarket.workspace-id") == id.projectId != ""
                && Label(rs[k].labels, "com.tokenmarket.workspace-fingerprint") == id.fingerprint != ""
    {
      ClassesAre(id, rs[k]);
    }
    hide Label, AuthorizeLabelMutation;
  }

  /** The removal plan addresses exactly the listed containers and networks. */
  predicate Addresses(c: Command, rs: seq<ProjectResource>) {
    match c
    case ComposeDown => false
    case DockerStop(id, _) => exists k :: 0 <= k < |rs| && rs[k].kind.Container? && rs[k].resourceId == id
    case DockerRm(id) => exists k :: 0 <= k < |rs| && rs[k].kind.Container? && rs[k].resourceId == id
    case NetworkRm(id) => exists k :: 0 <= k < |rs| && rs[k].kind.Network? && rs[k].resourceId == id
  }

  lemma {:induction false} PlanCoversExactlyTheListed(rs: seq<ProjectResource>)
    ensures forall c :: c in RemovalPlan(rs) ==> Addresses(c, rs)
    ensures forall k :: 0 <= k < |rs| && rs[k].kind.Container? ==> DockerRm(rs[k].resourceId) in RemovalPlan(rs)
    ensures forall k :: 0 <= k < |rs| && rs[k].kind.Network? ==> NetworkRm(rs[k].resourceId) in RemovalPlan(rs)
    decreases |rs|
  {
    hide StopGrace;
    if rs != [] {
      var init := rs[..|rs| - 1];
      PlanCoversExactlyTheListed(init);
      forall c | c in RemovalPlan(rs)
        ensures Addresses(c, rs)
      {
        if c in RemovalPlan(init) { assert Addresses(c, init); assert forall k :: 0 <= k < |init| ==> init[k] == rs[k]; }
      }
    }
  }

  /** Each container is stopped, with sixty seconds' grace for PostgreSQL and thirty for the rest,
      and removed straight after; every network is removed after all containers. */
  lemma PlanIsInOrder(rs: seq<ProjectResource>, i: nat)
    requires i < |rs|
    ensures var plan, m := RemovalPlan(rs), |ContainerCommands(rs)|;
            var grace := if Label(rs[i].labels, "com.docker.compose.service") == "postgres" then 60 else 30;
            && (rs[i].kind.Container? ==>
                  exists n :: 0 <= n < m - 1 && plan[n] == DockerStop(rs[i].resourceId, grace) && plan[n + 1] == DockerRm(rs[i].resourceId))
            && (rs[i].kind.Network? ==> exists n :: m <= n < |plan| && plan[n] == NetworkRm(rs[i].resourceId))
  {
    ContainerSlot(rs, i);
    ContainerPrefix(rs, i + 1);
    NetworkSlot(rs, i);
    NetworkPrefix(rs, i);
    NetworkPrefix(rs, i + 1);
    hide ContainerCommands, NetworkCommands, Label;
    var n := |ContainerCommands(rs[..i])|;
    if rs[i].kind.Container? { assert RemovalPlan(rs)[n] == DockerStop(rs[i].resourceId, StopGrace(rs[i])); }
    var q := |ContainerCommands(rs)| + |NetworkCommands(rs[..i])|;
    if rs[i].kind.Network? { assert RemovalPlan(rs)[q] == NetworkRm(rs[i].resourceId); }
  }

  /** Containers are removed in the order they are listed in, and so are networks. */
  lemma PlanKeepsOrder(rs: seq<ProjectResource>, i: nat, j: nat)
    requires i < j < |rs| && rs[i].kind == rs[j].kind && !rs[i].kind.Volume?
    ensures exists m, n :: 0 <= m < n < |RemovalPlan(rs)| &&
              (if rs[i].kind.Container? then
                 RemovalPlan(rs)[m] == DockerRm(rs[i].resourceId) && RemovalPlan(rs)[n] == DockerRm(rs[j].resourceId)
               else RemovalPlan(rs)[m] == NetworkRm(rs[i].resourceId) && RemovalPlan(rs)[n] == NetworkRm(rs[j].resourceId))
  {
    hide ContainerCommands, NetworkCommands, RemovalPlan;
    var m, n;
    if rs[i].kind.Container? {
      ContainerSlot(rs, i);
      ContainerSlot(rs, j);
      ContainerSlotsGrow(rs, i, j);
      m, n := |ContainerCommands(rs[..i])| + 1, |ContainerCommands(rs[..j])| + 1;
    } else {
      NetworkSlot(rs, i);
      NetworkSlot(rs, j);
      NetworkSlotsGrow(rs, i, j);
      m, n := |ContainerCommands(rs)| + |NetworkCommands(rs[..i])|, |ContainerCommands(rs)| + |NetworkCommands(rs[..j])|;
    }
    assert 0 <= m < n < |RemovalPlan(rs)|;
  }

  lemma ContainerSlotsGrow(rs: seq<ProjectResource>, i: nat, j: nat)
    requires i < j < |rs|
    ensures |ContainerCommands(rs[..i + 1])| <= |ContainerCommands(rs[..j])|
  {
    ContainerPrefix(rs[..j], i + 1);
    assert rs[..j][..i + 1] == rs[..i + 1];
  }

  lemma NetworkSlotsGrow(rs: seq<ProjectResource>, i: nat, j: nat)
    requires i < j < |rs|
    ensures |NetworkCommands(rs[..i + 1])| <= |NetworkCommands(rs[..j])|
  {
    NetworkPrefix(rs[..j], i + 1);
    assert rs[..j][..i + 1] == rs[..i + 1];
  }

  /** Two commands for each container, one for each network. */
  lemma {:induction false} PlanCounts(rs: seq<ProjectResource>)
    ensures |RemovalPlan(rs)| ==
            2 * |Filter((r: ProjectResource) => r.kind.Container?, rs)| + |Filter((r: ProjectResource) => r.kind.Network?, rs)|
  {
    if rs != [] { PlanCounts(rs[..|rs| - 1]); }
  }

  /** Every command gets its own need, or the caller's timeout if that is less: five seconds
      beyond the grace for a stop, fifteen for a removal. */
  lemma BudgetsAre(cs: seq<Command>, timeout: real, k: nat)
    requires k < |cs| && !cs[k].ComposeDown?
    ensures var need := if cs[k].DockerStop? then cs[k].grace as real + 5.0 else 15.0;
            WithBudgets(cs, timeout)[k] == Issued(cs[k], if need <= timeout then need else timeout)
    ensures Reported(Expired) == TimedOut && Reported(NonZero) == CommandFailed
  {
  }

  /** Resources of the repository by their labels. */
  lemma ClassesAre(id: WorkspaceIdentity, r: ProjectResource)
    ensures var (project, fingerprint) := (Label(r.labels, "com.tokenmarket.workspace-id"), Label(r.labels, "com.tokenmarket.workspace-fingerprint"));
            && (DeployStack(r) <==> (project == "" || fingerprint == "") && Label(r.labels, "com.tokenmarket.stack") == "deploy")
            && (Elsewhere(id, r) <==> project != "" && fingerprint != "" && project != id.projectId)
            && (Mine(id, r) <==> project != "" && fingerprint != "" && project == id.projectId)
            && (AuthorizeLabelMutation(id, r.labels).None? <==> project != "" && fingerprint != "" && project == id.projectId && fingerprint == id.fingerprint)
  {
    hide Label;
  }

  /** `timeout` caps each command, never the call: the budgets handed out stay within it in
      all exactly when there is at most one command or the uncapped needs already fit. */
  lemma {:induction false} TimeoutBoundsTheCallExactlyWhen(cs: seq<Command>, timeout: real)
    requires timeout > 0.0 && ComposeDown !in cs
    ensures Total(WithBudgets(cs, timeout)) <= timeout <==> |cs| <= 1 || TotalNeed(cs) <= timeout
  {
    TotalsRelate(cs, timeout);
    if |cs| >= 1 {
      var init := cs[..|cs| - 1];
      assert WithBudgets(cs, timeout)[..|cs| - 1] == WithBudgets(init, timeout);
      TotalsRelate(init, timeout);
      if |cs| == 1 { assert init == []; assert WithBudgets(init, timeout) == []; }
    }
  }

  /** The total is capped nowhere, or some command took the whole timeout. */
  lemma {:induction false} TotalsRelate(cs: seq<Command>, timeout: real)
    requires timeout > 0.0 && ComposeDown !in cs
    ensures Total(WithBudgets(cs, timeout)) == TotalNeed(cs) ||
            (TotalNeed(cs) > timeout && Total(WithBudgets(cs, timeout)) >= timeout)
    ensures Total(WithBudgets(cs, timeout)) <= TotalNeed(cs)
    ensures cs != [] ==> Total(WithBudgets(cs, timeout)) > 0.0
    ensures cs == [] ==> Total(WithBudgets(cs, timeout)) == 0.0
    decreases |cs|
  {
    if cs != [] {
      var init := cs[..|cs| - 1];
      assert WithBudgets(cs, timeout)[..|cs| - 1] == WithBudgets(init, timeout);
      TotalsRelate(init, timeout);
    }
  }

  /** A single postgres container under the 75-second stop budget is already allowed 80. */
  lemma StopBudgetCanBeExceeded(r: ProjectResource)
    requires r.kind.Container? && Label(r.labels, LABEL_SERVICE) == "postgres"
    ensures Total(WithBudgets(RemovalPlan([r]), 75.0)) == 80.0
  {
    assert [r][..|[r]| - 1] == [];
    assert ContainerCommands([]) == [] && NetworkCommands([]) == [];
    var cs := RemovalPlan([r]);
    assert NetworkCommands([r]) == [];
    assert ContainerCommands([r]) == ContainerCommands([]) + [DockerStop(r.resourceId, StopGrace(r)), DockerRm(r.resourceId)];
    assert cs == [DockerStop(r.resourceId, 60), DockerRm(r.resourceId)];
    var b := WithBudgets(cs, 75.0);
    assert b == [Issued(cs[0], 65.0), Issued(cs[1], 15.0)];
    assert b[..1] == [b[0]] && b[..1][..0] == [];
    assert Total(b[..1]) == 65.0;
  }
}
