/** Two of the Compose adapter's guards before anything is reconciled: the missing-only image
    pull with digest verification, and the bind-only port preflight. */
module Adapter {
  import opened Wrappers

  // ------------------------------------------------------------------ images

  type Ref = string

  datatype Image = Image(os: string, architecture: string, digests: Option<set<string>>)

  /** One pinned dependency: its image and the digests reviewed for it. */
  datatype Pin = Pin(ref: Ref, index: string, amd64: string, arm64: string)

  /** What a pull leaves behind: it fails, or stores an image, or claims to and stores nothing. */
  datatype Pull = Refused | Stores(image: Image) | StoresNothing

  /** `inspectable`: whether the local image state can be read at all. */
  datatype Registry = Registry(pull: Ref -> Pull, inspectable: Ref -> bool)

  type Local = map<Ref, Image>

  predicate Verified(pin: Pin, image: Image, amd64: bool) {
    && image.os == "linux" && image.architecture == (if amd64 then "amd64" else "arm64")
    && image.digests.Some?
    && image.digests.value * {pin.index, if amd64 then pin.amd64 else pin.arm64} != {}
  }

  /** Which images there are, what was pulled, and for each image verified whether it was. */
  datatype Progress = Progress(local: Local, pulls: seq<Ref>, records: seq<bool>, failed: bool)

  function Ensure(p: Progress, pin: Pin, registry: Registry, amd64: bool): Progress {
    if p.failed || !registry.inspectable(pin.ref) then p.(failed := true)
    else if pin.ref in p.local then
      if Verified(pin, p.local[pin.ref], amd64) then p.(records := p.records + [false]) else p.(failed := true)
    else
      var pulled := p.(pulls := p.pulls + [pin.ref]);
      match registry.pull(pin.ref)
      case Refused => pulled.(failed := true)
      case StoresNothing => pulled.(failed := true)
      case Stores(image) =>
        var stored := pulled.(local := p.local[pin.ref := image]);
        if Verified(pin, image, amd64) then stored.(records := p.records + [true]) else stored.(failed := true)
  }

  function EnsureAll(local: Local, pins: seq<Pin>, registry: Registry, amd64: bool): Progress {
    if pins == [] then Progress(local, [], [], false)
    else Ensure(EnsureAll(local, pins[..|pins| - 1], registry, amd64), pins[|pins| - 1], registry, amd64)
  }

  lemma {:induction false} FailureSticks(local: Local, pins: seq<Pin>, i: nat, registry: Registry, amd64: bool)
    requires i <= |pins| && EnsureAll(local, pins[..i], registry, amd64).failed
    ensures EnsureAll(local, pins, registry, amd64) == EnsureAll(local, pins[..i], registry, amd64)
    decreases |pins|
  {
    if i == |pins| {
      assert pins[..i] == pins;
    } else {
      assert pins[..|pins| - 1][..i] == pins[..i];
      FailureSticks(local, pins[..|pins| - 1], i, registry, amd64);
    }
  }

  /** The Docker host: its images and every pull made. */
  class DockerHost {
    var local: Local
    var pulls: seq<Ref>
    const registry: Registry

    constructor (local: Local, registry: Registry)
      ensures this.local == local && pulls == [] && this.registry == registry
    {
      this.local, pulls, this.registry := local, [], registry;
    }

    /** None is the raised error; Some(None) a missing image. */
    method InspectImage(ref: Ref) returns (found: Option<Option<Image>>)
      ensures found == if !registry.inspectable(ref) then None else Some(if ref in local then Some(local[ref]) else None)
    {
      if !registry.inspectable(ref) { return None; }
      found := Some(if ref in local then Some(local[ref]) else None);
    }

    method PullImage(ref: Ref) returns (ok: bool)
      modifies this
      ensures pulls == old(pulls) + [ref] && ok == !registry.pull(ref).Refused?
      ensures local == if registry.pull(ref).Stores? then old(local)[ref := registry.pull(ref).image] else old(local)
    {
      pulls := pulls + [ref];
      match registry.pull(ref) {
        case Refused => ok := false;
        case StoresNothing => ok := true;
        case Stores(image) =>
          local := local[ref := image];
          ok := true;
      }
    }

    method EnsureImage(pin: Pin, amd64: bool) returns (pulled: Option<bool>)
      modifies this
      ensures var after := Ensure(Progress(old(local), old(pulls), [], false), pin, registry, amd64);
              && local == after.local && pulls == after.pulls
              && pulled == if after.failed then None else Some(after.records[0])
    {
      var found := InspectImage(pin.ref);
      if found.None? { return None; }
      var image, fetched := found.value, false;
      if image.None? {
        var ok := PullImage(pin.ref);
        if !ok { return None; }
        found := InspectImage(pin.ref);
        if found.None? { return None; }
        image, fetched := found.value, true;
      }
      if image.None? { return None; }
      if !Verified(pin, image.value, amd64) { return None; }
      pulled := Some(fetched);
    }

    /** None is the raised ImageUnavailable error. */
    method EnsureImages(pins: seq<Pin>, amd64: bool) returns (records: Option<seq<bool>>)
      modifies this
      ensures var all := EnsureAll(old(local), pins, registry, amd64);
              && local == all.local && pulls == old(pulls) + all.pulls
              && records == if all.failed then None else Some(all.records)
    {
      hide Verified;
      var made: seq<bool> := [];
      for i := 0 to |pins|
        invariant Progress(local, pulls, made, false) ==
                  (var p := EnsureAll(old(local), pins[..i], registry, amd64); p.(pulls := old(pulls) + p.pulls))
      {
        assert pins[..i + 1][..i] == pins[..i];
        ghost var p := EnsureAll(old(local), pins[..i], registry, amd64);
        EnsureShifts(p, old(pulls), pins[i], registry, amd64);
        var pulled := EnsureImage(pins[i], amd64);
        if pulled.None? {
          FailureSticks(old(local), pins, i + 1, registry, amd64);
          return None;
        }
        made := made + [pulled.value];
      }
      assert pins[..|pins|] == pins;
      records := Some(made);
    }
  }

  /** What one step does depends neither on earlier pulls nor on earlier records. */
  lemma EnsureShifts(p: Progress, before: seq<Ref>, pin: Pin, registry: Registry, amd64: bool)
    requires !p.failed
    ensures var alone := Ensure(Progress(p.local, before + p.pulls, [], false), pin, registry, amd64);
            var next := Ensure(p, pin, registry, amd64);
            && next.local == alone.local && alone.pulls == before + next.pulls && next.failed == alone.failed
            && next.records == p.records + alone.records && (!alone.failed ==> |alone.records| == 1)
  {
  }

  predicate DistinctRefs(pins: seq<Pin>) { forall i, j :: 0 <= i < j < |pins| ==> pins[i].ref != pins[j].ref }

  /** Every pinned image is there and verified, what was there is untouched, and exactly what
      was missing was pulled, once each and in order. */
  ghost predicate AllThere(p: Progress, local: Local, pins: seq<Pin>, amd64: bool) {
    && |p.records| == |pins|
    && (forall k :: 0 <= k < |pins| ==> pins[k].ref in p.local && Verified(pins[k], p.local[pins[k].ref], amd64))
    && (forall k :: 0 <= k < |pins| ==> (p.records[k] <==> pins[k].ref !in local))
    && (forall ref :: ref in local ==> ref in p.local && p.local[ref] == local[ref])
    && (forall ref :: ref in p.local ==> ref in local || ref in p.pulls)
    && p.pulls == Missing(local, pins)
  }

  lemma EnsureEffect(p: Progress, pin: Pin, registry: Registry, amd64: bool)
    requires !p.failed && !Ensure(p, pin, registry, amd64).failed
    ensures var next, missing := Ensure(p, pin, registry, amd64), pin.ref !in p.local;
            && pin.ref in next.local && Verified(pin, next.local[pin.ref], amd64)
            && next.local == p.local[pin.ref := next.local[pin.ref]] && (!missing ==> next.local == p.local)
            && next.records == p.records + [missing]
            && next.pulls == p.pulls + (if missing then [pin.ref] else [])
  {
  }

  lemma OneMoreMissing(local: Local, pins: seq<Pin>)
    requires pins != []
    ensures var last := pins[|pins| - 1];
            Missing(local, pins) == Missing(local, pins[..|pins| - 1]) + (if last.ref in local then [] else [last.ref])
  {
  }

  lemma OneMoreThere(p: Progress, local: Local, pins: seq<Pin>, registry: Registry, amd64: bool)
    requires pins != [] && DistinctRefs(pins) && !p.failed
    requires AllThere(p, local, pins[..|pins| - 1], amd64)
    requires !Ensure(p, pins[|pins| - 1], registry, amd64).failed
    ensures AllThere(Ensure(p, pins[|pins| - 1], registry, amd64), local, pins, amd64)
  {
    hide Verified, Ensure, Missing;
    var n := |pins| - 1;
    var init, last, next := pins[..n], pins[n], Ensure(p, pins[n], registry, amd64);
    EnsureEffect(p, last, registry, amd64);
    assert forall k :: 0 <= k < n ==> init[k] == pins[k] && pins[k].ref != last.ref;
    NotMissing(local, init, last.ref);
    forall k | 0 <= k < |pins|
      ensures pins[k].ref in next.local && Verified(pins[k], next.local[pins[k].ref], amd64)
      ensures next.records[k] <==> pins[k].ref !in local
    {
      if k < n { assert init[k] == pins[k]; }
    }
    forall ref | ref in local
      ensures ref in next.local && next.local[ref] == local[ref]
    {
      assert p.local[ref] == local[ref];
    }
    OneMoreMissing(local, pins);
  }

  lemma {:induction false} NotMissing(local: Local, pins: seq<Pin>, ref: Ref)
    requires forall k :: 0 <= k < |pins| ==> pins[k].ref != ref
    ensures ref !in Missing(local, pins)
  {
    if pins != [] { NotMissing(local, pins[..|pins| - 1], ref); }
  }

  lemma {:induction false} SuccessMeansVerified(local: Local, pins: seq<Pin>, registry: Registry, amd64: bool)
    requires DistinctRefs(pins) && !EnsureAll(local, pins, registry, amd64).failed
    ensures AllThere(EnsureAll(local, pins, registry, amd64), local, pins, amd64)
  {
    if pins != [] {
      var init := pins[..|pins| - 1];
      SuccessMeansVerified(local, init, registry, amd64);
      hide AllThere;
      OneMoreThere(EnsureAll(local, init, registry, amd64), local, pins, registry, amd64);
    }
  }

  function Missing(local: Local, pins: seq<Pin>): seq<Ref> {
    if pins == [] then []
    else
      var last := pins[|pins| - 1];
      Missing(local, pins[..|pins| - 1]) + (if last.ref in local then [] else [last.ref])
  }

  /** For the right platform, with the digest of the index or of that platform. */
  predicate Acceptable(pin: Pin, image: Image, amd64: bool) {
    && image.os == "linux" && image.architecture == (if amd64 then "amd64" else "arm64")
    && image.digests.Some? && (pin.index in image.digests.value || (if amd64 then pin.amd64 else pin.arm64) in image.digests.value)
  }

  lemma VerifiedMeansAcceptable(pin: Pin, image: Image, amd64: bool)
    ensures Verified(pin, image, amd64) <==> Acceptable(pin, image, amd64)
  {
    var platform := if amd64 then pin.amd64 else pin.arm64;
    if image.digests.Some? {
      var both := image.digests.value * {pin.index, platform};
      if pin.index in image.digests.value { assert pin.index in both; }
      if platform in image.digests.value { assert platform in both; }
      if both != {} { var x :| x in both; }
    }
  }

  /** The image can be had: it is there and acceptable, or a pull stores an acceptable one. */
  predicate Obtainable(local: Local, pin: Pin, registry: Registry, amd64: bool) {
    registry.inspectable(pin.ref) &&
    if pin.ref in local then Acceptable(pin, local[pin.ref], amd64)
    else registry.pull(pin.ref).Stores? && Acceptable(pin, registry.pull(pin.ref).image, amd64)
  }

  lemma OneObtained(p: Progress, pin: Pin, registry: Registry, amd64: bool)
    requires !p.failed
    ensures !Ensure(p, pin, registry, amd64).failed <==> Obtainable(p.local, pin, registry, amd64)
    ensures Ensure(p, pin, registry, amd64).pulls == p.pulls + if registry.inspectable(pin.ref) && pin.ref !in p.local then [pin.ref] else []
    ensures forall ref :: ref != pin.ref ==>
              && (ref in Ensure(p, pin, registry, amd64).local <==> ref in p.local)
              && (ref in p.local ==> Ensure(p, pin, registry, amd64).local[ref] == p.local[ref])
  {
    if pin.ref in p.local { VerifiedMeansAcceptable(pin, p.local[pin.ref], amd64); }
    if registry.pull(pin.ref).Stores? { VerifiedMeansAcceptable(pin, registry.pull(pin.ref).image, amd64); }
    hide Verified, Acceptable;
  }

  lemma {:induction false} LocalElsewhere(local: Local, pins: seq<Pin>, registry: Registry, amd64: bool, ref: Ref)
    requires forall k :: 0 <= k < |pins| ==> pins[k].ref != ref
    ensures var p := EnsureAll(local, pins, registry, amd64); (ref in p.local <==> ref in local) && (ref in local ==> p.local[ref] == local[ref])
  {
    if pins != [] {
      var init, last := pins[..|pins| - 1], pins[|pins| - 1];
      LocalElsewhere(local, init, registry, amd64, ref);
      var p := EnsureAll(local, init, registry, amd64);
      hide Obtainable, Verified;
      if !p.failed { OneObtained(p, last, registry, amd64); }
    }
  }

  /** Ensuring all images succeeds if and only if each can be had; what was pulled by then is
      exactly what was missing. */
  lemma {:induction false} SucceedsExactlyWhen(local: Local, pins: seq<Pin>, registry: Registry, amd64: bool)
    requires DistinctRefs(pins)
    ensures !EnsureAll(local, pins, registry, amd64).failed <==> forall k :: 0 <= k < |pins| ==> Obtainable(local, pins[k], registry, amd64)
  {
    if pins != [] {
      var init, last := pins[..|pins| - 1], pins[|pins| - 1];
      SucceedsExactlyWhen(local, init, registry, amd64);
      LocalElsewhere(local, init, registry, amd64, last.ref);
      var p := EnsureAll(local, init, registry, amd64);
      assert Obtainable(p.local, last, registry, amd64) <==> Obtainable(local, last, registry, amd64);
      hide Obtainable, Ensure;
      if !p.failed { OneObtained(p, last, registry, amd64); }
      assert p.failed ==> Ensure(p, last, registry, amd64).failed by { FailedStays(p, last, registry, amd64); }
      assert forall k :: 0 <= k < |init| ==> init[k] == pins[k];
    }
  }

  lemma FailedStays(p: Progress, pin: Pin, registry: Registry, amd64: bool)
    ensures p.failed ==> Ensure(p, pin, registry, amd64) == p
  {
  }

  /** The first image that cannot be had ends it: nothing after it is pulled, and it itself only
      if it was missing. */
  lemma FirstUnobtainable(local: Local, pins: seq<Pin>, registry: Registry, amd64: bool, i: nat)
    requires DistinctRefs(pins) && i < |pins| && !Obtainable(local, pins[i], registry, amd64)
    requires forall k :: 0 <= k < i ==> Obtainable(local, pins[k], registry, amd64)
    ensures EnsureAll(local, pins, registry, amd64).failed
    ensures EnsureAll(local, pins, registry, amd64).pulls ==
            Missing(local, pins[..i]) + (if registry.inspectable(pins[i].ref) && pins[i].ref !in local then [pins[i].ref] else [])
  {
    var init := pins[..i];
    SucceedsExactlyWhen(local, init, registry, amd64);
    SuccessMeansVerified(local, init, registry, amd64);
    LocalElsewhere(local, init, registry, amd64, pins[i].ref);
    var p := EnsureAll(local, init, registry, amd64);
    OneObtained(p, pins[i], registry, amd64);
    assert pins[..i + 1][..i] == init;
    assert Obtainable(p.local, pins[i], registry, amd64) <==> Obtainable(local, pins[i], registry, amd64);
    hide Ensure, Obtainable;
    FailureSticks(local, pins, i + 1, registry, amd64);
  }

  /** Once verified, another run pulls nothing and changes nothing. */
  lemma {:induction false} SecondRunPullsNothing(local: Local, pins: seq<Pin>, registry: Registry, amd64: bool)
    requires forall k :: 0 <= k < |pins| ==> registry.inspectable(pins[k].ref) && pins[k].ref in local && Verified(pins[k], local[pins[k].ref], amd64)
    ensures EnsureAll(local, pins, registry, amd64) == Progress(local, [], seq(|pins|, k => false), false)
  {
    if pins != [] { SecondRunPullsNothing(local, pins[..|pins| - 1], registry, amd64); }
  }

  // ------------------------------------------------------------------ ports

  datatype Publisher = Publisher(hostIp: string, published: nat, target: nat)

  datatype Container = Container(project: string, service: string, publishers: seq<Publisher>)

  datatype Service = Service(name: string, bind: string, port: nat, containerPort: nat)

  /** The workspace's own container already publishes exactly this. */
  predicate AlreadyOurs(state: seq<Container>, project: string, s: Service) {
    exists i, j :: 0 <= i < |state| && 0 <= j < |state[i].publishers| &&
                   state[i].project == project && state[i].service == s.name && state[i].publishers[j] == Publisher(s.bind, s.port, s.containerPort)
  }

  method OwnedPublisherMatches(state: seq<Container>, project: string, s: Service) returns (matches: bool)
    ensures matches <==> AlreadyOurs(state, project, s)
  {
    for i := 0 to |state|
      invariant !AlreadyOurs(state[..i], project, s)
    {
      if state[i].project != project || state[i].service != s.name { continue; }
      for j := 0 to |state[i].publishers|
        invariant forall k :: 0 <= k < j ==> state[i].publishers[k] != Publisher(s.bind, s.port, s.containerPort)
      {
        if state[i].publishers[j] == Publisher(s.bind, s.port, s.containerPort) { return true; }
      }
    }
    assert state[..|state|] == state;
    matches := false;
  }

  predicate Available(state: seq<Container>, project: string, s: Service, bindable: (string, nat) -> bool) {
    AlreadyOurs(state, project, s) || bindable(s.bind, s.port)
  }

  /** The first service whose port is neither ours already nor free. */
  method PreflightPorts(state: seq<Container>, project: string, services: seq<Service>, bindable: (string, nat) -> bool) returns (conflict: Option<nat>)
    ensures conflict.None? <==> forall k :: 0 <= k < |services| ==> Available(state, project, services[k], bindable)
    ensures conflict.Some? ==>
              && conflict.value < |services| && !Available(state, project, services[conflict.value], bindable)
              && forall k :: 0 <= k < conflict.value ==> Available(state, project, services[k], bindable)
  {
    hide AlreadyOurs;
    for i := 0 to |services|
      invariant forall k :: 0 <= k < i ==> Available(state, project, services[k], bindable)
    {
      var ours := OwnedPublisherMatches(state, project, services[i]);
      if ours { continue; }
      if !bindable(services[i].bind, services[i].port) { return Some(i); }
    }
    conflict := None;
  }

  /** A running environment passes its own preflight although none of its ports can be bound:
      starting it again does not conflict with itself. */
  lemma RestartDoesNotConflictWithItself(state: seq<Container>, project: string, services: seq<Service>, bindable: (string, nat) -> bool)
    requires forall k :: 0 <= k < |services| ==>
               exists i :: 0 <= i < |state| && state[i].project == project && state[i].service == services[k].name &&
                           Publisher(services[k].bind, services[k].port, services[k].containerPort) in state[i].publishers
    ensures forall k :: 0 <= k < |services| ==> Available(state, project, services[k], bindable)
  {
    forall k | 0 <= k < |services|
      ensures Available(state, project, services[k], bindable)
    {
      var i :| 0 <= i < |state| && state[i].project == project && state[i].service == services[k].name &&
               Publisher(services[k].bind, services[k].port, services[k].containerPort) in state[i].publishers;
      var j :| 0 <= j < |state[i].publishers| && state[i].publishers[j] == Publisher(services[k].bind, services[k].port, services[k].containerPort);
    }
  }
}
