/** The registration limiter: fixed windows in Redis, per address and per phone number, and its
    in-process stand-in. Times are in any unit, the same as the window's. */
module RateLimit {
  import opened Wrappers

  /** `reg:rl:ip:` and `reg:rl:phone:` keys never coincide. */
  datatype Key = Ip(address: string) | Phone(number: string)

  datatype Counter = Counter(count: nat, expiresAt: int)

  type Store = map<Key, Counter>

  /** `edge`: whether a key still exists in the very instant it is due to expire; what follows
      holds either way. */
  datatype Limits = Limits(ip: nat, phone: nat, window: nat, edge: bool)

  /** A failing backend: the round trip of one dimension is lost, applied or not. */
  datatype Fault = NoFault | IpLost(applied: bool) | PhoneLost(applied: bool)

  datatype Call = Call(ip: string, phone: Option<string>, now: int, fault: Fault)

  /** Unavailable is the raised RateLimitBackendUnavailable: the caller refuses. */
  datatype Decision = Allowed | Denied(dimension: Dimension) | Unavailable

  datatype Dimension = ByIp | ByPhone

  predicate Live(limits: Limits, c: Counter, now: int) {
    now < c.expiresAt || (limits.edge && now == c.expiresAt)
  }

  /** INCR and EXPIRE NX in one transaction. */
  function Bump(store: Store, key: Key, limits: Limits, now: int): Store {
    if key in store && Live(limits, store[key], now)
    then store[key := Counter(store[key].count + 1, store[key].expiresAt)]
    else store[key := Counter(1, now + limits.window)]
  }

  function StepPhone(store: Store, limits: Limits, call: Call): (Store, Decision) {
    if call.phone.None? then (store, Allowed)
    else
      var bumped := Bump(store, Phone(call.phone.value), limits, call.now);
      if call.fault.PhoneLost? then (if call.fault.applied then bumped else store, Unavailable)
      else (bumped, if bumped[Phone(call.phone.value)].count > limits.phone then Denied(ByPhone) else Allowed)
  }

  function Step(store: Store, limits: Limits, call: Call): (Store, Decision) {
    var bumped := Bump(store, Ip(call.ip), limits, call.now);
    if call.fault.IpLost? then (if call.fault.applied then bumped else store, Unavailable)
    else if bumped[Ip(call.ip)].count > limits.ip then (bumped, Denied(ByIp))
    else StepPhone(bumped, limits, call)
  }

  class RedisRateLimiter {
    var store: Store
    const limits: Limits

    constructor (limits: Limits)
      ensures store == map[] && this.limits == limits
    {
      store, this.limits := map[], limits;
    }

    /** None when the round trip is lost. */
    method IncrWindow(key: Key, now: int, lost: bool, applied: bool) returns (count: Option<nat>)
      modifies this
      ensures store == if lost && !applied then old(store) else Bump(old(store), key, limits, now)
      ensures count == if lost then None else Some(store[key].count)
    {
      if lost && !applied { return None; }
      if key in store && Live(limits, store[key], now) {
        store := store[key := Counter(store[key].count + 1, store[key].expiresAt)];
      } else {
        store := store[key := Counter(1, now + limits.window)];
      }
      count := if lost then None else Some(store[key].count);
    }

    method CheckAndIncrement(call: Call) returns (d: Decision)
      modifies this
      ensures (store, d) == Step(old(store), limits, call)
    {
      var ipCount := IncrWindow(Ip(call.ip), call.now, call.fault.IpLost?, call.fault.IpLost? && call.fault.applied);
      if ipCount.None? { return Unavailable; }
      if ipCount.value > limits.ip { return Denied(ByIp); }
      if call.phone.Some? {
        var phoneCount :=
          IncrWindow(Phone(call.phone.value), call.now, call.fault.PhoneLost?, call.fault.PhoneLost? && call.fault.applied);
        if phoneCount.None? { return Unavailable; }
        if phoneCount.value > limits.phone { return Denied(ByPhone); }
      }
      d := Allowed;
    }
  }

  // ------------------------------------------------------------------ the sliding bound

  function Execute(store: Store, limits: Limits, calls: seq<Call>): Store
    decreases |calls|
  {
    if calls == [] then store else Execute(Step(store, limits, calls[0]).0, limits, calls[1..])
  }

  function Decisions(store: Store, limits: Limits, calls: seq<Call>): (ds: seq<Decision>)
    ensures |ds| == |calls|
    decreases |calls|
  {
    if calls == [] then []
    else
      var (next, d) := Step(store, limits, calls[0]);
      [d] + Decisions(next, limits, calls[1..])
  }

  predicate Monotone(calls: seq<Call>) {
    forall i, j :: 0 <= i < j < |calls| ==> calls[i].now <= calls[j].now
  }

  predicate Charges(call: Call, key: Key) {
    match key
    case Ip(address) => call.ip == address
    case Phone(number) => call.phone == Some(number)
  }

  function Limit(limits: Limits, key: Key): nat {
    if key.Ip? then limits.ip else limits.phone
  }

  predicate Within(t: int, from: int, limits: Limits) {
    from <= t < from + limits.window
  }

  /** Calls charged to one key that were let through in `[from, from + window)`. */
  function AllowedIn(store: Store, limits: Limits, calls: seq<Call>, key: Key, from: int): nat
    decreases |calls|
  {
    if calls == [] then 0
    else
      var (next, d) := Step(store, limits, calls[0]);
      (if d.Allowed? && Charges(calls[0], key) && Within(calls[0].now, from, limits) then 1 else 0) +
      AllowedIn(next, limits, calls[1..], key, from)
  }

  function Room(limit: nat, used: nat): nat { if used < limit then limit - used else 0 }

  function Excess(limit: nat): nat { if limit == 0 then 0 else 2 * limit - 1 }

  /** What an interval can still admit, seen from its start on. */
  function Bound(store: Store, limits: Limits, key: Key, from: int): nat {
    var limit := Limit(limits, key);
    if key !in store then limit
    else if store[key].expiresAt >= from + limits.window then Room(limit, store[key].count)
    else Room(limit, store[key].count) + limit
  }

  /** How one call treats one key: not at all, or one more in the running or in a new window. */
  lemma StepOnKey(store: Store, limits: Limits, call: Call, key: Key)
    ensures var (next, d) := Step(store, limits, call);
            var bumped := Bump(store, key, limits, call.now);
            && (key in next ==> key in bumped)
            && (((key in next <==> key in store) && (key in store ==> next[key] == store[key])) || (key in next && next[key] == bumped[key]))
            && (d.Allowed? && Charges(call, key) ==> key in next && next[key] == bumped[key] && bumped[key].count <= Limit(limits, key))
  {
  }

  lemma {:induction false} NothingAfterTheInterval(store: Store, limits: Limits, calls: seq<Call>, key: Key, from: int)
    requires forall k :: 0 <= k < |calls| ==> calls[k].now >= from + limits.window
    ensures AllowedIn(store, limits, calls, key, from) == 0
    decreases |calls|
  {
    if calls != [] {
      NothingAfterTheInterval(Step(store, limits, calls[0]).0, limits, calls[1..], key, from);
    }
  }

  /** From the start of an interval on: at most what the running window has left, and one more
      window if the running one began before the interval. */
  lemma {:induction false} BoundFromTheStart(store: Store, limits: Limits, calls: seq<Call>, key: Key, from: int)
    requires Monotone(calls) && forall k :: 0 <= k < |calls| ==> calls[k].now >= from
    ensures AllowedIn(store, limits, calls, key, from) <= Bound(store, limits, key, from)
    decreases |calls|
  {
    if calls != [] {
      var next := Step(store, limits, calls[0]).0;
      StepOnKey(store, limits, calls[0], key);
      if calls[0].now >= from + limits.window {
        NothingAfterTheInterval(store, limits, calls, key, from);
      } else {
        BoundFromTheStart(next, limits, calls[1..], key, from);
      }
    }
  }

  /** The key's running window, if any, began before `from`. */
  predicate BeganBefore(store: Store, limits: Limits, key: Key, from: int) {
    key in store ==> store[key].count >= 1 && store[key].expiresAt < from + limits.window
  }

  lemma {:induction false} BoundFromBefore(store: Store, limits: Limits, calls: seq<Call>, key: Key, from: int)
    requires Monotone(calls) && BeganBefore(store, limits, key, from)
    ensures AllowedIn(store, limits, calls, key, from) <= Excess(Limit(limits, key))
    decreases |calls|
  {
    if calls != [] {
      if calls[0].now >= from {
        BoundFromTheStart(store, limits, calls, key, from);
      } else {
        StepOnKey(store, limits, calls[0], key);
        BoundFromBefore(Step(store, limits, calls[0]).0, limits, calls[1..], key, from);
      }
    }
  }

  /** Any half-open interval of one window's length lets through at most twice the limit less
      one, on each address and on each number, whatever the backend loses on the way. */
  lemma SlidingBound(limits: Limits, calls: seq<Call>, key: Key, from: int)
    requires Monotone(calls)
    ensures AllowedIn(map[], limits, calls, key, from) <= Excess(Limit(limits, key))
  {
    BoundFromBefore(map[], limits, calls, key, from);
  }

  /** An interval that starts with no window running lets through at most the limit. */
  lemma {:induction false} WindowBound(store: Store, limits: Limits, calls: seq<Call>, key: Key, from: int)
    requires Monotone(calls) && (forall k :: 0 <= k < |calls| ==> calls[k].now >= from)
    requires key in store ==> !Live(limits, store[key], from)
    ensures AllowedIn(store, limits, calls, key, from) <= Limit(limits, key)
    decreases |calls|
  {
    if calls != [] {
      var next := Step(store, limits, calls[0]).0;
      StepOnKey(store, limits, calls[0], key);
      if calls[0].now >= from + limits.window {
        NothingAfterTheInterval(store, limits, calls, key, from);
      } else if (key in next <==> key in store) && (key in store ==> next[key] == store[key]) {
        WindowBound(next, limits, calls[1..], key, from);
      } else {
        BoundFromTheStart(next, limits, calls[1..], key, from);
      }
    }
  }

  // ------------------------------------------------------------------ workers that interleave

  /** Before the address is charged, between the two round trips, and after the verdict. */
  datatype Stage = Fresh | Between | Decided(decision: Decision)

  datatype Worker = Worker(ip: string, phone: Option<string>, stage: Stage)

  /** One store, and any number of calls on their way. */
  datatype System = System(store: Store, workers: map<nat, Worker>)

  /** One round trip of one call; a lost one may have been applied. */
  datatype Trip = Trip(id: nat, now: int, lost: bool, applied: bool)

  predicate Travelling(w: Worker) { w.stage.Fresh? || (w.stage.Between? && w.phone.Some?) }

  function KeyOf(w: Worker): Key
    requires Travelling(w)
  {
    if w.stage.Fresh? then Ip(w.ip) else Phone(w.phone.value)
  }

  function AfterTrip(w: Worker, limits: Limits, count: Option<nat>): Stage {
    if count.None? then Decided(Unavailable)
    else if w.stage.Fresh? then
      if count.value > limits.ip then Decided(Denied(ByIp)) else if w.phone.Some? then Between else Decided(Allowed)
    else if count.value > limits.phone then Decided(Denied(ByPhone)) else Decided(Allowed)
  }

  predicate CanTravel(s: System, t: Trip) { t.id in s.workers && Travelling(s.workers[t.id]) }

  function Travel(s: System, limits: Limits, t: Trip): System
    requires CanTravel(s, t)
  {
    var w := s.workers[t.id];
    var bumped := Bump(s.store, KeyOf(w), limits, t.now);
    var count := if t.lost then None else Some(bumped[KeyOf(w)].count);
    System(if t.lost && !t.applied then s.store else bumped, s.workers[t.id := w.(stage := AfterTrip(w, limits, count))])
  }

  /** Any order of the round trips of any calls. */
  predicate Interleaves(s: System, limits: Limits, trips: seq<Trip>)
    decreases |trips|
  {
    trips == [] || (CanTravel(s, trips[0]) && Interleaves(Travel(s, limits, trips[0]), limits, trips[1..]))
  }

  function End(s: System, limits: Limits, trips: seq<Trip>): System
    requires Interleaves(s, limits, trips)
    decreases |trips|
  {
    if trips == [] then s else End(Travel(s, limits, trips[0]), limits, trips[1..])
  }

  /** The trip charges this key within the interval. */
  predicate ChargesIn(s: System, limits: Limits, t: Trip, key: Key, from: int)
    requires CanTravel(s, t)
  {
    KeyOf(s.workers[t.id]) == key && Within(t.now, from, limits)
  }

  predicate Passes(s: System, limits: Limits, t: Trip, key: Key, from: int)
    requires CanTravel(s, t)
  {
    ChargesIn(s, limits, t, key, from) && !t.lost && Bump(s.store, key, limits, t.now)[key].count <= Limit(limits, key)
  }

  /** The calls that charge a key within the interval. */
  function Chargers(s: System, limits: Limits, trips: seq<Trip>, key: Key, from: int): set<nat>
    requires Interleaves(s, limits, trips)
    decreases |trips|
  {
    if trips == [] then {}
    else (if ChargesIn(s, limits, trips[0], key, from) then {trips[0].id} else {}) + Chargers(Travel(s, limits, trips[0]), limits, trips[1..], key, from)
  }

  function PassedTrips(s: System, limits: Limits, trips: seq<Trip>, key: Key, from: int): nat
    requires Interleaves(s, limits, trips)
    decreases |trips|
  {
    if trips == [] then 0
    else (if Passes(s, limits, trips[0], key, from) then 1 else 0) + PassedTrips(Travel(s, limits, trips[0]), limits, trips[1..], key, from)
  }

  /** The `k`th trip is this call's, and charges the key within the interval. */
  predicate ChargesAt(s: System, limits: Limits, trips: seq<Trip>, key: Key, from: int, k: nat, id: nat)
    requires Interleaves(s, limits, trips) && k < |trips|
    decreases |trips|
  {
    if k == 0 then trips[0].id == id && ChargesIn(s, limits, trips[0], key, from)
    else ChargesAt(Travel(s, limits, trips[0]), limits, trips[1..], key, from, k - 1, id)
  }

  /** Exactly these calls charge it. */
  lemma ChargersAre(s: System, limits: Limits, trips: seq<Trip>, key: Key, from: int, id: nat)
    requires Interleaves(s, limits, trips)
    ensures id in Chargers(s, limits, trips, key, from) <==> exists k: nat :: k < |trips| && ChargesAt(s, limits, trips, key, from, k, id)
  {
    if id in Chargers(s, limits, trips, key, from) {
      var k := ChargerCharges(s, limits, trips, key, from, id);
    }
    if k: nat :| k < |trips| && ChargesAt(s, limits, trips, key, from, k, id) {
      ChargesMeansCharger(s, limits, trips, key, from, k, id);
      assert exists j: nat :: j < |trips| && ChargesAt(s, limits, trips, key, from, j, id);
    }
  }

  lemma {:induction false} ChargerCharges(s: System, limits: Limits, trips: seq<Trip>, key: Key, from: int, id: nat) returns (k: nat)
    requires Interleaves(s, limits, trips) && id in Chargers(s, limits, trips, key, from)
    ensures k < |trips| && ChargesAt(s, limits, trips, key, from, k, id)
    decreases |trips|
  {
    if trips[0].id == id && ChargesIn(s, limits, trips[0], key, from) {
      k := 0;
    } else {
      var j := ChargerCharges(Travel(s, limits, trips[0]), limits, trips[1..], key, from, id);
      k := j + 1;
    }
  }

  lemma {:induction false} ChargesMeansCharger(s: System, limits: Limits, trips: seq<Trip>, key: Key, from: int, k: nat, id: nat)
    requires Interleaves(s, limits, trips) && k < |trips| && ChargesAt(s, limits, trips, key, from, k, id)
    ensures id in Chargers(s, limits, trips, key, from)
    decreases |trips|
  {
    if k > 0 { ChargesMeansCharger(Travel(s, limits, trips[0]), limits, trips[1..], key, from, k - 1, id); }
  }

  /** The calls among them that are let through in the end. */
  function LetThrough(s: System, limits: Limits, trips: seq<Trip>, key: Key, from: int): set<nat>
    requires Interleaves(s, limits, trips)
  {
    var end := End(s, limits, trips);
    set id | id in Chargers(s, limits, trips, key, from) && id in end.workers && end.workers[id].stage == Decided(Allowed)
  }

  lemma {:induction false} DecidedStays(s: System, limits: Limits, trips: seq<Trip>, id: nat)
    requires Interleaves(s, limits, trips) && id in s.workers && s.workers[id].stage.Decided?
    ensures id in End(s, limits, trips).workers && End(s, limits, trips).workers[id] == s.workers[id]
    decreases |trips|
  {
    if trips != [] { DecidedStays(Travel(s, limits, trips[0]), limits, trips[1..], id); }
  }

  /** Each call let through has passed a trip of its own. */
  lemma {:induction false} LetThroughPassed(s: System, limits: Limits, trips: seq<Trip>, key: Key, from: int)
    requires Interleaves(s, limits, trips)
    ensures |LetThrough(s, limits, trips, key, from)| <= PassedTrips(s, limits, trips, key, from)
    decreases |trips|
  {
    if trips != [] {
      var t := trips[0];
      var next := Travel(s, limits, t);
      LetThroughPassed(next, limits, trips[1..], key, from);
      var later := LetThrough(next, limits, trips[1..], key, from);
      var all := LetThrough(s, limits, trips, key, from);
      if Passes(s, limits, t, key, from) {
        SubsetSize(all, later + {t.id});
      } else {
        if ChargesIn(s, limits, t, key, from) { DecidedStays(next, limits, trips[1..], t.id); }
        SubsetSize(all, later);
      }
    }
  }

  lemma SubsetSize(a: set<nat>, b: set<nat>)
    requires a <= b
    ensures |a| <= |b|
  {
    assert b == a + (b - a);
  }

  predicate InOrder(trips: seq<Trip>) {
    forall i, j :: 0 <= i < j < |trips| ==> trips[i].now <= trips[j].now
  }

  /** How one trip treats one key: not at all, or one more in the running or in a new window. */
  lemma TripOnKey(s: System, limits: Limits, t: Trip, key: Key)
    requires CanTravel(s, t)
    ensures var next, bumped := Travel(s, limits, t).store, Bump(s.store, key, limits, t.now);
            && (((key in next <==> key in s.store) && (key in s.store ==> next[key] == s.store[key])) || (key in next && next[key] == bumped[key]))
            && (forall from :: Passes(s, limits, t, key, from) ==> key in next && next[key] == bumped[key])
  {
  }

  lemma {:induction false} NoTripsAfterwards(s: System, limits: Limits, trips: seq<Trip>, key: Key, from: int)
    requires Interleaves(s, limits, trips) && forall k :: 0 <= k < |trips| ==> trips[k].now >= from + limits.window
    ensures PassedTrips(s, limits, trips, key, from) == 0
    decreases |trips|
  {
    if trips != [] { NoTripsAfterwards(Travel(s, limits, trips[0]), limits, trips[1..], key, from); }
  }

  lemma {:induction false} TripsFromTheStart(s: System, limits: Limits, trips: seq<Trip>, key: Key, from: int)
    requires Interleaves(s, limits, trips) && InOrder(trips) && forall k :: 0 <= k < |trips| ==> trips[k].now >= from
    ensures PassedTrips(s, limits, trips, key, from) <= Bound(s.store, limits, key, from)
    decreases |trips|
  {
    if trips != [] {
      if trips[0].now >= from + limits.window {
        NoTripsAfterwards(s, limits, trips, key, from);
      } else {
        TripOnKey(s, limits, trips[0], key);
        var next := Travel(s, limits, trips[0]);
        TripsFromTheStart(next, limits, trips[1..], key, from);
        hide Travel, KeyOf, AfterTrip;
      }
    }
  }

  lemma {:induction false} TripsFromBefore(s: System, limits: Limits, trips: seq<Trip>, key: Key, from: int)
    requires Interleaves(s, limits, trips) && InOrder(trips) && BeganBefore(s.store, limits, key, from)
    ensures PassedTrips(s, limits, trips, key, from) <= Excess(Limit(limits, key))
    decreases |trips|
  {
    if trips != [] {
      if trips[0].now >= from {
        TripsFromTheStart(s, limits, trips, key, from);
      } else {
        TripOnKey(s, limits, trips[0], key);
        TripsFromBefore(Travel(s, limits, trips[0]), limits, trips[1..], key, from);
      }
    }
  }

  /** The sliding bound survives every interleaving of the round trips of any number of calls:
      of those that charge a key within an interval of one window's length, no more than twice
      the limit less one are let through. */
  lemma InterleavedBound(s: System, limits: Limits, trips: seq<Trip>, key: Key, from: int)
    requires s.store == map[] && Interleaves(s, limits, trips) && InOrder(trips)
    ensures |LetThrough(s, limits, trips, key, from)| <= Excess(Limit(limits, key))
  {
    LetThroughPassed(s, limits, trips, key, from);
    TripsFromBefore(s, limits, trips, key, from);
  }

  /** The trips of a call that nobody comes between. */
  function TripsOf(id: nat, call: Call, store: Store, limits: Limits): seq<Trip> {
    var first := Trip(id, call.now, call.fault.IpLost?, call.fault.IpLost? && call.fault.applied);
    var second := Trip(id, call.now, call.fault.PhoneLost?, call.fault.PhoneLost? && call.fault.applied);
    if call.phone.Some? && !first.lost && Bump(store, Ip(call.ip), limits, call.now)[Ip(call.ip)].count <= limits.ip
    then [first, second] else [first]
  }

  /** Undisturbed, the trips of a call come to what the call comes to. */
  lemma UndisturbedTrips(s: System, limits: Limits, id: nat, call: Call)
    requires id in s.workers && s.workers[id] == Worker(call.ip, call.phone, Fresh)
    ensures var trips, (next, d) := TripsOf(id, call, s.store, limits), Step(s.store, limits, call);
            Interleaves(s, limits, trips) && End(s, limits, trips) == System(next, s.workers[id := s.workers[id].(stage := Decided(d))])
  {
    var trips, d := TripsOf(id, call, s.store, limits), Step(s.store, limits, call).1;
    var one := Travel(s, limits, trips[0]);
    if |trips| == 2 {
      assert trips[1..] == [trips[1]] && trips[1..][1..] == [];
      var two := Travel(one, limits, trips[1]);
      assert two.workers[id] == s.workers[id].(stage := Decided(d));
      assert two.workers == s.workers[id := two.workers[id]];
      assert End(one, limits, trips[1..]) == End(two, limits, []);
    } else {
      assert trips[1..] == [];
      assert one.workers[id] == s.workers[id].(stage := Decided(d));
    }
  }

  // ------------------------------------------------------------------ the bound is reached

  const ADDRESS := "a"

  function At(now: int): Call { Call(ADDRESS, None, now, NoFault) }

  function Repeat(now: int, n: nat): seq<Call> { seq(n, k => At(now)) }

  lemma FirstCall(store: Store, limits: Limits, now: int, later: seq<Call>, from: int)
    ensures var next := Bump(store, Ip(ADDRESS), limits, now);
            next[Ip(ADDRESS)].count <= limits.ip ==>
              AllowedIn(store, limits, [At(now)] + later, Ip(ADDRESS), from) ==
              (if Within(now, from, limits) then 1 else 0) + AllowedIn(next, limits, later, Ip(ADDRESS), from)
  {
    assert ([At(now)] + later)[1..] == later;
  }

  /** `n` calls at one time, all of which fit. */
  lemma {:induction false} RepeatedCalls(store: Store, c: Counter, limits: Limits, now: int, n: nat, later: seq<Call>, from: int)
    requires Live(limits, c, now) && c.count + n <= limits.ip
    ensures AllowedIn(store[Ip(ADDRESS) := c], limits, Repeat(now, n) + later, Ip(ADDRESS), from) ==
            (if Within(now, from, limits) then n else 0) +
            AllowedIn(store[Ip(ADDRESS) := Counter(c.count + n, c.expiresAt)], limits, later, Ip(ADDRESS), from)
    decreases n
  {
    hide AllowedIn;
    if n == 0 {
      assert Repeat(now, 0) + later == later;
    } else {
      var charged := Counter(c.count + 1, c.expiresAt);
      var rest := Repeat(now, n - 1) + later;
      assert Repeat(now, n) + later == [At(now)] + rest;
      FirstCall(store[Ip(ADDRESS) := c], limits, now, rest, from);
      assert store[Ip(ADDRESS) := c][Ip(ADDRESS) := charged] == store[Ip(ADDRESS) := charged];
      RepeatedCalls(store, charged, limits, now, n - 1, later, from);
    }
  }

  /** One call opens a window; the rest of its limit is spent just before it ends, the whole of
      the next limit just after. */
  function Burst(limits: Limits): seq<Call>
    requires limits.ip >= 1
  {
    var w := limits.window as int;
    [At(0)] + (Repeat(w - 1, limits.ip - 1) + ([At(w + 1)] + (Repeat(w + 1, limits.ip - 1) + [])))
  }

  /** No smaller bound holds: for every positive limit some interval lets through twice the
      limit less one. */
  lemma BoundIsReached(limits: Limits)
    requires limits.ip >= 1 && limits.window >= 3
    ensures Monotone(Burst(limits))
    ensures AllowedIn(map[], limits, Burst(limits), Ip(ADDRESS), limits.window - 1) == Excess(limits.ip)
  {
    hide AllowedIn;
    var w, key, from, n := limits.window as int, Ip(ADDRESS), limits.window - 1, limits.ip - 1;
    var fourth := Repeat(w + 1, n) + [];
    var second := Repeat(w - 1, n) + ([At(w + 1)] + fourth);
    FirstCall(map[], limits, 0, second, from);
    RepeatedCalls(map[], Counter(1, w), limits, w - 1, n, [At(w + 1)] + fourth, from);
    var spent: Store := map[][key := Counter(limits.ip, w)];
    FirstCall(spent, limits, w + 1, fourth, from);
    assert spent[key := Counter(1, w + 1 + w)] == map[][key := Counter(1, w + 1 + w)];
    RepeatedCalls(map[], Counter(1, w + 1 + w), limits, w + 1, n, [], from);
    NothingLeft(limits, from);
  }

  lemma NothingLeft(limits: Limits, from: int)
    ensures forall store :: AllowedIn(store, limits, [], Ip(ADDRESS), from) == 0
  {
  }

  // ------------------------------------------------------------------ the in-process stand-in

  /** `fail` simulates a backend that is down. */
  class MemoryRateLimiter {
    const ipLimit: nat
    const phoneLimit: nat
    const fail: bool
    var ips: map<string, nat>
    var phones: map<string, nat>

    constructor (ipLimit: nat, phoneLimit: nat, fail: bool)
      ensures ips == map[] && phones == map[]
      ensures this.ipLimit == ipLimit && this.phoneLimit == phoneLimit && this.fail == fail
    {
      this.ipLimit, this.phoneLimit, this.fail, ips, phones := ipLimit, phoneLimit, fail, map[], map[];
    }

    method CheckAndIncrement(ip: string, phone: Option<string>) returns (d: Decision)
      modifies this
      ensures fail ==> d == Unavailable && ips == old(ips) && phones == old(phones)
      ensures !fail ==> (Tally(ips, phones), d) == Count(Tally(old(ips), old(phones)), ipLimit, phoneLimit, ip, phone)
    {
      if fail { return Unavailable; }
      ips := ips[ip := (if ip in ips then ips[ip] else 0) + 1];
      if ips[ip] > ipLimit { return Denied(ByIp); }
      if phone.Some? {
        phones := phones[phone.value := (if phone.value in phones then phones[phone.value] else 0) + 1];
        if phones[phone.value] > phoneLimit { return Denied(ByPhone); }
      }
      d := Allowed;
    }
  }

  datatype Tally = Tally(ips: map<string, nat>, phones: map<string, nat>)

  function Get(m: map<string, nat>, k: string): nat { if k in m then m[k] else 0 }

  function Count(t: Tally, ipLimit: nat, phoneLimit: nat, ip: string, phone: Option<string>): (Tally, Decision) {
    var charged := t.(ips := t.ips[ip := Get(t.ips, ip) + 1]);
    if charged.ips[ip] > ipLimit then (charged, Denied(ByIp))
    else if phone.None? then (charged, Allowed)
    else
      var both := charged.(phones := t.phones[phone.value := Get(t.phones, phone.value) + 1]);
      (both, if both.phones[phone.value] > phoneLimit then Denied(ByPhone) else Allowed)
  }

  function Counted(t: Tally, ipLimit: nat, phoneLimit: nat, calls: seq<Call>): seq<Decision>
    decreases |calls|
  {
    if calls == [] then []
    else
      var (next, d) := Count(t, ipLimit, phoneLimit, calls[0].ip, calls[0].phone);
      [d] + Counted(next, ipLimit, phoneLimit, calls[1..])
  }

  /** The store holds the same counts, none of which expires before `until`. */
  ghost predicate Agrees(store: Store, t: Tally, until: int) {
    && (forall ip :: Ip(ip) in store <==> ip in t.ips)
    && (forall ip :: ip in t.ips ==> store[Ip(ip)].count == t.ips[ip] && store[Ip(ip)].expiresAt >= until)
    && (forall number :: Phone(number) in store <==> number in t.phones)
    && (forall number :: number in t.phones ==> store[Phone(number)].count == t.phones[number] && store[Phone(number)].expiresAt >= until)
  }

  lemma StepAgrees(store: Store, t: Tally, limits: Limits, call: Call, begun: int)
    requires Agrees(store, t, begun + limits.window)
    requires begun <= call.now < begun + limits.window && call.fault.NoFault?
    ensures var (next, d) := Step(store, limits, call);
            var (next', d') := Count(t, limits.ip, limits.phone, call.ip, call.phone);
            d == d' && Agrees(next, next', begun + limits.window)
  {
    var until := begun + limits.window;
    IpAgrees(store, t, limits, call.ip, call.now, until);
    hide Agrees;
    if call.phone.Some? {
      PhoneAgrees(Bump(store, Ip(call.ip), limits, call.now), t.(ips := t.ips[call.ip := Get(t.ips, call.ip) + 1]), limits, call.phone.value, call.now, until);
    }
    hide Bump, Get;
  }

  lemma IpAgrees(store: Store, t: Tally, limits: Limits, ip: string, now: int, until: int)
    requires Agrees(store, t, until) && now < until <= now + limits.window
    ensures var bumped, charged := Bump(store, Ip(ip), limits, now), t.(ips := t.ips[ip := Get(t.ips, ip) + 1]);
            Agrees(bumped, charged, until) && bumped[Ip(ip)].count == charged.ips[ip]
  {
  }

  lemma PhoneAgrees(store: Store, t: Tally, limits: Limits, number: string, now: int, until: int)
    requires Agrees(store, t, until) && now < until <= now + limits.window
    ensures var bumped, charged := Bump(store, Phone(number), limits, now), t.(phones := t.phones[number := Get(t.phones, number) + 1]);
            Agrees(bumped, charged, until) && bumped[Phone(number)].count == charged.phones[number]
  {
  }

  /** As long as no window can have ended, both limiters decide every sequence of calls alike. */
  lemma {:induction false} MemoryRefinesRedis(store: Store, t: Tally, limits: Limits, calls: seq<Call>, begun: int)
    requires Agrees(store, t, begun + limits.window)
    requires forall k :: 0 <= k < |calls| ==> begun <= calls[k].now < begun + limits.window && calls[k].fault.NoFault?
    ensures Counted(t, limits.ip, limits.phone, calls) == Decisions(store, limits, calls)
    decreases |calls|
  {
    if calls != [] {
      StepAgrees(store, t, limits, calls[0], begun);
      MemoryRefinesRedis(Step(store, limits, calls[0]).0, Count(t, limits.ip, limits.phone, calls[0].ip, calls[0].phone).0,
                         limits, calls[1..], begun);
    }
  }

  lemma {:induction false} FreshLimitersAgree(limits: Limits, calls: seq<Call>, begun: int)
    requires forall k :: 0 <= k < |calls| ==> begun <= calls[k].now < begun + limits.window && calls[k].fault.NoFault?
    ensures Counted(Tally(map[], map[]), limits.ip, limits.phone, calls) == Decisions(map[], limits, calls)
  {
    MemoryRefinesRedis(map[], Tally(map[], map[]), limits, calls, begun);
  }

  /** What a key's count will be: one more in a running window, else the first. */
  function NextCount(store: Store, key: Key, limits: Limits, now: int): nat {
    if Running(store, key, limits, now) then store[key].count + 1 else 1
  }

  predicate Running(store: Store, key: Key, limits: Limits, now: int) {
    key in store && (now < store[key].expiresAt || (limits.edge && now == store[key].expiresAt))
  }

  /** A charged key counts one more and keeps its window, or opens one of full length. */
  lemma ChargedKey(store: Store, key: Key, limits: Limits, now: int)
    ensures var bumped := Bump(store, key, limits, now);
            && key in bumped && bumped[key].count == NextCount(store, key, limits, now)
            && bumped[key].expiresAt == (if Running(store, key, limits, now) then store[key].expiresAt else now + limits.window)
            && forall other :: other != key ==> (other in bumped <==> other in store) && (other in store ==> bumped[other] == store[other])
  {
  }

  /** The decision, by the counts of both keys and by what is lost: the address first. */
  lemma DecidesExactly(store: Store, limits: Limits, call: Call)
    ensures var d := Step(store, limits, call).1;
            var ips := NextCount(store, Ip(call.ip), limits, call.now);
            var phones := if call.phone.Some? then NextCount(store, Phone(call.phone.value), limits, call.now) else 0;
            && (d == Denied(ByIp) <==> !call.fault.IpLost? && ips > limits.ip)
            && (d == Denied(ByPhone) <==>
                  !call.fault.IpLost? && ips <= limits.ip && call.phone.Some? && !call.fault.PhoneLost? && phones > limits.phone)
            && (d == Unavailable <==>
                  call.fault.IpLost? || (ips <= limits.ip && call.phone.Some? && call.fault.PhoneLost?))
  {
  }

  /** Exactly the keys charged change: the address unless its round trip was lost unapplied, the
      number only after an address that passed. */
  lemma ChargesExactly(store: Store, limits: Limits, call: Call, key: Key)
    ensures var next := Step(store, limits, call).0;
            var charged := match key
                           case Ip(address) => address == call.ip && (call.fault.IpLost? ==> call.fault.applied)
                           case Phone(number) =>
                             && call.phone == Some(number) && !call.fault.IpLost? && (call.fault.PhoneLost? ==> call.fault.applied)
                             && NextCount(store, Ip(call.ip), limits, call.now) <= limits.ip;
            if charged then key in next && next[key] == Bump(store, key, limits, call.now)[key]
            else (key in next <==> key in store) && (key in store ==> next[key] == store[key])
  {
  }

  /** The address is charged for every call that reaches the backend, also when the number is
      what refuses it; a refused address never charges the number. */
  lemma AddressIsAlwaysCharged(store: Store, limits: Limits, call: Call, number: string)
    requires call.fault.NoFault?
    ensures var (next, d) := Step(store, limits, call);
            && next[Ip(call.ip)] == Bump(store, Ip(call.ip), limits, call.now)[Ip(call.ip)]
            && (Phone(number) in next && !(Phone(number) in store && next[Phone(number)] == store[Phone(number)]) ==>
                  d != Denied(ByIp) && call.phone == Some(number))
    ensures Step(store, limits, call).1.Allowed? <==>
            Bump(store, Ip(call.ip), limits, call.now)[Ip(call.ip)].count <= limits.ip &&
            (call.phone.Some? ==> Bump(store, Phone(call.phone.value), limits, call.now)[Phone(call.phone.value)].count <= limits.phone)
  {
  }
}
