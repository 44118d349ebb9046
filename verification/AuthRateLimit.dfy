/** The login-code limiters: the atomic Lua script over two sorted sets (a true rolling window,
    per phone and per address), and the in-process stand-in that only counts. */
module AuthRateLimit {
  import opened Wrappers

  type Ref = string    // keyed hash of a phone number or an address
  type Member = string // one per winning request

  datatype Dimension = ByPhone | ByIp

  // ------------------------------------------------------------------ the script

  /** A sorted set of members by score in milliseconds, and when its key expires. */
  datatype Bucket = Bucket(scores: map<Member, int>, expiresAt: int)

  type Buckets = map<Ref, Bucket>

  datatype Limits = Limits(phone: nat, ip: nat, window: nat, ttl: nat)

  datatype Call = Call(phone: Ref, ip: Ref, member: Member, now: int)

  datatype Decision = Decision(allowed: bool, dimension: Option<Dimension>, retryAfter: int, phoneCount: nat, ipCount: nat)

  datatype Store = Store(phones: Buckets, ips: Buckets)

  /** What a key holds now; an expired key holds nothing. */
  function Scores(bs: Buckets, ref: Ref, now: int): map<Member, int> {
    if ref in bs && now < bs[ref].expiresAt then bs[ref].scores else map[]
  }

  /** ZREMRANGEBYSCORE -inf cutoff. */
  function Pruned(scores: map<Member, int>, cutoff: int): map<Member, int> {
    map m | m in scores && scores[m] > cutoff :: scores[m]
  }

  function Prune(bs: Buckets, ref: Ref, now: int, cutoff: int): Buckets {
    if ref in bs then bs[ref := Bucket(Pruned(Scores(bs, ref, now), cutoff), bs[ref].expiresAt)] else bs
  }

  /** ZADD, then EXPIRE. */
  function Add(bs: Buckets, ref: Ref, now: int, member: Member, limits: Limits): Buckets {
    bs[ref := Bucket(Scores(bs, ref, now)[member := now], now + limits.ttl * 1000)]
  }

  lemma {:induction false} OldestExists(scores: map<Member, int>, among: set<Member>)
    requires among <= scores.Keys && among != {}
    ensures exists m :: m in among && forall n :: n in among ==> scores[m] <= scores[n]
    decreases |among|
  {
    var k :| k in among;
    var others := among - {k};
    if others != {} {
      OldestExists(scores, others);
      var m :| m in others && forall n :: n in others ==> scores[m] <= scores[n];
      var first := if scores[k] <= scores[m] then k else m;
      assert forall n :: n in among ==> n == k || n in others;
      assert first in among && forall n :: n in among ==> scores[first] <= scores[n];
    } else {
      assert among == {k};
    }
  }

  /** The score of the member that leaves the window first. */
  ghost function Oldest(scores: map<Member, int>): (t: int)
    requires scores != map[]
    ensures exists m :: m in scores && scores[m] == t
    ensures forall m :: m in scores ==> t <= scores[m]
  {
    OldestExists(scores, scores.Keys);
    var m :| m in scores && forall n :: n in scores ==> scores[m] <= scores[n];
    scores[m]
  }

  function CeilSeconds(ms: int): int { if ms % 1000 == 0 then ms / 1000 else ms / 1000 + 1 }

  ghost function RetryAfter(scores: map<Member, int>, limits: Limits, now: int): int {
    if scores == map[] then 1
    else
      var remain := Oldest(scores) + limits.window - now;
      if remain <= 0 then 1 else CeilSeconds(remain)
  }

  /** The script, which runs atomically. */
  ghost function Step(s: Store, limits: Limits, call: Call): (Store, Decision) {
    var cutoff := call.now - limits.window;
    var pruned := Store(Prune(s.phones, call.phone, call.now, cutoff), Prune(s.ips, call.ip, call.now, cutoff));
    var phoneScores, ipScores := Scores(pruned.phones, call.phone, call.now), Scores(pruned.ips, call.ip, call.now);
    if |phoneScores| >= limits.phone then
      (pruned, Decision(false, Some(ByPhone), RetryAfter(phoneScores, limits, call.now), |phoneScores|, |ipScores|))
    else if |ipScores| >= limits.ip then
      (pruned, Decision(false, Some(ByIp), RetryAfter(ipScores, limits, call.now), |phoneScores|, |ipScores|))
    else
      (Store(Add(pruned.phones, call.phone, call.now, call.member, limits), Add(pruned.ips, call.ip, call.now, call.member, limits)),
       Decision(true, None, 0, |phoneScores| + 1, |ipScores| + 1))
  }

  /** Redis, as far as the script can see it. */
  class LuaLimiter {
    var phones: Buckets
    var ips: Buckets
    const limits: Limits

    constructor (limits: Limits)
      ensures phones == map[] && ips == map[] && this.limits == limits
    {
      phones, ips, this.limits := map[], map[], limits;
    }

    method RetryAfterFor(scores: map<Member, int>, now: int) returns (seconds: int)
      ensures seconds == RetryAfter(scores, limits, now)
    {
      if scores == map[] { return 1; }
      var left := scores.Keys;
      var first :| first in left;
      var oldest := scores[first];
      while left != {}
        invariant left <= scores.Keys
        invariant (exists m :: m in scores && scores[m] == oldest) && forall m :: m in scores ==> m in left || oldest <= scores[m]
        decreases |left|
      {
        var m :| m in left;
        left := left - {m};
        if scores[m] < oldest { oldest := scores[m]; }
      }
      var remain := oldest + limits.window - now;
      seconds := if remain <= 0 then 1 else CeilSeconds(remain);
    }

    method CheckAndIncrement(call: Call) returns (d: Decision)
      modifies this
      ensures (Store(phones, ips), d) == Step(Store(old(phones), old(ips)), limits, call)
    {
      hide Prune, Pruned, Scores, Add, RetryAfter;
      var cutoff := call.now - limits.window;
      phones := Prune(phones, call.phone, call.now, cutoff);
      ips := Prune(ips, call.ip, call.now, cutoff);
      var phoneScores, ipScores := Scores(phones, call.phone, call.now), Scores(ips, call.ip, call.now);
      if |phoneScores| >= limits.phone {
        var wait := RetryAfterFor(phoneScores, call.now);
        return Decision(false, Some(ByPhone), wait, |phoneScores|, |ipScores|);
      }
      if |ipScores| >= limits.ip {
        var wait := RetryAfterFor(ipScores, call.now);
        return Decision(false, Some(ByIp), wait, |phoneScores|, |ipScores|);
      }
      phones := Add(phones, call.phone, call.now, call.member, limits);
      ips := Add(ips, call.ip, call.now, call.member, limits);
      d := Decision(true, None, 0, |phoneScores| + 1, |ipScores| + 1);
    }
  }

  // ------------------------------------------------------------------ what it should do

  /** A call and whether it was let through. */
  datatype Past = Past(call: Call, allowed: bool)

  function Subject(call: Call, d: Dimension): Ref { if d.ByPhone? then call.phone else call.ip }

  function Limit(limits: Limits, d: Dimension): nat { if d.ByPhone? then limits.phone else limits.ip }

  /** Calls of one subject let through after `cutoff`. */
  function Passed(h: seq<Past>, d: Dimension, ref: Ref, cutoff: int): nat {
    if h == [] then 0
    else
      var last := h[|h| - 1];
      Passed(h[..|h| - 1], d, ref, cutoff) + (if last.allowed && Subject(last.call, d) == ref && last.call.now > cutoff then 1 else 0)
  }

  /** The rolling-window rule itself: let a call through exactly if fewer than the limit were
      let through in the window that ends with it, for its phone and for its address. */
  predicate Permitted(h: seq<Past>, limits: Limits, call: Call) {
    && Passed(h, ByPhone, call.phone, call.now - limits.window) < limits.phone
    && Passed(h, ByIp, call.ip, call.now - limits.window) < limits.ip
  }

  /** A history decided by the rule throughout. */
  predicate Ruled(h: seq<Past>, limits: Limits) {
    h != [] ==> Ruled(h[..|h| - 1], limits) && (h[|h| - 1].allowed <==> Permitted(h[..|h| - 1], limits, h[|h| - 1].call))
  }

  predicate Monotone(h: seq<Past>) {
    forall i, j :: 0 <= i < j < |h| ==> h[i].call.now <= h[j].call.now
  }

  /** Calls of one subject let through in `(from, to]`. */
  function PassedIn(h: seq<Past>, d: Dimension, ref: Ref, from: int, to: int): nat {
    if h == [] then 0
    else
      var last := h[|h| - 1];
      PassedIn(h[..|h| - 1], d, ref, from, to) +
      (if last.allowed && Subject(last.call, d) == ref && from < last.call.now <= to then 1 else 0)
  }

  /** Without later calls the upper end of an interval does not matter; starting later drops
      calls. */
  lemma {:induction false} PassedShrinks(h: seq<Past>, d: Dimension, ref: Ref, from: int, to: int, cutoff: int)
    requires cutoff <= from
    ensures PassedIn(h, d, ref, from, to) <= Passed(h, d, ref, cutoff)
  {
    if h != [] { PassedShrinks(h[..|h| - 1], d, ref, from, to, cutoff); }
  }

  /** The rule gives a true rolling bound: any interval of the window's length, wherever it
      starts, lets through at most the limit, per phone and per address. */
  lemma {:induction false} RollingBound(h: seq<Past>, limits: Limits, d: Dimension, ref: Ref, from: int)
    requires Ruled(h, limits) && Monotone(h)
    ensures PassedIn(h, d, ref, from, from + limits.window) <= Limit(limits, d)
  {
    if h != [] {
      var init, last := h[..|h| - 1], h[|h| - 1];
      RollingBound(init, limits, d, ref, from);
      if last.allowed && Subject(last.call, d) == ref && from < last.call.now <= from + limits.window {
        PassedShrinks(init, d, ref, from, from + limits.window, last.call.now - limits.window);
      }
    }
  }

  // ------------------------------------------------------------------ the script follows the rule

  /** What a bucket should hold: the members let through after `cutoff`, with their times. */
  function Window(h: seq<Past>, d: Dimension, ref: Ref, cutoff: int): map<Member, int> {
    if h == [] then map[]
    else
      var last, w := h[|h| - 1], Window(h[..|h| - 1], d, ref, cutoff);
      if last.allowed && Subject(last.call, d) == ref && last.call.now > cutoff then w[last.call.member := last.call.now] else w
  }

  predicate Distinct(h: seq<Past>) {
    forall i, j :: 0 <= i < j < |h| ==> h[i].call.member != h[j].call.member
  }

  lemma {:induction false} WindowMembers(h: seq<Past>, d: Dimension, ref: Ref, cutoff: int)
    ensures forall m :: m in Window(h, d, ref, cutoff) ==> exists k :: 0 <= k < |h| && h[k].call.member == m && h[k].call.now == Window(h, d, ref, cutoff)[m]
  {
    if h != [] { WindowMembers(h[..|h| - 1], d, ref, cutoff); }
  }

  lemma {:induction false} WindowCounts(h: seq<Past>, d: Dimension, ref: Ref, cutoff: int)
    requires Distinct(h)
    ensures |Window(h, d, ref, cutoff)| == Passed(h, d, ref, cutoff)
  {
    if h != [] {
      var init, last := h[..|h| - 1], h[|h| - 1];
      WindowCounts(init, d, ref, cutoff);
      WindowMembers(init, d, ref, cutoff);
      var w := Window(init, d, ref, cutoff);
      assert last.call.member !in w;
      assert w[last.call.member := last.call.now].Keys == w.Keys + {last.call.member};
    }
  }

  /** No entry of a window is later than the last call. */
  lemma {:induction false} WindowIsPast(h: seq<Past>, d: Dimension, ref: Ref, cutoff: int, now: int)
    requires forall k :: 0 <= k < |h| ==> h[k].call.now <= now
    ensures forall m :: m in Window(h, d, ref, cutoff) ==> Window(h, d, ref, cutoff)[m] <= now
  {
    if h != [] { WindowIsPast(h[..|h| - 1], d, ref, cutoff, now); }
  }

  lemma {:induction false} WindowPrunes(h: seq<Past>, d: Dimension, ref: Ref, earlier: int, later: int)
    requires Monotone(h) && earlier <= later
    ensures Pruned(Window(h, d, ref, earlier), later) == Window(h, d, ref, later)
  {
    if h != [] {
      var init, last := h[..|h| - 1], h[|h| - 1];
      WindowPrunes(init, d, ref, earlier, later);
      WindowIsPast(init, d, ref, earlier, last.call.now);
    }
  }

  lemma {:induction false} WindowEmpties(h: seq<Past>, d: Dimension, ref: Ref, cutoff: int)
    requires forall k :: 0 <= k < |h| ==> h[k].call.now <= cutoff
    ensures Window(h, d, ref, cutoff) == map[]
  {
    if h != [] { WindowEmpties(h[..|h| - 1], d, ref, cutoff); }
  }

  /** From `last` on, whatever is read after pruning is exactly the window. */
  ghost predicate Faithful(bs: Buckets, h: seq<Past>, d: Dimension, limits: Limits, last: int) {
    forall ref: Ref, t: int :: t >= last ==> Pruned(Scores(bs, ref, t), t - limits.window) == Window(h, d, ref, t - limits.window)
  }

  /** What the script reads after pruning. */
  lemma ReadsTheWindow(bs: Buckets, h: seq<Past>, d: Dimension, limits: Limits, ref: Ref, now: int, last: int)
    requires Faithful(bs, h, d, limits, last) && last <= now
    ensures Scores(Prune(bs, ref, now, now - limits.window), ref, now) == Window(h, d, ref, now - limits.window)
  {
    assert Pruned(map[], now - limits.window) == map[];
  }

  /** A bucket lives at least as long as anything in it matters. */
  predicate Sufficient(limits: Limits) { limits.ttl * 1000 >= limits.window }

  /** The history after one more call. */
  predicate Grows(h: seq<Past>, call: Call, last: int) {
    Monotone(h + [Past(call, true)]) && last <= call.now
  }

  lemma PruneStaysFaithful(bs: Buckets, h: seq<Past>, d: Dimension, limits: Limits, call: Call, last: int)
    requires Faithful(bs, h, d, limits, last) && Grows(h, call, last)
    ensures Faithful(Prune(bs, Subject(call, d), call.now, call.now - limits.window), h, d, limits, call.now)
  {
    var subject, cutoff := Subject(call, d), call.now - limits.window;
    var bs' := Prune(bs, subject, call.now, cutoff);
    forall ref: Ref, t: int | t >= call.now
      ensures Pruned(Scores(bs', ref, t), t - limits.window) == Window(h, d, ref, t - limits.window)
    {
      assert Pruned(Scores(bs, ref, t), t - limits.window) == Window(h, d, ref, t - limits.window);
      if ref == subject && ref in bs && t < bs[ref].expiresAt {
        assert Pruned(Pruned(bs[ref].scores, cutoff), t - limits.window) == Pruned(bs[ref].scores, t - limits.window);
      }
    }
  }

  lemma DenialStaysFaithful(bs: Buckets, h: seq<Past>, d: Dimension, limits: Limits, call: Call, last: int)
    requires Faithful(bs, h, d, limits, last)
    ensures Faithful(bs, h + [Past(call, false)], d, limits, last)
  {
    var h' := h + [Past(call, false)];
    assert h'[..|h'| - 1] == h;
    forall ref: Ref, t: int | t >= last
      ensures Pruned(Scores(bs, ref, t), t - limits.window) == Window(h', d, ref, t - limits.window)
    {
      assert Pruned(Scores(bs, ref, t), t - limits.window) == Window(h, d, ref, t - limits.window);
    }
  }

  lemma NoLaterThan(h: seq<Past>, call: Call, last: int)
    requires Grows(h, call, last)
    ensures Monotone(h) && last <= call.now && forall k :: 0 <= k < |h| ==> h[k].call.now <= call.now
  {
    var all := h + [Past(call, true)];
    assert all[|h|].call == call && forall k :: 0 <= k < |h| ==> all[k] == h[k];
  }

  /** Pruning after an addition that is the latest of all. */
  lemma PrunedAddition(scores: map<Member, int>, m: Member, now: int, cutoff: int)
    requires forall n :: n in scores ==> scores[n] <= now
    ensures Pruned(scores[m := now], cutoff) == if now > cutoff then Pruned(scores, cutoff)[m := now] else map[]
    ensures now <= cutoff ==> Pruned(scores, cutoff) == map[]
  {
  }

  lemma WindowGrows(h: seq<Past>, d: Dimension, ref: Ref, cutoff: int, call: Call)
    requires ref == Subject(call, d)
    ensures Window(h + [Past(call, true)], d, ref, cutoff) ==
            if call.now > cutoff then Window(h, d, ref, cutoff)[call.member := call.now] else Window(h, d, ref, cutoff)
  {
    var h' := h + [Past(call, true)];
    assert h'[..|h'| - 1] == h;
  }

  /** The subject's own bucket after the addition, read at any later time. */
  lemma AddedBucket(h: seq<Past>, d: Dimension, limits: Limits, call: Call, t: int)
    requires Grows(h, call, call.now) && Sufficient(limits) && t >= call.now
    ensures var ref := Subject(call, d);
            var added := Window(h, d, ref, call.now - limits.window)[call.member := call.now];
            var held := if t < call.now + limits.ttl * 1000 then added else map[];
            Pruned(held, t - limits.window) == Window(h + [Past(call, true)], d, ref, t - limits.window)
  {
    var ref, cutoff := Subject(call, d), t - limits.window;
    var w := Window(h, d, ref, call.now - limits.window);
    NoLaterThan(h, call, call.now);
    WindowIsPast(h, d, ref, call.now - limits.window, call.now);
    WindowPrunes(h, d, ref, call.now - limits.window, cutoff);
    WindowGrows(h, d, ref, cutoff, call);
    PrunedAddition(w, call.member, call.now, cutoff);
    assert Pruned(map[], cutoff) == map[];
    hide Window, Pruned, Subject, Grows, Monotone;
  }

  /** Adding keeps it too, because a bucket outlives the window of all it holds. */
  lemma AdditionStaysFaithful(bs: Buckets, h: seq<Past>, d: Dimension, limits: Limits, call: Call)
    requires Faithful(bs, h, d, limits, call.now) && Grows(h, call, call.now) && Sufficient(limits)
    requires Scores(bs, Subject(call, d), call.now) == Window(h, d, Subject(call, d), call.now - limits.window)
    ensures Faithful(Add(bs, Subject(call, d), call.now, call.member, limits), h + [Past(call, true)], d, limits, call.now)
  {
    hide Pruned, Window, Subject, Grows, Sufficient;
    var subject, h' := Subject(call, d), h + [Past(call, true)];
    var bs' := Add(bs, subject, call.now, call.member, limits);
    forall ref: Ref, t: int | t >= call.now
      ensures Pruned(Scores(bs', ref, t), t - limits.window) == Window(h', d, ref, t - limits.window)
    {
      if ref == subject {
        AddedBucket(h, d, limits, call, t);
      } else {
        OtherWindow(h, d, ref, t - limits.window, call);
        assert Scores(bs', ref, t) == Scores(bs, ref, t);
      }
    }
  }

  lemma OtherWindow(h: seq<Past>, d: Dimension, ref: Ref, cutoff: int, call: Call)
    requires ref != Subject(call, d)
    ensures Window(h + [Past(call, true)], d, ref, cutoff) == Window(h, d, ref, cutoff)
  {
    var h' := h + [Past(call, true)];
    assert h'[..|h'| - 1] == h;
  }

  ghost function After(limits: Limits, calls: seq<Call>): Store {
    if calls == [] then Store(map[], map[])
    else Step(After(limits, calls[..|calls| - 1]), limits, calls[|calls| - 1]).0
  }

  /** What the script decides, call by call. */
  ghost function History(limits: Limits, calls: seq<Call>): (h: seq<Past>)
    ensures |h| == |calls| && forall k :: 0 <= k < |h| ==> h[k].call == calls[k]
  {
    if calls == [] then []
    else
      var init, last := calls[..|calls| - 1], calls[|calls| - 1];
      History(limits, init) + [Past(last, Step(After(limits, init), limits, last).1.allowed)]
  }

  lemma OneMore(limits: Limits, calls: seq<Call>, call: Call)
    ensures var (next, decision) := Step(After(limits, calls), limits, call);
            && After(limits, calls + [call]) == next
            && History(limits, calls + [call]) == History(limits, calls) + [Past(call, decision.allowed)]
  {
    assert (calls + [call])[..|calls|] == calls;
  }

  /** Time does not run backwards and every request has its own member. */
  predicate WellBehaved(calls: seq<Call>) {
    forall i, j :: 0 <= i < j < |calls| ==> calls[i].now <= calls[j].now && calls[i].member != calls[j].member
  }

  /** Time does not run backwards; any request may use any member. */
  predicate Ordered(calls: seq<Call>) {
    forall i, j :: 0 <= i < j < |calls| ==> calls[i].now <= calls[j].now
  }

  lemma {:induction false} ScriptStaysFaithful(limits: Limits, calls: seq<Call>, last: int)
    requires Ordered(calls) && Sufficient(limits)
    requires calls != [] ==> last == calls[|calls| - 1].now
    ensures Faithful(After(limits, calls).phones, History(limits, calls), ByPhone, limits, last)
    ensures Faithful(After(limits, calls).ips, History(limits, calls), ByIp, limits, last)
  {
    if calls == [] {
    } else {
      var init, call := calls[..|calls| - 1], calls[|calls| - 1];
      var before := if init == [] then call.now else init[|init| - 1].now;
      ScriptStaysFaithful(limits, init, before);
      HistoryGrows(limits, calls);
      hide Faithful, Grows, Fits, Step;
      StepStaysFaithful(After(limits, init), History(limits, init), limits, call, before);
    }
  }

  lemma StillGrows(h: seq<Past>, call: Call, last: int)
    requires Grows(h, call, last)
    ensures Grows(h, call, call.now)
  {
  }

  lemma HistoryGrows(limits: Limits, calls: seq<Call>)
    requires Ordered(calls) && calls != []
    ensures var init, call := calls[..|calls| - 1], calls[|calls| - 1];
            Ordered(init) && Grows(History(limits, init), call, if init == [] then call.now else init[|init| - 1].now)
  {
    var init, call := calls[..|calls| - 1], calls[|calls| - 1];
    var h := History(limits, init) + [Past(call, true)];
    assert forall k :: 0 <= k < |h| ==> h[k].call == calls[k];
  }

  /** The script's own rule: fewer members than the limit in either window. */
  predicate Fits(h: seq<Past>, limits: Limits, call: Call) {
    && |Window(h, ByPhone, call.phone, call.now - limits.window)| < limits.phone
    && |Window(h, ByIp, call.ip, call.now - limits.window)| < limits.ip
  }

  lemma DistinctFits(h: seq<Past>, limits: Limits, call: Call)
    requires Distinct(h)
    ensures Fits(h, limits, call) <==> Permitted(h, limits, call)
  {
    WindowCounts(h, ByPhone, call.phone, call.now - limits.window);
    WindowCounts(h, ByIp, call.ip, call.now - limits.window);
  }

  /** What the script finds in both buckets, and hence what it decides. */
  lemma StepFollowsTheRule(s: Store, h: seq<Past>, limits: Limits, call: Call, last: int)
    requires Faithful(s.phones, h, ByPhone, limits, last) && Faithful(s.ips, h, ByIp, limits, last) && last <= call.now
    ensures var cutoff := call.now - limits.window;
            var decision := Step(s, limits, call).1;
            && Scores(Prune(s.phones, call.phone, call.now, cutoff), call.phone, call.now) == Window(h, ByPhone, call.phone, cutoff)
            && Scores(Prune(s.ips, call.ip, call.now, cutoff), call.ip, call.now) == Window(h, ByIp, call.ip, cutoff)
            && (decision.allowed <==> Fits(h, limits, call))
  {
    hide Faithful, Prune, Pruned, Add, Scores, Window, RetryAfter;
    ReadsTheWindow(s.phones, h, ByPhone, limits, call.phone, call.now, last);
    ReadsTheWindow(s.ips, h, ByIp, limits, call.ip, call.now, last);
  }

  function NextBuckets(bs: Buckets, d: Dimension, limits: Limits, call: Call, allowed: bool): Buckets {
    var pruned := Prune(bs, Subject(call, d), call.now, call.now - limits.window);
    if allowed then Add(pruned, Subject(call, d), call.now, call.member, limits) else pruned
  }

  lemma BucketsStayFaithful(bs: Buckets, h: seq<Past>, d: Dimension, limits: Limits, call: Call, last: int, allowed: bool)
    requires Faithful(bs, h, d, limits, last)
    requires Grows(h, call, last) && Sufficient(limits)
    ensures Faithful(NextBuckets(bs, d, limits, call, allowed), h + [Past(call, allowed)], d, limits, call.now)
  {
    hide Faithful, Pruned, Add, Window, Grows, Scores, Prune, Subject;
    StillGrows(h, call, last);
    NoLaterThan(h, call, last);
    PruneStaysFaithful(bs, h, d, limits, call, last);
    ReadsTheWindow(bs, h, d, limits, Subject(call, d), call.now, last);
    var pruned := Prune(bs, Subject(call, d), call.now, call.now - limits.window);
    if allowed {
      AdditionStaysFaithful(pruned, h, d, limits, call);
    } else {
      DenialStaysFaithful(pruned, h, d, limits, call, call.now);
    }
  }

  lemma StepStaysFaithful(s: Store, h: seq<Past>, limits: Limits, call: Call, last: int)
    requires Faithful(s.phones, h, ByPhone, limits, last) && Faithful(s.ips, h, ByIp, limits, last)
    requires Grows(h, call, last) && Sufficient(limits)
    ensures var (next, decision) := Step(s, limits, call);
            var h' := h + [Past(call, decision.allowed)];
            && Faithful(next.phones, h', ByPhone, limits, call.now) && Faithful(next.ips, h', ByIp, limits, call.now)
            && (decision.allowed <==> Fits(h, limits, call))
  {
    StepFollowsTheRule(s, h, limits, call, last);
    hide Faithful, Prune, Add, Scores, Window, RetryAfter, Grows, Fits;
    var allowed := Step(s, limits, call).1.allowed;
    BucketsStayFaithful(s.phones, h, ByPhone, limits, call, last, allowed);
    BucketsStayFaithful(s.ips, h, ByIp, limits, call, last, allowed);
  }

  /** The script implements the rolling-window rule: over every sequence of calls it lets
      through exactly those the rule permits. */
  lemma {:induction false} ScriptFollowsTheRule(limits: Limits, calls: seq<Call>)
    requires WellBehaved(calls) && Sufficient(limits)
    ensures Ruled(History(limits, calls), limits)
  {
    if calls != [] {
      var init, call := calls[..|calls| - 1], calls[|calls| - 1];
      var before := if init == [] then call.now else init[|init| - 1].now;
      ScriptFollowsTheRule(limits, init);
      ScriptStaysFaithful(limits, init, before);
      HistoryGrows(limits, calls);
      hide Faithful, Grows, Fits, Permitted, Step;
      StepStaysFaithful(After(limits, init), History(limits, init), limits, call, before);
      DistinctFits(History(limits, init), limits, call);
      assert History(limits, calls)[..|calls| - 1] == History(limits, init);
    }
  }

  /** Hence the rolling bound for the script. */
  lemma ScriptBound(limits: Limits, calls: seq<Call>, d: Dimension, ref: Ref, from: int)
    requires WellBehaved(calls) && Sufficient(limits)
    ensures PassedIn(History(limits, calls), d, ref, from, from + limits.window) <= Limit(limits, d)
  {
    ScriptFollowsTheRule(limits, calls);
    RollingBound(History(limits, calls), limits, d, ref, from);
  }

  // ------------------------------------------------------------------ the advice to retry

  lemma {:induction false} PassedByNow(h: seq<Past>, d: Dimension, ref: Ref, from: int, now: int)
    requires forall k :: 0 <= k < |h| ==> h[k].call.now <= now
    ensures Passed(h, d, ref, from) == PassedIn(h, d, ref, from, now)
  {
    if h != [] { PassedByNow(h[..|h| - 1], d, ref, from, now); }
  }

  lemma PrunedSize(scores: map<Member, int>, cutoff: int)
    requires scores != map[]
    ensures if cutoff < Oldest(scores) then Pruned(scores, cutoff) == scores else |Pruned(scores, cutoff)| < |scores|
  {
    if cutoff >= Oldest(scores) {
      var m :| m in scores && scores[m] == Oldest(scores);
      var kept := Pruned(scores, cutoff);
      assert kept.Keys <= scores.Keys - {m};
      Smaller(kept.Keys, scores.Keys - {m});
    }
  }

  lemma {:induction false} Smaller(a: set<Member>, b: set<Member>)
    requires a <= b
    ensures |a| <= |b|
    decreases |b|
  {
    if a != {} {
      var m :| m in a;
      Smaller(a - {m}, b - {m});
    }
  }

  /** The dimension that denies a call is full, and the advice is read off it. */
  lemma StepDenies(s: Store, h: seq<Past>, limits: Limits, call: Call, last: int)
    requires Faithful(s.phones, h, ByPhone, limits, last) && Faithful(s.ips, h, ByIp, limits, last)
    requires last <= call.now && !Step(s, limits, call).1.allowed
    ensures Step(s, limits, call).1.dimension.Some?
    ensures var decision := Step(s, limits, call).1;
            var w := Window(h, decision.dimension.value, Subject(call, decision.dimension.value), call.now - limits.window);
            |w| >= Limit(limits, decision.dimension.value) && decision.retryAfter == RetryAfter(w, limits, call.now)
  {
    hide Faithful, Prune, Pruned, Add, Scores, Window, RetryAfter, Fits;
    StepFollowsTheRule(s, h, limits, call, last);
  }

  lemma AtMostTheLimit(h: seq<Past>, limits: Limits, call: Call, last: int, d: Dimension)
    requires Grows(h, call, last) && Distinct(h) && Ruled(h, limits)
    ensures |Window(h, d, Subject(call, d), call.now - limits.window)| <= Limit(limits, d)
  {
    NoLaterThan(h, call, last);
    hide Grows, Distinct, Ruled, Window, Passed, PassedIn, Monotone;
    var ref, cutoff := Subject(call, d), call.now - limits.window;
    WindowCounts(h, d, ref, cutoff);
    PassedByNow(h, d, ref, cutoff, call.now);
    RollingBound(h, limits, d, ref, cutoff);
  }

  /** The oldest member leaves the window within the advised time, and not a second earlier. */
  lemma RetryCriterion(w: map<Member, int>, limits: Limits, now: int, r: int)
    requires w != map[] && r >= 1 && forall m :: m in w ==> w[m] > now - limits.window
    ensures |Pruned(w, now + 1000 * r - limits.window)| < |w| <==> r >= RetryAfter(w, limits, now)
  {
    PrunedSize(w, now + 1000 * r - limits.window);
  }

  /** A denied call is told the least whole number of seconds after which, if nothing else is
      let through meanwhile, the dimension that denied it would deny it no more. */
  lemma RetryAfterIsExact(limits: Limits, calls: seq<Call>, call: Call, r: int)
    requires WellBehaved(calls + [call]) && Sufficient(limits) && r >= 1
    requires !Step(After(limits, calls), limits, call).1.allowed
    requires Limit(limits, Step(After(limits, calls), limits, call).1.dimension.value) >= 1
    ensures var decision := Step(After(limits, calls), limits, call).1;
            var d := decision.dimension.value;
            Passed(History(limits, calls), d, Subject(call, d), call.now + 1000 * r - limits.window) < Limit(limits, d) <==>
            r >= decision.retryAfter
  {
    var before := if calls == [] then call.now else calls[|calls| - 1].now;
    hide Step, After, History, Faithful, Grows, Distinct, Ruled, WellBehaved, Sufficient, Passed, Subject, Window, RetryAfter, Limit;
    CallIsNext(limits, calls, call);
    StepDenies(After(limits, calls), History(limits, calls), limits, call, before);
    AdviceIsExact(History(limits, calls), limits, call, before, Step(After(limits, calls), limits, call).1.dimension.value, r);
  }

  /** Where the script stands when one more call comes. */
  lemma CallIsNext(limits: Limits, calls: seq<Call>, call: Call)
    requires WellBehaved(calls + [call]) && Sufficient(limits)
    ensures var last, s, h := if calls == [] then call.now else calls[|calls| - 1].now, After(limits, calls), History(limits, calls);
            && Faithful(s.phones, h, ByPhone, limits, last) && Faithful(s.ips, h, ByIp, limits, last)
            && last <= call.now && Grows(h, call, last) && Distinct(h) && Ruled(h, limits)
  {
    hide Step, After, History, Faithful, Ruled;
    var before := if calls == [] then call.now else calls[|calls| - 1].now;
    Prefix(calls, call);
    ScriptStaysFaithful(limits, calls, before);
    ScriptFollowsTheRule(limits, calls);
    HistoryGrows(limits, calls + [call]);
  }

  lemma AdviceIsExact(h: seq<Past>, limits: Limits, call: Call, last: int, d: Dimension, r: int)
    requires Grows(h, call, last) && Distinct(h) && Ruled(h, limits) && r >= 1 && Limit(limits, d) >= 1
    requires |Window(h, d, Subject(call, d), call.now - limits.window)| >= Limit(limits, d)
    ensures Passed(h, d, Subject(call, d), call.now + 1000 * r - limits.window) < Limit(limits, d) <==>
            r >= RetryAfter(Window(h, d, Subject(call, d), call.now - limits.window), limits, call.now)
  {
    hide Subject, Passed, Window, Pruned, Distinct, Grows, Monotone, Ruled, RetryAfter, Limit;
    AtMostTheLimit(h, limits, call, last, d);
    NoLaterThan(h, call, last);
    var ref, cutoff, later := Subject(call, d), call.now - limits.window, call.now + 1000 * r - limits.window;
    WindowPrunes(h, d, ref, cutoff, later);
    WindowCounts(h, d, ref, later);
    WindowIsRecent(h, d, ref, cutoff);
    RetryCriterion(Window(h, d, ref, cutoff), limits, call.now, r);
  }

  lemma Prefix(calls: seq<Call>, call: Call)
    requires WellBehaved(calls + [call])
    ensures WellBehaved(calls) && (calls + [call])[..|calls + [call]| - 1] == calls && (calls + [call])[|calls|] == call
  {
    assert forall i :: 0 <= i < |calls| ==> (calls + [call])[i] == calls[i];
  }

  lemma {:induction false} WindowIsRecent(h: seq<Past>, d: Dimension, ref: Ref, cutoff: int)
    ensures forall m :: m in Window(h, d, ref, cutoff) ==> Window(h, d, ref, cutoff)[m] > cutoff
  {
    if h != [] { WindowIsRecent(h[..|h| - 1], d, ref, cutoff); }
  }

  /** One run of the script decides by the two numbers it counts. */
  lemma StepDecides(s: Store, limits: Limits, call: Call)
    ensures var d := Step(s, limits, call).1;
            var p, i := |Seen(s, limits, call, ByPhone)|, |Seen(s, limits, call, ByIp)|;
            && (d.allowed <==> p < limits.phone && i < limits.ip)
            && d.dimension == (if p >= limits.phone then Some(ByPhone) else if i >= limits.ip then Some(ByIp) else None)
            && (d.allowed ==> d.phoneCount == p + 1 && d.ipCount == i + 1 && d.retryAfter == 0)
            && (!d.allowed ==> d.phoneCount == p && d.ipCount == i && d.retryAfter >= 1)
  {
    AdviceIsPositive(Seen(s, limits, call, ByPhone), limits, call.now);
    AdviceIsPositive(Seen(s, limits, call, ByIp), limits, call.now);
    hide Prune, Scores, Add, RetryAfter;
  }

  /** The whole decision: the phone is looked at first; the counts are those of the windows, with
      this call if it is let through; only a denial carries advice. */
  lemma ScriptDecides(limits: Limits, calls: seq<Call>, call: Call)
    requires WellBehaved(calls + [call]) && Sufficient(limits)
    ensures var h, d := History(limits, calls), Step(After(limits, calls), limits, call).1;
            var p, i := Passed(h, ByPhone, call.phone, call.now - limits.window), Passed(h, ByIp, call.ip, call.now - limits.window);
            && (d.allowed <==> p < limits.phone && i < limits.ip)
            && d.dimension == (if p >= limits.phone then Some(ByPhone) else if i >= limits.ip then Some(ByIp) else None)
            && (d.allowed ==> d.phoneCount == p + 1 && d.ipCount == i + 1 && d.retryAfter == 0)
            && (!d.allowed ==> d.phoneCount == p && d.ipCount == i && d.retryAfter >= 1)
  {
    hide Step, After, History, Faithful, Grows, Ruled, WellBehaved, Sufficient, Passed, Distinct;
    var last := if calls == [] then call.now else calls[|calls| - 1].now;
    CallIsNext(limits, calls, call);
    DecidesByWindows(After(limits, calls), History(limits, calls), limits, call, last);
  }

  lemma DecidesByWindows(s: Store, h: seq<Past>, limits: Limits, call: Call, last: int)
    requires Faithful(s.phones, h, ByPhone, limits, last) && Faithful(s.ips, h, ByIp, limits, last) && last <= call.now && Distinct(h)
    ensures var d := Step(s, limits, call).1;
            var p, i := Passed(h, ByPhone, call.phone, call.now - limits.window), Passed(h, ByIp, call.ip, call.now - limits.window);
            && (d.allowed <==> p < limits.phone && i < limits.ip)
            && d.dimension == (if p >= limits.phone then Some(ByPhone) else if i >= limits.ip then Some(ByIp) else None)
            && (d.allowed ==> d.phoneCount == p + 1 && d.ipCount == i + 1 && d.retryAfter == 0)
            && (!d.allowed ==> d.phoneCount == p && d.ipCount == i && d.retryAfter >= 1)
  {
    SeenAreWindows(s, h, limits, call, last);
    hide Step, Faithful, Passed, Distinct, Window, Seen;
    WindowCounts(h, ByPhone, call.phone, call.now - limits.window);
    WindowCounts(h, ByIp, call.ip, call.now - limits.window);
    StepDecides(s, limits, call);
  }

  lemma SeenAreWindows(s: Store, h: seq<Past>, limits: Limits, call: Call, last: int)
    requires Faithful(s.phones, h, ByPhone, limits, last) && Faithful(s.ips, h, ByIp, limits, last) && last <= call.now
    ensures Seen(s, limits, call, ByPhone) == Window(h, ByPhone, call.phone, call.now - limits.window)
    ensures Seen(s, limits, call, ByIp) == Window(h, ByIp, call.ip, call.now - limits.window)
  {
    hide Faithful, Prune, Scores, Window;
    ReadsTheWindow(s.phones, h, ByPhone, limits, call.phone, call.now, last);
    ReadsTheWindow(s.ips, h, ByIp, limits, call.ip, call.now, last);
  }

  lemma AdviceIsPositive(scores: map<Member, int>, limits: Limits, now: int)
    ensures RetryAfter(scores, limits, now) >= 1
  {
    hide Oldest;
  }

  /** What a call leaves in a bucket: the members let through in its window and, if it passes, its
      own; and the key then lives for its whole lifetime from now. */
  lemma ScriptRecords(s: Store, limits: Limits, call: Call, d: Dimension, t: int)
    requires t >= call.now && Step(s, limits, call).1.allowed
    ensures var bs := BucketsOf(Step(s, limits, call).0, d);
            && Scores(bs, Subject(call, d), t) ==
               (if t < call.now + limits.ttl * 1000 then Seen(s, limits, call, d)[call.member := call.now] else map[])
            && forall ref :: ref != Subject(call, d) ==> Scores(bs, ref, t) == Scores(BucketsOf(s, d), ref, t)
  {
    StepByDimension(s, limits, call, d);
    hide Step;
  }

  // ------------------------------------------------------------------ why members and lifetimes matter

  function BucketsOf(s: Store, d: Dimension): Buckets { if d.ByPhone? then s.phones else s.ips }

  function Other(d: Dimension): Dimension { if d.ByPhone? then ByIp else ByPhone }

  /** The members the script counts in one dimension. */
  function Seen(s: Store, limits: Limits, call: Call, d: Dimension): map<Member, int> {
    Scores(Prune(BucketsOf(s, d), Subject(call, d), call.now, call.now - limits.window), Subject(call, d), call.now)
  }

  /** The script treats both dimensions alike. */
  lemma StepByDimension(s: Store, limits: Limits, call: Call, d: Dimension)
    ensures var (next, decision) := Step(s, limits, call);
            && (decision.allowed <==> |Seen(s, limits, call, d)| < Limit(limits, d) && |Seen(s, limits, call, Other(d))| < Limit(limits, Other(d)))
            && BucketsOf(next, d) == NextBuckets(BucketsOf(s, d), d, limits, call, decision.allowed)
  {
    hide Prune, Scores, Add, RetryAfter;
  }

  /** A word of its own for every number. */
  function Word(k: nat): string { seq(k, _ => 'a') }

  lemma WordsDiffer(j: nat, k: nat)
    ensures Word(j) == Word(k) <==> j == k
  {
    assert |Word(j)| == j && |Word(k)| == k;
  }

  lemma OneMorePassed(limits: Limits, calls: seq<Call>, call: Call, d: Dimension, from: int, to: int)
    requires Step(After(limits, calls), limits, call).1.allowed && from < call.now <= to
    ensures PassedIn(History(limits, calls + [call]), d, Subject(call, d), from, to) ==
            PassedIn(History(limits, calls), d, Subject(call, d), from, to) + 1
  {
    OneMore(limits, calls, call);
    assert History(limits, calls + [call])[..|calls|] == History(limits, calls);
  }

  /** No more than `j` members at time 0, and none once the key has expired. */
  ghost predicate Crowded(bs: Buckets, ref: Ref, j: nat, limits: Limits) {
    && |Scores(bs, ref, 0)| <= j
    && forall t :: t >= limits.ttl * 1000 ==> Scores(bs, ref, t) == map[]
  }

  lemma OneMoreKey(scores: map<Member, int>, m: Member, t: int)
    ensures |scores[m := t]| <= |scores| + 1
  {
    assert scores[m := t].Keys == scores.Keys + {m};
  }

  lemma PruningShrinks(bs: Buckets, ref: Ref, now: int, cutoff: int)
    ensures |Scores(Prune(bs, ref, now, cutoff), ref, now)| <= |Scores(bs, ref, now)|
  {
    var held := Scores(Prune(bs, ref, now, cutoff), ref, now);
    Smaller(held.Keys, Scores(bs, ref, now).Keys);
  }

  lemma CrowdGrows(bs: Buckets, d: Dimension, j: nat, limits: Limits, call: Call)
    requires call.now == 0 && Crowded(bs, Subject(call, d), j, limits)
    ensures Crowded(NextBuckets(bs, d, limits, call, true), Subject(call, d), j + 1, limits)
    ensures |Scores(Prune(bs, Subject(call, d), call.now, call.now - limits.window), Subject(call, d), call.now)| <= j
  {
    var ref := Subject(call, d);
    var pruned := Prune(bs, ref, call.now, call.now - limits.window);
    PruningShrinks(bs, ref, call.now, call.now - limits.window);
    OneMoreKey(Scores(pruned, ref, 0), call.member, 0);
    hide Prune, Subject;
  }

  const SUBJECT: Ref := "s"

  /** Requests of one phone and address, all at time 0, each with its own member. */
  function Burst(n: nat): seq<Call> { if n == 0 then [] else Burst(n - 1) + [Call(SUBJECT, SUBJECT, Word(n - 1), 0)] }

  ghost predicate AllCrowded(s: Store, n: nat, limits: Limits) { Crowded(s.phones, SUBJECT, n, limits) && Crowded(s.ips, SUBJECT, n, limits) }

  lemma BurstStep(limits: Limits, s: Store, n: nat, member: Member)
    requires n < limits.phone && n < limits.ip && AllCrowded(s, n, limits)
    ensures var (next, decision) := Step(s, limits, Call(SUBJECT, SUBJECT, member, 0)); decision.allowed && AllCrowded(next, n + 1, limits)
  {
    hide Step, Crowded, NextBuckets, Scores, Prune, SUBJECT;
    var call := Call(SUBJECT, SUBJECT, member, 0);
    CrowdGrows(s.phones, ByPhone, n, limits, call);
    CrowdGrows(s.ips, ByIp, n, limits, call);
    StepByDimension(s, limits, call, ByPhone);
    StepByDimension(s, limits, call, ByIp);
  }

  lemma NothingYet(limits: Limits, d: Dimension, ref: Ref, from: int, to: int)
    ensures AllCrowded(After(limits, []), 0, limits) && PassedIn(History(limits, []), d, ref, from, to) == 0
  {
  }

  lemma BurstUnfolds(n: nat)
    ensures Burst(n) == if n == 0 then [] else Burst(n - 1) + [Call(SUBJECT, SUBJECT, Word(n - 1), 0)]
  {
  }

  lemma {:induction false} BurstPasses(limits: Limits, n: nat, d: Dimension, to: int)
    requires n <= limits.phone && n <= limits.ip && to >= 0
    ensures AllCrowded(After(limits, Burst(n)), n, limits)
    ensures PassedIn(History(limits, Burst(n)), d, SUBJECT, -1, to) == n
  {
    hide Step, After, History, AllCrowded, Word, SUBJECT, PassedIn, Burst;
    BurstUnfolds(n);
    if n == 0 {
      NothingYet(limits, d, SUBJECT, -1, to);
    } else {
      var before, call := Burst(n - 1), Call(SUBJECT, SUBJECT, Word(n - 1), 0);
      BurstPasses(limits, n - 1, d, to);
      OneMore(limits, before, call);
      BurstStep(limits, After(limits, before), n - 1, Word(n - 1));
      OneMorePassed(limits, before, call, d, -1, to);
    }
  }

  lemma {:induction false} BurstIsBurst(n: nat)
    ensures |Burst(n)| == n && forall k :: 0 <= k < n ==> Burst(n)[k] == Call(SUBJECT, SUBJECT, Word(k), 0)
  {
    if n > 0 { BurstIsBurst(n - 1); }
  }

  function Tighter(limits: Limits): Dimension { if limits.phone <= limits.ip then ByPhone else ByIp }

  /** As many requests at once as are let through, and one more when the keys have expired. */
  function BurstAndOne(limits: Limits): seq<Call> {
    var n := Limit(limits, Tighter(limits));
    Burst(n) + [Call(SUBJECT, SUBJECT, Word(n), limits.ttl * 1000)]
  }

  lemma BurstIsWellBehaved(limits: Limits)
    ensures WellBehaved(BurstAndOne(limits))
  {
    BurstIsBurst(Limit(limits, Tighter(limits)));
    forall j: nat, k: nat
      ensures Word(j) == Word(k) <==> j == k
    {
      WordsDiffer(j, k);
    }
    hide Burst, Word;
  }

  /** Expired keys hold nothing, and nothing stands in the way of the next call. */
  lemma CrowdIsForgotten(limits: Limits, s: Store, n: nat, call: Call)
    requires limits.phone >= 1 && limits.ip >= 1 && AllCrowded(s, n, limits)
    requires call.phone == SUBJECT && call.ip == SUBJECT && call.now == limits.ttl * 1000
    ensures Step(s, limits, call).1.allowed
  {
    hide Step, SUBJECT, NextBuckets;
    assert Scores(s.phones, SUBJECT, call.now) == map[] && Scores(s.ips, SUBJECT, call.now) == map[];
    PruningShrinks(s.phones, SUBJECT, call.now, call.now - limits.window);
    PruningShrinks(s.ips, SUBJECT, call.now, call.now - limits.window);
    StepByDimension(s, limits, call, ByPhone);
  }

  /** A key that expires before its window ends forgets calls that still count, in either
      dimension. */
  lemma ShortLifetimeBreaksTheBound(limits: Limits, d: Dimension)
    requires limits.phone >= 1 && limits.ip >= 1 && !Sufficient(limits)
    ensures WellBehaved(BurstAndOne(limits))
    ensures PassedIn(History(limits, BurstAndOne(limits)), d, SUBJECT, -1, -1 + limits.window) == Limit(limits, Tighter(limits)) + 1
  {
    var n := Limit(limits, Tighter(limits));
    var before, call := Burst(n), Call(SUBJECT, SUBJECT, Word(n), limits.ttl * 1000);
    BurstIsWellBehaved(limits);
    BurstPasses(limits, n, d, -1 + limits.window);
    hide Step, After, History, AllCrowded, Word, SUBJECT, PassedIn, Burst, WellBehaved;
    CrowdIsForgotten(limits, After(limits, before), n, call);
    OneMorePassed(limits, before, call, d, -1, -1 + limits.window);
  }

  lemma {:induction false} NothingPasses(limits: Limits, calls: seq<Call>, d: Dimension, ref: Ref, from: int, to: int)
    requires limits.phone == 0 || limits.ip == 0
    ensures PassedIn(History(limits, calls), d, ref, from, to) == 0
  {
    if calls != [] {
      var init, last := calls[..|calls| - 1], calls[|calls| - 1];
      NothingPasses(limits, init, d, ref, from, to);
      var h := History(limits, calls);
      assert h == History(limits, init) + [Past(last, Step(After(limits, init), limits, last).1.allowed)];
      assert h[..|h| - 1] == History(limits, init);
      StepByDimension(After(limits, init), limits, last, ByPhone);
    }
  }

  ghost predicate BoundHolds(limits: Limits, calls: seq<Call>, d: Dimension, ref: Ref, from: int) {
    PassedIn(History(limits, calls), d, ref, from, from + limits.window) <= Limit(limits, d)
  }

  /** The rolling bound, for every well-behaved sequence of calls. */
  ghost predicate Bounded(limits: Limits) {
    forall calls: seq<Call>, d: Dimension, ref: Ref, from: int | WellBehaved(calls) :: BoundHolds(limits, calls, d, ref, from)
  }

  /** The script keeps the rolling bound exactly if its keys live at least as long as the window,
      or nothing is ever let through. */
  lemma BoundExactlyWhen(limits: Limits)
    ensures Bounded(limits) <==> Sufficient(limits) || limits.phone == 0 || limits.ip == 0
  {
    hide WellBehaved, History, Sufficient, PassedIn;
    if Sufficient(limits) {
      forall calls: seq<Call>, d: Dimension, ref: Ref, from: int | WellBehaved(calls)
        ensures BoundHolds(limits, calls, d, ref, from)
      {
        ScriptBound(limits, calls, d, ref, from);
      }
    } else if limits.phone == 0 || limits.ip == 0 {
      forall calls: seq<Call>, d: Dimension, ref: Ref, from: int
        ensures BoundHolds(limits, calls, d, ref, from)
      {
        NothingPasses(limits, calls, d, ref, from, from + limits.window);
      }
    } else {
      ShortLifetimeBreaksTheBound(limits, Tighter(limits));
      assert !BoundHolds(limits, BurstAndOne(limits), Tighter(limits), SUBJECT, -1);
    }
  }

  /** A bucket never holds anybody but one member. */
  ghost predicate Only(bs: Buckets, ref: Ref, m: Member) {
    forall now :: Scores(bs, ref, now).Keys <= {m}
  }

  lemma OnlyStays(bs: Buckets, d: Dimension, limits: Limits, call: Call)
    requires Only(bs, Subject(call, d), call.member)
    ensures Only(NextBuckets(bs, d, limits, call, true), Subject(call, d), call.member)
    ensures |Scores(Prune(bs, Subject(call, d), call.now, call.now - limits.window), Subject(call, d), call.now)| <= 1
  {
    var ref, m := Subject(call, d), call.member;
    var pruned := Prune(bs, ref, call.now, call.now - limits.window);
    forall t
      ensures Scores(pruned, ref, t).Keys <= {m}
    {
      assert Scores(bs, ref, call.now).Keys <= {m} && Scores(bs, ref, t).Keys <= {m};
    }
    Smaller(Scores(pruned, ref, call.now).Keys, {m});
  }

  const MEMBER: Member := "m"

  /** The `k`th of a series of requests of one subject, all with one member, each with another
      subject of the other kind. */
  function Repeat(d: Dimension, k: nat, now: int): Call {
    if d.ByPhone? then Call(SUBJECT, Word(k), MEMBER, now) else Call(Word(k), SUBJECT, MEMBER, now)
  }

  function Repeats(d: Dimension, times: seq<int>): seq<Call> {
    if times == [] then [] else Repeats(d, times[..|times| - 1]) + [Repeat(d, |times| - 1, times[|times| - 1])]
  }

  /** Subjects not used yet have no key. */
  ghost predicate Unused(bs: Buckets, n: nat) { forall k: nat :: k >= n ==> Word(k) !in bs }

  lemma UnusedStays(bs: Buckets, d: Dimension, n: nat, limits: Limits, call: Call)
    requires Unused(bs, n) && Subject(call, d) == Word(n)
    ensures Unused(NextBuckets(bs, d, limits, call, true), n + 1)
    ensures Scores(Prune(bs, Word(n), call.now, call.now - limits.window), Word(n), call.now) == map[]
  {
    assert Word(n) !in bs;
    forall k: nat | k >= n + 1
      ensures Word(k) !in NextBuckets(bs, d, limits, call, true)
    {
      WordsDiffer(k, n);
    }
  }

  ghost predicate RepeatingState(s: Store, d: Dimension, n: nat) {
    Only(BucketsOf(s, d), SUBJECT, MEMBER) && Unused(BucketsOf(s, Other(d)), n)
  }

  lemma RepeatStep(limits: Limits, d: Dimension, s: Store, n: nat, now: int)
    requires Limit(limits, d) >= 2 && Limit(limits, Other(d)) >= 1 && RepeatingState(s, d, n)
    ensures var (next, decision) := Step(s, limits, Repeat(d, n, now)); decision.allowed && RepeatingState(next, d, n + 1)
  {
    hide Step, Only, Unused, NextBuckets, Scores, Prune, Word, SUBJECT, MEMBER;
    var call := Repeat(d, n, now);
    OnlyStays(BucketsOf(s, d), d, limits, call);
    UnusedStays(BucketsOf(s, Other(d)), Other(d), n, limits, call);
    StepByDimension(s, limits, call, d);
    StepByDimension(s, limits, call, Other(d));
  }

  /** A member used again replaces its own entry: a limit of two or more never bites, so that
      any number of calls is let through in any interval. */
  lemma {:induction false} RepeatedMemberIsNeverDenied(limits: Limits, d: Dimension, times: seq<int>, from: int, to: int)
    requires Limit(limits, d) >= 2 && Limit(limits, Other(d)) >= 1 && forall k :: 0 <= k < |times| ==> from < times[k] <= to
    ensures PassedIn(History(limits, Repeats(d, times)), d, SUBJECT, from, to) == |times|
    ensures RepeatingState(After(limits, Repeats(d, times)), d, |times|)
    decreases |times|
  {
    if times != [] {
      var n := |times| - 1;
      var before, call := Repeats(d, times[..n]), Repeat(d, n, times[n]);
      RepeatedMemberIsNeverDenied(limits, d, times[..n], from, to);
      RepeatsOneMore(d, times);
      hide Step, RepeatingState, After, History, Repeats, PassedIn, Word, SUBJECT, MEMBER;
      OneMore(limits, before, call);
      RepeatStep(limits, d, After(limits, before), n, times[n]);
      OneMorePassed(limits, before, call, d, from, to);
    }
  }

  lemma RepeatsOneMore(d: Dimension, times: seq<int>)
    requires times != []
    ensures Repeats(d, times) == Repeats(d, times[..|times| - 1]) + [Repeat(d, |times| - 1, times[|times| - 1])]
  {
  }

  lemma {:induction false} RepeatsAt(d: Dimension, times: seq<int>)
    ensures |Repeats(d, times)| == |times| && forall k :: 0 <= k < |times| ==> Repeats(d, times)[k].now == times[k]
  {
    if times != [] { RepeatsAt(d, times[..|times| - 1]); }
  }

  /** A history decided by the script's own rule. */
  predicate Fitted(h: seq<Past>, limits: Limits) {
    h != [] ==> Fitted(h[..|h| - 1], limits) && (h[|h| - 1].allowed <==> Fits(h[..|h| - 1], limits, h[|h| - 1].call))
  }

  lemma {:induction false} ScriptFits(limits: Limits, calls: seq<Call>)
    requires Ordered(calls) && Sufficient(limits)
    ensures Fitted(History(limits, calls), limits)
  {
    if calls != [] {
      var init, call := calls[..|calls| - 1], calls[|calls| - 1];
      var before := if init == [] then call.now else init[|init| - 1].now;
      HistoryGrows(limits, calls);
      ScriptFits(limits, init);
      ScriptStaysFaithful(limits, init, before);
      hide Faithful, Grows, Fits, Step;
      StepStaysFaithful(After(limits, init), History(limits, init), limits, call, before);
      assert History(limits, calls)[..|calls| - 1] == History(limits, init);
    }
  }

  lemma {:induction false} EmptyWindow(h: seq<Past>, d: Dimension, ref: Ref, cutoff: int)
    ensures |Window(h, d, ref, cutoff)| == 0 ==> Passed(h, d, ref, cutoff) == 0
  {
    if h != [] {
      EmptyWindow(h[..|h| - 1], d, ref, cutoff);
      var last := h[|h| - 1];
      assert last.allowed && Subject(last.call, d) == ref && last.call.now > cutoff ==> last.call.member in Window(h, d, ref, cutoff);
    }
  }

  /** A limit of one holds whatever the members are. */
  lemma {:induction false} LimitOfOneHolds(h: seq<Past>, limits: Limits, d: Dimension, ref: Ref, from: int)
    requires Fitted(h, limits) && Limit(limits, d) <= 1
    ensures PassedIn(h, d, ref, from, from + limits.window) <= Limit(limits, d)
  {
    if h != [] {
      var init, last := h[..|h| - 1], h[|h| - 1];
      LimitOfOneHolds(init, limits, d, ref, from);
      if last.allowed && Subject(last.call, d) == ref && from < last.call.now <= from + limits.window {
        EmptyWindow(init, d, ref, last.call.now - limits.window);
        PassedShrinks(init, d, ref, from, from + limits.window, last.call.now - limits.window);
      }
    }
  }

  lemma {:induction false} NoTimeNoCalls(h: seq<Past>, d: Dimension, ref: Ref, from: int)
    ensures PassedIn(h, d, ref, from, from) == 0
  {
    if h != [] { NoTimeNoCalls(h[..|h| - 1], d, ref, from); }
  }

  /** The bound of one dimension, for every sequence in order of time, whatever its members. */
  ghost predicate BoundedWhateverTheMembers(limits: Limits, d: Dimension) {
    forall calls: seq<Call>, ref: Ref, from: int | Ordered(calls) :: BoundHolds(limits, calls, d, ref, from)
  }

  /** What keeps a dimension's bound whatever the members are. */
  predicate Immune(limits: Limits, d: Dimension) {
    limits.window == 0 || Limit(limits, d) == 0 || Limit(limits, Other(d)) == 0 || (Limit(limits, d) == 1 && Sufficient(limits))
  }

  lemma ImmuneHolds(limits: Limits, d: Dimension, calls: seq<Call>, ref: Ref, from: int)
    requires Immune(limits, d) && Ordered(calls)
    ensures BoundHolds(limits, calls, d, ref, from)
  {
    hide Ordered, History, Fitted, PassedIn, Sufficient;
    if limits.window == 0 {
      NoTimeNoCalls(History(limits, calls), d, ref, from);
    } else if Limit(limits, d) == 0 || Limit(limits, Other(d)) == 0 {
      NothingPasses(limits, calls, d, ref, from, from + limits.window);
    } else {
      ScriptFits(limits, calls);
      LimitOfOneHolds(History(limits, calls), limits, d, ref, from);
    }
  }

  lemma RepeatsBreakTheBound(limits: Limits, d: Dimension)
    requires limits.window > 0 && Limit(limits, d) >= 2 && Limit(limits, Other(d)) >= 1
    ensures var calls := Repeats(d, seq(Limit(limits, d) + 1, _ => 0)); Ordered(calls) && !BoundHolds(limits, calls, d, SUBJECT, -1)
  {
    hide Ordered, History, PassedIn, Repeats;
    var times := seq(Limit(limits, d) + 1, _ => 0);
    RepeatedMemberIsNeverDenied(limits, d, times, -1, -1 + limits.window);
    RepeatsAreOrdered(d, times);
  }

  /** A limit of one is broken by an early expiry, even with distinct members. */
  lemma OneIsBrokenByExpiry(limits: Limits, d: Dimension)
    requires Limit(limits, d) == 1 && Limit(limits, Other(d)) >= 1 && !Sufficient(limits)
    ensures Ordered(BurstAndOne(limits)) && !BoundHolds(limits, BurstAndOne(limits), d, SUBJECT, -1)
  {
    hide Ordered, WellBehaved, History, PassedIn, BurstAndOne, Sufficient;
    ShortLifetimeBreaksTheBound(limits, d);
    WellBehavedIsOrdered(BurstAndOne(limits));
  }

  lemma WellBehavedIsOrdered(calls: seq<Call>)
    requires WellBehaved(calls)
    ensures Ordered(calls)
  {
  }

  /** Without distinct members a dimension keeps its bound exactly if nothing can be let through
      at all, no time counts, or its limit is one and keys live long enough. */
  lemma RepeatedMembersExactlyWhen(limits: Limits, d: Dimension)
    ensures BoundedWhateverTheMembers(limits, d) <==>
            limits.window == 0 || Limit(limits, d) == 0 || Limit(limits, Other(d)) == 0 || (Limit(limits, d) == 1 && Sufficient(limits))
  {
    assert Sufficient(limits) || limits.window > 0;
    hide Ordered, BoundHolds, Repeats, BurstAndOne, Sufficient, Limit;
    if Immune(limits, d) {
      forall calls: seq<Call>, ref: Ref, from: int | Ordered(calls)
        ensures BoundHolds(limits, calls, d, ref, from)
      {
        ImmuneHolds(limits, d, calls, ref, from);
      }
    } else if Limit(limits, d) == 1 {
      OneIsBrokenByExpiry(limits, d);
    } else {
      RepeatsBreakTheBound(limits, d);
    }
  }

  lemma RepeatsAreOrdered(d: Dimension, times: seq<int>)
    requires forall k :: 0 <= k < |times| ==> times[k] == 0
    ensures Ordered(Repeats(d, times))
  {
    RepeatsAt(d, times);
  }

  // ------------------------------------------------------------------ the in-process stand-in

  type Counts = map<Ref, nat>

  datatype Tally = Tally(phones: Counts, ips: Counts, members: seq<Member>)

  function Get(m: Counts, ref: Ref): nat { if ref in m then m[ref] else 0 }

  function Count(t: Tally, limits: Limits, call: Call): (Tally, Decision) {
    var p, i := Get(t.phones, call.phone), Get(t.ips, call.ip);
    if p >= limits.phone then (t, Decision(false, Some(ByPhone), 60, p, i))
    else if i >= limits.ip then (t, Decision(false, Some(ByIp), 60, p, i))
    else (Tally(t.phones[call.phone := p + 1], t.ips[call.ip := i + 1], t.members + [call.member]), Decision(true, None, 1, p + 1, i + 1))
  }

  class MemoryAuthRateLimiter {
    const limits: Limits
    const fail: bool
    var phones: Counts
    var ips: Counts
    var members: seq<Member>

    constructor (limits: Limits, fail: bool)
      ensures phones == map[] && ips == map[] && members == [] && this.limits == limits && this.fail == fail
    {
      this.limits, this.fail, phones, ips, members := limits, fail, map[], map[], [];
    }

    /** None is the simulated backend failure. */
    method CheckAndIncrement(call: Call) returns (d: Option<Decision>)
      modifies this
      ensures d.None? <==> fail
      ensures fail ==> phones == old(phones) && ips == old(ips) && members == old(members)
      ensures d.Some? ==> (Tally(phones, ips, members), d.value) == Count(Tally(old(phones), old(ips), old(members)), limits, call)
    {
      if fail { return None; }
      var p := if call.phone in phones then phones[call.phone] else 0;
      var i := if call.ip in ips then ips[call.ip] else 0;
      if p >= limits.phone { return Some(Decision(false, Some(ByPhone), 60, p, i)); }
      if i >= limits.ip { return Some(Decision(false, Some(ByIp), 60, p, i)); }
      members := members + [call.member];
      phones := phones[call.phone := p + 1];
      ips := ips[call.ip := i + 1];
      d := Some(Decision(true, None, 1, p + 1, i + 1));
    }
  }

  ghost function Sum(m: Counts): nat
    decreases |m|
  {
    if m == map[] then 0 else var k :| k in m; m[k] + Sum(m - {k})
  }

  lemma {:induction false} SumWithout(m: Counts, k: Ref)
    requires k in m
    ensures Sum(m) == m[k] + Sum(m - {k})
    decreases |m|
  {
    var j :| j in m && Sum(m) == m[j] + Sum(m - {j});
    if j != k {
      SumWithout(m - {j}, k);
      SumWithout(m - {k}, j);
      assert m - {j} - {k} == m - {k} - {j};
    }
  }

  lemma SumCharged(m: Counts, k: Ref)
    ensures Sum(m[k := Get(m, k) + 1]) == Sum(m) + 1
  {
    var charged := m[k := Get(m, k) + 1];
    SumWithout(charged, k);
    assert charged - {k} == m - {k};
    if k in m { SumWithout(m, k); } else { assert m - {k} == m; }
  }

  function Tallied(limits: Limits, calls: seq<Call>): Tally {
    if calls == [] then Tally(map[], map[], [])
    else Count(Tallied(limits, calls[..|calls| - 1]), limits, calls[|calls| - 1]).0
  }

  function Counted(limits: Limits, calls: seq<Call>): (h: seq<Past>)
    ensures |h| == |calls| && forall k :: 0 <= k < |h| ==> h[k].call == calls[k]
  {
    if calls == [] then []
    else
      var init, last := calls[..|calls| - 1], calls[|calls| - 1];
      Counted(limits, init) + [Past(last, Count(Tallied(limits, init), limits, last).1.allowed)]
  }

  function Total(h: seq<Past>, d: Dimension, ref: Ref): nat {
    if h == [] then 0
    else
      var last := h[|h| - 1];
      Total(h[..|h| - 1], d, ref) + (if last.allowed && Subject(last.call, d) == ref then 1 else 0)
  }

  function Admitted(h: seq<Past>): seq<Member> {
    if h == [] then []
    else Admitted(h[..|h| - 1]) + (if h[|h| - 1].allowed then [h[|h| - 1].call.member] else [])
  }

  /** Each counter is the number of calls let through for its subject and stays within its
      limit; phones, addresses and members add up to the same. */
  ghost predicate Conserved(t: Tally, h: seq<Past>, limits: Limits) {
    && (forall ref :: Get(t.phones, ref) == Total(h, ByPhone, ref) <= limits.phone)
    && (forall ref :: Get(t.ips, ref) == Total(h, ByIp, ref) <= limits.ip)
    && Sum(t.phones) == Sum(t.ips) == |t.members| && t.members == Admitted(h)
  }

  lemma OneMoreTotal(h: seq<Past>, p: Past)
    ensures forall ref :: Total(h + [p], ByPhone, ref) == Total(h, ByPhone, ref) + (if p.allowed && p.call.phone == ref then 1 else 0)
    ensures forall ref :: Total(h + [p], ByIp, ref) == Total(h, ByIp, ref) + (if p.allowed && p.call.ip == ref then 1 else 0)
    ensures Admitted(h + [p]) == Admitted(h) + (if p.allowed then [p.call.member] else [])
  {
    assert (h + [p])[..|h|] == h;
  }

  lemma CountConserves(t: Tally, h: seq<Past>, limits: Limits, call: Call)
    requires Conserved(t, h, limits)
    ensures var (next, decision) := Count(t, limits, call);
            Conserved(next, h + [Past(call, decision.allowed)], limits)
  {
    hide Sum, Total, Admitted;
    SumCharged(t.phones, call.phone);
    SumCharged(t.ips, call.ip);
    var p := Past(call, Count(t, limits, call).1.allowed);
    OneMoreTotal(h, p);
  }

  /** Conserved over every sequence of calls; a denied call changes nothing. */
  lemma {:induction false} CountersAreConserved(limits: Limits, calls: seq<Call>)
    ensures Conserved(Tallied(limits, calls), Counted(limits, calls), limits)
    ensures forall call :: !Count(Tallied(limits, calls), limits, call).1.allowed ==> Count(Tallied(limits, calls), limits, call).0 == Tallied(limits, calls)
  {
    if calls != [] {
      var init, call := calls[..|calls| - 1], calls[|calls| - 1];
      CountersAreConserved(limits, init);
      hide Conserved;
      CountConserves(Tallied(limits, init), Counted(limits, init), limits, call);
    }
  }

  /** The stand-in's whole decision, in the same order. */
  lemma StandInDecides(limits: Limits, calls: seq<Call>, call: Call)
    ensures var h, d := Counted(limits, calls), Count(Tallied(limits, calls), limits, call).1;
            var p, i := Total(h, ByPhone, call.phone), Total(h, ByIp, call.ip);
            && (d.allowed <==> p < limits.phone && i < limits.ip)
            && d.dimension == (if p >= limits.phone then Some(ByPhone) else if i >= limits.ip then Some(ByIp) else None)
            && (d.allowed ==> d.phoneCount == p + 1 && d.ipCount == i + 1 && d.retryAfter == 1)
            && (!d.allowed ==> d.phoneCount == p && d.ipCount == i && d.retryAfter == 60)
  {
    CountersAreConserved(limits, calls);
    hide Tallied, Counted, Total, Sum, Admitted;
  }

  /** With everything still in the window, counting and the rule agree on the next call. */
  lemma CountingFollowsTheRule(t: Tally, h: seq<Past>, limits: Limits, call: Call)
    requires Get(t.phones, call.phone) == Total(h, ByPhone, call.phone) && Get(t.ips, call.ip) == Total(h, ByIp, call.ip)
    requires forall k :: 0 <= k < |h| ==> h[k].call.now > call.now - limits.window
    ensures Count(t, limits, call).1.allowed <==> Permitted(h, limits, call)
  {
    AllRecent(h, ByPhone, call.phone, call.now - limits.window);
    AllRecent(h, ByIp, call.ip, call.now - limits.window);
  }

  /** One call, with everything let through so far still in the window. */
  lemma BothDecideAlike(s: Store, t: Tally, h: seq<Past>, limits: Limits, call: Call, last: int)
    requires Faithful(s.phones, h, ByPhone, limits, last) && Faithful(s.ips, h, ByIp, limits, last) && last <= call.now
    requires Conserved(t, h, limits) && Distinct(h) && forall k :: 0 <= k < |h| ==> h[k].call.now > call.now - limits.window
    ensures Step(s, limits, call).1.allowed == Count(t, limits, call).1.allowed
  {
    assert Get(t.phones, call.phone) == Total(h, ByPhone, call.phone) && Get(t.ips, call.ip) == Total(h, ByIp, call.ip);
    hide Step, Sum, Total, Passed, Admitted, Faithful, Conserved, Fits, Permitted, Distinct, Count, Get;
    DistinctFits(h, limits, call);
    StepFollowsTheRule(s, h, limits, call, last);
    CountingFollowsTheRule(t, h, limits, call);
  }

  lemma HistoryIsRecent(limits: Limits, calls: seq<Call>)
    requires WellBehaved(calls) && calls != [] && calls[|calls| - 1].now < calls[0].now + limits.window
    ensures var h := History(limits, calls[..|calls| - 1]);
            Distinct(h) && forall k :: 0 <= k < |h| ==> h[k].call.now > calls[|calls| - 1].now - limits.window
  {
    hide History;
  }

  lemma MemoryStep(limits: Limits, calls: seq<Call>)
    requires WellBehaved(calls) && Sufficient(limits) && calls != [] && calls[|calls| - 1].now < calls[0].now + limits.window
    requires Counted(limits, calls[..|calls| - 1]) == History(limits, calls[..|calls| - 1])
    ensures var init, call := calls[..|calls| - 1], calls[|calls| - 1];
            Step(After(limits, init), limits, call).1.allowed == Count(Tallied(limits, init), limits, call).1.allowed
  {
    hide Step, After, History, Counted, Faithful, Conserved, Distinct, Grows, Tallied, Count;
    var init, call := calls[..|calls| - 1], calls[|calls| - 1];
    var before := if init == [] then call.now else init[|init| - 1].now;
    ScriptStaysFaithful(limits, init, before);
    CountersAreConserved(limits, init);
    HistoryIsRecent(limits, calls);
    BothDecideAlike(After(limits, init), Tallied(limits, init), History(limits, init), limits, call, before);
  }

  /** As long as the first call is still inside the window, the stand-in and the script decide
      every sequence alike. */
  lemma {:induction false} MemoryRefinesScript(limits: Limits, calls: seq<Call>)
    requires WellBehaved(calls) && Sufficient(limits)
    requires calls != [] ==> calls[|calls| - 1].now < calls[0].now + limits.window
    ensures Counted(limits, calls) == History(limits, calls)
  {
    if calls != [] {
      var init, call := calls[..|calls| - 1], calls[|calls| - 1];
      MemoryRefinesScript(limits, init);
      hide Step, After, Tallied, Count, WellBehaved, Sufficient;
      MemoryStep(limits, calls);
    }
  }

  lemma {:induction false} AllRecent(h: seq<Past>, d: Dimension, ref: Ref, cutoff: int)
    requires forall k :: 0 <= k < |h| ==> h[k].call.now > cutoff
    ensures Passed(h, d, ref, cutoff) == Total(h, d, ref)
  {
    if h != [] { AllRecent(h[..|h| - 1], d, ref, cutoff); }
  }
}
