/** The auth backup pipeline: invariant check, export, encryption, restore, and the same checks
    again on what came back. Export turns values JSON does not have into their printed form, so
    what passed before the export is not always what is checked after it. */
module Backup {
  import opened Wrappers
  import opened BackupSecure
  import opened Text

  // ------------------------------------------------------------------ values

  /** A value of a row, as far as the checks look at it. Native is a number or a boolean with
      its printed form; Foreign an object JSON does not know (a time, a UUID), printed by
      export; Octets a byte string with its printed form; Nested a list, tuple or object that
      prints as `now` and, once exported and read back, as `later`. */
  datatype RawValue =
    | Null
    | Str(text: string)
    | Native(text: string, truthy: bool)
    | Foreign(text: string)
    | Octets(data: Bytes, text: string)
    | Nested(now: string, later: string)

  predicate Bracketed(s: string) { s != "" && (s[0] == '[' || s[0] == '(' || s[0] == '{') }

  predicate EmptyNested(s: string) { s == "[]" || s == "()" || s == "{}" }

  predicate Possible(v: RawValue) {
    && (v.Octets? && v.data == [] ==> v.text == "b''")
    && (v.Nested? ==>
          && Bracketed(v.now) && Bracketed(v.later)
          && (EmptyNested(v.now) <==> EmptyNested(v.later)) && (v.now == "[]" ==> v.later == "[]"))
  }

  type Value = v: RawValue | Possible(v) witness Null

  type Row = map<string, Value>

  function Get(row: Row, key: string): Value { if key in row then row[key] else Null }

  /** `str(v)` of a value that is not None. */
  function Printed(v: Value): string
    requires !v.Null?
  {
    if v.Nested? then v.now else v.text
  }

  predicate Truthy(v: Value) {
    match v
    case Null => false
    case Str(text) => text != ""
    case Native(_, truthy) => truthy
    case Foreign(_) => true
    case Octets(data, _) => data != []
    case Nested(now, _) => !EmptyNested(now)
  }

  /** `str(v or "")`. */
  function OrEmpty(v: Value): string { if Truthy(v) then Printed(v) else "" }

  /** Not None and not blank once printed. */
  predicate Present(v: Value) { !v.Null? && Strip(Printed(v)) != "" }

  // ------------------------------------------------------------------ the invariants

  const SendStartedStates := {"dispatching", "delivered", "delivery_failed", "consumed", "locked", "superseded", "expired"}

  const ResendEligibleStates := {"pending_delivery"}

  predicate Active(session: Row) { !Present(Get(session, "revoked_at")) }

  function UserOf(session: Row): string { OrEmpty(Get(session, "user_id")) }

  function StateOf(challenge: Row): string { Strip(OrEmpty(Get(challenge, "state"))) }

  predicate Consumed(challenge: Row) { StateOf(challenge) == "consumed" }

  /** None, an empty string, empty bytes or an empty list. */
  predicate Cleared(digest: Value) {
    digest.Null? || digest == Str("") || (digest.Octets? && digest.data == []) || (digest.Nested? && digest.now == "[]")
  }

  predicate Started(challenge: Row) { Present(Get(challenge, "send_started_at")) }

  datatype Violation = SessionMissingUser | MultipleActiveSessions | ConsumedMissingTimestamp | ConsumedDigestPresent | SendStartedResendEligible | SendStartedIllegalState

  /** When each violation is reported. */
  predicate Broken(v: Violation, challenges: seq<Row>, sessions: seq<Row>) {
    match v
    case SessionMissingUser => exists i :: 0 <= i < |sessions| && Active(sessions[i]) && UserOf(sessions[i]) == ""
    case MultipleActiveSessions =>
      exists i, j :: 0 <= i < j < |sessions| && Active(sessions[i]) && Active(sessions[j]) && UserOf(sessions[i]) == UserOf(sessions[j]) != ""
    case ConsumedMissingTimestamp => exists i :: 0 <= i < |challenges| && Consumed(challenges[i]) && !Present(Get(challenges[i], "consumed_at"))
    case ConsumedDigestPresent => exists i :: 0 <= i < |challenges| && Consumed(challenges[i]) && !Cleared(Get(challenges[i], "code_digest"))
    case SendStartedResendEligible => exists i :: 0 <= i < |challenges| && Started(challenges[i]) && StateOf(challenges[i]) in ResendEligibleStates
    case SendStartedIllegalState =>
      exists i :: 0 <= i < |challenges| && Started(challenges[i]) && StateOf(challenges[i]) !in ResendEligibleStates + SendStartedStates
  }

  /** At most one active session per user, and every active session has one. */
  predicate SessionsSound(sessions: seq<Row>) {
    && (forall i :: 0 <= i < |sessions| && Active(sessions[i]) ==> UserOf(sessions[i]) != "")
    && (forall i, j :: 0 <= i < j < |sessions| && Active(sessions[i]) && Active(sessions[j]) ==> UserOf(sessions[i]) != UserOf(sessions[j]))
  }

  /** Consumed stays consumed, and what was sent is in no state that would send it again. */
  predicate ChallengeSound(c: Row) {
    && (Consumed(c) ==> Present(Get(c, "consumed_at")) && Cleared(Get(c, "code_digest")))
    && (Started(c) ==> StateOf(c) in SendStartedStates)
  }

  predicate Sound(challenges: seq<Row>, sessions: seq<Row>) {
    SessionsSound(sessions) && forall i :: 0 <= i < |challenges| ==> ChallengeSound(challenges[i])
  }

  /** The column is there and not blank once printed. */
  predicate Given(row: Row, key: string) { key in row && !row[key].Null? && Strip(Printed(row[key])) != "" }

  /** `str(row.get(key) or "")`. */
  function ColumnText(row: Row, key: string): string { if key in row && Truthy(row[key]) then Printed(row[key]) else "" }

  lemma SessionIs(s: Row)
    ensures Active(s) <==> !Given(s, "revoked_at")
    ensures UserOf(s) == ColumnText(s, "user_id")
  {
    hide Strip;
  }

  /** None, an empty string, empty bytes or an empty list, if it is there at all. */
  predicate NoDigest(c: Row) {
    "code_digest" in c ==>
      var v := c["code_digest"];
      v.Null? || v == Str("") || (v.Octets? && v.data == []) || (v.Nested? && v.now == "[]")
  }

  lemma ChallengeIs(c: Row)
    ensures Consumed(c) <==> Strip(ColumnText(c, "state")) == "consumed"
    ensures Started(c) <==> Given(c, "send_started_at")
    ensures Present(Get(c, "consumed_at")) <==> Given(c, "consumed_at")
    ensures StateOf(c) == Strip(ColumnText(c, "state"))
    ensures Cleared(Get(c, "code_digest")) <==> NoDigest(c)
  {
    hide Strip;
  }

  /** The invariants, column by column: an active session is one not revoked; it has a user, and
      no two share one; a consumed challenge has its time and no digest; and one whose sending
      began is in a state that sends nothing again. */
  lemma SoundExactlyWhen(challenges: seq<Row>, sessions: seq<Row>)
    ensures Sound(challenges, sessions) <==>
              && (forall i :: 0 <= i < |sessions| && !Given(sessions[i], "revoked_at") ==> ColumnText(sessions[i], "user_id") != "")
              && (forall i, j :: 0 <= i < j < |sessions| && !Given(sessions[i], "revoked_at") && !Given(sessions[j], "revoked_at") ==>
                    ColumnText(sessions[i], "user_id") != ColumnText(sessions[j], "user_id"))
              && (forall i :: 0 <= i < |challenges| && Strip(ColumnText(challenges[i], "state")) == "consumed" ==>
                    Given(challenges[i], "consumed_at") && NoDigest(challenges[i]))
              && (forall i :: 0 <= i < |challenges| && Given(challenges[i], "send_started_at") ==>
                    Strip(ColumnText(challenges[i], "state")) in {"dispatching", "delivered", "delivery_failed", "consumed", "locked", "superseded", "expired"})
  {
    forall i | 0 <= i < |sessions|
      ensures Active(sessions[i]) <==> !Given(sessions[i], "revoked_at")
      ensures UserOf(sessions[i]) == ColumnText(sessions[i], "user_id")
    {
      SessionIs(sessions[i]);
    }
    forall i | 0 <= i < |challenges|
      ensures ChallengeSound(challenges[i]) <==>
                && (Strip(ColumnText(challenges[i], "state")) == "consumed" ==> Given(challenges[i], "consumed_at") && NoDigest(challenges[i]))
                && (Given(challenges[i], "send_started_at") ==>
                      Strip(ColumnText(challenges[i], "state")) in {"dispatching", "delivered", "delivery_failed", "consumed", "locked", "superseded", "expired"})
    {
      ChallengeIs(challenges[i]);
      hide Active, UserOf, Consumed, Started, Present, Get, StateOf, Cleared, NoDigest, Given, ColumnText, Strip;
    }
    hide Active, UserOf, ChallengeSound, NoDigest, Given, ColumnText, Strip;
  }

  /** Each violation of a session, column by column. */
  lemma SessionBrokenExactlyWhen(challenges: seq<Row>, sessions: seq<Row>)
    ensures Broken(SessionMissingUser, challenges, sessions) <==>
            exists i :: 0 <= i < |sessions| && !Given(sessions[i], "revoked_at") && ColumnText(sessions[i], "user_id") == ""
    ensures Broken(MultipleActiveSessions, challenges, sessions) <==>
            exists i, j :: 0 <= i < j < |sessions| && !Given(sessions[i], "revoked_at") && !Given(sessions[j], "revoked_at") &&
              ColumnText(sessions[i], "user_id") == ColumnText(sessions[j], "user_id") && ColumnText(sessions[i], "user_id") != ""
  {
    forall i | 0 <= i < |sessions|
      ensures Active(sessions[i]) <==> !Given(sessions[i], "revoked_at")
      ensures UserOf(sessions[i]) == ColumnText(sessions[i], "user_id")
    {
      SessionIs(sessions[i]);
    }
    hide Active, UserOf, Given, ColumnText, Strip;
  }

  /** What is wrong with a challenge, column by column. */
  predicate Breaks(v: Violation, c: Row) {
    var state := Strip(ColumnText(c, "state"));
    match v
    case ConsumedMissingTimestamp => state == "consumed" && !Given(c, "consumed_at")
    case ConsumedDigestPresent => state == "consumed" && !NoDigest(c)
    case SendStartedResendEligible => Given(c, "send_started_at") && state == "pending_delivery"
    case SendStartedIllegalState =>
      Given(c, "send_started_at") && state != "pending_delivery" &&
      state !in {"dispatching", "delivered", "delivery_failed", "consumed", "locked", "superseded", "expired"}
    case _ => false
  }

  /** Each violation of a challenge is reported exactly if some challenge has it. */
  lemma ChallengeBrokenExactlyWhen(v: Violation, challenges: seq<Row>, sessions: seq<Row>)
    requires v != SessionMissingUser && v != MultipleActiveSessions
    ensures Broken(v, challenges, sessions) <==> exists i :: 0 <= i < |challenges| && Breaks(v, challenges[i])
  {
    forall i | 0 <= i < |challenges|
      ensures Broken(v, [challenges[i]], sessions) <==> Breaks(v, challenges[i])
    {
      BreaksAlone(v, challenges[i], sessions);
    }
    hide Breaks, Consumed, Started, Present, Get, StateOf, Cleared;
    if Broken(v, challenges, sessions) {
      var i := BreaksSomewhere(v, challenges, sessions);
    }
    if i :| 0 <= i < |challenges| && Breaks(v, challenges[i]) {
      assert Broken(v, [challenges[i]], sessions);
      assert [challenges[i]][0] == challenges[i];
    }
  }

  lemma BreaksAlone(v: Violation, c: Row, sessions: seq<Row>)
    requires v != SessionMissingUser && v != MultipleActiveSessions
    ensures Broken(v, [c], sessions) <==> Breaks(v, c)
  {
    ChallengeIs(c);
    assert [c][0] == c;
    hide Consumed, Started, Present, Get, StateOf, Cleared, NoDigest, Given, ColumnText, Strip;
  }

  lemma BreaksSomewhere(v: Violation, challenges: seq<Row>, sessions: seq<Row>) returns (i: nat)
    requires v != SessionMissingUser && v != MultipleActiveSessions && Broken(v, challenges, sessions)
    ensures i < |challenges| && Broken(v, [challenges[i]], sessions)
  {
    hide Consumed, Started, Present, Get, StateOf, Cleared;
    match v {
      case ConsumedMissingTimestamp => { i :| 0 <= i < |challenges| && Consumed(challenges[i]) && !Present(Get(challenges[i], "consumed_at")); }
      case ConsumedDigestPresent => { i :| 0 <= i < |challenges| && Consumed(challenges[i]) && !Cleared(Get(challenges[i], "code_digest")); }
      case SendStartedResendEligible => { i :| 0 <= i < |challenges| && Started(challenges[i]) && StateOf(challenges[i]) in ResendEligibleStates; }
      case SendStartedIllegalState => {
        i :| 0 <= i < |challenges| && Started(challenges[i]) && StateOf(challenges[i]) !in ResendEligibleStates + SendStartedStates;
      }
    }
    assert [challenges[i]][0] == challenges[i];
  }

  /** The ids of one user's active sessions. */
  function Group(sessions: seq<Row>, user: string): seq<string> {
    if sessions == [] then []
    else
      var last := sessions[|sessions| - 1];
      Group(sessions[..|sessions| - 1], user) + (if Active(last) && UserOf(last) == user then [OrEmpty(Get(last, "id"))] else [])
  }

  predicate ActiveOf(sessions: seq<Row>, user: string, i: nat) { i < |sessions| && Active(sessions[i]) && UserOf(sessions[i]) == user }

  lemma {:induction false} GroupCounts(sessions: seq<Row>, user: string)
    ensures Group(sessions, user) != [] <==> exists i :: ActiveOf(sessions, user, i)
    ensures |Group(sessions, user)| > 1 <==> exists i, j :: i < j && ActiveOf(sessions, user, i) && ActiveOf(sessions, user, j)
  {
    if sessions != [] {
      var n := |sessions| - 1;
      var init := sessions[..n];
      GroupCounts(init, user);
      assert forall k: nat :: ActiveOf(sessions, user, k) <==> ActiveOf(init, user, k) || (k == n && ActiveOf(sessions, user, n));
      assert ActiveOf(sessions, user, n) <==> Active(sessions[n]) && UserOf(sessions[n]) == user;
      hide ActiveOf;
      if |Group(init, user)| > 1 {
        var i, j :| i < j && ActiveOf(init, user, i) && ActiveOf(init, user, j);
        assert ActiveOf(sessions, user, i) && ActiveOf(sessions, user, j);
      }
    }
  }

  /** Every user with an active session, and the ids of all of them. */
  ghost predicate Grouped(active: map<string, seq<string>>, sessions: seq<Row>) {
    && (forall user :: user in active <==> user != "" && Group(sessions, user) != [])
    && (forall user :: user in active ==> active[user] == Group(sessions, user))
  }

  lemma GroupStep(active: map<string, seq<string>>, sessions: seq<Row>, i: nat)
    requires i < |sessions| && Grouped(active, sessions[..i])
    ensures var (row, user) := (sessions[i], UserOf(sessions[i]));
            if Active(row) && user != "" then
              Grouped(active[user := (if user in active then active[user] else []) + [OrEmpty(Get(row, "id"))]], sessions[..i + 1])
            else Grouped(active, sessions[..i + 1])
  {
    hide Active, UserOf, OrEmpty, Get;
    assert sessions[..i + 1][..i] == sessions[..i];
  }

  method CheckSessions(sessions: seq<Row>) returns (violations: seq<Violation>)
    ensures SessionMissingUser in violations <==> Broken(SessionMissingUser, [], sessions)
    ensures MultipleActiveSessions in violations <==> Broken(MultipleActiveSessions, [], sessions)
    ensures forall v :: v in violations ==> v == SessionMissingUser || v == MultipleActiveSessions
  {
    hide Grouped, Broken, Active, UserOf;
    violations := [];
    var active: map<string, seq<string>> := map[];
    NothingYet(sessions);
    for i := 0 to |sessions|
      invariant SessionMissingUser in violations <==> Broken(SessionMissingUser, [], sessions[..i])
      invariant forall v :: v in violations ==> v == SessionMissingUser
      invariant Grouped(active, sessions[..i])
    {
      var row := sessions[i];
      GroupStep(active, sessions, i);
      MissingUserSoFar(sessions, i);
      if Active(row) {
        var user, sid := UserOf(row), OrEmpty(Get(row, "id"));
        if user == "" {
          violations := violations + [SessionMissingUser];
        } else {
          active := active[user := (if user in active then active[user] else []) + [sid]];
        }
      }
    }
    assert sessions[..|sessions|] == sessions;
    violations := ReportCrowded(sessions, active, violations);
  }

  lemma NothingYet(sessions: seq<Row>)
    ensures !Broken(SessionMissingUser, [], sessions[..0]) && Grouped(map[], sessions[..0])
  {
  }

  lemma MissingUserSoFar(sessions: seq<Row>, i: nat)
    requires i < |sessions|
    ensures Broken(SessionMissingUser, [], sessions[..i + 1]) <==>
            Broken(SessionMissingUser, [], sessions[..i]) || (Active(sessions[i]) && UserOf(sessions[i]) == "")
  {
    var now, next := sessions[..i], sessions[..i + 1];
    assert forall k :: 0 <= k < i ==> next[k] == now[k];
    assert next[i] == sessions[i];
    if Broken(SessionMissingUser, [], now) {
      var k :| 0 <= k < i && Active(now[k]) && UserOf(now[k]) == "";
      assert Active(next[k]);
    }
    if Active(sessions[i]) && UserOf(sessions[i]) == "" { assert Active(next[i]) && UserOf(next[i]) == ""; }
  }

  method ReportCrowded(sessions: seq<Row>, active: map<string, seq<string>>, before: seq<Violation>) returns (violations: seq<Violation>)
    requires Grouped(active, sessions)
    requires MultipleActiveSessions !in before
    ensures before <= violations && forall v :: v in violations ==> v in before || v == MultipleActiveSessions
    ensures MultipleActiveSessions in violations <==> Broken(MultipleActiveSessions, [], sessions)
  {
    violations := before;
    var todo := active.Keys;
    while todo != {}
      invariant todo <= active.Keys && before <= violations && forall v :: v in violations ==> v in before || v == MultipleActiveSessions
      invariant MultipleActiveSessions in violations <==> exists user :: user in active.Keys - todo && |active[user]| > 1
      decreases |todo|
    {
      var user :| user in todo;
      todo := todo - {user};
      if |active[user]| > 1 { violations := violations + [MultipleActiveSessions]; }
    }
    CrowdedGroups(sessions, active);
  }

  lemma CrowdedGroups(sessions: seq<Row>, active: map<string, seq<string>>)
    requires Grouped(active, sessions)
    ensures Broken(MultipleActiveSessions, [], sessions) <==> exists user :: user in active && |active[user]| > 1
  {
    if Broken(MultipleActiveSessions, [], sessions) {
      var i, j :| 0 <= i < j < |sessions| && Active(sessions[i]) && Active(sessions[j]) && UserOf(sessions[i]) == UserOf(sessions[j]) != "";
      var user := UserOf(sessions[i]);
      GroupCounts(sessions, user);
      assert ActiveOf(sessions, user, i) && ActiveOf(sessions, user, j);
      assert user in active;
    }
    if user :| user in active && |active[user]| > 1 { GroupCounts(sessions, user); }
  }

  /** What one challenge contributes. */
  method CheckChallenge(row: Row) returns (violations: seq<Violation>)
    ensures forall v :: v in violations <==> !v.SessionMissingUser? && !v.MultipleActiveSessions? && Broken(v, [row], [])
    ensures violations == [] <==> ChallengeSound(row)
  {
    assert [row][0] == row;
    violations := [];
    var state := StateOf(row);
    if state == "consumed" {
      if !Present(Get(row, "consumed_at")) { violations := violations + [ConsumedMissingTimestamp]; }
      if !Cleared(Get(row, "code_digest")) { violations := violations + [ConsumedDigestPresent]; }
    }
    if Started(row) {
      if state in ResendEligibleStates { violations := violations + [SendStartedResendEligible]; }
      if state !in SendStartedStates && state !in ResendEligibleStates { violations := violations + [SendStartedIllegalState]; }
    }
  }

  method VerifyAuthInvariants(challenges: seq<Row>, sessions: seq<Row>) returns (violations: seq<Violation>)
    ensures violations == [] <==> Sound(challenges, sessions)
    ensures forall v :: v in violations <==> Broken(v, challenges, sessions)
  {
    hide SessionsSound, ChallengeSound, Broken;
    violations := CheckSessions(sessions);
    SessionsSoundExactlyWhen(violations, sessions);
    assert challenges[..0] == [];
    for i := 0 to |challenges|
      invariant violations == [] <==> SessionsSound(sessions) && forall k :: 0 <= k < i ==> ChallengeSound(challenges[k])
      invariant forall v :: v in violations <==> Broken(v, challenges[..i], sessions)
    {
      var found := CheckChallenge(challenges[i]);
      OneMoreChallenge(challenges, i, sessions);
      violations := violations + found;
    }
    assert challenges[..|challenges|] == challenges;
  }

  lemma SessionsSoundExactlyWhen(violations: seq<Violation>, sessions: seq<Row>)
    requires SessionMissingUser in violations <==> Broken(SessionMissingUser, [], sessions)
    requires MultipleActiveSessions in violations <==> Broken(MultipleActiveSessions, [], sessions)
    requires forall v :: v in violations ==> v == SessionMissingUser || v == MultipleActiveSessions
    ensures violations == [] <==> SessionsSound(sessions)
    ensures forall v :: v in violations <==> Broken(v, [], sessions)
  {
    if violations != [] { assert violations[0] in violations; }
  }

  lemma OneMoreChallenge(challenges: seq<Row>, i: nat, sessions: seq<Row>)
    requires i < |challenges|
    ensures forall v: Violation ::
              Broken(v, challenges[..i + 1], sessions) <==>
              Broken(v, challenges[..i], sessions) || (!v.SessionMissingUser? && !v.MultipleActiveSessions? && Broken(v, [challenges[i]], []))
  {
    hide Active, UserOf, StateOf, Consumed, Started, Cleared, Present, Get;
    var now, next := challenges[..i], challenges[..i + 1];
    assert forall k :: 0 <= k < i ==> next[k] == now[k];
    assert next[i] == challenges[i] == [challenges[i]][0];
  }

  // ------------------------------------------------------------------ what export does to rows

  function Exported(v: Value): (r: Value)
    ensures !v.Null? && !v.Nested? ==> !r.Null? && !r.Nested? && Printed(r) == Printed(v)
  {
    match v
    case Null => Null
    case Str(_) => v
    case Native(_, _) => v
    case Foreign(text) => Str(text)
    case Octets(_, text) => Str(text)
    case Nested(_, later) => Nested(later, later)
  }

  function ExportedRow(row: Row): Row { map k | k in row :: Exported(row[k]) }

  function ExportedRows(rows: seq<Row>): seq<Row> { seq(|rows|, k requires 0 <= k < |rows| => ExportedRow(rows[k])) }

  /** Strings, numbers, booleans, None, and containers of such. */
  predicate JsonNative(v: Value) { !v.Foreign? && !v.Octets? && (v.Nested? ==> v.now == v.later) }

  /** What JSON does not know is exported as its printed text. */
  lemma ExportedIsText(v: Value)
    requires !JsonNative(v)
    ensures if v.Nested? then Exported(v) == Nested(v.later, v.later) else Exported(v) == Str(Printed(v))
  {
  }

  lemma BracketedIsNotBlank(s: string)
    requires Bracketed(s)
    ensures Bracketed(Strip(s))
  {
    assert StripLeft(s) == s;
    StripRightKeepsTheStart(s);
  }

  lemma PresenceSurvives(v: Value)
    ensures Present(Exported(v)) <==> Present(v)
  {
    if v.Nested? {
      BracketedIsNotBlank(v.now);
      BracketedIsNotBlank(v.later);
    }
  }

  /** A state that the checks know is read back as itself, and no other becomes one. */
  lemma KnownStatesSurvive(v: Value, state: string)
    requires state in SendStartedStates + ResendEligibleStates
    ensures Strip(OrEmpty(Exported(v))) == state <==> Strip(OrEmpty(v)) == state
  {
    assert state != "" && !Bracketed(state) && state != "b''";
    if v.Nested? {
      BracketedIsNotBlank(v.now);
      BracketedIsNotBlank(v.later);
    }
    assert StripRight("b''") == "b''" && StripLeft("b''") == "b''";
  }

  lemma RowSurvives(row: Row, key: string)
    ensures Get(ExportedRow(row), key) == Exported(Get(row, key))
  {
  }

  predicate EmptyOctets(v: Value) { v.Octets? && v.data == [] }

  lemma ClearedAfterExport(digest: Value)
    requires Cleared(digest)
    ensures Cleared(Exported(digest)) <==> !EmptyOctets(digest)
  {
  }

  lemma ChallengeAfterExport(c: Row)
    requires ChallengeSound(c)
    ensures ChallengeSound(ExportedRow(c)) <==> !(Consumed(c) && EmptyOctets(Get(c, "code_digest")))
  {
    var e := ExportedRow(c);
    RowSurvives(c, "state");
    RowSurvives(c, "consumed_at");
    RowSurvives(c, "code_digest");
    RowSurvives(c, "send_started_at");
    PresenceSurvives(Get(c, "consumed_at"));
    PresenceSurvives(Get(c, "send_started_at"));
    forall state | state in SendStartedStates
      ensures StateOf(e) == state <==> StateOf(c) == state
    {
      KnownStatesSurvive(Get(c, "state"), state);
    }
    assert "consumed" in SendStartedStates;
    if Consumed(c) { ClearedAfterExport(Get(c, "code_digest")); }
    hide Exported, Cleared, EmptyOctets, Present, StateOf, Get;
  }

  predicate NestedUser(s: Row) { Get(s, "user_id").Nested? }

  /** An active session with a user keeps both; its user prints differently only if nested. */
  lemma SessionAfterExport(s: Row)
    ensures Active(ExportedRow(s)) <==> Active(s)
    ensures UserOf(s) != "" ==> UserOf(ExportedRow(s)) != "" && (!NestedUser(s) ==> UserOf(ExportedRow(s)) == UserOf(s))
  {
    RowSurvives(s, "revoked_at");
    RowSurvives(s, "user_id");
    PresenceSurvives(Get(s, "revoked_at"));
  }

  /** Two active sessions whose nested users are told apart now but not once exported. */
  predicate CollideAfterExport(s: Row, t: Row) {
    Active(s) && Active(t) && (NestedUser(s) || NestedUser(t)) && UserOf(ExportedRow(s)) == UserOf(ExportedRow(t))
  }

  /** What passed the first check passes the second unless a consumed challenge holds an empty
      byte string as its digest, or nested user ids collide in print. */
  lemma SecondCheckExactlyWhen(challenges: seq<Row>, sessions: seq<Row>)
    requires Sound(challenges, sessions)
    ensures Sound(ExportedRows(challenges), ExportedRows(sessions)) <==>
            && (forall i :: 0 <= i < |challenges| ==> !(Consumed(challenges[i]) && EmptyOctets(Get(challenges[i], "code_digest"))))
            && (forall i, j :: 0 <= i < j < |sessions| ==> !CollideAfterExport(sessions[i], sessions[j]))
  {
    SessionsAfterExport(sessions);
    var after := ExportedRows(challenges);
    hide SessionsSound, ChallengeSound, CollideAfterExport, Consumed, EmptyOctets;
    assert |after| == |challenges| && forall i :: 0 <= i < |challenges| ==> after[i] == ExportedRow(challenges[i]);
    forall i | 0 <= i < |challenges|
      ensures ChallengeSound(after[i]) <==> !(Consumed(challenges[i]) && EmptyOctets(Get(challenges[i], "code_digest")))
    {
      ChallengeAfterExport(challenges[i]);
    }
    if Sound(after, ExportedRows(sessions)) {
      assert forall i :: 0 <= i < |challenges| ==> ChallengeSound(after[i]);
    }
  }

  lemma SessionsAfterExport(sessions: seq<Row>)
    requires SessionsSound(sessions)
    ensures SessionsSound(ExportedRows(sessions)) <==>
            forall i, j :: 0 <= i < j < |sessions| ==> !CollideAfterExport(sessions[i], sessions[j])
  {
    var after := ExportedRows(sessions);
    forall i | 0 <= i < |sessions|
      ensures Active(after[i]) <==> Active(sessions[i])
      ensures Active(sessions[i]) ==> UserOf(after[i]) != "" && (!NestedUser(sessions[i]) ==> UserOf(after[i]) == UserOf(sessions[i]))
    {
      SessionAfterExport(sessions[i]);
    }
    hide Active, UserOf, NestedUser;
    assert forall i :: 0 <= i < |sessions| ==> after[i] == ExportedRow(sessions[i]);
    if SessionsSound(after) {
      forall i, j | 0 <= i < j < |sessions|
        ensures !CollideAfterExport(sessions[i], sessions[j])
      {
        assert Active(after[i]) && Active(after[j]) ==> UserOf(after[i]) != UserOf(after[j]);
      }
    }
    if forall i, j :: 0 <= i < j < |sessions| ==> !CollideAfterExport(sessions[i], sessions[j]) {
      forall i, j | 0 <= i < j < |sessions| && Active(after[i]) && Active(after[j])
        ensures UserOf(after[i]) != UserOf(after[j])
      {
        assert !CollideAfterExport(sessions[i], sessions[j]);
      }
    }
  }

  /** Rows of JSON's own values come back as they were. */
  lemma NativeRowsReturn(rows: seq<Row>)
    requires forall i, k :: 0 <= i < |rows| && k in rows[i] ==> JsonNative(rows[i][k])
    ensures ExportedRows(rows) == rows
  {
    forall i | 0 <= i < |rows|
      ensures ExportedRow(rows[i]) == rows[i]
    {
      forall k | k in rows[i]
        ensures Exported(rows[i][k]) == rows[i][k]
      {
        assert JsonNative(rows[i][k]);
      }
    }
  }

  /** A challenge consumed with an empty byte string for its digest is sound, and no longer is
      once exported. */
  lemma EmptyDigestFailsTheSecondCheck(row: Row)
    requires row == map["state" := Str("consumed"), "consumed_at" := Str("t"), "code_digest" := Octets([], "b''")]
    ensures Sound([row], []) && !Sound(ExportedRows([row]), ExportedRows([]))
  {
    ConsumedRow(row);
    assert [row][0] == row;
    SecondCheckExactlyWhen([row], []);
  }

  lemma ConsumedRow(row: Row)
    requires Get(row, "state") == Str("consumed") && Get(row, "consumed_at") == Str("t") && Get(row, "code_digest") == Octets([], "b''")
    requires Get(row, "send_started_at").Null?
    ensures ChallengeSound(row) && Consumed(row)
  {
    assert StripLeft("consumed") == "consumed" && StripRight("consumed") == "consumed";
    assert StripLeft("t") == "t" && StripRight("t") == "t";
  }

  // ------------------------------------------------------------------ the pipeline

  datatype Table = Idempotency | Challenges | Sessions | Events

  datatype Tables = Tables(idempotency: seq<Row>, challenges: seq<Row>, sessions: seq<Row>, events: seq<Row>)

  function RowsOf(tables: Tables, t: Table): seq<Row> {
    match t
    case Idempotency => tables.idempotency
    case Challenges => tables.challenges
    case Sessions => tables.sessions
    case Events => tables.events
  }

  const AllTables := [Idempotency, Challenges, Sessions, Events]

  function ExportedTables(t: Tables): Tables {
    Tables(ExportedRows(t.idempotency), ExportedRows(t.challenges), ExportedRows(t.sessions), ExportedRows(t.events))
  }

  predicate AllNative(t: Tables) {
    forall table, i, k :: 0 <= i < |RowsOf(t, table)| && k in RowsOf(t, table)[i] ==> JsonNative(RowsOf(t, table)[i][k])
  }

  /** The JSON printer and parser, the cryptographic primitives, the allowlisted columns, the
      encryption key if one is configured, and the nonce drawn. */
  datatype Platform = Platform(
    dumps: Tables -> Bytes, loads: Bytes -> Option<Tables>,
    prims: Primitives, columns: Table -> set<string>, key: Option<Bytes>, nonce: Bytes)

  ghost predicate WellBehaved(p: Platform) {
    && (forall t :: p.loads(p.dumps(t)) == Some(ExportedTables(t)))
    && Lawful(p.prims) && |p.nonce| == NONCE_LENGTH
  }

  predicate ColumnsAllowed(p: Platform, t: Tables) {
    forall table :: forall i :: 0 <= i < |RowsOf(t, table)| ==> RowsOf(t, table)[i].Keys <= p.columns(table)
  }

  datatype BackupError = InvariantViolated(violations: seq<Violation>, restored: bool) | ColumnRefused | KeyMissing | BackupInvalid | RowCountMismatch

  method ValidateRestoreTables(p: Platform, t: Tables) returns (ok: bool)
    ensures ok <==> ColumnsAllowed(p, t)
  {
    for n := 0 to 4
      invariant forall m :: 0 <= m < n ==> forall i :: 0 <= i < |RowsOf(t, AllTables[m])| ==> RowsOf(t, AllTables[m])[i].Keys <= p.columns(AllTables[m])
    {
      var rows, allowed := RowsOf(t, AllTables[n]), p.columns(AllTables[n]);
      for i := 0 to |rows|
        invariant forall k :: 0 <= k < i ==> rows[k].Keys <= allowed
      {
        if !(rows[i].Keys <= allowed) { return false; }
      }
    }
    forall table
      ensures forall i :: 0 <= i < |RowsOf(t, table)| ==> RowsOf(t, table)[i].Keys <= p.columns(table)
    {
      Listed(table);
    }
    ok := true;
  }

  lemma Listed(table: Table)
    ensures exists n :: 0 <= n < 4 && AllTables[n] == table
  {
    assert AllTables[0] == Idempotency && AllTables[1] == Challenges && AllTables[2] == Sessions && AllTables[3] == Events;
  }

  /** The file written, or why none is. */
  method WriteLogicalExport(p: Platform, t: Tables) returns (r: Result<Bytes, BackupError>)
    requires WellBehaved(p)
    ensures r == if !ColumnsAllowed(p, t) then Failure(ColumnRefused)
                 else if p.key.None? then Failure(KeyMissing)
                 else Success(EncryptBytes(p.prims, p.dumps(t), p.key.value, p.nonce))
  {
    var ok := ValidateRestoreTables(p, t);
    if !ok { return Failure(ColumnRefused); }
    if p.key.None? { return Failure(KeyMissing); }
    r := Success(EncryptBytes(p.prims, p.dumps(t), p.key.value, p.nonce));
  }

  method ReadLogicalExport(p: Platform, blob: Bytes) returns (r: Result<Tables, BackupError>)
    requires WellBehaved(p)
    ensures p.key.Some? && DecryptBytes(p.prims, blob, p.key.value).Some? && p.loads(DecryptBytes(p.prims, blob, p.key.value).value).Some? ==>
              r == Success(p.loads(DecryptBytes(p.prims, blob, p.key.value).value).value)
    ensures r.Success? ==> p.key.Some? && DecryptBytes(p.prims, blob, p.key.value).Some?
    ensures r.Failure? ==> r.error == if MAGIC <= blob && p.key.None? then KeyMissing else BackupInvalid
    ensures !(MAGIC <= blob) || p.key.None? ==> r.Failure?
    ensures MAGIC <= blob && p.key.Some? ==>
              var body := DecryptBytes(p.prims, blob, p.key.value);
              (r.Success? <==> body.Some? && p.loads(body.value).Some?)
  {
    if !(MAGIC <= blob) { return Failure(BackupInvalid); }
    if p.key.None? { return Failure(KeyMissing); }
    var body := DecryptBytes(p.prims, blob, p.key.value);
    if body.None? { return Failure(BackupInvalid); }
    var t := p.loads(body.value);
    r := if t.None? then Failure(BackupInvalid) else Success(t.value);
  }

  /** Export, restore to memory, check again, compare the row counts. */
  method BackupRestoreVerify(p: Platform, t: Tables) returns (r: Result<Tables, BackupError>)
    requires WellBehaved(p)
    ensures !Sound(t.challenges, t.sessions) ==>
              && r.Failure? && r.error.InvariantViolated? && !r.error.restored
              && forall v :: v in r.error.violations <==> Broken(v, t.challenges, t.sessions)
    ensures Sound(t.challenges, t.sessions) && !ColumnsAllowed(p, t) ==> r == Failure(ColumnRefused)
    ensures Sound(t.challenges, t.sessions) && ColumnsAllowed(p, t) && p.key.None? ==> r == Failure(KeyMissing)
    ensures Sound(t.challenges, t.sessions) && ColumnsAllowed(p, t) && p.key.Some? ==>
              if Sound(ExportedTables(t).challenges, ExportedTables(t).sessions) then r == Success(ExportedTables(t))
              else && r.Failure? && r.error.InvariantViolated? && r.error.restored
                   && forall v :: v in r.error.violations <==> Broken(v, ExportedTables(t).challenges, ExportedTables(t).sessions)
    ensures r.Failure? ==> !r.error.BackupInvalid? && !r.error.RowCountMismatch?
  {
    hide Sound, Broken, ColumnsAllowed, DecryptBytes, EncryptBytes;
    var before := VerifyAuthInvariants(t.challenges, t.sessions);
    if before != [] { return Failure(InvariantViolated(before, false)); }
    var written := WriteLogicalExport(p, t);
    if written.Failure? { return Failure(written.error); }
    DecryptUndoesEncrypt(p.prims, p.dumps(t), p.key.value, p.nonce);
    var restored := ReadLogicalExport(p, written.value);
    if restored.Failure? { return restored; }
    var after := VerifyAuthInvariants(restored.value.challenges, restored.value.sessions);
    if after != [] { return Failure(InvariantViolated(after, true)); }
    for n := 0 to 4 {
      if |RowsOf(t, AllTables[n])| != |RowsOf(restored.value, AllTables[n])| { return Failure(RowCountMismatch); }
    }
    r := Success(restored.value);
  }

  /** For rows of JSON's own values the pipeline either refuses before it restores anything or
      returns exactly what went in. */
  lemma NativeTablesReturn(t: Tables)
    requires AllNative(t)
    ensures ExportedTables(t) == t
    ensures Sound(t.challenges, t.sessions) ==> Sound(ExportedTables(t).challenges, ExportedTables(t).sessions)
  {
    assert RowsOf(t, Idempotency) == t.idempotency && RowsOf(t, Challenges) == t.challenges;
    assert RowsOf(t, Sessions) == t.sessions && RowsOf(t, Events) == t.events;
    NativeRowsReturn(t.idempotency);
    NativeRowsReturn(t.challenges);
    NativeRowsReturn(t.sessions);
    NativeRowsReturn(t.events);
  }
}
