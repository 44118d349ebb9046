/** The browser's session state: four refs and React states assigned across awaits, under every
    interleaving of requests, replies and completions. */
module Session {
  import opened Wrappers

  type Token = s: string | s != "" witness "x"

  /** What the server says of a session: its CSRF token and its summary. */
  datatype Data = Data(token: Token, summary: string)

  /** How an API call settles; OddError is a client error that none of the guards recognise. */
  datatype Reply = Granted(data: Data) | LoggedOut | Unauthenticated | CsrfInvalid | Unavailable | OddError

  datatype Status = Checking | Authenticated | Anonymous | Offline

  type OpId = nat

  /** `flight` is the revalidation in progress. */
  datatype Client = Client(status: Status, session: Option<string>, csrf: Option<Token>, hadSession: bool, flight: Option<OpId>)

  const Initial := Client(Checking, None, None, false, None)

  function SignedIn(c: Client, d: Data): Client {
    c.(status := Authenticated, session := Some(d.summary), csrf := Some(d.token), hadSession := true)
  }

  function SignedOut(c: Client): Client {
    c.(status := Anonymous, session := None, csrf := None, hadSession := false)
  }

  function AfterRevalidate(c: Client, r: Reply): Client {
    match r
    case Granted(data) => SignedIn(c, data).(flight := None)
    case Unauthenticated => SignedOut(c).(flight := None)
    case _ => c.(status := if c.hadSession && c.csrf.Some? then Authenticated else Offline, flight := None)
  }

  /** The bootstrap that precedes a logout without a token, and whether the logout goes on. */
  function AfterLogoutBootstrap(c: Client, r: Reply): (Client, bool) {
    if r.Granted? then (SignedIn(c, r.data), true)
    else if r.Unauthenticated? then (SignedOut(c), false)
    else if r.Unavailable? then (c.(status := Offline), false)
    else (c, true)
  }

  /** A token the server rejects is answered by a revalidation instead. */
  function AfterLogoutCall(c: Client, r: Reply): (Client, bool) {
    if r.CsrfInvalid? then (c, true)
    else if r.Unavailable? then (c.(status := Offline), false)
    else (SignedOut(c), false)
  }

  function AfterSwitch(c: Client, r: Reply): Client { if r.Granted? then SignedIn(c, r.data) else c }

  /** The provider component, one method per stretch of code between two awaits. */
  class AuthProvider {
    var status: Status
    var session: Option<string>
    var csrf: Option<Token>
    var hadSession: bool
    var flight: Option<OpId>

    function Snapshot(): Client reads this { Client(status, session, csrf, hadSession, flight) }

    constructor ()
      ensures Snapshot() == Initial
    {
      status, session, csrf, hadSession, flight := Checking, None, None, false, None;
    }

    method EstablishSession(d: Data)
      modifies this
      ensures Snapshot() == SignedIn(old(Snapshot()), d)
    {
      csrf := Some(d.token);
      hadSession := true;
      session := Some(d.summary);
      status := Authenticated;
    }

    method ClearSession()
      modifies this
      ensures Snapshot() == SignedOut(old(Snapshot()))
    {
      csrf := None;
      hadSession := false;
      session := None;
      status := Anonymous;
    }

    /** Joins the revalidation in progress, or becomes it. */
    method BeginRevalidate(id: OpId) returns (started: bool)
      modifies this`flight
      ensures started == old(flight).None?
      ensures flight == if started then Some(id) else old(flight)
    {
      if flight.Some? { return false; }
      flight := Some(id);
      started := true;
    }

    method FinishRevalidate(r: Reply)
      modifies this
      ensures Snapshot() == AfterRevalidate(old(Snapshot()), r)
    {
      match r {
        case Granted(data) => csrf, hadSession, session, status := Some(data.token), true, Some(data.summary), Authenticated;
        case Unauthenticated => csrf, hadSession, session, status := None, false, None, Anonymous;
        case _ => status := if hadSession && csrf.Some? then Authenticated else Offline;
      }
      flight := None;
    }

    method FinishLogoutBootstrap(r: Reply) returns (goesOn: bool)
      modifies this
      ensures (Snapshot(), goesOn) == AfterLogoutBootstrap(old(Snapshot()), r)
    {
      goesOn := true;
      match r
      case Granted(data) => EstablishSession(data);
      case Unauthenticated =>
        ClearSession();
        goesOn := false;
      case Unavailable =>
        status := Offline;
        goesOn := false;
      case _ =>
    }

    method FinishLogoutCall(r: Reply) returns (revalidates: bool)
      modifies this
      ensures (Snapshot(), revalidates) == AfterLogoutCall(old(Snapshot()), r)
    {
      revalidates := false;
      match r
      case CsrfInvalid => revalidates := true;
      case Unavailable => status := Offline;
      case _ => ClearSession();
    }

    /** A rejected switch throws and changes nothing. */
    method FinishSwitch(r: Reply) returns (threw: bool)
      modifies this
      ensures Snapshot() == AfterSwitch(old(Snapshot()), r) && threw == !r.Granted?
    {
      threw := !r.Granted?;
      if r.Granted? { EstablishSession(r.data); }
    }
  }

  // ------------------------------------------------------------------ the whole system

  datatype Kind = Revalidate | LogoutBootstrap | LogoutCall(sent: Option<Token>) | SwitchCall(sent: Option<Token>)

  /** A request under way; the reply is there once the server has handled it. */
  datatype Op = Op(kind: Kind, reply: Option<Reply>)

  /** The tab, its requests, and the session the server holds for its cookie. */
  datatype State = State(client: Client, ops: map<OpId, Op>, server: Option<Data>, next: OpId)

  /** Normally, or failing before or after taking effect. */
  datatype Handling = Normal | Down(applied: bool) | Odd(applied: bool)

  datatype Step =
    | Focus                            // also a message from another tab, and the first load
    | Logout
    | Switch
    | Clear
    | Login(data: Data)
    | LoginElsewhere(data: Data)
    | Expire
    | Serve(id: OpId, how: Handling, rotated: Data)
    | Finish(id: OpId)

  predicate Enabled(s: State, step: Step) {
    match step
    case Serve(id, _, _) => id in s.ops && s.ops[id].reply.None?
    case Finish(id) => id in s.ops && s.ops[id].reply.Some?
    case _ => true
  }

  function Begin(s: State, kind: Kind): State { s.(ops := s.ops[s.next := Op(kind, None)], next := s.next + 1) }

  function BeginRevalidation(s: State): State {
    if s.client.flight.Some? then s
    else Begin(s, Revalidate).(client := s.client.(flight := Some(s.next)))
  }

  function Matches(server: Option<Data>, sent: Option<Token>): bool { server.Some? && sent == Some(server.value.token) }

  /** The server's reply and what it holds afterwards. */
  function Handled(server: Option<Data>, kind: Kind, how: Handling, rotated: Data): (r: (Reply, Option<Data>))
    ensures kind.LogoutCall? ==> !r.0.Granted?
    ensures server.None? ==> r.1.None? && !r.0.Granted?
  {
    var failed := if how.Down? then Unavailable else OddError;
    match kind
    case Revalidate => (if !how.Normal? then failed else if server.Some? then Granted(server.value) else Unauthenticated, server)
    case LogoutBootstrap => (if !how.Normal? then failed else if server.Some? then Granted(server.value) else Unauthenticated, server)
    case LogoutCall(sent) =>
      if server.None? then (if how.Normal? then Unauthenticated else failed, server)
      else if !Matches(server, sent) then (if how.Normal? then CsrfInvalid else failed, server)
      else if how.Normal? then (LoggedOut, None)
      else (failed, if how.applied then None else server)
    case SwitchCall(sent) =>
      if server.None? then (if how.Normal? then Unauthenticated else failed, server)
      else if !Matches(server, sent) then (if how.Normal? then CsrfInvalid else failed, server)
      else if how.Normal? then (Granted(rotated), Some(rotated))
      else (failed, if how.applied then Some(rotated) else server)
  }

  function Completed(s: State, id: OpId): State
    requires id in s.ops && s.ops[id].reply.Some?
  {
    var op := s.ops[id];
    var rest := s.(ops := s.ops - {id});
    match op.kind
    case Revalidate => rest.(client := AfterRevalidate(s.client, op.reply.value))
    case LogoutBootstrap =>
      var (client, goesOn) := AfterLogoutBootstrap(s.client, op.reply.value);
      if goesOn then Begin(rest.(client := client), LogoutCall(client.csrf)) else rest.(client := client)
    case LogoutCall(_) =>
      var (client, revalidates) := AfterLogoutCall(s.client, op.reply.value);
      if revalidates then BeginRevalidation(rest.(client := client)) else rest.(client := client)
    case SwitchCall(_) => rest.(client := AfterSwitch(s.client, op.reply.value))
  }

  function Next(s: State, step: Step): State
    requires Enabled(s, step)
  {
    match step
    case Focus => BeginRevalidation(s)
    case Logout => Begin(s, if s.client.csrf.Some? then LogoutCall(s.client.csrf) else LogoutBootstrap)
    case Switch => Begin(s, SwitchCall(s.client.csrf))
    case Clear => s.(client := SignedOut(s.client))
    case Login(data) => s.(client := SignedIn(s.client, data), server := Some(data))
    case LoginElsewhere(data) => s.(server := Some(data))
    case Expire => s.(server := None)
    case Serve(id, how, rotated) =>
      var (reply, server) := Handled(s.server, s.ops[id].kind, how, rotated);
      s.(ops := s.ops[id := Op(s.ops[id].kind, Some(reply))], server := server)
    case Finish(id) => Completed(s, id)
  }

  predicate Fires(s: State, steps: seq<Step>)
    decreases |steps|
  {
    steps == [] || (Enabled(s, steps[0]) && Fires(Next(s, steps[0]), steps[1..]))
  }

  function Execute(s: State, steps: seq<Step>): State
    requires Fires(s, steps)
    decreases |steps|
  {
    if steps == [] then s else Execute(Next(s, steps[0]), steps[1..])
  }

  // ------------------------------------------------------------------ coherence

  /** The three pieces of a session are held together or not at all; authenticated means all of
      them, anonymous none. */
  predicate Coherent(c: Client) {
    && (c.hadSession <==> c.csrf.Some?) && (c.csrf.Some? <==> c.session.Some?)
    && (c.status.Authenticated? ==> c.hadSession)
    && (c.status.Anonymous? || c.status.Checking? ==> !c.hadSession)
  }

  /** At most one revalidation is under way, and the tab knows which. */
  predicate SingleFlight(s: State) {
    && (forall id :: id in s.ops ==> id < s.next)
    && (forall id :: id in s.ops && s.ops[id].kind.Revalidate? ==> s.client.flight == Some(id))
    && (s.client.flight.Some? ==> s.client.flight.value in s.ops && s.ops[s.client.flight.value].kind.Revalidate?)
  }

  /** Logging out never hands out a session. */
  predicate LogoutGrantsNothing(s: State) {
    forall id :: id in s.ops && s.ops[id].kind.LogoutCall? && s.ops[id].reply.Some? ==> !s.ops[id].reply.value.Granted?
  }

  predicate Inv(s: State) { Coherent(s.client) && SingleFlight(s) && LogoutGrantsNothing(s) }

  lemma StepKeepsInv(s: State, step: Step)
    requires Inv(s) && Enabled(s, step)
    ensures Inv(Next(s, step))
  {
    hide Handled;
  }

  /** Every interleaving of requests, replies, failures and completions keeps the state of the
      tab coherent. */
  lemma {:induction false} AlwaysCoherent(s: State, steps: seq<Step>)
    requires Inv(s) && Fires(s, steps)
    ensures Inv(Execute(s, steps))
    decreases |steps|
  {
    if steps != [] {
      StepKeepsInv(s, steps[0]);
      AlwaysCoherent(Next(s, steps[0]), steps[1..]);
    }
  }

  lemma CoherentFromTheStart(server: Option<Data>, steps: seq<Step>)
    requires Fires(State(Initial, map[], server, 0), steps)
    ensures Inv(Execute(State(Initial, map[], server, 0), steps))
  {
    AlwaysCoherent(State(Initial, map[], server, 0), steps);
  }

  // ------------------------------------------------------------------ what each reply does

  /** Nothing the tab holds of a session changes. */
  predicate Keeps(a: Client, b: Client) { b.session == a.session && b.csrf == a.csrf && b.hadSession == a.hadSession }

  predicate Holds(c: Client, d: Data) { c.status.Authenticated? && c.session == Some(d.summary) && c.csrf == Some(d.token) && c.hadSession }

  predicate HoldsNothing(c: Client) { c.status.Anonymous? && c.session.None? && c.csrf.None? && !c.hadSession }

  /** A revalidation that fails without an answer keeps a held session and stays authenticated. */
  lemma RevalidationReplies(s: State, id: OpId)
    requires Inv(s) && id in s.ops && s.ops[id].kind.Revalidate? && s.ops[id].reply.Some?
    ensures var reply, next := s.ops[id].reply.value, Next(s, Finish(id));
            && next.ops == s.ops - {id} && next.server == s.server && next.client.flight.None?
            && (reply.Granted? ==> Holds(next.client, reply.data))
            && (reply.Unauthenticated? ==> HoldsNothing(next.client))
            && (!reply.Granted? && !reply.Unauthenticated? ==>
                  Keeps(s.client, next.client) && next.client.status == if s.client.hadSession then Authenticated else Offline)
  {
  }

  /** A logout without a token asks for one first; only a session that is gone, or a server that
      does not answer, ends it there. */
  lemma LogoutBootstrapReplies(s: State, id: OpId)
    requires Inv(s) && id in s.ops && s.ops[id].kind.LogoutBootstrap? && s.ops[id].reply.Some?
    ensures var reply, next := s.ops[id].reply.value, Next(s, Finish(id));
            && next.server == s.server && next.client.flight == s.client.flight
            && (reply.Granted? ==> Holds(next.client, reply.data) && next.ops == (s.ops - {id})[s.next := Op(LogoutCall(Some(reply.data.token)), None)])
            && (reply.Unauthenticated? ==> HoldsNothing(next.client) && next.ops == s.ops - {id})
            && (reply.Unavailable? ==> Keeps(s.client, next.client) && next.client.status.Offline? && next.ops == s.ops - {id})
            && (reply.LoggedOut? || reply.CsrfInvalid? || reply.OddError? ==>
                  next.client == s.client && next.ops == (s.ops - {id})[s.next := Op(LogoutCall(s.client.csrf), None)])
  {
  }

  /** A rejected token is followed by a revalidation, an unanswered logout keeps what is held, and
      everything else signs out. */
  lemma LogoutCallReplies(s: State, id: OpId)
    requires Inv(s) && id in s.ops && s.ops[id].kind.LogoutCall? && s.ops[id].reply.Some?
    ensures var reply, next := s.ops[id].reply.value, Next(s, Finish(id));
            && next.server == s.server
            && (reply.CsrfInvalid? ==>
                  && Keeps(s.client, next.client) && next.client.status == s.client.status
                  && next.client.flight == (if s.client.flight.Some? then s.client.flight else Some(s.next))
                  && next.ops == (if s.client.flight.Some? then s.ops - {id} else (s.ops - {id})[s.next := Op(Revalidate, None)]))
            && (!reply.CsrfInvalid? ==> next.ops == s.ops - {id} && next.client.flight == s.client.flight)
            && (reply.Unavailable? ==> Keeps(s.client, next.client) && next.client.status.Offline?)
            && (reply.LoggedOut? || reply.Unauthenticated? || reply.OddError? ==> HoldsNothing(next.client))
  {
  }

  /** A rejected switch changes nothing. */
  lemma SwitchReplies(s: State, id: OpId)
    requires id in s.ops && s.ops[id].kind.SwitchCall? && s.ops[id].reply.Some?
    ensures var reply, next := s.ops[id].reply.value, Next(s, Finish(id));
            && next.ops == s.ops - {id} && next.server == s.server && next.client.flight == s.client.flight
            && (if reply.Granted? then Holds(next.client, reply.data) else next.client == s.client)
  {
  }

  /** A held session is lost by clearing it, by a reply that says it is gone, to anything but a
      switch, and by a logout that succeeds or fails oddly: never by a failure to answer. */
  lemma LostExactlyWhen(s: State, step: Step)
    requires Inv(s) && Enabled(s, step) && s.client.hadSession
    ensures !Next(s, step).client.hadSession <==>
              || step.Clear?
              || (step.Finish? && var op := s.ops[step.id];
                    || (op.reply == Some(Unauthenticated) && !op.kind.SwitchCall?)
                    || (op.kind.LogoutCall? && (op.reply == Some(LoggedOut) || op.reply == Some(OddError))))
  {
    hide Handled;
  }

  /** What the server answers, and what it holds then: without a session nobody is let in; a
      logout or a switch takes the right token; an answer that is lost may have taken effect. */
  lemma ServerAnswers(server: Option<Data>, kind: Kind, how: Handling, rotated: Data)
    ensures var (reply, after) := Handled(server, kind, how, rotated);
            var failure := if how.Down? then Unavailable else OddError;
            var sent := if kind.LogoutCall? || kind.SwitchCall? then kind.sent else None;
            var rightful := server.Some? && sent == Some(server.value.token);
            && (how.Normal? && server.None? ==> reply == Unauthenticated && after.None?)
            && (!how.Normal? ==> reply == failure)
            && (kind.Revalidate? || kind.LogoutBootstrap? ==> after == server && (how.Normal? && server.Some? ==> reply == Granted(server.value)))
            && (kind.LogoutCall? || kind.SwitchCall? ==>
                  && (how.Normal? && server.Some? && !rightful ==> reply == CsrfInvalid)
                  && (!rightful || (!how.Normal? && !how.applied) ==> after == server))
            && (kind.LogoutCall? && rightful && how.Normal? ==> reply == LoggedOut)
            && (kind.LogoutCall? && rightful && (how.Normal? || how.applied) ==> after.None?)
            && (kind.SwitchCall? && rightful && how.Normal? ==> reply == Granted(rotated))
            && (kind.SwitchCall? && rightful && (how.Normal? || how.applied) ==> after == Some(rotated))
  {
  }

  /** What each step of the user begins: one revalidation at a time; a logout with the token held,
      or the bootstrap for one; a switch with whatever token is held. */
  lemma StepsBegin(s: State)
    ensures s.client.flight.Some? ==> Next(s, Focus) == s
    ensures s.client.flight.None? ==>
              Next(s, Focus) == s.(client := s.client.(flight := Some(s.next)), ops := s.ops[s.next := Op(Revalidate, None)], next := s.next + 1)
    ensures Next(s, Logout) ==
            s.(ops := s.ops[s.next := Op(if s.client.csrf.Some? then LogoutCall(s.client.csrf) else LogoutBootstrap, None)], next := s.next + 1)
    ensures Next(s, Switch) == s.(ops := s.ops[s.next := Op(SwitchCall(s.client.csrf), None)], next := s.next + 1)
    ensures HoldsNothing(Next(s, Clear).client) && Next(s, Clear).server == s.server && Next(s, Clear).ops == s.ops
    ensures forall d: Data :: Holds(Next(s, Login(d)).client, d) && Next(s, Login(d)).server == Some(d) && Next(s, Login(d)).ops == s.ops
  {
  }

  // ------------------------------------------------------------------ does logout stay logged out?

  predicate NoLogin(steps: seq<Step>) {
    forall k :: 0 <= k < |steps| ==> !steps[k].Login? && !steps[k].LoginElsewhere?
  }

  /** Some request still carries a session: its reply is already on the way. */
  predicate SessionOnItsWay(s: State) {
    exists id :: id in s.ops && s.ops[id].reply.Some? && s.ops[id].reply.value.Granted?
  }

  /** Without a login nothing revives a session that neither the server nor a reply holds. */
  lemma {:induction false} StaysSignedOut(s: State, steps: seq<Step>)
    requires Inv(s) && !s.client.hadSession && s.server.None? && !SessionOnItsWay(s)
    requires Fires(s, steps) && NoLogin(steps)
    ensures var after := Execute(s, steps);
            !after.client.hadSession && !after.client.status.Authenticated? && after.server.None? && !SessionOnItsWay(after)
    decreases |steps|
  {
    if steps != [] {
      assert !steps[0].Login? && !steps[0].LoginElsewhere?;
      StepKeepsInv(s, steps[0]);
      StaysSignedOutStep(s, steps[0]);
      assert NoLogin(steps[1..]) by { assert forall k :: 0 <= k < |steps[1..]| ==> steps[1..][k] == steps[k + 1]; }
      StaysSignedOut(Next(s, steps[0]), steps[1..]);
    }
  }

  lemma StaysSignedOutStep(s: State, step: Step)
    requires Inv(s) && !s.client.hadSession && s.server.None? && !SessionOnItsWay(s)
    requires Enabled(s, step) && !step.Login? && !step.LoginElsewhere?
    ensures var after := Next(s, step);
            !after.client.hadSession && after.server.None? && !SessionOnItsWay(after)
  {
    var after := Next(s, step);
    forall id | id in after.ops && after.ops[id].reply.Some?
      ensures !after.ops[id].reply.value.Granted?
    {
      if id in s.ops && after.ops[id] == s.ops[id] {
        assert s.ops[id].reply.Some?;
      } else {
        assert step.Serve? && step.id == id;
      }
    }
  }

  predicate Revives(s: State, steps: seq<Step>) {
    Fires(s, steps) && NoLogin(steps) && Execute(s, steps).client.status.Authenticated?
  }

  /** A reply with a session, completed now. */
  lemma CompletionSignsIn(s: State, id: OpId)
    requires Inv(s) && id in s.ops && s.ops[id].reply.Some? && s.ops[id].reply.value.Granted?
    ensures Revives(s, [Finish(id)])
  {
    assert [Finish(id)][1..] == [];
    assert Execute(s, [Finish(id)]) == Next(s, Finish(id));
  }

  lemma Later(s: State, step: Step, steps: seq<Step>)
    requires Enabled(s, step) && !step.Login? && !step.LoginElsewhere? && Revives(Next(s, step), steps)
    ensures Revives(s, [step] + steps)
  {
    assert ([step] + steps)[1..] == steps;
    assert forall k :: 1 <= k < |steps| + 1 ==> ([step] + steps)[k] == steps[k - 1];
  }

  /** A revalidation the server answers while it still holds the session. */
  lemma ServedRevalidationSignsIn(s: State, id: OpId)
    requires Inv(s) && s.server.Some? && id in s.ops && s.ops[id] == Op(Revalidate, None)
    ensures Revives(s, [Serve(id, Normal, s.server.value), Finish(id)])
  {
    var serve := Serve(id, Normal, s.server.value);
    StepKeepsInv(s, serve);
    CompletionSignsIn(Next(s, serve), id);
    Later(s, serve, [Finish(id)]);
    assert [serve] + [Finish(id)] == [serve, Finish(id)];
  }

  /** As long as the server holds the session, regaining focus is enough. */
  lemma FocusRevives(s: State)
    requires Inv(s) && s.server.Some? && s.client.flight.None?
    ensures exists steps :: Revives(s, steps)
  {
    StepKeepsInv(s, Focus);
    ServedRevalidationSignsIn(Next(s, Focus), s.next);
    Later(s, Focus, [Serve(s.next, Normal, s.server.value), Finish(s.next)]);
  }

  lemma ServerSessionRevives(s: State)
    requires Inv(s) && s.server.Some?
    ensures exists steps :: Revives(s, steps)
  {
    if s.client.flight.None? {
      FocusRevives(s);
    } else {
      var id := s.client.flight.value;
      if s.ops[id].reply.None? {
        ServedRevalidationSignsIn(s, id);
      } else {
        StepKeepsInv(s, Finish(id));
        FocusRevives(Next(s, Finish(id)));
        var steps :| Revives(Next(s, Finish(id)), steps);
        Later(s, Finish(id), steps);
      }
    }
  }

  /** A signed-out tab can come back without a login if and only if the server still holds its
      session, or a reply with it is already on the way. */
  lemma RevivalExactlyWhen(s: State)
    requires Inv(s) && !s.client.hadSession
    ensures (exists steps :: Revives(s, steps)) <==> s.server.Some? || SessionOnItsWay(s)
  {
    if s.server.Some? {
      ServerSessionRevives(s);
    } else if SessionOnItsWay(s) {
      var id :| id in s.ops && s.ops[id].reply.Some? && s.ops[id].reply.value.Granted?;
      CompletionSignsIn(s, id);
    } else if steps :| Revives(s, steps) {
      StaysSignedOut(s, steps);
    }
  }

  /** So "anonymous after logout" is not final: a revalidation sent before the logout and
      answered before it took effect signs the tab in again, although the server holds nothing. */
  lemma LateRevalidationOutlivesLogout(d: Data)
    ensures var s := State(SignedIn(Initial, d), map[], Some(d), 0);
            var steps := [Focus, Serve(0, Normal, d), Logout, Serve(1, Normal, d), Finish(1)];
            && Fires(s, steps)
            && Execute(s, steps).client.status.Anonymous? && Execute(s, steps).server.None?
            && Revives(Execute(s, steps), [Finish(0)])
  {
    var s := State(SignedIn(Initial, d), map[], Some(d), 0);
    var s1 := Next(s, Focus);
    var s2 := Next(s1, Serve(0, Normal, d));
    var s3 := Next(s2, Logout);
    var s4 := Next(s3, Serve(1, Normal, d));
    var s5 := Next(s4, Finish(1));
    var e := [Finish(1)];
    var d4 := [Serve(1, Normal, d), Finish(1)];
    var d3 := [Logout, Serve(1, Normal, d), Finish(1)];
    var d2 := [Serve(0, Normal, d), Logout, Serve(1, Normal, d), Finish(1)];
    var steps := [Focus, Serve(0, Normal, d), Logout, Serve(1, Normal, d), Finish(1)];
    assert steps[1..] == d2 && d2[1..] == d3 && d3[1..] == d4 && d4[1..] == e && e[1..] == [];
    assert s1.ops == map[0 := Op(Revalidate, None)] && s2.ops[0] == Op(Revalidate, Some(Granted(d)));
    assert s3.ops[1] == Op(LogoutCall(Some(d.token)), None) && s4.ops[1].reply == Some(LoggedOut);
    hide Next, Handled, Completed;
    assert Fires(s5, []) && Execute(s5, []) == s5;
    assert Fires(s4, e) && Execute(s4, e) == s5;
    assert Fires(s3, d4) && Execute(s3, d4) == s5;
    assert Fires(s2, d3) && Execute(s2, d3) == s5;
    assert Fires(s1, d2) && Execute(s1, d2) == s5;
    assert Fires(s, steps) && Execute(s, steps) == s5;
    AlwaysCoherent(s, steps);
    assert s5.ops[0] == s4.ops[0] == s3.ops[0] == s2.ops[0];
    CompletionSignsIn(s5, 0);
  }
}
