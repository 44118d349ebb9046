/** Production approval proofs: the ordered checks that bind a proof to what is about to happen,
    and the one-use nonce store shared by every verifier. */
module Approval {
  import opened Text
  import opened Wrappers

  // ------------------------------------------------------------------ proofs

  datatype Field = Action | Environment | Target | CommitSha | RunId | ManifestDigest | Nonce | ExpiresAt | Issuer | Subject | Signature

  /** A proof as presented: any field may be missing. */
  datatype Proof = Proof(fields: map<Field, string>, digests: Option<seq<string>>)

  /** Everything a signature covers. */
  datatype Body = Body(action: string, environment: string, target: string, commitSha: string, runId: string, manifestDigest: string,
                       digests: seq<string>, nonce: string, expiresAt: string, issuer: string, subject: string)

  type Signing = string

  /** Keyed hashing, public-key verification and hexadecimal and date parsing, as libraries
      provide them. */
  datatype Platform = Platform(
    hmac: (Body, Signing) -> string, ed25519: (Body, string, Signing) -> bool,
    fromHex: string -> Option<string>, parseExpiry: string -> Option<int>)

  datatype Scheme = Hmac(key: Signing) | Asymmetric(publicKey: Signing)

  /** What the verifier is about to do, and how strict it is. */
  datatype Context = Context(
    operator: string, action: string, environment: string, target: string, digests: seq<string>,
    commitSha: Option<string>, runId: Option<string>, manifestDigest: Option<string>,
    dirty: bool, now: int, allowlist: Option<set<string>>, scheme: Scheme)

  datatype Code = Required | SelfApproval | SelfIssued | Invalid

  function Get(p: Proof, f: Field): string { if f in p.fields then p.fields[f] else "" }

  function DigestsOf(p: Proof): seq<string> { if p.digests.Some? then p.digests.value else [] }

  predicate Complete(p: Proof) {
    {Action, Environment, Target, CommitSha, Nonce, ExpiresAt, Issuer, Subject, Signature} <= p.fields.Keys && p.digests.Some?
  }

  function BodyOf(p: Proof): Body {
    Body(Get(p, Action), Get(p, Environment), Get(p, Target), Get(p, CommitSha), Get(p, RunId), Get(p, ManifestDigest),
         DigestsOf(p), Get(p, Nonce), Get(p, ExpiresAt), Get(p, Issuer), Get(p, Subject))
  }

  const ED25519 := "ed25519:"

  /** The signature is the approved scheme's signature over everything it covers. */
  predicate Signed(pf: Platform, p: Proof, scheme: Scheme) {
    var presented := Get(p, Signature);
    match scheme
    case Hmac(key) => presented == pf.hmac(BodyOf(p), key)
    case Asymmetric(publicKey) =>
      ED25519 <= presented &&
      var raw := pf.fromHex(presented[|ED25519|..]);
      raw.Some? && pf.ed25519(BodyOf(p), raw.value, publicKey)
  }

  predicate OnAllowlist(p: Proof, allowlist: Option<set<string>>) {
    allowlist.Some? ==> Get(p, Issuer) in allowlist.value
  }

  predicate Unexpired(pf: Platform, p: Proof, now: int) {
    var expires := pf.parseExpiry(Get(p, ExpiresAt));
    expires.Some? && expires.value > now
  }

  predicate Expected(actual: string, expected: Option<string>) { expected.Some? ==> actual == expected.value }

  /** What acceptance means: somebody else's signed approval of exactly this action on exactly
      this target, these images, this commit, run and manifest, not yet expired. */
  predicate Bound(pf: Platform, p: Proof, c: Context) {
    && Complete(p)
    && Get(p, Subject) == c.operator && Get(p, Issuer) != c.operator && OnAllowlist(p, c.allowlist)
    && Signed(pf, p, c.scheme)
    && Get(p, Action) == c.action && Get(p, Environment) == c.environment && Get(p, Target) == c.target
    && DigestsOf(p) == c.digests
    && Expected(Get(p, CommitSha), c.commitSha) && Expected(Get(p, RunId), c.runId) && Expected(Get(p, ManifestDigest), c.manifestDigest)
    && !c.dirty && Unexpired(pf, p, c.now)
  }

  /** Which code the first failing check reports. */
  function Objection(pf: Platform, p: Proof, c: Context): Option<Code> {
    if !Complete(p) then Some(Required)
    else if Get(p, Issuer) == Get(p, Subject) || Get(p, Subject) != c.operator then Some(SelfApproval)
    else if !OnAllowlist(p, c.allowlist) || (c.scheme.Asymmetric? && !(ED25519 <= Get(p, Signature))) then Some(SelfIssued)
    else if !Bound(pf, p, c) then Some(Invalid)
    else None
  }

  method CheckSignature(pf: Platform, p: Proof, scheme: Scheme) returns (objection: Option<Code>)
    ensures objection == if scheme.Asymmetric? && !(ED25519 <= Get(p, Signature)) then Some(SelfIssued)
                         else if !Signed(pf, p, scheme) then Some(Invalid) else None
  {
    var presented := Get(p, Signature);
    match scheme
    case Asymmetric(publicKey) =>
      if !(ED25519 <= presented) { return Some(SelfIssued); }
      var raw := pf.fromHex(presented[|ED25519|..]);
      if raw.None? { return Some(Invalid); }
      if !pf.ed25519(BodyOf(p), raw.value, publicKey) { return Some(Invalid); }
      return None;
    case Hmac(key) =>
      return if pf.hmac(BodyOf(p), key) != presented then Some(Invalid) else None;
  }

  /** The checks in order, up to the nonce. */
  method CheckProof(pf: Platform, p: Proof, c: Context) returns (objection: Option<Code>)
    ensures objection == Objection(pf, p, c)
    ensures objection.None? <==> Bound(pf, p, c)
  {
    if !Complete(p) { return Some(Required); }
    var issuer, subject := Get(p, Issuer), Get(p, Subject);
    if issuer == subject || subject != c.operator { return Some(SelfApproval); }
    if c.allowlist.Some? && (c.allowlist.value == {} || issuer !in c.allowlist.value) { return Some(SelfIssued); }
    var signature := CheckSignature(pf, p, c.scheme);
    if signature.Some? { return signature; }
    if Get(p, Action) != c.action || Get(p, Environment) != c.environment { return Some(Invalid); }
    if Get(p, Target) != c.target { return Some(Invalid); }
    if DigestsOf(p) != c.digests { return Some(Invalid); }
    if c.commitSha.Some? && Get(p, CommitSha) != c.commitSha.value { return Some(Invalid); }
    if c.runId.Some? && Get(p, RunId) != c.runId.value { return Some(Invalid); }
    if c.manifestDigest.Some? && Get(p, ManifestDigest) != c.manifestDigest.value { return Some(Invalid); }
    if c.dirty { return Some(Invalid); }
    var expires := pf.parseExpiry(Get(p, ExpiresAt));
    if expires.None? { return Some(Invalid); }
    if expires.value <= c.now { return Some(Invalid); }
    objection := None;
  }

  /** Which code is reported, field by field. */
  lemma ObjectionIs(pf: Platform, p: Proof, c: Context)
    ensures var complete := p.digests.Some? && forall f :: f != RunId && f != ManifestDigest ==> f in p.fields;
            var self := complete && (Get(p, Issuer) == Get(p, Subject) || Get(p, Subject) != c.operator);
            var issuer := complete && !self &&
                          ((c.allowlist.Some? && Get(p, Issuer) !in c.allowlist.value) ||
                           (c.scheme.Asymmetric? && !("ed25519:" <= Get(p, Signature))));
            && (Objection(pf, p, c) == Some(Required) <==> !complete)
            && (Objection(pf, p, c) == Some(SelfApproval) <==> self)
            && (Objection(pf, p, c) == Some(SelfIssued) <==> issuer)
            && (Objection(pf, p, c) == Some(Invalid) <==> complete && !self && !issuer && !Bound(pf, p, c))
            && (Objection(pf, p, c).None? <==> Bound(pf, p, c))
  {
    CompleteMeans(p);
    hide Complete, Get;
  }

  lemma CompleteMeans(p: Proof)
    ensures Complete(p) <==> p.digests.Some? && forall f :: f != RunId && f != ManifestDigest ==> f in p.fields
  {
    var needed := {Action, Environment, Target, CommitSha, Nonce, ExpiresAt, Issuer, Subject, Signature};
    forall f
      ensures f in needed <==> f != RunId && f != ManifestDigest
    {
      match f case _ =>
    }
  }

  /** Acceptance, field by field, under either scheme. */
  lemma BoundExactlyWhen(pf: Platform, p: Proof, c: Context)
    ensures Bound(pf, p, c) <==>
              && p.digests.Some? && (forall f :: f != RunId && f != ManifestDigest ==> f in p.fields)
              && p.fields[Subject] == c.operator && p.fields[Issuer] != c.operator && (c.allowlist.Some? ==> p.fields[Issuer] in c.allowlist.value)
              && (match c.scheme
                  case Hmac(key) => p.fields[Signature] == pf.hmac(BodyOf(p), key)
                  case Asymmetric(publicKey) =>
                    && "ed25519:" <= p.fields[Signature] && pf.fromHex(p.fields[Signature][8..]).Some?
                    && pf.ed25519(BodyOf(p), pf.fromHex(p.fields[Signature][8..]).value, publicKey))
              && p.fields[Action] == c.action && p.fields[Environment] == c.environment && p.fields[Target] == c.target && p.digests.value == c.digests
              && (c.commitSha.Some? ==> p.fields[CommitSha] == c.commitSha.value)
              && (c.runId.Some? ==> (if RunId in p.fields then p.fields[RunId] else "") == c.runId.value)
              && (c.manifestDigest.Some? ==> (if ManifestDigest in p.fields then p.fields[ManifestDigest] else "") == c.manifestDigest.value)
              && !c.dirty
              && pf.parseExpiry(p.fields[ExpiresAt]).Some? && pf.parseExpiry(p.fields[ExpiresAt]).value > c.now
  {
    CompleteMeans(p);
    hide Complete, BodyOf;
  }

  /** What a signature covers, field by field. */
  lemma BodyIs(p: Proof)
    ensures var b := BodyOf(p);
            && b.action == Get(p, Action) && b.environment == Get(p, Environment) && b.target == Get(p, Target) && b.commitSha == Get(p, CommitSha)
            && b.runId == Get(p, RunId) && b.manifestDigest == Get(p, ManifestDigest) && b.nonce == Get(p, Nonce) && b.expiresAt == Get(p, ExpiresAt)
            && b.issuer == Get(p, Issuer) && b.subject == Get(p, Subject) && b.digests == (if p.digests.Some? then p.digests.value else [])
  {
  }

  // ------------------------------------------------------------------ issuing

  /** None when issuer or subject is missing, or they are the same. */
  function IssueApproval(pf: Platform, b: Body, key: Signing): Option<Proof> {
    if Strip(b.issuer) == "" || Strip(b.subject) == "" || b.issuer == b.subject then None
    else Some(Proof(map[Action := b.action, Environment := b.environment, Target := b.target, CommitSha := b.commitSha,
                        RunId := b.runId, ManifestDigest := b.manifestDigest, Nonce := b.nonce, ExpiresAt := b.expiresAt,
                        Issuer := b.issuer, Subject := b.subject, Signature := pf.hmac(b, key)], Some(b.digests)))
  }

  /** Nobody issues without issuer and subject, or for himself. */
  lemma IssuesExactlyWhen(pf: Platform, b: Body, key: Signing)
    ensures IssueApproval(pf, b, key).Some? <==> Strip(b.issuer) != "" && Strip(b.subject) != "" && b.issuer != b.subject
    ensures IssueApproval(pf, b, key).Some? ==> Get(IssueApproval(pf, b, key).value, Signature) == pf.hmac(b, key)
  {
    hide Strip;
  }

  /** An issued approval passes exactly the context it was issued for. */
  lemma IssuedApprovalIsBound(pf: Platform, b: Body, key: Signing, c: Context)
    requires IssueApproval(pf, b, key).Some? && c.scheme == Hmac(key)
    ensures BodyOf(IssueApproval(pf, b, key).value) == b
    ensures Bound(pf, IssueApproval(pf, b, key).value, c) <==>
              && b.subject == c.operator && (c.allowlist.Some? ==> b.issuer in c.allowlist.value)
              && b.action == c.action && b.environment == c.environment && b.target == c.target && b.digests == c.digests
              && Expected(b.commitSha, c.commitSha) && Expected(b.runId, c.runId) && Expected(b.manifestDigest, c.manifestDigest)
              && !c.dirty && pf.parseExpiry(b.expiresAt).Some? && pf.parseExpiry(b.expiresAt).value > c.now
  {
    var p := IssueApproval(pf, b, key).value;
    assert BodyOf(p) == b;
    assert Complete(p);
  }

  /** Under a keyed hash without collisions, an altered copy that keeps the signature is never
      accepted again. */
  lemma AlteredProofIsRefused(pf: Platform, p: Proof, altered: Proof, c: Context, d: Context, key: Signing)
    requires forall a: Body, b: Body :: pf.hmac(a, key) == pf.hmac(b, key) ==> a == b
    requires c.scheme == Hmac(key) && d.scheme == Hmac(key) && Bound(pf, p, c)
    requires Get(altered, Signature) == Get(p, Signature) && BodyOf(altered) != BodyOf(p)
    ensures !Bound(pf, altered, d)
  {
    assert Signed(pf, altered, d.scheme) ==> pf.hmac(BodyOf(altered), key) == pf.hmac(BodyOf(p), key);
  }

  // ------------------------------------------------------------------ the nonce store

  type VerifierId = nat

  type Digest = string

  datatype Job = Job(proof: Proof, context: Context)

  /** Checking, then the exclusive create, then the write; Gone is a crash, before or after the
      create. */
  datatype Pc = Checking | Consuming | Writing | Accepted | Refused(code: Code) | WriteFailed | Gone(created: bool)

  /** Any number of verifiers on one directory. */
  datatype System = System(pf: Platform, hash: string -> Digest, jobs: map<VerifierId, Job>)

  datatype State = State(store: set<Digest>, pcs: map<VerifierId, Pc>)

  /** `ok` is whether the directory, the create or the write itself works. */
  datatype Step = Check(v: VerifierId, ok: bool) | Create(v: VerifierId, ok: bool) | Write(v: VerifierId, ok: bool) | Crash(v: VerifierId)

  predicate Blank(s: string) { Strip(s) == "" }

  function NonceOf(sys: System, v: VerifierId): string
    requires v in sys.jobs
  {
    Get(sys.jobs[v].proof, Nonce)
  }

  function Key(sys: System, v: VerifierId): Digest
    requires v in sys.jobs
  {
    sys.hash(NonceOf(sys, v))
  }

  predicate Ready(sys: System, v: VerifierId)
    requires v in sys.jobs
  {
    Objection(sys.pf, sys.jobs[v].proof, sys.jobs[v].context).None? && !Blank(NonceOf(sys, v))
  }

  predicate Enabled(sys: System, s: State, step: Step) {
    step.v in sys.jobs && step.v in s.pcs &&
    match step
    case Check(v, _) => s.pcs[v].Checking?
    case Create(v, _) => s.pcs[v].Consuming?
    case Write(v, _) => s.pcs[v].Writing?
    case Crash(v) => s.pcs[v].Checking? || s.pcs[v].Consuming? || s.pcs[v].Writing?
  }

  function Next(sys: System, s: State, step: Step): State
    requires Enabled(sys, s, step)
  {
    var v := step.v;
    match step
    case Check(_, ok) =>
      var objection := Objection(sys.pf, sys.jobs[v].proof, sys.jobs[v].context);
      s.(pcs := s.pcs[v :=
           if objection.Some? then Refused(objection.value)
           else if Blank(NonceOf(sys, v)) then Refused(Invalid)
           else if !ok then Refused(Required)
           else Consuming])
    case Create(_, ok) =>
      if Key(sys, v) in s.store then s.(pcs := s.pcs[v := Refused(Invalid)])
      else if !ok then s.(pcs := s.pcs[v := Refused(Required)])
      else State(s.store + {Key(sys, v)}, s.pcs[v := Writing])
    case Write(_, ok) => s.(pcs := s.pcs[v := if ok then Accepted else WriteFailed])
    case Crash(_) => s.(pcs := s.pcs[v := Gone(s.pcs[v].Writing?)])
  }

  predicate Fires(sys: System, s: State, steps: seq<Step>)
    decreases |steps|
  {
    steps == [] || (Enabled(sys, s, steps[0]) && Fires(sys, Next(sys, s, steps[0]), steps[1..]))
  }

  function Execute(sys: System, s: State, steps: seq<Step>): State
    requires Fires(sys, s, steps)
    decreases |steps|
  {
    if steps == [] then s else Execute(sys, Next(sys, s, steps[0]), steps[1..])
  }

  function Begin(sys: System, store: set<Digest>): State {
    State(store, map v | v in sys.jobs :: Checking)
  }

  /** Created the nonce file, whatever came of it. */
  predicate Spent(pc: Pc) { pc.Writing? || pc.Accepted? || pc.WriteFailed? || (pc.Gone? && pc.created) }

  /** The nonces of everybody who created one. */
  function SpentKeys(sys: System, pcs: map<VerifierId, Pc>): set<Digest> {
    set v | v in sys.jobs && v in pcs && Spent(pcs[v]) :: Key(sys, v)
  }

  /** The store is what it was plus one nonce per verifier that created one, each its own. */
  predicate Inv(sys: System, s: State, start: set<Digest>) {
    && s.pcs.Keys == sys.jobs.Keys
    && s.store == start + SpentKeys(sys, s.pcs)
    && (forall v :: v in sys.jobs && Spent(s.pcs[v]) ==> Key(sys, v) !in start)
    && (forall v, w :: v in sys.jobs && w in sys.jobs && v != w && Spent(s.pcs[v]) && Spent(s.pcs[w]) ==> Key(sys, v) != Key(sys, w))
    && (forall v :: v in sys.jobs && (Spent(s.pcs[v]) || s.pcs[v].Consuming?) ==> Ready(sys, v))
  }

  lemma SpentKeysGrow(sys: System, pcs: map<VerifierId, Pc>, v: VerifierId, pc: Pc)
    requires pcs.Keys == sys.jobs.Keys && v in pcs
    requires !Spent(pcs[v]) || Spent(pc)
    ensures SpentKeys(sys, pcs[v := pc]) == SpentKeys(sys, pcs) + (if Spent(pc) then {Key(sys, v)} else {})
  {
    hide Key;
    var next := pcs[v := pc];
    forall k
      ensures k in SpentKeys(sys, next) <==> k in SpentKeys(sys, pcs) || (Spent(pc) && k == Key(sys, v))
    {
      if k in SpentKeys(sys, next) {
        var w :| w in sys.jobs && Spent(next[w]) && Key(sys, w) == k;
        if w != v { assert Spent(pcs[w]); }
      }
      if k in SpentKeys(sys, pcs) {
        var w :| w in sys.jobs && Spent(pcs[w]) && Key(sys, w) == k;
        assert Spent(next[w]);
      }
      if Spent(pc) { assert Spent(next[v]); }
    }
  }

  /** One verifier moves: it creates its nonce now, or has nothing new in the store. */
  predicate Moves(sys: System, s: State, next: State, v: VerifierId)
    requires s.pcs.Keys == sys.jobs.Keys && v in sys.jobs
  {
    && v in next.pcs && next.pcs == s.pcs[v := next.pcs[v]]
    && (Spent(s.pcs[v]) ==> Spent(next.pcs[v]) && next.store == s.store)
    && (!Spent(s.pcs[v]) && Spent(next.pcs[v]) ==> s.pcs[v].Consuming? && Key(sys, v) !in s.store && next.store == s.store + {Key(sys, v)})
    && (!Spent(next.pcs[v]) ==> next.store == s.store)
    && (next.pcs[v].Consuming? ==> Ready(sys, v))
  }

  lemma OneMoves(sys: System, s: State, step: Step)
    requires Enabled(sys, s, step) && s.pcs.Keys == sys.jobs.Keys
    ensures Moves(sys, s, Next(sys, s, step), step.v)
  {
    hide Objection, Blank, Key;
  }

  lemma MovingKeepsInv(sys: System, s: State, start: set<Digest>, next: State, v: VerifierId)
    requires Inv(sys, s, start) && v in sys.jobs && Moves(sys, s, next, v)
    ensures Inv(sys, next, start)
  {
    hide Key, Ready;
    SpentKeysGrow(sys, s.pcs, v, next.pcs[v]);
    forall w | w in sys.jobs && Spent(s.pcs[w])
      ensures Key(sys, w) in s.store
    {
      assert Key(sys, w) in SpentKeys(sys, s.pcs);
    }
    hide SpentKeys;
  }

  lemma StepKeepsInv(sys: System, s: State, start: set<Digest>, step: Step)
    requires Inv(sys, s, start) && Enabled(sys, s, step)
    ensures Inv(sys, Next(sys, s, step), start)
  {
    OneMoves(sys, s, step);
    hide Moves, Next;
    MovingKeepsInv(sys, s, start, Next(sys, s, step), step.v);
  }

  lemma {:induction false} InvHolds(sys: System, s: State, start: set<Digest>, steps: seq<Step>)
    requires Inv(sys, s, start) && Fires(sys, s, steps)
    ensures Inv(sys, Execute(sys, s, steps), start)
    decreases |steps|
  {
    if steps != [] {
      StepKeepsInv(sys, s, start, steps[0]);
      InvHolds(sys, Next(sys, s, steps[0]), start, steps[1..]);
    }
  }

  /** Over every interleaving of any number of verifiers, with crashes and failing disks: each
      nonce is accepted at most once, never if it was in the store before, and only for a proof
      bound to its verifier's context. */
  lemma AcceptedAtMostOnce(sys: System, start: set<Digest>, steps: seq<Step>, v: VerifierId, w: VerifierId)
    requires v in sys.jobs && w in sys.jobs && Fires(sys, Begin(sys, start), steps)
    ensures var s := Execute(sys, Begin(sys, start), steps);
            && v in s.pcs && w in s.pcs
            && (s.pcs[v].Accepted? && s.pcs[w].Accepted? && NonceOf(sys, v) == NonceOf(sys, w) ==> v == w)
            && (s.pcs[v].Accepted? ==> Key(sys, v) !in start && Bound(sys.pf, sys.jobs[v].proof, sys.jobs[v].context))
  {
    assert Inv(sys, Begin(sys, start), start);
    InvHolds(sys, Begin(sys, start), start, steps);
    var s := Execute(sys, Begin(sys, start), steps);
    if s.pcs[v].Accepted? { assert Spent(s.pcs[v]) && Ready(sys, v); }
  }

  /** A verifier that refused left nothing behind: every new entry belongs to exactly one
      verifier whose checks had all passed. */
  lemma StoreGrowsByPassedChecksOnly(sys: System, start: set<Digest>, steps: seq<Step>, d: Digest)
    requires Fires(sys, Begin(sys, start), steps)
    ensures var s := Execute(sys, Begin(sys, start), steps);
            && start <= s.store
            && (d in s.store - start <==> exists v :: v in sys.jobs && v in s.pcs && Spent(s.pcs[v]) && Key(sys, v) == d && d !in start)
            && (forall v, w :: v in sys.jobs && w in sys.jobs && v in s.pcs && w in s.pcs && Spent(s.pcs[v]) && Spent(s.pcs[w]) && Key(sys, v) == d == Key(sys, w) ==> v == w)
            && (forall v :: v in sys.jobs && v in s.pcs && Spent(s.pcs[v]) ==> Ready(sys, v))
  {
    assert Inv(sys, Begin(sys, start), start);
    InvHolds(sys, Begin(sys, start), start, steps);
  }

  /** A write that fails after the create burns the nonce: nobody is accepted with it, then or
      later. */
  lemma FailedWriteBurnsTheNonce(sys: System, start: set<Digest>, steps: seq<Step>, v: VerifierId, w: VerifierId)
    requires v in sys.jobs && w in sys.jobs && Key(sys, v) == Key(sys, w) && Fires(sys, Begin(sys, start), steps)
    ensures var s := Execute(sys, Begin(sys, start), steps);
            v in s.pcs && w in s.pcs && (s.pcs[v].WriteFailed? || s.pcs[v] == Gone(true) ==> !s.pcs[w].Accepted?)
  {
    assert Inv(sys, Begin(sys, start), start);
    InvHolds(sys, Begin(sys, start), start, steps);
  }

  /** What each step makes of the verifier that takes it, and of the store: refusals carry the code
      of the first failing check, Invalid for a blank or used nonce, and Required for a store that
      does not work; only a create that works adds to the store, and nothing ever removes. */
  lemma StepsAre(sys: System, s: State, step: Step)
    requires Enabled(sys, s, step)
    ensures var v, next, pc := step.v, Next(sys, s, step), Next(sys, s, step).pcs[step.v];
            && next.pcs == s.pcs[v := pc]
            && (step.Check? ==>
                  var objection := Objection(sys.pf, sys.jobs[v].proof, sys.jobs[v].context);
                  && next.store == s.store
                  && (objection.Some? ==> pc == Refused(objection.value))
                  && (objection.None? && Strip(Get(sys.jobs[v].proof, Nonce)) == "" ==> pc == Refused(Invalid))
                  && (objection.None? && Strip(Get(sys.jobs[v].proof, Nonce)) != "" ==> pc == if step.ok then Consuming else Refused(Required)))
            && (step.Create? ==>
                  var digest := sys.hash(Get(sys.jobs[v].proof, Nonce));
                  && (digest in s.store ==> pc == Refused(Invalid) && next.store == s.store)
                  && (digest !in s.store && !step.ok ==> pc == Refused(Required) && next.store == s.store)
                  && (digest !in s.store && step.ok ==> pc == Writing && next.store == s.store + {digest}))
            && (step.Write? ==> next.store == s.store && pc == if step.ok then Accepted else WriteFailed)
            && (step.Crash? ==> next.store == s.store && pc == Gone(s.pcs[v].Writing?))
  {
    hide Objection, Strip;
  }

  // ------------------------------------------------------------------ who can still be accepted

  ghost predicate CanBeAccepted(sys: System, s: State, v: VerifierId) {
    exists steps :: Fires(sys, s, steps) && v in Execute(sys, s, steps).pcs && Execute(sys, s, steps).pcs[v].Accepted?
  }

  /** What stands between a verifier and acceptance, read off its own state and the store. */
  predicate Hopeful(sys: System, s: State, v: VerifierId)
    requires v in sys.jobs && v in s.pcs
  {
    match s.pcs[v]
    case Checking => Ready(sys, v) && Key(sys, v) !in s.store
    case Consuming => Key(sys, v) !in s.store
    case Writing => true
    case Accepted => true
    case _ => false
  }

  lemma HopelessStays(sys: System, s: State, step: Step, v: VerifierId)
    requires v in sys.jobs && v in s.pcs && Enabled(sys, s, step) && !Hopeful(sys, s, v)
    ensures v in Next(sys, s, step).pcs && !Hopeful(sys, Next(sys, s, step), v)
  {
    hide Objection, Blank, Key;
  }

  lemma {:induction false} HopelessForever(sys: System, s: State, steps: seq<Step>, v: VerifierId)
    requires v in sys.jobs && v in s.pcs && Fires(sys, s, steps) && !Hopeful(sys, s, v)
    ensures v in Execute(sys, s, steps).pcs && !Execute(sys, s, steps).pcs[v].Accepted?
    decreases |steps|
  {
    if steps != [] {
      HopelessStays(sys, s, steps[0], v);
      HopelessForever(sys, Next(sys, s, steps[0]), steps[1..], v);
    }
  }

  lemma StepAndRest(sys: System, s: State, step: Step, steps: seq<Step>)
    requires Enabled(sys, s, step) && Fires(sys, Next(sys, s, step), steps)
    ensures Fires(sys, s, [step] + steps) && Execute(sys, s, [step] + steps) == Execute(sys, Next(sys, s, step), steps)
  {
    assert ([step] + steps)[0] == step && ([step] + steps)[1..] == steps;
    hide Next, Enabled;
  }

  /** One step on the way. */
  lemma OneStepCloser(sys: System, s: State, step: Step, v: VerifierId)
    requires Enabled(sys, s, step) && CanBeAccepted(sys, Next(sys, s, step), v)
    ensures CanBeAccepted(sys, s, v)
  {
    var next := Next(sys, s, step);
    var steps :| Fires(sys, next, steps) && v in Execute(sys, next, steps).pcs && Execute(sys, next, steps).pcs[v].Accepted?;
    StepAndRest(sys, s, step, steps);
  }

  lemma AlreadyAccepted(sys: System, s: State, v: VerifierId)
    requires v in s.pcs && s.pcs[v].Accepted?
    ensures CanBeAccepted(sys, s, v)
  {
    assert Fires(sys, s, []) && Execute(sys, s, []) == s;
  }

  lemma HopefulCanBeAccepted(sys: System, s: State, v: VerifierId)
    requires v in sys.jobs && v in s.pcs && Hopeful(sys, s, v)
    ensures CanBeAccepted(sys, s, v)
    decreases if s.pcs[v].Checking? then 2 else if s.pcs[v].Consuming? then 1 else 0
  {
    hide CanBeAccepted, Objection, Blank, Key;
    match s.pcs[v] {
      case Checking =>
        HopefulCanBeAccepted(sys, Next(sys, s, Check(v, true)), v);
        OneStepCloser(sys, s, Check(v, true), v);
      case Consuming =>
        AlreadyAccepted(sys, Next(sys, Next(sys, s, Create(v, true)), Write(v, true)), v);
        OneStepCloser(sys, Next(sys, s, Create(v, true)), Write(v, true), v);
        OneStepCloser(sys, s, Create(v, true), v);
      case Writing =>
        AlreadyAccepted(sys, Next(sys, s, Write(v, true)), v);
        OneStepCloser(sys, s, Write(v, true), v);
      case Accepted => AlreadyAccepted(sys, s, v);
    }
  }

  /** From any state, reached or not: some future accepts a verifier exactly if it has created its
      nonce and not yet failed, or waits with its checks passed, or about to pass, and a nonce that
      nobody has created. */
  lemma AcceptableExactlyWhen(sys: System, s: State, v: VerifierId)
    requires v in sys.jobs && v in s.pcs
    ensures CanBeAccepted(sys, s, v) <==> Hopeful(sys, s, v)
  {
    if Hopeful(sys, s, v) {
      HopefulCanBeAccepted(sys, s, v);
    } else {
      forall steps | Fires(sys, s, steps)
        ensures v in Execute(sys, s, steps).pcs && !Execute(sys, s, steps).pcs[v].Accepted?
      {
        HopelessForever(sys, s, steps, v);
      }
    }
  }

  /** A check that passes, a create that works, and a write that does not. */
  function FailingWrite(v: VerifierId): seq<Step> { [Check(v, true)] + ([Create(v, true)] + [Write(v, false)]) }

  lemma FailingWriteFires(sys: System, s: State, v: VerifierId)
    requires v in sys.jobs && v in s.pcs && s.pcs[v].Checking? && Ready(sys, v) && Key(sys, v) !in s.store
    ensures Fires(sys, s, FailingWrite(v))
    ensures Execute(sys, s, FailingWrite(v)) == State(s.store + {Key(sys, v)}, s.pcs[v := WriteFailed])
  {
    hide Objection, Blank, Key;
    var one := Next(sys, s, Check(v, true));
    var two := Next(sys, one, Create(v, true));
    var three := Next(sys, two, Write(v, false));
    assert three.pcs == s.pcs[v := WriteFailed];
    assert [Write(v, false)] + [] == [Write(v, false)];
    StepAndRest(sys, two, Write(v, false), []);
    StepAndRest(sys, one, Create(v, true), [Write(v, false)]);
    StepAndRest(sys, s, Check(v, true), [Create(v, true)] + [Write(v, false)]);
  }

  /** The run that uses a nonce up: before it the verifier could be accepted, after it nobody with
      that nonce ever is, although nobody was. */
  lemma FailingWriteUsesUp(sys: System, start: set<Digest>, v: VerifierId, w: VerifierId)
    requires v in sys.jobs && w in sys.jobs && Key(sys, w) == Key(sys, v) && Ready(sys, v) && Key(sys, v) !in start
    ensures var s := Begin(sys, start);
            && CanBeAccepted(sys, s, v) && Fires(sys, s, FailingWrite(v))
            && (var after := Execute(sys, s, FailingWrite(v)).pcs; forall u :: u in after ==> !after[u].Accepted?)
            && !CanBeAccepted(sys, Execute(sys, s, FailingWrite(v)), w)
  {
    var s := Begin(sys, start);
    AcceptableExactlyWhen(sys, s, v);
    FailingWriteFires(sys, s, v);
    AcceptableExactlyWhen(sys, Execute(sys, s, FailingWrite(v)), w);
    hide CanBeAccepted, FailingWrite;
  }
}
