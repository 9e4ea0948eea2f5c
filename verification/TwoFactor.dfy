/** One member's second factor: enrolment, verification, replacement, recovery codes
    and the sessions they lead to. Each operation is one transaction that holds the
    member's row lock. Times are in seconds; secrets and hashes are abstract. */
module TwoFactor {
  import opened Common

  const MINUTE := 60
  const CHALLENGE_LIFETIME := 5 * MINUTE
  const LOCKOUT := 15 * MINUTE
  const MAXIMUM_FAILURES := 5
  const WINDOW_ATTEMPTS := 10
  const RECOVERY_CODES := 10
  const SESSION_LIFETIME := 8 * 3600
  const PERSISTENT_LIFETIME := 30 * 24 * 3600
  const STEP_SECONDS := 30

  type Credential = nat
  type ChallengeId = nat
  type CodeId = nat
  type SessionId = nat

  datatype Purpose = SignIn | ReplaceAuthenticator | RegenerateRecoveryCodes

  datatype Action = Enroll | Verify | Replace | Complete

  /** A pending Google sign-in; a claim also rotates the security stamp and ends other sessions. */
  datatype Google = NoGoogle | Link | Claim

  datatype Factor = Factor(credential: Option<Credential>, last: Option<int>, failed: nat, locked: Option<int>,
                           window: Option<int>, count: nat)

  /** `open` is false once consumed or invalidated. */
  datatype Challenge = Challenge(purpose: Purpose, action: Action, expires: int, expected: Option<Credential>, stamp: nat,
                                 pending: Option<Credential>, management: Option<SessionId>, previous: Option<SessionId>,
                                 reserved: Option<CodeId>, google: Google, open: bool)

  datatype RecoveryCode = RecoveryCode(credential: Credential, consumed: bool, reservedBy: Option<ChallengeId>, until: Option<int>)

  datatype Session = Session(credential: Option<Credential>, expires: int, revoked: bool)

  datatype Failure = AuthenticationFailed | OperationConflict | RateLimited | CodeInvalid | GoogleConflict

  datatype Reply =
    | Refused(failure: Failure)
    | Began(challenge: ChallengeId)
    | Candidate(credential: Credential)
    | NewCodes(first: CodeId)
    | SignedIn(session: SessionId)
    | ReplacementRequired

  // ---------------------------------------------------------------- history

  datatype Grant = Grant(challenge: ChallengeId, credential: Credential)
  datatype Proof = Rejected(at: int) | Accepted(at: int, challenge: ChallengeId, credential: Credential, step: int)
  datatype Replacement = Replacement(challenge: ChallengeId, credential: Credential, code: Option<CodeId>)

  datatype History = History(grants: seq<Grant>, proofs: seq<Proof>, replacements: seq<Replacement>)

  /** The member's rows. Identifiers are fresh; `disclosed` are the challenges whose
      random flow token was returned to a client. */
  datatype State = State(clock: int, factor: Option<Factor>, stamp: nat, confirmed: bool,
                         challenges: map<ChallengeId, Challenge>, codes: map<CodeId, RecoveryCode>,
                         sessions: map<SessionId, Session>, next: nat, disclosed: set<ChallengeId>, history: History)

  // ---------------------------------------------------------------- authenticator codes

  function Candidates(now: int): seq<int> { [now / STEP_SECONDS, now / STEP_SECONDS - 1, now / STEP_SECONDS + 1] }

  /** The first neighbouring time step, later than the last accepted one, whose code was given. */
  function AcceptedStep(steps: seq<int>, last: Option<int>, matching: set<int>): Option<int> {
    if steps == [] then None
    else if (last == None || steps[0] > last.value) && steps[0] in matching then Some(steps[0])
    else AcceptedStep(steps[1..], last, matching)
  }

  lemma {:induction false} AcceptedStepIsFresh(steps: seq<int>, last: Option<int>, matching: set<int>)
    ensures AcceptedStep(steps, last, matching).Some? <==>
            exists i :: 0 <= i < |steps| && steps[i] in matching && (last == None || steps[i] > last.value)
    ensures AcceptedStep(steps, last, matching).Some? ==>
            var step := AcceptedStep(steps, last, matching).value;
            step in steps && step in matching && (last.Some? ==> step > last.value)
  {
    if steps != [] {
      AcceptedStepIsFresh(steps[1..], last, matching);
      if exists i :: 0 <= i < |steps| && steps[i] in matching && (last == None || steps[i] > last.value) {
        var i :| 0 <= i < |steps| && steps[i] in matching && (last == None || steps[i] > last.value);
        if i > 0 { assert steps[1..][i - 1] == steps[i]; }
      }
    }
  }

  method VerifyAuthenticator(matching: set<int>, now: int, last: Option<int>) returns (step: Option<int>)
    ensures step == AcceptedStep(Candidates(now), last, matching)
  {
    var steps := Candidates(now);
    var i := 0;
    while i < |steps|
      invariant 0 <= i <= |steps|
      invariant AcceptedStep(steps, last, matching) == AcceptedStep(steps[i..], last, matching)
    {
      if !(last.Some? && steps[i] <= last.value) {
        if steps[i] in matching {
          return Some(steps[i]);
        }
      }
      i := i + 1;
    }
    step := None;
  }

  // ---------------------------------------------------------------- shared steps

  function Logged(s: State, p: Proof): State {
    s.(history := s.history.(proofs := s.history.proofs + [p]))
  }

  function Saved(s: State, f: Factor): State { s.(factor := Some(f)) }

  /** A new five-minute challenge; its flow is not disclosed yet. */
  function Begin(s: State, purpose: Purpose, management: Option<SessionId>, previous: Option<SessionId>, google: Google): State {
    var f := if s.factor.Some? then s.factor.value else Factor(None, None, 0, None, None, 0);
    var action := match purpose
      case SignIn => if f.credential == None then Enroll else Verify
      case ReplaceAuthenticator => Replace
      case RegenerateRecoveryCodes => Complete;
    s.(factor := Some(f), next := s.next + 1,
       challenges := s.challenges[s.next := Challenge(purpose, action, s.clock + CHALLENGE_LIFETIME, f.credential, s.stamp,
                                                       None, management, previous, None, google, true)])
  }

  predicate LiveSession(s: State, id: SessionId) {
    id in s.sessions && !s.sessions[id].revoked && s.sessions[id].expires > s.clock
  }

  /** What every operation on a flow checks first. `caller` is the session of a signed-in caller. */
  predicate FlowUsable(s: State, id: ChallengeId, caller: Option<SessionId>) {
    && s.factor.Some? && id in s.disclosed && id in s.challenges
    && var c := s.challenges[id];
       && c.open && c.expires > s.clock && c.expected == s.factor.value.credential && c.stamp == s.stamp
       && (s.confirmed || c.google != NoGoogle)
       && (c.purpose != SignIn ==> c.management.Some? && caller == c.management && LiveSession(s, c.management.value))
  }

  /** The lockout and the one-minute window; None when verification is limited. */
  function StartVerification(f: Factor, now: int): Option<Factor> {
    if f.locked.Some? && f.locked.value > now then None
    else
      var g := if f.window == None || f.window.value + MINUTE <= now then f.(window := Some(now), count := 0) else f;
      if g.count >= WINDOW_ATTEMPTS then None else Some(g.(count := g.count + 1))
  }

  /** One rejected proof, locking after the fifth. */
  function Failed(s: State, f: Factor): State {
    var locks := f.failed + 1 >= MAXIMUM_FAILURES;
    Logged(Saved(s, f.(failed := if locks then 0 else f.failed + 1, locked := if locks then Some(s.clock + LOCKOUT) else None)),
           Rejected(s.clock))
  }

  function AcceptedBy(s: State, f: Factor, challenge: ChallengeId, step: int): State
    requires f.credential.Some?
  {
    Logged(Saved(s, f.(last := Some(step), failed := 0, locked := None)),
           Accepted(s.clock, challenge, f.credential.value, step))
  }

  predicate Reservable(s: State, code: CodeId) {
    && code in s.codes && s.factor.Some? && s.factor.value.credential == Some(s.codes[code].credential) && !s.codes[code].consumed
    && (s.codes[code].until == None || s.codes[code].until.value <= s.clock)
  }

  /** Reserve a recovery code for the challenge's lifetime; the flow then requires a replacement. */
  function Reserve(s: State, f: Factor, id: ChallengeId, code: CodeId): (State, Reply)
    requires id in s.challenges
  {
    if !Reservable(s, code) then (Failed(s, f), Refused(CodeInvalid))
    else
      (Saved(s, f).(codes := s.codes[code := s.codes[code].(reservedBy := Some(id), until := Some(s.challenges[id].expires))],
                    challenges := s.challenges[id := s.challenges[id].(reserved := Some(code), action := Replace)]),
       ReplacementRequired)
  }

  /** Ten new codes replace all of the member's previous ones. */
  function WithNewCodes(s: State, credential: Credential): State {
    s.(codes := InsertedCodes(s.next, RECOVERY_CODES, credential),
       next := s.next + RECOVERY_CODES)
  }

  function InsertedCodes(first: CodeId, count: nat, credential: Credential): (r: map<CodeId, RecoveryCode>)
    ensures forall id: CodeId :: id in r <==> first <= id < first + count
    ensures forall id: CodeId :: id in r ==> r[id] == RecoveryCode(credential, false, None, None)
  {
    if count == 0 then map[]
    else InsertedCodes(first, count - 1, credential)[first + count - 1 := RecoveryCode(credential, false, None, None)]
  }

  function WithProofsRevoked(s: State, keep: ChallengeId): State {
    s.(sessions := map id | id in s.sessions :: s.sessions[id].(revoked := true),
       challenges := map id | id in s.challenges ::
         if id == keep then s.challenges[id] else s.challenges[id].(open := false))
  }

  // ---------------------------------------------------------------- operations

  function Setup(s: State, id: ChallengeId, caller: Option<SessionId>): (State, Reply) {
    if !FlowUsable(s, id, caller) then (s, Refused(AuthenticationFailed))
    else
      var c := s.challenges[id];
      if c.action != Enroll && c.action != Replace then (s, Refused(OperationConflict))
      else if c.pending.Some? then (s, Candidate(c.pending.value))
      else (s.(challenges := s.challenges[id := c.(pending := Some(s.next))], next := s.next + 1), Candidate(s.next))
  }

  function Confirm(s: State, id: ChallengeId, caller: Option<SessionId>, matching: set<int>): (State, Reply) {
    if !FlowUsable(s, id, caller) then (s, Refused(AuthenticationFailed))
    else
      var c := s.challenges[id];
      if (c.action != Enroll && c.action != Replace) || c.pending == None then (s, Refused(OperationConflict))
      else
        match StartVerification(s.factor.value, s.clock)
        case None => (s, Refused(RateLimited))
        case Some(f) =>
          match AcceptedStep(Candidates(s.clock), None, matching)
          case None => (Failed(s, f), Refused(CodeInvalid))
          case Some(step) =>
            if c.reserved.Some? && !Payable(s, id, c.reserved.value) then (Saved(s, f), Refused(AuthenticationFailed))
            else (Install(s, f, id, step), NewCodes(s.next))
  }

  predicate Payable(s: State, id: ChallengeId, code: CodeId) {
    && code in s.codes && s.codes[code].reservedBy == Some(id) && !s.codes[code].consumed
    && s.codes[code].until.Some? && s.codes[code].until.value > s.clock
  }

  /** The confirmed candidate becomes the credential; every other proof of the member ends. */
  function Install(s: State, f: Factor, id: ChallengeId, step: int): State
    requires id in s.challenges && s.challenges[id].pending.Some?
  {
    var c := s.challenges[id];
    var credential := c.pending.value;
    var accepted := AcceptedBy(s, f.(credential := Some(credential)), id, step);
    var completed := c.(expected := Some(credential), action := Complete, pending := None, open := c.purpose == SignIn);
    var installed := WithNewCodes(accepted, credential).(challenges := s.challenges[id := completed]);
    WithProofsRevoked(installed, id).(
      history := accepted.history.(replacements := s.history.replacements + [Replacement(id, credential, c.reserved)]))
  }

  /** A client's completion request: nothing, an authenticator code, or a recovery code. */
  datatype Given = Nothing | AuthenticatorCode(matching: set<int>) | RecoveryCodeId(code: CodeId)

  function CompleteSignIn(s: State, id: ChallengeId, caller: Option<SessionId>, given: Given, persistent: bool, conflict: bool): (State, Reply) {
    if !FlowUsable(s, id, caller) then (s, Refused(AuthenticationFailed))
    else
      var c := s.challenges[id];
      if c.purpose != SignIn then (s, Refused(OperationConflict))
      else if c.action == Verify then
        match StartVerification(s.factor.value, s.clock)
        case None => (s, Refused(RateLimited))
        case Some(f) =>
          if given.RecoveryCodeId? then Reserve(s, f, id, given.code)
          else if f.credential == None then (Saved(s, f), Refused(OperationConflict))
          else VerifyAndGrant(s, f, id, MatchingOf(given), persistent, conflict)
      else if given != Nothing || c.action != Complete || s.factor.value.credential == None then (s, Refused(OperationConflict))
      else GrantSession(s, id, persistent, conflict)
  }

  /** An absent code matches no time step. */
  function MatchingOf(given: Given): set<int> { if given.AuthenticatorCode? then given.matching else {} }

  function VerifyAndGrant(s: State, f: Factor, id: ChallengeId, matching: set<int>, persistent: bool, conflict: bool): (State, Reply)
    requires id in s.challenges && f.credential.Some?
  {
    match AcceptedStep(Candidates(s.clock), f.last, matching)
    case None => (Failed(s, f), Refused(CodeInvalid))
    case Some(step) => GrantSession(AcceptedBy(s, f, id, step), id, persistent, conflict)
  }

  function Revoked(sessions: map<SessionId, Session>, id: Option<SessionId>): map<SessionId, Session> {
    if id.Some? && id.value in sessions then sessions[id.value := sessions[id.value].(revoked := true)] else sessions
  }

  /** The last part of a completion: the Google association, then the session, then consumption. */
  function GrantSession(s: State, id: ChallengeId, persistent: bool, conflict: bool): (State, Reply)
    requires id in s.challenges && s.factor.Some? && s.factor.value.credential.Some?
  {
    var c := s.challenges[id];
    if c.google != NoGoogle && conflict then (s, Refused(GoogleConflict))
    else
      var t := if c.google == Claim then WithProofsRevoked(s, id).(stamp := s.stamp + 1, confirmed := true) else s;
      var session := Session(s.factor.value.credential, s.clock + if persistent then PERSISTENT_LIFETIME else SESSION_LIFETIME, false);
      (t.(sessions := Revoked(t.sessions[s.next := session], c.previous), next := s.next + 1,
          challenges := t.challenges[id := c.(open := false, action := Complete)],
          history := s.history.(grants := s.history.grants + [Grant(id, s.factor.value.credential.value)])),
       SignedIn(s.next))
  }

  function Reauthenticate(s: State, caller: SessionId, purpose: Purpose, given: Given): (State, Reply)
    requires purpose != SignIn
  {
    if s.factor == None then (s, Refused(AuthenticationFailed))
    else if s.factor.value.credential == None then (s, Refused(OperationConflict))
    else
      match StartVerification(s.factor.value, s.clock)
      case None => (s, Refused(RateLimited))
      case Some(f) =>
        if !given.RecoveryCodeId? then ReauthenticateByCode(s, f, caller, purpose, MatchingOf(given))
        else if purpose != ReplaceAuthenticator then (s, Refused(OperationConflict)) // rolled back
        else ReauthenticateByRecovery(s, f, caller, given.code)
  }

  function ReauthenticateByCode(s: State, f: Factor, caller: SessionId, purpose: Purpose, matching: set<int>): (State, Reply)
    requires f.credential.Some?
  {
    match AcceptedStep(Candidates(s.clock), f.last, matching)
    case None => (Failed(s, f), Refused(CodeInvalid))
    case Some(step) => (Disclosed(Begin(AcceptedBy(s, f, s.next, step), purpose, Some(caller), None, NoGoogle), s.next), Began(s.next))
  }

  /** A rejected recovery code commits the attempt, but the new flow is never returned. */
  function ReauthenticateByRecovery(s: State, f: Factor, caller: SessionId, code: CodeId): (State, Reply) {
    var began := Begin(Saved(s, f), ReplaceAuthenticator, Some(caller), None, NoGoogle);
    var (r, reply) := Reserve(began, f, s.next, code);
    if reply.Refused? then (r, reply) else (Disclosed(r, s.next), Began(s.next))
  }

  function Disclosed(s: State, id: ChallengeId): State { s.(disclosed := s.disclosed + {id}) }

  function Regenerate(s: State, id: ChallengeId, caller: Option<SessionId>): (State, Reply) {
    if !FlowUsable(s, id, caller) then (s, Refused(AuthenticationFailed))
    else
      var c := s.challenges[id];
      if c.purpose != RegenerateRecoveryCodes || c.action != Complete || s.factor.value.credential == None
      then (s, Refused(OperationConflict))
      else
        var r := WithProofsRevoked(WithNewCodes(s, s.factor.value.credential.value), id);
        (r.(challenges := r.challenges[id := c.(open := false)]), NewCodes(s.next))
  }

  // ---------------------------------------------------------------- runs

  datatype Event =
    | Tick(seconds: nat)
    | PasswordAccepted(previous: Option<SessionId>, google: Google) // a sign-in that needs the second factor
    | SetupRequest(id: ChallengeId, caller: Option<SessionId>)
    | ConfirmRequest(id: ChallengeId, caller: Option<SessionId>, matching: set<int>)
    | CompleteRequest(id: ChallengeId, caller: Option<SessionId>, given: Given, persistent: bool, conflict: bool)
    | ReauthenticateRequest(session: SessionId, purpose: Purpose, given: Given)
    | RegenerateRequest(id: ChallengeId, caller: Option<SessionId>)
    | OtherSession(expires: int)            // a session made without a second factor
    | EndSession(session: SessionId)        // signing out of one session
    | RenewSession(session: SessionId, persistent: bool) // a live session goes on; only a temporary one gets a new expiry
    | RevokeEverything                      // administrative revocation of sessions and flows
    | NewStamp                              // password or address change
    | SetConfirmed(confirmed: bool)
    | PurgeExpired                          // the worker deletes expired challenges

  function Step(s: State, e: Event): State {
    match e
    case Tick(seconds) => s.(clock := s.clock + seconds)
    case PasswordAccepted(previous, google) =>
      Disclosed(Begin(s, SignIn, None, previous, google), s.next)
    case SetupRequest(id, caller) => Setup(s, id, caller).0
    case ConfirmRequest(id, caller, matching) => Confirm(s, id, caller, matching).0
    case CompleteRequest(id, caller, given, persistent, conflict) => CompleteSignIn(s, id, caller, given, persistent, conflict).0
    case ReauthenticateRequest(session, purpose, given) => if purpose == SignIn then s else Reauthenticate(s, session, purpose, given).0
    case RegenerateRequest(id, caller) => Regenerate(s, id, caller).0
    case OtherSession(expires) => s.(sessions := s.sessions[s.next := Session(None, expires, false)], next := s.next + 1)
    case EndSession(session) => s.(sessions := Revoked(s.sessions, Some(session)))
    case RenewSession(session, persistent) =>
      if LiveSession(s, session) && s.confirmed && !persistent
      then s.(sessions := s.sessions[session := s.sessions[session].(expires := s.clock + SESSION_LIFETIME)]) else s
    case RevokeEverything => WithProofsRevoked(s, s.next)
    case NewStamp => s.(stamp := s.stamp + 1)
    case SetConfirmed(confirmed) => s.(confirmed := confirmed)
    case PurgeExpired =>
      s.(challenges := map id | id in s.challenges && s.challenges[id].expires > s.clock :: s.challenges[id])
  }

  const Registered: State := State(0, None, 0, false, map[], map[], map[], 0, {}, History([], [], []))

  function Run(es: seq<Event>): State {
    if es == [] then Registered else Step(Run(es[..|es| - 1]), es[|es| - 1])
  }

  // ---------------------------------------------------------------- lockout and limits

  function Trailing(proofs: seq<Proof>): nat {
    if proofs == [] || !proofs[|proofs| - 1].Rejected? then 0 else 1 + Trailing(proofs[..|proofs| - 1])
  }

  lemma {:induction false} TrailingCovers(proofs: seq<Proof>, from: nat)
    requires from <= |proofs| && forall m :: from <= m < |proofs| ==> proofs[m].Rejected?
    ensures |proofs| - from <= Trailing(proofs) <= |proofs|
  {
    if proofs != [] {
      if from < |proofs| { TrailingCovers(proofs[..|proofs| - 1], from); }
      else if proofs[|proofs| - 1].Rejected? { TrailingCovers(proofs[..|proofs| - 1], |proofs| - 1); }
    }
  }

  ghost predicate Chronological(s: State) {
    && (forall i :: 0 <= i < |s.history.proofs| ==> s.history.proofs[i].at <= s.clock)
    && (forall i, j :: 0 <= i < j < |s.history.proofs| ==> s.history.proofs[i].at <= s.history.proofs[j].at)
  }

  /** A rejection beyond the stored failures came at least a lockout after the one that locked. */
  ghost predicate LockHolds(f: Factor, proofs: seq<Proof>) {
    && f.failed < MAXIMUM_FAILURES && f.failed <= Trailing(proofs) <= |proofs|
    && (Trailing(proofs) > f.failed ==>
          var at := proofs[|proofs| - 1 - f.failed].at;
          && (f.failed == 0 ==> f.locked.Some? && f.locked.value >= at + LOCKOUT)
          && (f.failed > 0 ==> proofs[|proofs| - 1].at >= at + LOCKOUT))
  }

  /** Any six consecutive rejections span at least a lockout. */
  ghost predicate Slow(proofs: seq<Proof>) {
    forall i, j :: 0 <= i && i + MAXIMUM_FAILURES <= j < |proofs| && AllRejected(proofs, i, j) ==>
      proofs[j].at >= proofs[i].at + LOCKOUT
  }

  ghost predicate AllRejected(proofs: seq<Proof>, i: nat, j: nat)
    requires i <= j < |proofs|
  {
    forall m :: i <= m <= j ==> proofs[m].Rejected?
  }

  ghost predicate LockoutInv(s: State) {
    && Chronological(s) && Slow(s.history.proofs)
    && match s.factor
       case None => s.history.proofs == []
       case Some(f) => LockHolds(f, s.history.proofs) && f.count <= WINDOW_ATTEMPTS
  }

  lemma FailedKeepsLockout(s: State, r: State, f: Factor)
    requires LockoutInv(s) && s.factor.Some? && StartVerification(s.factor.value, s.clock) == Some(f)
    requires r.factor == Failed(s, f).factor && r.history.proofs == s.history.proofs + [Rejected(s.clock)] && r.clock == s.clock
    ensures LockoutInv(r)
  {
    var before, after := s.history.proofs, r.history.proofs;
    assert after[..|after| - 1] == before;
    LockDelays(s, f);
    RejectionKeepsSlow(before, after, s.factor.value);
  }

  /** Passing the lockout check means a full lockout has passed since the rejection that locked. */
  lemma LockDelays(s: State, f: Factor)
    requires Chronological(s) && s.factor.Some? && LockHolds(s.factor.value, s.history.proofs)
    requires StartVerification(s.factor.value, s.clock) == Some(f)
    ensures var g := s.factor.value; Trailing(s.history.proofs) > g.failed ==>
      s.clock >= s.history.proofs[|s.history.proofs| - 1 - g.failed].at + LOCKOUT
  {
  }

  lemma RejectionKeepsSlow(before: seq<Proof>, after: seq<Proof>, g: Factor)
    requires Slow(before) && g.failed < MAXIMUM_FAILURES && Trailing(before) <= |before|
    requires after != [] && after[..|after| - 1] == before
    requires forall i, j :: 0 <= i < j < |before| ==> before[i].at <= before[j].at
    requires Trailing(before) > g.failed ==> after[|before|].at >= before[|before| - 1 - g.failed].at + LOCKOUT
    ensures Slow(after)
  {
    forall i, j | 0 <= i && i + MAXIMUM_FAILURES <= j < |after| && AllRejected(after, i, j)
      ensures after[j].at >= after[i].at + LOCKOUT
    {
      assert forall m :: i <= m < |before| ==> before[m] == after[m];
      if j < |before| {
        assert AllRejected(before, i, j);
      } else {
        TrailingCovers(before, i);
      }
    }
  }

  lemma AcceptedKeepsLockout(s: State, r: State, f: Factor)
    requires LockoutInv(s) && f.failed == 0 && f.count <= WINDOW_ATTEMPTS
    requires r.factor == Some(f) && r.clock == s.clock
    requires |r.history.proofs| == |s.history.proofs| + 1 && r.history.proofs[..|s.history.proofs|] == s.history.proofs
    requires r.history.proofs[|s.history.proofs|].Accepted? && r.history.proofs[|s.history.proofs|].at == s.clock
    ensures LockoutInv(r)
  {
    var before, after := s.history.proofs, r.history.proofs;
    assert forall m :: 0 <= m < |before| ==> after[m] == before[m];
    forall i, j | 0 <= i && i + MAXIMUM_FAILURES <= j < |after| && AllRejected(after, i, j)
      ensures after[j].at >= after[i].at + LOCKOUT
    {
      assert j < |before|;
      assert AllRejected(before, i, j);
    }
  }

  predicate SameLock(f: Factor, g: Factor) { g.failed == f.failed && g.locked == f.locked && g.count <= WINDOW_ATTEMPTS }

  lemma OtherwiseKeepsLockout(s: State, r: State)
    requires LockoutInv(s) && r.history.proofs == s.history.proofs && s.clock <= r.clock
    requires s.factor.Some? ==> r.factor.Some? && SameLock(s.factor.value, r.factor.value)
    requires s.factor == None ==> r.factor == None || r.factor.value.failed == r.factor.value.count == 0
    ensures LockoutInv(r)
  {
  }

  lemma {:induction false} StepKeepsLockout(s: State, e: Event)
    requires LockoutInv(s)
    ensures LockoutInv(Step(s, e))
  {
    match e
    case ConfirmRequest(id, caller, matching) => ConfirmKeepsLockout(s, id, caller, matching);
    case CompleteRequest(id, caller, given, persistent, conflict) => CompleteKeepsLockout(s, id, caller, given, persistent, conflict);
    case ReauthenticateRequest(session, purpose, given) =>
      if purpose != SignIn { ReauthenticateKeepsLockout(s, session, purpose, given); }
    case _ =>
      OthersLeaveLock(s, e);
      OtherwiseKeepsLockout(s, Step(s, e));
  }

  predicate Verifies(e: Event) { e.ConfirmRequest? || e.CompleteRequest? || e.ReauthenticateRequest? }

  lemma OthersLeaveLock(s: State, e: Event)
    requires !Verifies(e) && (s.factor.Some? ==> s.factor.value.count <= WINDOW_ATTEMPTS)
    ensures var r := Step(s, e);
      && r.history.proofs == s.history.proofs && s.clock <= r.clock
      && (s.factor.Some? ==> r.factor.Some? && SameLock(s.factor.value, r.factor.value))
      && (s.factor == None ==> r.factor == None || r.factor.value.failed == r.factor.value.count == 0)
  {
  }

  lemma ConfirmKeepsLockout(s: State, id: ChallengeId, caller: Option<SessionId>, matching: set<int>)
    requires LockoutInv(s)
    ensures LockoutInv(Confirm(s, id, caller, matching).0)
  {
    var r := Confirm(s, id, caller, matching).0;
    if r != s {
      var f := StartVerification(s.factor.value, s.clock).value;
      match AcceptedStep(Candidates(s.clock), None, matching)
      case None => FailedKeepsLockout(s, r, f);
      case Some(step) =>
        if s.challenges[id].reserved.Some? && !Payable(s, id, s.challenges[id].reserved.value) {
          OtherwiseKeepsLockout(s, r);
        } else {
          AcceptedKeepsLockout(s, r, r.factor.value);
        }
    }
  }

  lemma CompleteKeepsLockout(s: State, id: ChallengeId, caller: Option<SessionId>, given: Given, persistent: bool, conflict: bool)
    requires LockoutInv(s)
    ensures LockoutInv(CompleteSignIn(s, id, caller, given, persistent, conflict).0)
  {
    var r := CompleteSignIn(s, id, caller, given, persistent, conflict).0;
    if FlowUsable(s, id, caller) && s.challenges[id].purpose == SignIn && s.challenges[id].action == Verify
      && StartVerification(s.factor.value, s.clock).Some?
    {
      VerifyKeepsLockout(s, id, caller, given, persistent, conflict);
    } else {
      OtherwiseKeepsLockout(s, r);
    }
  }

  lemma VerifyKeepsLockout(s: State, id: ChallengeId, caller: Option<SessionId>, given: Given, persistent: bool, conflict: bool)
    requires LockoutInv(s)
    requires FlowUsable(s, id, caller) && s.challenges[id].purpose == SignIn && s.challenges[id].action == Verify
    requires StartVerification(s.factor.value, s.clock).Some?
    ensures LockoutInv(CompleteSignIn(s, id, caller, given, persistent, conflict).0)
  {
    var r := CompleteSignIn(s, id, caller, given, persistent, conflict).0;
    var f := StartVerification(s.factor.value, s.clock).value;
    if given.RecoveryCodeId? {
      if Reservable(s, given.code) { OtherwiseKeepsLockout(s, r); } else { FailedKeepsLockout(s, r, f); }
    } else if f.credential == None {
      OtherwiseKeepsLockout(s, r);
    } else {
      VerifyAndGrantKeepsLockout(s, f, id, MatchingOf(given), persistent, conflict);
    }
  }

  lemma VerifyAndGrantKeepsLockout(s: State, f: Factor, id: ChallengeId, matching: set<int>, persistent: bool, conflict: bool)
    requires LockoutInv(s) && s.factor.Some? && StartVerification(s.factor.value, s.clock) == Some(f)
    requires id in s.challenges && f.credential.Some?
    ensures LockoutInv(VerifyAndGrant(s, f, id, matching, persistent, conflict).0)
  {
    var r := VerifyAndGrant(s, f, id, matching, persistent, conflict).0;
    match AcceptedStep(Candidates(s.clock), f.last, matching)
    case None => FailedKeepsLockout(s, r, f);
    case Some(step) =>
      var a := AcceptedBy(s, f, id, step);
      AcceptedKeepsLockout(s, a, a.factor.value);
      GrantLeavesProofs(a, id, persistent, conflict);
      OtherwiseKeepsLockout(a, r);
  }

  lemma GrantLeavesProofs(s: State, id: ChallengeId, persistent: bool, conflict: bool)
    requires id in s.challenges && s.factor.Some? && s.factor.value.credential.Some?
    ensures var r := GrantSession(s, id, persistent, conflict).0;
      r.history.proofs == s.history.proofs && r.history.replacements == s.history.replacements && r.factor == s.factor && r.clock == s.clock
  {
  }

  lemma ReauthenticateKeepsLockout(s: State, caller: SessionId, purpose: Purpose, given: Given)
    requires LockoutInv(s) && purpose != SignIn
    ensures LockoutInv(Reauthenticate(s, caller, purpose, given).0)
  {
    if s.factor.Some? && s.factor.value.credential.Some? && StartVerification(s.factor.value, s.clock).Some? {
      var f := StartVerification(s.factor.value, s.clock).value;
      if !given.RecoveryCodeId? {
        ByCodeKeepsLockout(s, f, caller, purpose, MatchingOf(given));
      } else if purpose == ReplaceAuthenticator {
        ByRecoveryKeepsLockout(s, f, caller, given.code);
      }
    }
  }

  lemma ByCodeKeepsLockout(s: State, f: Factor, caller: SessionId, purpose: Purpose, matching: set<int>)
    requires LockoutInv(s) && s.factor.Some? && StartVerification(s.factor.value, s.clock) == Some(f) && f.credential.Some?
    ensures LockoutInv(ReauthenticateByCode(s, f, caller, purpose, matching).0)
  {
    var r := ReauthenticateByCode(s, f, caller, purpose, matching).0;
    match AcceptedStep(Candidates(s.clock), f.last, matching)
    case None => FailedKeepsLockout(s, r, f);
    case Some(step) => AcceptedKeepsLockout(s, r, r.factor.value);
  }

  lemma ByRecoveryKeepsLockout(s: State, f: Factor, caller: SessionId, code: CodeId)
    requires LockoutInv(s) && s.factor.Some? && StartVerification(s.factor.value, s.clock) == Some(f)
    ensures LockoutInv(ReauthenticateByRecovery(s, f, caller, code).0)
  {
    var r := ReauthenticateByRecovery(s, f, caller, code).0;
    var began := Begin(Saved(s, f), ReplaceAuthenticator, Some(caller), None, NoGoogle);
    if Reservable(began, code) { OtherwiseKeepsLockout(s, r); } else { FailedKeepsLockout(s, r, f); }
  }

  // ---------------------------------------------------------------- replay of authenticator codes

  ghost predicate Used(proofs: seq<Proof>, credential: Credential) {
    exists i :: 0 <= i < |proofs| && proofs[i].Accepted? && proofs[i].credential == credential
  }

  function Current(s: State): Option<Credential> { if s.factor.Some? then s.factor.value.credential else None }

  function Last(s: State): Option<int> { if s.factor.Some? then s.factor.value.last else None }

  function Pending(s: State, id: ChallengeId): Option<Credential> {
    if id in s.challenges then s.challenges[id].pending else None
  }

  /** Candidates are fresh: not current, never accepted before, and each in one challenge only. */
  ghost predicate CandidatesInv(s: State) {
    && (Current(s).Some? ==> Current(s).value < s.next)
    && (forall id :: Pending(s, id).Some? ==>
          Pending(s, id).value < s.next && Pending(s, id) != Current(s) && !Used(s.history.proofs, Pending(s, id).value))
    && (forall a, b :: Pending(s, a).Some? && Pending(s, a) == Pending(s, b) ==> a == b)
    && (forall i :: 0 <= i < |s.history.proofs| && s.history.proofs[i].Accepted? ==> s.history.proofs[i].credential < s.next)
  }

  ghost predicate Increasing(proofs: seq<Proof>) {
    forall i, j :: 0 <= i < j < |proofs| && proofs[i].Accepted? && proofs[j].Accepted? && proofs[i].credential == proofs[j].credential
      ==> proofs[i].step < proofs[j].step
  }

  ghost predicate ReplayInv(s: State) {
    && Increasing(s.history.proofs)
    && forall i :: 0 <= i < |s.history.proofs| && s.history.proofs[i].Accepted? && Current(s) == Some(s.history.proofs[i].credential)
         ==> Last(s).Some? && s.history.proofs[i].step <= Last(s).value
  }

  lemma FrameKeepsReplay(s: State, r: State)
    requires CandidatesInv(s) && ReplayInv(s)
    requires Current(r) == Current(s) && Last(r) == Last(s) && s.next <= r.next
    requires r.history.proofs == s.history.proofs || r.history.proofs == s.history.proofs + [Rejected(s.clock)]
    requires forall id :: Pending(r, id).Some? ==> Pending(r, id) == Pending(s, id)
    ensures CandidatesInv(r) && ReplayInv(r)
  {
    forall i | 0 <= i < |r.history.proofs| && r.history.proofs[i].Accepted?
      ensures i < |s.history.proofs| && r.history.proofs[i] == s.history.proofs[i] { }
    forall id | Pending(r, id).Some? ensures !Used(r.history.proofs, Pending(r, id).value) { }
  }

  lemma AcceptedKeepsReplay(s: State, r: State, p: Proof)
    requires CandidatesInv(s) && ReplayInv(s) && p.Accepted?
    requires r.history.proofs == s.history.proofs + [p] && Current(r) == Some(p.credential) && Last(r) == Some(p.step) && s.next <= r.next
    requires Current(s) == Some(p.credential) || exists id :: Pending(s, id) == Some(p.credential) && Pending(r, id) == None
    requires Current(s) == Some(p.credential) && Last(s).Some? ==> Last(s).value < p.step
    requires forall id :: Pending(r, id).Some? ==> Pending(r, id) == Pending(s, id)
    ensures CandidatesInv(r) && ReplayInv(r)
  {
    var before, after := s.history.proofs, r.history.proofs;
    assert forall i :: 0 <= i < |before| ==> after[i] == before[i];
    forall i | 0 <= i < |before| && before[i].Accepted? && before[i].credential == p.credential ensures before[i].step < p.step {
      assert Used(before, p.credential);
    }
    forall id | Pending(r, id).Some? ensures Pending(r, id) != Current(r) && !Used(after, Pending(r, id).value) {
      assert !Used(before, Pending(s, id).value);
    }
  }

  lemma SetupKeepsReplay(s: State, id: ChallengeId, caller: Option<SessionId>)
    requires CandidatesInv(s) && ReplayInv(s)
    ensures CandidatesInv(Setup(s, id, caller).0) && ReplayInv(Setup(s, id, caller).0)
  {
    var r := Setup(s, id, caller).0;
    if r != s {
      assert forall x :: x != id ==> Pending(r, x) == Pending(s, x);
      assert Pending(r, id) == Some(s.next);
      assert !Used(s.history.proofs, s.next);
    }
  }

  lemma {:induction false} StepKeepsReplay(s: State, e: Event)
    requires CandidatesInv(s) && ReplayInv(s)
    ensures CandidatesInv(Step(s, e)) && ReplayInv(Step(s, e))
  {
    match e
    case SetupRequest(id, caller) => SetupKeepsReplay(s, id, caller);
    case ConfirmRequest(id, caller, matching) => ConfirmKeepsReplay(s, id, caller, matching);
    case CompleteRequest(id, caller, given, persistent, conflict) => CompleteKeepsReplay(s, id, caller, given, persistent, conflict);
    case ReauthenticateRequest(session, purpose, given) =>
      if purpose != SignIn { ReauthenticateKeepsReplay(s, session, purpose, given); }
    case _ =>
      OthersLeaveCandidates(s, e);
      FrameKeepsReplay(s, Step(s, e));
  }

  lemma OthersLeaveCandidates(s: State, e: Event)
    requires !Verifies(e) && !e.SetupRequest?
    ensures var r := Step(s, e);
      && Current(r) == Current(s) && Last(r) == Last(s) && s.next <= r.next && r.history.proofs == s.history.proofs
      && forall id :: Pending(r, id).Some? ==> Pending(r, id) == Pending(s, id)
  {
  }

  lemma ConfirmKeepsReplay(s: State, id: ChallengeId, caller: Option<SessionId>, matching: set<int>)
    requires CandidatesInv(s) && ReplayInv(s)
    ensures CandidatesInv(Confirm(s, id, caller, matching).0) && ReplayInv(Confirm(s, id, caller, matching).0)
  {
    var (r, reply) := Confirm(s, id, caller, matching);
    if reply.NewCodes? {
      var f := StartVerification(s.factor.value, s.clock).value;
      var step := AcceptedStep(Candidates(s.clock), None, matching).value;
      InstallEffect(s, f, id, step);
      assert Pending(s, id).Some?;
      AcceptedKeepsReplay(s, r, Accepted(s.clock, id, s.challenges[id].pending.value, step));
    } else {
      FrameKeepsReplay(s, r);
    }
  }

  lemma InstallEffect(s: State, f: Factor, id: ChallengeId, step: int)
    requires id in s.challenges && s.challenges[id].pending.Some?
    ensures var r := Install(s, f, id, step); var credential := s.challenges[id].pending.value;
      && Current(r) == Some(credential) && Last(r) == Some(step) && s.next <= r.next
      && r.history.proofs == s.history.proofs + [Accepted(s.clock, id, credential, step)]
      && Pending(r, id) == None && (forall x :: Pending(r, x).Some? ==> Pending(r, x) == Pending(s, x))
  {
  }

  lemma CompleteKeepsReplay(s: State, id: ChallengeId, caller: Option<SessionId>, given: Given, persistent: bool, conflict: bool)
    requires CandidatesInv(s) && ReplayInv(s)
    ensures var r := CompleteSignIn(s, id, caller, given, persistent, conflict).0; CandidatesInv(r) && ReplayInv(r)
  {
    var r := CompleteSignIn(s, id, caller, given, persistent, conflict).0;
    if !FlowUsable(s, id, caller) || s.challenges[id].purpose != SignIn {
    } else if s.challenges[id].action == Verify && StartVerification(s.factor.value, s.clock).Some?
      && !given.RecoveryCodeId? && s.factor.value.credential.Some?
    {
      VerifyAndGrantKeepsReplay(s, StartVerification(s.factor.value, s.clock).value, id, MatchingOf(given), persistent, conflict);
    } else {
      FrameKeepsReplay(s, r);
    }
  }

  lemma VerifyAndGrantKeepsReplay(s: State, f: Factor, id: ChallengeId, matching: set<int>, persistent: bool, conflict: bool)
    requires CandidatesInv(s) && ReplayInv(s) && s.factor.Some? && StartVerification(s.factor.value, s.clock) == Some(f)
    requires id in s.challenges && f.credential.Some?
    ensures var r := VerifyAndGrant(s, f, id, matching, persistent, conflict).0; CandidatesInv(r) && ReplayInv(r)
  {
    var r := VerifyAndGrant(s, f, id, matching, persistent, conflict).0;
    AcceptedStepIsFresh(Candidates(s.clock), f.last, matching);
    match AcceptedStep(Candidates(s.clock), f.last, matching)
    case None => FrameKeepsReplay(s, r);
    case Some(step) =>
      var a := AcceptedBy(s, f, id, step);
      AcceptedKeepsReplay(s, a, Accepted(s.clock, id, f.credential.value, step));
      GrantLeavesProofs(a, id, persistent, conflict);
      FrameKeepsReplay(a, r);
  }

  lemma ReauthenticateKeepsReplay(s: State, caller: SessionId, purpose: Purpose, given: Given)
    requires CandidatesInv(s) && ReplayInv(s) && purpose != SignIn
    ensures var r := Reauthenticate(s, caller, purpose, given).0; CandidatesInv(r) && ReplayInv(r)
  {
    var r := Reauthenticate(s, caller, purpose, given).0;
    if s.factor == None || s.factor.value.credential == None || StartVerification(s.factor.value, s.clock) == None {
    } else if given.RecoveryCodeId? {
      FrameKeepsReplay(s, r);
    } else {
      ByCodeKeepsReplay(s, StartVerification(s.factor.value, s.clock).value, caller, purpose, MatchingOf(given));
    }
  }

  lemma ByCodeKeepsReplay(s: State, f: Factor, caller: SessionId, purpose: Purpose, matching: set<int>)
    requires CandidatesInv(s) && ReplayInv(s) && s.factor.Some? && StartVerification(s.factor.value, s.clock) == Some(f) && f.credential.Some?
    ensures var r := ReauthenticateByCode(s, f, caller, purpose, matching).0; CandidatesInv(r) && ReplayInv(r)
  {
    var r := ReauthenticateByCode(s, f, caller, purpose, matching).0;
    AcceptedStepIsFresh(Candidates(s.clock), f.last, matching);
    match AcceptedStep(Candidates(s.clock), f.last, matching)
    case None => FrameKeepsReplay(s, r);
    case Some(step) => AcceptedKeepsReplay(s, r, Accepted(s.clock, s.next, f.credential.value, step));
  }

  // ---------------------------------------------------------------- sessions

  ghost predicate Proved(proofs: seq<Proof>, id: ChallengeId, credential: Credential) {
    exists i :: 0 <= i < |proofs| && proofs[i].Accepted? && proofs[i].challenge == id && proofs[i].credential == credential
  }

  /** An open sign-in flow may complete without a further code only after one was accepted in it. */
  ghost predicate Ready(c: Challenge) { c.open && c.purpose == SignIn && c.action == Complete }

  ghost predicate SessionsInv(s: State) {
    && (forall id :: id in s.challenges ==> id < s.next)
    && (forall id :: id in s.challenges && Ready(s.challenges[id]) ==>
          s.challenges[id].expected.Some? && Proved(s.history.proofs, id, s.challenges[id].expected.value))
    && GrantsInv(s)
  }

  ghost predicate GrantsInv(s: State) {
    && (forall i :: 0 <= i < |s.history.grants| ==>
          && s.history.grants[i].challenge < s.next
          && (s.history.grants[i].challenge in s.challenges ==> !s.challenges[s.history.grants[i].challenge].open)
          && Proved(s.history.proofs, s.history.grants[i].challenge, s.history.grants[i].credential))
    && (forall i, j :: 0 <= i < j < |s.history.grants| ==> s.history.grants[i].challenge != s.history.grants[j].challenge)
  }

  ghost predicate Extends(before: seq<Proof>, after: seq<Proof>) {
    |before| <= |after| && after[..|before|] == before
  }

  lemma ProvedStays(before: seq<Proof>, after: seq<Proof>, id: ChallengeId, credential: Credential)
    requires Extends(before, after) && Proved(before, id, credential)
    ensures Proved(after, id, credential)
  {
    var i :| 0 <= i < |before| && before[i].Accepted? && before[i].challenge == id && before[i].credential == credential;
    assert after[i] == after[..|before|][i] == before[i];
  }

  /** No session is created, no flow is reopened, and only proved flows become ready. */
  lemma FrameKeepsSessions(s: State, r: State)
    requires SessionsInv(s) && s.next <= r.next && r.history.grants == s.history.grants && Extends(s.history.proofs, r.history.proofs)
    requires forall id :: id in r.challenges ==> id < r.next
    requires forall id :: id in r.challenges && id !in s.challenges ==> s.next <= id
    requires forall id :: id in r.challenges && id in s.challenges && r.challenges[id].open ==> s.challenges[id].open
    requires forall id :: id in r.challenges && Ready(r.challenges[id]) ==>
      || (id in s.challenges && Ready(s.challenges[id]) && r.challenges[id].expected == s.challenges[id].expected)
      || (r.challenges[id].expected.Some? && Proved(r.history.proofs, id, r.challenges[id].expected.value))
    ensures SessionsInv(r)
  {
    forall id | id in r.challenges && Ready(r.challenges[id])
      ensures r.challenges[id].expected.Some? && Proved(r.history.proofs, id, r.challenges[id].expected.value)
    {
      if id in s.challenges && Ready(s.challenges[id]) && r.challenges[id].expected == s.challenges[id].expected {
        ProvedStays(s.history.proofs, r.history.proofs, id, r.challenges[id].expected.value);
      }
    }
    forall i | 0 <= i < |s.history.grants|
      ensures Proved(r.history.proofs, s.history.grants[i].challenge, s.history.grants[i].credential)
    {
      ProvedStays(s.history.proofs, r.history.proofs, s.history.grants[i].challenge, s.history.grants[i].credential);
    }
  }

  lemma FactorOnlyKeepsSessions(s: State, r: State)
    requires SessionsInv(s) && r.next == s.next && r.challenges == s.challenges
    requires r.history.grants == s.history.grants && Extends(s.history.proofs, r.history.proofs)
    ensures SessionsInv(r)
  {
    FrameKeepsSessions(s, r);
  }

  /** A session grant consumes an open, proved flow. */
  lemma GrantKeepsSessions(s: State, id: ChallengeId, persistent: bool, conflict: bool)
    requires SessionsInv(s) && id in s.challenges && s.challenges[id].open && s.factor.Some? && s.factor.value.credential.Some?
    requires Proved(s.history.proofs, id, s.factor.value.credential.value)
    ensures SessionsInv(GrantSession(s, id, persistent, conflict).0)
  {
    var (r, reply) := GrantSession(s, id, persistent, conflict);
    if reply.SignedIn? {
      GrantEffect(s, id, persistent, conflict);
      var t := r.(history := s.history);
      FrameKeepsSessions(s, t);
      assert forall i :: 0 <= i < |s.history.grants| ==> r.history.grants[i] == s.history.grants[i];
    }
  }

  lemma GrantEffect(s: State, id: ChallengeId, persistent: bool, conflict: bool)
    requires id in s.challenges && s.factor.Some? && s.factor.value.credential.Some?
    requires GrantSession(s, id, persistent, conflict).1.SignedIn?
    ensures var r := GrantSession(s, id, persistent, conflict).0;
      && r.challenges.Keys == s.challenges.Keys && !r.challenges[id].open
      && (forall x :: x in s.challenges && x != id ==>
            r.challenges[x] == s.challenges[x] || r.challenges[x] == s.challenges[x].(open := false))
      && r.next == s.next + 1
      && r.history == s.history.(grants := s.history.grants + [Grant(id, s.factor.value.credential.value)])
      && s.next in r.sessions && r.sessions[s.next].credential == s.factor.value.credential
  {
  }

  /** What every event other than a verification does: flows close, gain a candidate, or are new and empty. */
  ghost predicate Mild(s: State, r: State) {
    && r.history == s.history && s.clock <= r.clock && s.next <= r.next
    && (r.codes == s.codes || forall code :: code in r.codes ==> s.next <= code < r.next)
    && (forall id :: id in r.challenges ==> id < r.next)
    && (forall id :: id in r.challenges ==> MildChallenge(s, id, r.challenges[id]))
  }

  ghost predicate MildChallenge(s: State, id: ChallengeId, c: Challenge) {
    if id in s.challenges then
      c == s.challenges[id].(open := c.open, pending := c.pending) && (c.open ==> s.challenges[id].open)
    else
      s.next <= id && c.reserved == None && !Ready(c)
  }

  lemma OthersAreMild(s: State, e: Event)
    requires !Verifies(e) && forall id :: id in s.challenges ==> id < s.next
    ensures Mild(s, Step(s, e))
  {
    match e
    case PasswordAccepted(previous, google) => BeginIsMild(s, previous, google);
    case RegenerateRequest(id, caller) => RegenerateIsMild(s, id, caller);
    case SetupRequest(id, caller) => SetupIsMild(s, id, caller);
    case _ =>
  }

  lemma SetupIsMild(s: State, id: ChallengeId, caller: Option<SessionId>)
    requires forall x :: x in s.challenges ==> x < s.next
    ensures Mild(s, Setup(s, id, caller).0)
  {
  }

  lemma BeginIsMild(s: State, previous: Option<SessionId>, google: Google)
    requires forall id :: id in s.challenges ==> id < s.next
    ensures Mild(s, Begin(s, SignIn, None, previous, google))
  {
  }

  lemma RegenerateIsMild(s: State, id: ChallengeId, caller: Option<SessionId>)
    requires forall x :: x in s.challenges ==> x < s.next
    ensures Mild(s, Regenerate(s, id, caller).0)
  {
  }

  lemma MildKeepsSessions(s: State, r: State)
    requires SessionsInv(s) && Mild(s, r)
    ensures SessionsInv(r)
  {
    FrameKeepsSessions(s, r);
  }

  lemma {:induction false} StepKeepsSessions(s: State, e: Event)
    requires SessionsInv(s)
    ensures SessionsInv(Step(s, e))
  {
    match e
    case ConfirmRequest(id, caller, matching) => ConfirmKeepsSessions(s, id, caller, matching);
    case CompleteRequest(id, caller, given, persistent, conflict) => CompleteKeepsSessions(s, id, caller, given, persistent, conflict);
    case ReauthenticateRequest(session, purpose, given) =>
      if purpose != SignIn { ReauthenticateKeepsSessions(s, session, purpose, given); }
    case _ =>
      OthersAreMild(s, e);
      MildKeepsSessions(s, Step(s, e));
  }

  lemma ConfirmKeepsSessions(s: State, id: ChallengeId, caller: Option<SessionId>, matching: set<int>)
    requires SessionsInv(s)
    ensures SessionsInv(Confirm(s, id, caller, matching).0)
  {
    var (r, reply) := Confirm(s, id, caller, matching);
    if reply.NewCodes? {
      var f := StartVerification(s.factor.value, s.clock).value;
      var step := AcceptedStep(Candidates(s.clock), None, matching).value;
      InstallKeepsSessions(s, f, id, step);
    } else {
      FactorOnlyKeepsSessions(s, r);
    }
  }

  lemma InstallKeepsSessions(s: State, f: Factor, id: ChallengeId, step: int)
    requires SessionsInv(s) && id in s.challenges && s.challenges[id].pending.Some? && s.challenges[id].open
    ensures SessionsInv(Install(s, f, id, step))
  {
    var r := Install(s, f, id, step);
    InstallEffect(s, f, id, step);
    InstallOpens(s, f, id, step);
    assert r.history.proofs[|s.history.proofs|] == Accepted(s.clock, id, s.challenges[id].pending.value, step);
    assert Proved(r.history.proofs, id, s.challenges[id].pending.value);
    FrameKeepsSessions(s, r);
  }

  lemma InstallOpens(s: State, f: Factor, id: ChallengeId, step: int)
    requires id in s.challenges && s.challenges[id].pending.Some? && s.challenges[id].open
    ensures var r := Install(s, f, id, step); var c := s.challenges[id];
      && r.challenges.Keys == s.challenges.Keys && r.history.grants == s.history.grants
      && r.challenges[id] == c.(expected := c.pending, action := Complete, pending := None, open := c.purpose == SignIn)
      && forall x :: x in s.challenges && x != id ==> r.challenges[x] == s.challenges[x].(open := false)
  {
  }

  lemma CompleteKeepsSessions(s: State, id: ChallengeId, caller: Option<SessionId>, given: Given, persistent: bool, conflict: bool)
    requires SessionsInv(s)
    ensures SessionsInv(CompleteSignIn(s, id, caller, given, persistent, conflict).0)
  {
    var r := CompleteSignIn(s, id, caller, given, persistent, conflict).0;
    if !FlowUsable(s, id, caller) || s.challenges[id].purpose != SignIn {
    } else if s.challenges[id].action == Verify {
      if StartVerification(s.factor.value, s.clock).Some? {
        var f := StartVerification(s.factor.value, s.clock).value;
        if given.RecoveryCodeId? || f.credential == None {
          FrameKeepsSessions(s, r);
        } else {
          VerifyAndGrantKeepsSessions(s, f, id, MatchingOf(given), persistent, conflict);
        }
      }
    } else if r != s {
      GrantKeepsSessions(s, id, persistent, conflict);
    }
  }

  lemma VerifyAndGrantKeepsSessions(s: State, f: Factor, id: ChallengeId, matching: set<int>, persistent: bool, conflict: bool)
    requires SessionsInv(s) && id in s.challenges && s.challenges[id].open && f.credential.Some?
    ensures SessionsInv(VerifyAndGrant(s, f, id, matching, persistent, conflict).0)
  {
    var r := VerifyAndGrant(s, f, id, matching, persistent, conflict).0;
    match AcceptedStep(Candidates(s.clock), f.last, matching)
    case None => FrameKeepsSessions(s, r);
    case Some(step) =>
      var a := AcceptedBy(s, f, id, step);
      FrameKeepsSessions(s, a);
      assert a.history.proofs[|s.history.proofs|] == Accepted(s.clock, id, f.credential.value, step);
      GrantKeepsSessions(a, id, persistent, conflict);
  }

  lemma ReauthenticateKeepsSessions(s: State, caller: SessionId, purpose: Purpose, given: Given)
    requires SessionsInv(s) && purpose != SignIn
    ensures SessionsInv(Reauthenticate(s, caller, purpose, given).0)
  {
    var r := Reauthenticate(s, caller, purpose, given).0;
    ReauthenticateEffect(s, caller, purpose, given);
    if r.next == s.next { FactorOnlyKeepsSessions(s, r); } else { FrameKeepsSessions(s, r); }
  }

  /** At most one management challenge is added, and no other is touched. */
  ghost predicate AddsAtMostOne(s: State, r: State, purpose: Purpose) {
    && r.history.grants == s.history.grants && r.history.replacements == s.history.replacements
    && Extends(s.history.proofs, r.history.proofs) && r.clock == s.clock
    && if r.next == s.next then r.challenges == s.challenges && r.codes == s.codes
       else && r.next == s.next + 1 && s.next in r.challenges && r.challenges == s.challenges[s.next := r.challenges[s.next]]
            && r.challenges[s.next].purpose == purpose && r.challenges[s.next].expires == s.clock + CHALLENGE_LIFETIME
  }

  lemma ReauthenticateEffect(s: State, caller: SessionId, purpose: Purpose, given: Given)
    requires purpose != SignIn
    ensures AddsAtMostOne(s, Reauthenticate(s, caller, purpose, given).0, purpose)
  {
    if s.factor.Some? && s.factor.value.credential.Some? && StartVerification(s.factor.value, s.clock).Some? {
      var f := StartVerification(s.factor.value, s.clock).value;
      if !given.RecoveryCodeId? {
        ByCodeEffect(s, f, caller, purpose, MatchingOf(given));
      } else if purpose == ReplaceAuthenticator {
        ByRecoveryEffect(s, f, caller, given.code);
      }
    }
  }

  lemma ByCodeEffect(s: State, f: Factor, caller: SessionId, purpose: Purpose, matching: set<int>)
    requires f.credential.Some?
    ensures AddsAtMostOne(s, ReauthenticateByCode(s, f, caller, purpose, matching).0, purpose)
    ensures ReauthenticateByCode(s, f, caller, purpose, matching).0.codes == s.codes
    ensures forall id :: id in ReauthenticateByCode(s, f, caller, purpose, matching).0.challenges && id !in s.challenges ==>
      ReauthenticateByCode(s, f, caller, purpose, matching).0.challenges[id].reserved == None
  {
  }

  lemma ByRecoveryEffect(s: State, f: Factor, caller: SessionId, code: CodeId)
    ensures AddsAtMostOne(s, ReauthenticateByRecovery(s, f, caller, code).0, ReplaceAuthenticator)
  {
  }

  // ---------------------------------------------------------------- recovery codes

  ghost predicate Replaced(replacements: seq<Replacement>, id: ChallengeId, credential: Credential, code: CodeId) {
    exists i :: 0 <= i < |replacements| && replacements[i] == Replacement(id, credential, Some(code))
  }

  ghost predicate Holds(s: State, id: ChallengeId) {
    id in s.challenges && s.challenges[id].reserved.Some? && s.challenges[id].expires > s.clock
  }

  /** An unexpired flow that holds a code is the one recorded on that code, for its own lifetime. */
  ghost predicate HoldersInv(s: State) {
    && (forall id :: id in s.challenges ==> id < s.next && (s.challenges[id].reserved.Some? ==> s.challenges[id].reserved.value < s.next))
    && (forall code :: code in s.codes ==> code < s.next)
    && (forall id :: Holds(s, id) && s.challenges[id].reserved.value in s.codes ==>
          && s.codes[s.challenges[id].reserved.value].reservedBy == Some(id)
          && s.codes[s.challenges[id].reserved.value].until == Some(s.challenges[id].expires))
    && (forall a, b :: Holds(s, a) && Holds(s, b) && s.challenges[a].reserved == s.challenges[b].reserved ==> a == b)
  }

  /** A flow that reserved a code must replace the authenticator before it can complete. */
  ghost predicate MustReplace(c: Challenge, id: ChallengeId, replacements: seq<Replacement>) {
    c.reserved.Some? && c.open ==>
      || c.action == Replace
      || (c.action == Complete && c.expected.Some? && Replaced(replacements, id, c.expected.value, c.reserved.value))
  }

  ghost predicate SpendingInv(s: State) {
    && (forall id :: id in s.challenges ==> MustReplace(s.challenges[id], id, s.history.replacements))
    && (forall i :: 0 <= i < |s.history.replacements| && s.history.replacements[i].code.Some? ==>
          s.history.replacements[i].code.value < s.next && s.history.replacements[i].code.value !in s.codes)
    && (forall i, j :: 0 <= i < j < |s.history.replacements| && s.history.replacements[i].code.Some? ==>
          s.history.replacements[i].code != s.history.replacements[j].code)
  }

  ghost predicate RecoveryInv(s: State) { HoldersInv(s) && SpendingInv(s) }

  /** Flows only close, or are new without a code; codes keep their holders or are all new. */
  ghost predicate LeavesHolders(s: State, r: State) {
    && s.clock <= r.clock && s.next <= r.next
    && (r.codes == s.codes || forall code :: code in r.codes ==> s.next <= code < r.next)
    && (forall id :: id in r.challenges ==> id < r.next)
    && (forall id :: id in r.challenges && r.challenges[id].reserved.Some? ==>
          && id in s.challenges && r.challenges[id].reserved == s.challenges[id].reserved
          && r.challenges[id].expires == s.challenges[id].expires)
  }

  lemma FrameKeepsHolders(s: State, r: State)
    requires HoldersInv(s) && LeavesHolders(s, r)
    ensures HoldersInv(r)
  {
    forall id | Holds(r, id) ensures Holds(s, id) && r.challenges[id].reserved == s.challenges[id].reserved { }
  }

  ghost predicate LeavesSpending(s: State, r: State) {
    && r.history.replacements == s.history.replacements && s.next <= r.next
    && (r.codes == s.codes || r.codes.Keys == s.codes.Keys || forall code :: code in r.codes ==> s.next <= code)
    && (forall id :: id in r.challenges && r.challenges[id].reserved.Some? && r.challenges[id].open && r.challenges[id].action != Replace ==>
          && id in s.challenges && s.challenges[id].open && r.challenges[id].reserved == s.challenges[id].reserved
          && r.challenges[id].action == s.challenges[id].action && r.challenges[id].expected == s.challenges[id].expected)
  }

  lemma FrameKeepsSpending(s: State, r: State)
    requires SpendingInv(s) && LeavesSpending(s, r)
    ensures SpendingInv(r)
  {
    forall id | id in r.challenges ensures MustReplace(r.challenges[id], id, r.history.replacements) {
      if r.challenges[id].reserved.Some? && r.challenges[id].open && r.challenges[id].action != Replace {
        assert MustReplace(s.challenges[id], id, s.history.replacements);
      }
    }
  }

  lemma ReserveKeepsRecovery(s: State, f: Factor, id: ChallengeId, code: CodeId)
    requires RecoveryInv(s) && id in s.challenges && Reservable(s, code)
    ensures RecoveryInv(Reserve(s, f, id, code).0)
  {
    var r := Reserve(s, f, id, code).0;
    assert r.codes.Keys == s.codes.Keys;
    FrameKeepsSpending(s, r);
    ReserveKeepsHolders(s, f, id, code);
  }

  lemma ReserveKeepsHolders(s: State, f: Factor, id: ChallengeId, code: CodeId)
    requires HoldersInv(s) && id in s.challenges && Reservable(s, code)
    ensures HoldersInv(Reserve(s, f, id, code).0)
  {
    var r := Reserve(s, f, id, code).0;
    forall x | Holds(r, x) && x != id ensures Holds(s, x) && r.challenges[x] == s.challenges[x] && s.challenges[x].reserved != Some(code) { }
  }

  lemma InstallKeepsRecovery(s: State, f: Factor, id: ChallengeId, step: int)
    requires RecoveryInv(s) && id in s.challenges && s.challenges[id].pending.Some? && s.challenges[id].open
    requires s.challenges[id].reserved.Some? ==> Payable(s, id, s.challenges[id].reserved.value)
    ensures RecoveryInv(Install(s, f, id, step))
  {
    var r := Install(s, f, id, step);
    InstallOpens(s, f, id, step);
    InstallSpends(s, f, id, step);
    FrameKeepsHolders(s, r);
    ReplacementKeepsSpending(s, r, id);
  }

  lemma ReplacementKeepsSpending(s: State, r: State, id: ChallengeId)
    requires SpendingInv(s) && id in s.challenges && s.challenges[id].pending.Some? && s.next <= r.next
    requires forall code :: code in s.codes ==> code < s.next
    requires s.challenges[id].reserved.Some? ==> s.challenges[id].reserved.value in s.codes
    requires forall code :: code in r.codes ==> s.next <= code
    requires r.history.replacements == s.history.replacements + [Replacement(id, s.challenges[id].pending.value, s.challenges[id].reserved)]
    requires r.challenges.Keys == s.challenges.Keys && r.challenges[id].action == Complete
    requires r.challenges[id].expected == s.challenges[id].pending && r.challenges[id].reserved == s.challenges[id].reserved
    requires forall x :: x in s.challenges && x != id ==> !r.challenges[x].open
    ensures SpendingInv(r)
  {
    var before, after := s.history.replacements, r.history.replacements;
    assert forall i :: 0 <= i < |before| ==> after[i] == before[i];
    assert after[|before|] == Replacement(id, s.challenges[id].pending.value, s.challenges[id].reserved);
    assert MustReplace(r.challenges[id], id, after);
  }

  lemma InstallSpends(s: State, f: Factor, id: ChallengeId, step: int)
    requires id in s.challenges && s.challenges[id].pending.Some?
    ensures var r := Install(s, f, id, step);
      && s.next <= r.next && r.clock == s.clock
      && (forall code :: code in r.codes ==> s.next <= code < r.next)
      && r.history.replacements == s.history.replacements + [Replacement(id, s.challenges[id].pending.value, s.challenges[id].reserved)]
  {
  }

  lemma MildKeepsRecovery(s: State, r: State)
    requires RecoveryInv(s) && Mild(s, r)
    ensures RecoveryInv(r)
  {
    FrameKeepsHolders(s, r);
    FrameKeepsSpending(s, r);
  }

  lemma {:induction false} StepKeepsRecovery(s: State, e: Event)
    requires RecoveryInv(s)
    ensures RecoveryInv(Step(s, e))
  {
    match e
    case ConfirmRequest(id, caller, matching) => ConfirmKeepsRecovery(s, id, caller, matching);
    case CompleteRequest(id, caller, given, persistent, conflict) => CompleteKeepsRecovery(s, id, caller, given, persistent, conflict);
    case ReauthenticateRequest(session, purpose, given) =>
      if purpose != SignIn { ReauthenticateKeepsRecovery(s, session, purpose, given); }
    case _ =>
      OthersAreMild(s, e);
      MildKeepsRecovery(s, Step(s, e));
  }

  /** Factor and session rows, rejected and accepted proofs do not matter to recovery codes. */
  lemma FactorOnlyKeepsRecovery(s: State, r: State)
    requires RecoveryInv(s) && r.clock == s.clock && r.next == s.next && r.challenges == s.challenges && r.codes == s.codes
    requires r.history.replacements == s.history.replacements
    ensures RecoveryInv(r)
  {
    forall id | Holds(r, id) ensures Holds(s, id) { }
  }

  lemma ConfirmKeepsRecovery(s: State, id: ChallengeId, caller: Option<SessionId>, matching: set<int>)
    requires RecoveryInv(s)
    ensures RecoveryInv(Confirm(s, id, caller, matching).0)
  {
    ConfirmInstalls(s, id, caller, matching);
    var (r, reply) := Confirm(s, id, caller, matching);
    if reply.NewCodes? {
      InstallKeepsRecovery(s, StartVerification(s.factor.value, s.clock).value, id, AcceptedStep(Candidates(s.clock), None, matching).value);
    } else {
      FactorOnlyKeepsRecovery(s, r);
    }
  }

  /** A confirmation either installs the candidate, paying with the reserved code, or changes only factor and proofs. */
  lemma ConfirmInstalls(s: State, id: ChallengeId, caller: Option<SessionId>, matching: set<int>)
    ensures var (r, reply) := Confirm(s, id, caller, matching);
      if reply.NewCodes? then
        && FlowUsable(s, id, caller) && s.challenges[id].pending.Some?
        && (s.challenges[id].reserved.Some? ==> Payable(s, id, s.challenges[id].reserved.value))
        && StartVerification(s.factor.value, s.clock).Some? && AcceptedStep(Candidates(s.clock), None, matching).Some?
        && r == Install(s, StartVerification(s.factor.value, s.clock).value, id, AcceptedStep(Candidates(s.clock), None, matching).value)
      else
        && r.clock == s.clock && r.next == s.next && r.challenges == s.challenges && r.codes == s.codes
        && r.history.replacements == s.history.replacements
  {
  }

  lemma GrantLeavesCodes(s: State, id: ChallengeId, persistent: bool, conflict: bool)
    requires HoldersInv(s) && id in s.challenges && s.factor.Some? && s.factor.value.credential.Some?
    ensures LeavesHolders(s, GrantSession(s, id, persistent, conflict).0) && LeavesSpending(s, GrantSession(s, id, persistent, conflict).0)
  {
  }

  lemma CompleteKeepsRecovery(s: State, id: ChallengeId, caller: Option<SessionId>, given: Given, persistent: bool, conflict: bool)
    requires RecoveryInv(s)
    ensures RecoveryInv(CompleteSignIn(s, id, caller, given, persistent, conflict).0)
  {
    var r := CompleteSignIn(s, id, caller, given, persistent, conflict).0;
    if !FlowUsable(s, id, caller) || s.challenges[id].purpose != SignIn {
    } else if s.challenges[id].action == Verify {
      if StartVerification(s.factor.value, s.clock).Some? {
        VerifyKeepsRecovery(s, StartVerification(s.factor.value, s.clock).value, id, given, persistent, conflict);
      }
    } else if r != s {
      GrantLeavesCodes(s, id, persistent, conflict);
      FrameKeepsHolders(s, r);
      FrameKeepsSpending(s, r);
    }
  }

  lemma VerifyKeepsRecovery(s: State, f: Factor, id: ChallengeId, given: Given, persistent: bool, conflict: bool)
    requires RecoveryInv(s) && id in s.challenges
    ensures if given.RecoveryCodeId? then RecoveryInv(Reserve(s, f, id, given.code).0)
            else if f.credential == None then RecoveryInv(Saved(s, f))
            else RecoveryInv(VerifyAndGrant(s, f, id, MatchingOf(given), persistent, conflict).0)
  {
    if given.RecoveryCodeId? {
      if Reservable(s, given.code) { ReserveKeepsRecovery(s, f, id, given.code); } else { FailedKeepsRecovery(s, f); }
    } else if f.credential == None {
      FactorOnlyKeepsRecovery(s, Saved(s, f));
    } else {
      match AcceptedStep(Candidates(s.clock), f.last, MatchingOf(given))
      case None => FailedKeepsRecovery(s, f);
      case Some(step) =>
        var a := AcceptedBy(s, f, id, step);
        FactorOnlyKeepsRecovery(s, a);
        GrantLeavesCodes(a, id, persistent, conflict);
        FrameKeepsHolders(a, GrantSession(a, id, persistent, conflict).0);
        FrameKeepsSpending(a, GrantSession(a, id, persistent, conflict).0);
    }
  }

  lemma FailedKeepsRecovery(s: State, f: Factor)
    requires RecoveryInv(s)
    ensures RecoveryInv(Failed(s, f))
  {
    FactorOnlyKeepsRecovery(s, Failed(s, f));
  }

  lemma BeginKeepsRecovery(s: State, purpose: Purpose, management: Option<SessionId>)
    requires RecoveryInv(s)
    ensures RecoveryInv(Begin(s, purpose, management, None, NoGoogle))
  {
    FrameKeepsHolders(s, Begin(s, purpose, management, None, NoGoogle));
    FrameKeepsSpending(s, Begin(s, purpose, management, None, NoGoogle));
  }

  lemma ReauthenticateKeepsRecovery(s: State, caller: SessionId, purpose: Purpose, given: Given)
    requires RecoveryInv(s) && purpose != SignIn
    ensures RecoveryInv(Reauthenticate(s, caller, purpose, given).0)
  {
    if s.factor.Some? && s.factor.value.credential.Some? && StartVerification(s.factor.value, s.clock).Some? {
      var f := StartVerification(s.factor.value, s.clock).value;
      if !given.RecoveryCodeId? {
        ByCodeKeepsRecovery(s, f, caller, purpose, MatchingOf(given));
      } else if purpose == ReplaceAuthenticator {
        ByRecoveryKeepsRecovery(s, f, caller, given.code);
      }
    }
  }

  lemma ByCodeKeepsRecovery(s: State, f: Factor, caller: SessionId, purpose: Purpose, matching: set<int>)
    requires RecoveryInv(s) && f.credential.Some?
    ensures RecoveryInv(ReauthenticateByCode(s, f, caller, purpose, matching).0)
  {
    match AcceptedStep(Candidates(s.clock), f.last, matching)
    case None => FailedKeepsRecovery(s, f);
    case Some(step) =>
      var a := AcceptedBy(s, f, s.next, step);
      FactorOnlyKeepsRecovery(s, a);
      BeginKeepsRecovery(a, purpose, Some(caller));
      FactorOnlyKeepsRecovery(Begin(a, purpose, Some(caller), None, NoGoogle), ReauthenticateByCode(s, f, caller, purpose, matching).0);
  }

  lemma ByRecoveryKeepsRecovery(s: State, f: Factor, caller: SessionId, code: CodeId)
    requires RecoveryInv(s)
    ensures RecoveryInv(ReauthenticateByRecovery(s, f, caller, code).0)
  {
    FactorOnlyKeepsRecovery(s, Saved(s, f));
    var began := Begin(Saved(s, f), ReplaceAuthenticator, Some(caller), None, NoGoogle);
    BeginKeepsRecovery(Saved(s, f), ReplaceAuthenticator, Some(caller));
    if Reservable(began, code) { ReserveKeepsRecovery(began, f, s.next, code); } else { FailedKeepsRecovery(began, f); }
    FactorOnlyKeepsRecovery(Reserve(began, f, s.next, code).0, ReauthenticateByRecovery(s, f, caller, code).0);
  }

  // ---------------------------------------------------------------- sessions belong to the current authenticator

  ghost predicate BoundInv(s: State) {
    forall id :: id in s.sessions && !s.sessions[id].revoked && s.sessions[id].credential.Some? ==>
      s.sessions[id].credential == Current(s)
  }

  ghost predicate KeepsSessions(s: State, r: State) {
    && Current(r) == Current(s)
    && forall id :: id in r.sessions && !r.sessions[id].revoked && r.sessions[id].credential.Some? ==>
         r.sessions[id].credential == Current(s) || (id in s.sessions && !s.sessions[id].revoked && r.sessions[id].credential == s.sessions[id].credential)
  }

  lemma {:induction false} StepKeepsBound(s: State, e: Event)
    requires BoundInv(s)
    ensures BoundInv(Step(s, e))
  {
    match e
    case ConfirmRequest(id, caller, matching) =>
      if !Confirm(s, id, caller, matching).1.NewCodes? { ConfirmRefusalLeavesSessions(s, id, caller, matching); }
    case CompleteRequest(id, caller, given, persistent, conflict) =>
      CompletionLeavesSessions(s, id, caller, given, persistent, conflict);
    case ReauthenticateRequest(session, purpose, given) =>
      if purpose != SignIn { ReauthenticationLeavesSessions(s, session, purpose, given); }
    case _ => OthersLeaveSessions(s, e);
  }

  lemma ConfirmRefusalLeavesSessions(s: State, id: ChallengeId, caller: Option<SessionId>, matching: set<int>)
    requires !Confirm(s, id, caller, matching).1.NewCodes?
    ensures KeepsSessions(s, Confirm(s, id, caller, matching).0)
  {
  }

  lemma CompletionLeavesSessions(s: State, id: ChallengeId, caller: Option<SessionId>, given: Given, persistent: bool, conflict: bool)
    ensures KeepsSessions(s, CompleteSignIn(s, id, caller, given, persistent, conflict).0)
  {
    var r := CompleteSignIn(s, id, caller, given, persistent, conflict).0;
    if r != s {
      if s.challenges[id].action == Verify {
        var f := StartVerification(s.factor.value, s.clock).value;
        if !given.RecoveryCodeId? && f.credential.Some? {
          VerificationLeavesSessions(s, f, id, MatchingOf(given), persistent, conflict);
        }
      } else {
        GrantLeavesSessions(s, id, persistent, conflict);
      }
    }
  }

  lemma VerificationLeavesSessions(s: State, f: Factor, id: ChallengeId, matching: set<int>, persistent: bool, conflict: bool)
    requires id in s.challenges && f.credential.Some? && Current(s) == f.credential
    ensures KeepsSessions(s, VerifyAndGrant(s, f, id, matching, persistent, conflict).0)
  {
    match AcceptedStep(Candidates(s.clock), f.last, matching)
    case None =>
    case Some(step) => GrantLeavesSessions(AcceptedBy(s, f, id, step), id, persistent, conflict);
  }

  lemma GrantLeavesSessions(s: State, id: ChallengeId, persistent: bool, conflict: bool)
    requires id in s.challenges && s.factor.Some? && s.factor.value.credential.Some?
    ensures KeepsSessions(s, GrantSession(s, id, persistent, conflict).0)
  {
  }

  lemma ReauthenticationLeavesSessions(s: State, caller: SessionId, purpose: Purpose, given: Given)
    requires purpose != SignIn
    ensures KeepsSessions(s, Reauthenticate(s, caller, purpose, given).0)
  {
    if s.factor.Some? && s.factor.value.credential.Some? && StartVerification(s.factor.value, s.clock).Some? {
      var f := StartVerification(s.factor.value, s.clock).value;
      if !given.RecoveryCodeId? {
        ByCodeLeavesSessions(s, f, caller, purpose, MatchingOf(given));
      } else {
        ByRecoveryLeavesSessions(s, f, caller, given.code);
      }
    }
  }

  lemma ByCodeLeavesSessions(s: State, f: Factor, caller: SessionId, purpose: Purpose, matching: set<int>)
    requires f.credential.Some?
    ensures var r := ReauthenticateByCode(s, f, caller, purpose, matching).0; r.sessions == s.sessions && Current(r) == f.credential
  {
  }

  lemma ByRecoveryLeavesSessions(s: State, f: Factor, caller: SessionId, code: CodeId)
    ensures var r := ReauthenticateByRecovery(s, f, caller, code).0; r.sessions == s.sessions && Current(r) == f.credential
  {
  }

  lemma OthersLeaveSessions(s: State, e: Event)
    requires !Verifies(e)
    ensures KeepsSessions(s, Step(s, e))
  {
  }

  // ---------------------------------------------------------------- the one-minute window

  /** The proofs from this time on. */
  function Since(proofs: seq<Proof>, from: int): nat {
    if proofs == [] then 0
    else Since(proofs[..|proofs| - 1], from) + if proofs[|proofs| - 1].at >= from then 1 else 0
  }

  lemma {:induction false} NoneSince(proofs: seq<Proof>, from: int)
    requires forall i :: 0 <= i < |proofs| ==> proofs[i].at < from
    ensures Since(proofs, from) == 0
  {
    if proofs != [] { NoneSince(proofs[..|proofs| - 1], from); }
  }

  function Window(s: State): Option<int> { if s.factor.Some? then s.factor.value.window else None }

  function Counter(s: State): nat { if s.factor.Some? then s.factor.value.count else 0 }

  /** The counter covers every proof of the window it counts, and no proof is later than that window. */
  ghost predicate WindowInv(s: State) {
    && Counter(s) <= WINDOW_ATTEMPTS
    && match Window(s)
       case None => s.history.proofs == []
       case Some(w) =>
         && w <= s.clock && Since(s.history.proofs, w) <= Counter(s)
         && forall i :: 0 <= i < |s.history.proofs| ==> s.history.proofs[i].at < w + MINUTE
  }

  /** At most one proof, at this moment, and counted. */
  ghost predicate Attempted(s: State, r: State) {
    && s.factor.Some? && StartVerification(s.factor.value, s.clock).Some? && r.clock == s.clock
    && Window(r) == StartVerification(s.factor.value, s.clock).value.window
    && Counter(r) == StartVerification(s.factor.value, s.clock).value.count
    && (r.history.proofs == s.history.proofs || exists p: Proof :: p.at == s.clock && r.history.proofs == s.history.proofs + [p])
  }

  ghost predicate NoAttempt(s: State, r: State) {
    s.clock <= r.clock && Window(r) == Window(s) && Counter(r) == Counter(s) && r.history.proofs == s.history.proofs
  }

  lemma AttemptKeepsWindow(s: State, r: State)
    requires WindowInv(s) && Attempted(s, r)
    ensures WindowInv(r)
  {
    var f := StartVerification(s.factor.value, s.clock).value;
    if f.window != s.factor.value.window { NoneSince(s.history.proofs, s.clock); }
    if r.history.proofs != s.history.proofs {
      var p: Proof :| p.at == s.clock && r.history.proofs == s.history.proofs + [p];
      assert r.history.proofs[..|r.history.proofs| - 1] == s.history.proofs;
    }
  }

  lemma {:induction false} StepKeepsWindow(s: State, e: Event)
    requires WindowInv(s)
    ensures WindowInv(Step(s, e))
  {
    match e
    case ConfirmRequest(id, caller, matching) => ConfirmIsCounted(s, id, caller, matching);
    case CompleteRequest(id, caller, given, persistent, conflict) => CompletionIsCounted(s, id, caller, given, persistent, conflict);
    case ReauthenticateRequest(session, purpose, given) =>
      if purpose != SignIn { ReauthenticationIsCounted(s, session, purpose, given); }
    case _ => OthersAttemptNothing(s, e);
  }

  lemma OthersAttemptNothing(s: State, e: Event)
    requires !Verifies(e)
    ensures NoAttempt(s, Step(s, e))
  {
  }

  lemma ConfirmIsCounted(s: State, id: ChallengeId, caller: Option<SessionId>, matching: set<int>)
    requires WindowInv(s)
    ensures WindowInv(Confirm(s, id, caller, matching).0)
  {
    var (r, reply) := Confirm(s, id, caller, matching);
    ConfirmInstalls(s, id, caller, matching);
    if reply.NewCodes? {
      var f := StartVerification(s.factor.value, s.clock).value;
      InstallIsCounted(s, f, id, AcceptedStep(Candidates(s.clock), None, matching).value);
      AttemptKeepsWindow(s, r);
    } else if r != s {
      ConfirmRefusalIsCounted(s, id, caller, matching);
      AttemptKeepsWindow(s, r);
    }
  }

  lemma ConfirmRefusalIsCounted(s: State, id: ChallengeId, caller: Option<SessionId>, matching: set<int>)
    requires !Confirm(s, id, caller, matching).1.NewCodes? && Confirm(s, id, caller, matching).0 != s
    ensures Attempted(s, Confirm(s, id, caller, matching).0)
  {
  }

  lemma InstallIsCounted(s: State, f: Factor, id: ChallengeId, step: int)
    requires s.factor.Some? && StartVerification(s.factor.value, s.clock) == Some(f) && id in s.challenges && s.challenges[id].pending.Some?
    ensures Attempted(s, Install(s, f, id, step))
  {
  }

  lemma CompletionIsCounted(s: State, id: ChallengeId, caller: Option<SessionId>, given: Given, persistent: bool, conflict: bool)
    requires WindowInv(s)
    ensures WindowInv(CompleteSignIn(s, id, caller, given, persistent, conflict).0)
  {
    var r := CompleteSignIn(s, id, caller, given, persistent, conflict).0;
    if r != s {
      if s.challenges[id].action == Verify {
        VerificationIsCounted(s, StartVerification(s.factor.value, s.clock).value, id, given, persistent, conflict);
        AttemptKeepsWindow(s, r);
      } else {
        GrantLeavesProofs(s, id, persistent, conflict);
      }
    }
  }

  lemma VerificationIsCounted(s: State, f: Factor, id: ChallengeId, given: Given, persistent: bool, conflict: bool)
    requires s.factor.Some? && StartVerification(s.factor.value, s.clock) == Some(f) && id in s.challenges
    ensures if given.RecoveryCodeId? then Attempted(s, Reserve(s, f, id, given.code).0)
            else if f.credential == None then Attempted(s, Saved(s, f))
            else Attempted(s, VerifyAndGrant(s, f, id, MatchingOf(given), persistent, conflict).0)
  {
    if !given.RecoveryCodeId? && f.credential.Some? {
      match AcceptedStep(Candidates(s.clock), f.last, MatchingOf(given))
      case None =>
      case Some(step) => GrantLeavesProofs(AcceptedBy(s, f, id, step), id, persistent, conflict);
    }
  }

  lemma ReauthenticationIsCounted(s: State, caller: SessionId, purpose: Purpose, given: Given)
    requires WindowInv(s) && purpose != SignIn
    ensures WindowInv(Reauthenticate(s, caller, purpose, given).0)
  {
    var r := Reauthenticate(s, caller, purpose, given).0;
    if s.factor.Some? && s.factor.value.credential.Some? && StartVerification(s.factor.value, s.clock).Some? {
      var f := StartVerification(s.factor.value, s.clock).value;
      if !given.RecoveryCodeId? {
        ByCodeIsCounted(s, f, caller, purpose, MatchingOf(given));
        AttemptKeepsWindow(s, r);
      } else if purpose == ReplaceAuthenticator {
        ByRecoveryIsCounted(s, f, caller, given.code);
        AttemptKeepsWindow(s, r);
      }
    }
  }

  lemma ByCodeIsCounted(s: State, f: Factor, caller: SessionId, purpose: Purpose, matching: set<int>)
    requires s.factor.Some? && StartVerification(s.factor.value, s.clock) == Some(f) && f.credential.Some?
    ensures Attempted(s, ReauthenticateByCode(s, f, caller, purpose, matching).0)
  {
  }

  lemma ByRecoveryIsCounted(s: State, f: Factor, caller: SessionId, code: CodeId)
    requires s.factor.Some? && StartVerification(s.factor.value, s.clock) == Some(f)
    ensures Attempted(s, ReauthenticateByRecovery(s, f, caller, code).0)
  {
  }

  // ---------------------------------------------------------------- every run

  ghost predicate AccountInv(s: State) {
    LockoutInv(s) && WindowInv(s) && CandidatesInv(s) && ReplayInv(s) && SessionsInv(s) && RecoveryInv(s) && BoundInv(s)
  }

  lemma {:induction false} EveryRunKeepsAccount(es: seq<Event>)
    ensures AccountInv(Run(es))
  {
    if es != [] {
      var s, e := Run(es[..|es| - 1]), es[|es| - 1];
      EveryRunKeepsAccount(es[..|es| - 1]);
      StepKeepsAccount(s, e);
    }
  }

  lemma StepKeepsAccount(s: State, e: Event)
    requires AccountInv(s)
    ensures AccountInv(Step(s, e))
  {
    StepKeepsLockout(s, e);
    StepKeepsWindow(s, e);
    StepKeepsReplay(s, e);
    StepKeepsSessions(s, e);
    StepKeepsRecovery(s, e);
    StepKeepsBound(s, e);
  }

  /** One session at most comes out of a flow, and only after a code for that very
      credential was accepted in that flow. */
  lemma OneProvedSessionPerFlow(es: seq<Event>)
    ensures var h := Run(es).history;
      && (forall i, j :: 0 <= i < j < |h.grants| ==> h.grants[i].challenge != h.grants[j].challenge)
      && (forall i :: 0 <= i < |h.grants| ==> Proved(h.proofs, h.grants[i].challenge, h.grants[i].credential))
  {
    EveryRunKeepsAccount(es);
  }

  /** A session the completion returns belongs to the credential in force, and a flow that
      reserved a recovery code gets one only after it replaced the authenticator with that code. */
  lemma CompletionIsEarned(es: seq<Event>, id: ChallengeId, caller: Option<SessionId>, given: Given, persistent: bool, conflict: bool)
    requires CompleteSignIn(Run(es), id, caller, given, persistent, conflict).1.SignedIn?
    ensures var s := Run(es); var (r, reply) := CompleteSignIn(s, id, caller, given, persistent, conflict);
      && Current(r) == Current(s) && Current(s).Some?
      && reply.session in r.sessions && r.sessions[reply.session].credential == Current(s)
      && Proved(r.history.proofs, id, Current(s).value)
      && (s.challenges[id].reserved.Some? ==>
            Replaced(s.history.replacements, id, Current(s).value, s.challenges[id].reserved.value))
  {
    EveryRunKeepsAccount(es);
    var s := Run(es);
    SignedInIsEarned(s, id, caller, given, persistent, conflict);
  }

  lemma SignedInIsEarned(s: State, id: ChallengeId, caller: Option<SessionId>, given: Given, persistent: bool, conflict: bool)
    requires SessionsInv(s) && SpendingInv(s)
    requires CompleteSignIn(s, id, caller, given, persistent, conflict).1.SignedIn?
    ensures var (r, reply) := CompleteSignIn(s, id, caller, given, persistent, conflict);
      && Current(r) == Current(s) && Current(s).Some?
      && reply.session in r.sessions && r.sessions[reply.session].credential == Current(s)
      && Proved(r.history.proofs, id, Current(s).value)
      && (s.challenges[id].reserved.Some? ==>
            Replaced(s.history.replacements, id, Current(s).value, s.challenges[id].reserved.value))
  {
    assert MustReplace(s.challenges[id], id, s.history.replacements);
    if s.challenges[id].action == Verify {
      var f := StartVerification(s.factor.value, s.clock).value;
      var step := AcceptedStep(Candidates(s.clock), f.last, MatchingOf(given)).value;
      var a := AcceptedBy(s, f, id, step);
      assert a.history.proofs[|s.history.proofs|] == Accepted(s.clock, id, f.credential.value, step);
      GrantEffect(a, id, persistent, conflict);
    } else {
      GrantEffect(s, id, persistent, conflict);
    }
  }

  /** An authenticator replacement ends every other session and flow, and an unrevoked
      second-factor session always belongs to the credential in force. */
  lemma NoSessionOutlivesItsAuthenticator(es: seq<Event>, id: SessionId)
    requires id in Run(es).sessions && !Run(es).sessions[id].revoked && Run(es).sessions[id].credential.Some?
    ensures Run(es).sessions[id].credential == Current(Run(es))
  {
    EveryRunKeepsAccount(es);
  }

  /** No two unexpired flows hold the same recovery code, and one code pays for one replacement. */
  lemma RecoveryCodesPayOnce(es: seq<Event>)
    ensures var s := Run(es);
      && (forall a, b :: Holds(s, a) && Holds(s, b) && s.challenges[a].reserved == s.challenges[b].reserved ==> a == b)
      && (forall i, j :: 0 <= i < j < |s.history.replacements| && s.history.replacements[i].code.Some? ==>
            s.history.replacements[i].code != s.history.replacements[j].code)
  {
    EveryRunKeepsAccount(es);
  }

  /** Section 5.2 of RFC 6238: an accepted time step is never accepted again for the same credential. */
  lemma NoCodeIsReplayed(es: seq<Event>, i: nat, j: nat)
    requires i < j < |Run(es).history.proofs|
    requires Run(es).history.proofs[i].Accepted? && Run(es).history.proofs[j].Accepted?
    requires Run(es).history.proofs[i].credential == Run(es).history.proofs[j].credential
    ensures Run(es).history.proofs[i].step < Run(es).history.proofs[j].step
  {
    EveryRunKeepsAccount(es);
  }

  /** Across completion, setup and reauthentication, a run of rejections shorter than a
      lockout has at most five of them. */
  lemma AtMostFiveRejectionsPerLockout(es: seq<Event>, i: nat, j: nat)
    requires i <= j < |Run(es).history.proofs| && AllRejected(Run(es).history.proofs, i, j)
    requires Run(es).history.proofs[j].at < Run(es).history.proofs[i].at + LOCKOUT
    ensures j - i + 1 <= MAXIMUM_FAILURES
    ensures Run(es).factor.Some? ==> Run(es).factor.value.failed < MAXIMUM_FAILURES && Run(es).factor.value.count <= WINDOW_ATTEMPTS
  {
    EveryRunKeepsAccount(es);
  }

  /** A one-minute verification window sees at most ten proofs, whatever operation they came through. */
  lemma AtMostTenProofsPerWindow(es: seq<Event>)
    requires Window(Run(es)).Some?
    ensures var s := Run(es);
      && Since(s.history.proofs, Window(s).value) <= WINDOW_ATTEMPTS
      && forall i :: 0 <= i < |s.history.proofs| ==> s.history.proofs[i].at < Window(s).value + MINUTE
  {
    EveryRunKeepsAccount(es);
  }
}
