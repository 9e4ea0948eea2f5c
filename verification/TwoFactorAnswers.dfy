/** What the second factor answers: the paths that lead to a session, when verification is locked, and what new
    recovery codes and revocations leave behind. */
module TwoFactorAnswers {
  import opened Common
  import opened TwoFactor

  // ---------------------------------------------------------------- the lock

  /** Every fifth rejection in a row locks for fifteen minutes. */
  predicate Locked(proofs: seq<Proof>, now: int) {
    var rejected := Trailing(proofs);
    rejected > 0 && rejected % 5 == 0 && rejected <= |proofs| && now < proofs[|proofs| - 1].at + 15 * 60
  }

  /** The stored failures and lock are what the proofs say. */
  predicate LockFollows(f: Factor, proofs: seq<Proof>) {
    var rejected := Trailing(proofs);
    && f.failed == rejected % 5 && rejected <= |proofs|
    && f.locked == if rejected > 0 && rejected % 5 == 0 then Some(proofs[|proofs| - 1].at + 15 * 60) else None
  }

  predicate LockInv(s: State) {
    match s.factor
    case None => s.history.proofs == []
    case Some(f) => LockFollows(f, s.history.proofs)
  }

  /** One proof more, or none and the same failures and lock. */
  predicate LockMoves(s: State, r: State) {
    if r.history.proofs == s.history.proofs then SameLock(s, r)
    else
      && s.factor.Some? && r.factor.Some? && |r.history.proofs| == |s.history.proofs| + 1
      && r.history.proofs[..|s.history.proofs|] == s.history.proofs && ProofMoves(s, r, r.history.proofs[|s.history.proofs|])
  }

  predicate SameLock(s: State, r: State) {
    if s.factor == None then r.factor == None || (r.factor.value.failed == 0 && r.factor.value.locked == None)
    else r.factor.Some? && r.factor.value.failed == s.factor.value.failed && r.factor.value.locked == s.factor.value.locked
  }

  predicate ProofMoves(s: State, r: State, p: Proof)
    requires s.factor.Some? && r.factor.Some?
  {
    if p.Accepted? then r.factor.value.failed == 0 && r.factor.value.locked == None
    else
      && r.factor.value.failed == (s.factor.value.failed + 1) % 5
      && r.factor.value.locked == if s.factor.value.failed + 1 == 5 then Some(p.at + 15 * 60) else None
  }

  lemma MovesKeepLock(s: State, r: State)
    requires LockInv(s) && LockMoves(s, r)
    ensures LockInv(r)
  {
    var before, after := s.history.proofs, r.history.proofs;
    if |after| == |before| + 1 {
      assert after[..|after| - 1] == before;
    }
  }

  lemma StepMovesLock(s: State, e: Event)
    requires LockInv(s)
    ensures LockMoves(s, Step(s, e))
  {
    match e
    case ConfirmRequest(id, caller, matching) => ConfirmMovesLock(s, id, caller, matching);
    case CompleteRequest(id, caller, given, persistent, conflict) => CompleteMovesLock(s, id, caller, given, persistent, conflict);
    case ReauthenticateRequest(session, purpose, given) => if purpose != SignIn { ReauthenticateMovesLock(s, session, purpose, given); }
    case _ =>
  }

  lemma FailingMovesLock(s: State, f: Factor, r: State)
    requires s.factor.Some? && s.factor.value.failed < 5 && StartVerification(s.factor.value, s.clock) == Some(f)
    requires r.factor == Failed(s, f).factor && r.history.proofs == s.history.proofs + [Rejected(s.clock)]
    ensures LockMoves(s, r)
  {
  }

  lemma AcceptingMovesLock(s: State, r: State, p: Proof)
    requires s.factor.Some? && p.Accepted? && r.history.proofs == s.history.proofs + [p]
    requires r.factor.Some? && r.factor.value.failed == 0 && r.factor.value.locked == None
    ensures LockMoves(s, r)
  {
  }

  lemma ConfirmMovesLock(s: State, id: ChallengeId, caller: Option<SessionId>, matching: set<int>)
    requires LockInv(s)
    ensures LockMoves(s, Confirm(s, id, caller, matching).0)
  {
    var (r, reply) := Confirm(s, id, caller, matching);
    if reply.NewCodes? {
      InstallMovesLock(s, StartVerification(s.factor.value, s.clock).value, id, AcceptedStep(Candidates(s.clock), None, matching).value);
    } else if reply == Refused(CodeInvalid) {
      FailingMovesLock(s, StartVerification(s.factor.value, s.clock).value, r);
    }
  }

  lemma InstallMovesLock(s: State, f: Factor, id: ChallengeId, step: int)
    requires s.factor.Some? && id in s.challenges && s.challenges[id].pending.Some?
    ensures LockMoves(s, Install(s, f, id, step))
  {
    AcceptingMovesLock(s, Install(s, f, id, step), Accepted(s.clock, id, s.challenges[id].pending.value, step));
  }

  lemma CompleteMovesLock(s: State, id: ChallengeId, caller: Option<SessionId>, given: Given, persistent: bool, conflict: bool)
    requires LockInv(s)
    ensures LockMoves(s, CompleteSignIn(s, id, caller, given, persistent, conflict).0)
  {
    var r := CompleteSignIn(s, id, caller, given, persistent, conflict).0;
    if r != s && s.challenges[id].action == Verify {
      var f := StartVerification(s.factor.value, s.clock).value;
      if given.RecoveryCodeId? {
        ReserveMovesLock(s, s, f, id, given.code);
      } else if f.credential.Some? {
        VerifyMovesLock(s, f, id, MatchingOf(given), persistent, conflict);
      }
    }
  }

  /** A reservation leaves the lock as it was; a rejected code is a failure. The flow may just have begun. */
  lemma ReserveMovesLock(before: State, s: State, f: Factor, id: ChallengeId, code: CodeId)
    requires LockInv(before) && before.factor.Some? && StartVerification(before.factor.value, before.clock) == Some(f)
    requires s.history.proofs == before.history.proofs && s.clock == before.clock && id in s.challenges
    ensures LockMoves(before, Reserve(s, f, id, code).0)
  {
    var r := Reserve(s, f, id, code).0;
    if !Reservable(s, code) { FailingMovesLock(before, f, r); }
  }

  lemma VerifyMovesLock(s: State, f: Factor, id: ChallengeId, matching: set<int>, persistent: bool, conflict: bool)
    requires LockInv(s) && s.factor.Some? && StartVerification(s.factor.value, s.clock) == Some(f)
    requires id in s.challenges && f.credential.Some?
    ensures LockMoves(s, VerifyAndGrant(s, f, id, matching, persistent, conflict).0)
  {
    var r := VerifyAndGrant(s, f, id, matching, persistent, conflict).0;
    match AcceptedStep(Candidates(s.clock), f.last, matching)
    case None => FailingMovesLock(s, f, r);
    case Some(step) => AcceptingMovesLock(s, r, Accepted(s.clock, id, f.credential.value, step));
  }

  lemma ReauthenticateMovesLock(s: State, caller: SessionId, purpose: Purpose, given: Given)
    requires LockInv(s) && purpose != SignIn
    ensures LockMoves(s, Reauthenticate(s, caller, purpose, given).0)
  {
    if s.factor.Some? && s.factor.value.credential.Some? && StartVerification(s.factor.value, s.clock).Some? {
      var f := StartVerification(s.factor.value, s.clock).value;
      if !given.RecoveryCodeId? {
        ByCodeMovesLock(s, f, caller, purpose, MatchingOf(given));
      } else if purpose == ReplaceAuthenticator {
        ReserveMovesLock(s, Begin(Saved(s, f), ReplaceAuthenticator, Some(caller), None, NoGoogle), f, s.next, given.code);
      }
    }
  }

  lemma ByCodeMovesLock(s: State, f: Factor, caller: SessionId, purpose: Purpose, matching: set<int>)
    requires LockInv(s) && s.factor.Some? && StartVerification(s.factor.value, s.clock) == Some(f) && f.credential.Some?
    ensures LockMoves(s, ReauthenticateByCode(s, f, caller, purpose, matching).0)
  {
    var r := ReauthenticateByCode(s, f, caller, purpose, matching).0;
    match AcceptedStep(Candidates(s.clock), f.last, matching)
    case None => FailingMovesLock(s, f, r);
    case Some(step) => AcceptingMovesLock(s, r, Accepted(s.clock, s.next, f.credential.value, step));
  }

  lemma {:induction false} EveryRunKeepsLock(es: seq<Event>)
    ensures LockInv(Run(es))
  {
    if es != [] {
      EveryRunKeepsLock(es[..|es| - 1]);
      StepMovesLock(Run(es[..|es| - 1]), es[|es| - 1]);
      MovesKeepLock(Run(es[..|es| - 1]), Run(es));
    }
  }

  predicate WindowFull(f: Factor, now: int) { f.window.Some? && now < f.window.value + 60 && f.count >= 10 }

  /** In every run a verification is turned away exactly while the proofs lock it or its minute has ten attempts. */
  lemma LimitIsExact(es: seq<Event>, caller: SessionId, purpose: Purpose, given: Given)
    requires purpose != SignIn && Current(Run(es)).Some?
    ensures var s := Run(es);
      Reauthenticate(s, caller, purpose, given).1 == Refused(RateLimited) <==>
        Locked(s.history.proofs, s.clock) || WindowFull(s.factor.value, s.clock)
  {
    EveryRunKeepsLock(es);
    LimitedMeans(Run(es));
  }

  lemma LimitedMeans(s: State)
    requires LockInv(s) && s.factor.Some?
    ensures StartVerification(s.factor.value, s.clock) == None <==>
              Locked(s.history.proofs, s.clock) || WindowFull(s.factor.value, s.clock)
  {
  }

  /** The same for a sign-in that waits for a code. */
  lemma SignInLimitIsExact(es: seq<Event>, id: ChallengeId, caller: Option<SessionId>, given: Given, persistent: bool, conflict: bool)
    requires var s := Run(es); FlowUsable(s, id, caller) && s.challenges[id].purpose == SignIn && s.challenges[id].action == Verify
    ensures var s := Run(es);
      CompleteSignIn(s, id, caller, given, persistent, conflict).1 == Refused(RateLimited) <==>
        Locked(s.history.proofs, s.clock) || WindowFull(s.factor.value, s.clock)
  {
    EveryRunKeepsLock(es);
    LimitedMeans(Run(es));
  }

  // ---------------------------------------------------------------- paths to a session

  /** Verification may begin: neither locked nor out of attempts. */
  ghost predicate MayVerify(s: State) {
    s.factor.Some? ==> !Locked(s.history.proofs, s.clock) && !WindowFull(s.factor.value, s.clock)
  }

  /** One of the neighbouring steps matches and is later than the last accepted one. */
  predicate FreshCode(matching: set<int>, now: int, last: Option<int>) {
    exists step :: step in matching && now / 30 - 1 <= step <= now / 30 + 1 && (last == None || step > last.value)
  }

  lemma FreshCodeIsAccepted(matching: set<int>, now: int, last: Option<int>)
    ensures AcceptedStep(Candidates(now), last, matching).Some? <==> FreshCode(matching, now, last)
  {
    AcceptedStepIsFresh(Candidates(now), last, matching);
    var steps := Candidates(now);
    assert steps[0] == now / 30 && steps[1] == now / 30 - 1 && steps[2] == now / 30 + 1;
    if FreshCode(matching, now, last) {
      var step :| step in matching && now / 30 - 1 <= step <= now / 30 + 1 && (last == None || step > last.value);
      var i := if step == now / 30 then 0 else if step < now / 30 then 1 else 2;
      assert steps[i] == step;
    }
  }

  /** Password, then a fresh code of the authenticator in force: a session for it, in place of the previous one. */
  lemma SigningIn(es: seq<Event>, previous: Option<SessionId>, matching: set<int>, persistent: bool)
    requires var s := Run(es); s.confirmed && Current(s).Some? && MayVerify(s) && (previous.Some? ==> previous.value < s.next)
    ensures var s := Run(es);
      var begun := Step(s, PasswordAccepted(previous, NoGoogle));
      var (r, reply) := CompleteSignIn(begun, s.next, None, AuthenticatorCode(matching), persistent, false);
      if FreshCode(matching, s.clock, s.factor.value.last) then
        && reply == SignedIn(begun.next) && begun.next in r.sessions
        && r.sessions[begun.next] == SessionFor(s, Current(s), persistent)
        && (previous.Some? && previous.value in s.sessions ==> r.sessions[previous.value].revoked)
      else reply == Refused(CodeInvalid) && r.sessions == s.sessions && r.history.proofs == s.history.proofs + [Rejected(s.clock)]
  {
    var s := Run(es);
    EveryRunKeepsLock(es);
    LimitedMeans(s);
    FreshCodeIsAccepted(matching, s.clock, s.factor.value.last);
    EveryRunKeepsAccount(es);
    SigningInFrom(s, previous, matching, persistent);
  }

  lemma SigningInFrom(s: State, previous: Option<SessionId>, matching: set<int>, persistent: bool)
    requires s.confirmed && Current(s).Some? && StartVerification(s.factor.value, s.clock).Some?
    ensures var begun := Step(s, PasswordAccepted(previous, NoGoogle));
      var (r, reply) := CompleteSignIn(begun, s.next, None, AuthenticatorCode(matching), persistent, false);
      if AcceptedStep(Candidates(s.clock), s.factor.value.last, matching).Some? then
        && reply == SignedIn(begun.next) && begun.next in r.sessions
        && r.sessions == Revoked(s.sessions[begun.next := SessionFor(s, Current(s), persistent)], previous)
      else reply == Refused(CodeInvalid) && r.sessions == s.sessions && r.history.proofs == s.history.proofs + [Rejected(s.clock)]
  {
    var begun := Step(s, PasswordAccepted(previous, NoGoogle));
    assert FlowUsable(begun, s.next, None);
    Verifying(begun, s.next, matching, persistent);
  }

  function SessionFor(s: State, c: Option<Credential>, persistent: bool): Session {
    Session(c, s.clock + if persistent then 30 * 24 * 3600 else 8 * 3600, false)
  }

  lemma Verifying(s: State, id: ChallengeId, matching: set<int>, persistent: bool)
    requires FlowUsable(s, id, None) && s.challenges[id].purpose == SignIn && s.challenges[id].action == Verify
    requires s.challenges[id].google == NoGoogle && Current(s).Some? && StartVerification(s.factor.value, s.clock).Some?
    ensures var (r, reply) := CompleteSignIn(s, id, None, AuthenticatorCode(matching), persistent, false);
      if AcceptedStep(Candidates(s.clock), s.factor.value.last, matching).Some? then
        && reply == SignedIn(s.next) && s.next in r.sessions
        && r.sessions == Revoked(s.sessions[s.next := SessionFor(s, Current(s), persistent)], s.challenges[id].previous)
      else reply == Refused(CodeInvalid) && r.sessions == s.sessions && r.history.proofs == s.history.proofs + [Rejected(s.clock)]
  {
  }

  // ---------------------------------------------------------------- installing an authenticator

  /** A flow that may install an authenticator gets a candidate, keeps it, and installs it with a fresh code of it. */
  lemma Installing(s: State, id: ChallengeId, caller: Option<SessionId>, matching: set<int>)
    requires FlowUsable(s, id, caller) && s.challenges[id].action in {Enroll, Replace} && StartVerification(s.factor.value, s.clock).Some?
    requires s.challenges[id].reserved.Some? ==> Payable(s, id, s.challenges[id].reserved.value)
    requires s.challenges[id].pending == None
    ensures var (t, shown) := Setup(s, id, caller);
      var (u, again) := Setup(t, id, caller);
      var (r, reply) := Confirm(t, id, caller, matching);
      && shown == Candidate(s.next) && again == shown && u == t
      && if AcceptedStep(Candidates(s.clock), None, matching).Some? then reply == NewCodes(t.next) && Installed(t, r, id, s.next, t.next)
         else reply == Refused(CodeInvalid) && Current(r) == Current(s) && r.codes == s.codes && r.sessions == s.sessions
  {
    var (t, shown) := Setup(s, id, caller);
    assert FlowUsable(t, id, caller);
    if AcceptedStep(Candidates(s.clock), None, matching).Some? {
      InstallReplacesAll(t, StartVerification(s.factor.value, s.clock).value, id, AcceptedStep(Candidates(s.clock), None, matching).value);
    }
  }

  /** Ten unspent codes of the credential, numbered from here, and no other code. */
  ghost predicate TenCodes(s: State, first: CodeId, c: Credential) {
    && (forall code :: code in s.codes <==> first <= code < first + 10)
    && (forall code :: code in s.codes ==> s.codes[code] == RecoveryCode(c, false, None, None))
  }

  /** No session that was open stays open, and no flow but this one. */
  ghost predicate EndsTheRest(s: State, r: State, id: ChallengeId) {
    && r.sessions.Keys == s.sessions.Keys && (forall x :: x in r.sessions ==> r.sessions[x].revoked)
    && (forall x :: x in r.challenges && x != id ==> !r.challenges[x].open)
  }

  ghost predicate Installed(s: State, r: State, id: ChallengeId, c: Credential, first: CodeId) {
    && Current(r) == Some(c) && TenCodes(r, first, c) && EndsTheRest(s, r, id)
    && id in s.challenges && id in r.challenges && r.challenges[id].action == Complete && r.challenges[id].expected == Some(c)
    && r.challenges[id].open == (s.challenges[id].purpose == SignIn)
  }

  lemma InstallReplacesAll(s: State, f: Factor, id: ChallengeId, step: int)
    requires id in s.challenges && s.challenges[id].pending.Some?
    ensures Installed(s, Install(s, f, id, step), id, s.challenges[id].pending.value, s.next)
  {
  }

  /** New recovery codes come only from the flow meant for them, and end everything else. */
  lemma RegeneratingReplacesAll(s: State, id: ChallengeId, caller: Option<SessionId>)
    ensures var (r, reply) := Regenerate(s, id, caller);
      if FlowUsable(s, id, caller) && s.challenges[id].purpose == RegenerateRecoveryCodes && s.challenges[id].action == Complete && Current(s).Some?
      then
        && reply == NewCodes(s.next) && TenCodes(r, s.next, Current(s).value) && EndsTheRest(s, r, id)
        && Current(r) == Current(s) && !r.challenges[id].open
      else reply.Refused? && r == s
  {
  }

  // ---------------------------------------------------------------- management flows

  /** A signed-in member's fresh code begins the flow asked for, bound to that session. */
  lemma Reauthenticating(s: State, caller: SessionId, purpose: Purpose, matching: set<int>)
    requires purpose != SignIn && Current(s).Some? && StartVerification(s.factor.value, s.clock).Some?
    ensures var (r, reply) := Reauthenticate(s, caller, purpose, AuthenticatorCode(matching));
      if AcceptedStep(Candidates(s.clock), s.factor.value.last, matching).Some? then
        && reply == Began(s.next) && s.next in r.disclosed && s.next in r.challenges
        && r.challenges[s.next] == Challenge(purpose, if purpose == ReplaceAuthenticator then Replace else Complete, s.clock + 300,
                                             Current(s), s.stamp, None, Some(caller), None, None, NoGoogle, true)
        && (s.confirmed && LiveSession(s, caller) ==> FlowUsable(r, s.next, Some(caller)))
      else reply == Refused(CodeInvalid) && r.challenges == s.challenges && r.disclosed == s.disclosed
  {
  }

  /** A recovery code is held for the flow exactly when it is unspent, of the authenticator in force and not held. */
  lemma HoldingIsExact(s: State, f: Factor, id: ChallengeId, code: CodeId)
    requires id in s.challenges
    ensures var (r, reply) := Reserve(s, f, id, code);
      && (reply == ReplacementRequired <==>
            && code in s.codes && !s.codes[code].consumed && Current(s) == Some(s.codes[code].credential)
            && (s.codes[code].until == None || s.codes[code].until.value <= s.clock))
      && (reply == ReplacementRequired ==>
            && id in r.challenges && r.challenges[id] == s.challenges[id].(reserved := Some(code), action := Replace)
            && code in r.codes && r.codes[code] == s.codes[code].(reservedBy := Some(id), until := Some(s.challenges[id].expires)))
      && (reply != ReplacementRequired ==> reply == Refused(CodeInvalid) && r.challenges == s.challenges && r.codes == s.codes)
  {
  }

  // ---------------------------------------------------------------- flows and their terms

  predicate SameTerms(a: Challenge, b: Challenge) {
    && a.purpose == b.purpose && a.expires == b.expires && a.stamp == b.stamp && a.management == b.management
    && a.previous == b.previous && a.google == b.google
  }

  lemma StepKeepsTerms(s: State, e: Event, id: ChallengeId)
    requires id < s.next && id in Step(s, e).challenges
    ensures id in s.challenges && SameTerms(s.challenges[id], Step(s, e).challenges[id]) && s.next <= Step(s, e).next
  {
    match e
    case ConfirmRequest(x, caller, matching) => ConfirmKeepsTerms(s, x, caller, matching, id);
    case CompleteRequest(x, caller, given, persistent, conflict) => CompleteKeepsTerms(s, x, caller, given, persistent, conflict, id);
    case ReauthenticateRequest(session, purpose, given) => if purpose != SignIn { ReauthenticateEffect(s, session, purpose, given); }
    case _ =>
  }

  lemma ConfirmKeepsTerms(s: State, x: ChallengeId, caller: Option<SessionId>, matching: set<int>, id: ChallengeId)
    ensures var r := Confirm(s, x, caller, matching).0;
      s.next <= r.next && (id in r.challenges ==> id in s.challenges && SameTerms(s.challenges[id], r.challenges[id]))
  {
    if Confirm(s, x, caller, matching).1.NewCodes? {
      InstallKeepsTerms(s, StartVerification(s.factor.value, s.clock).value, x, AcceptedStep(Candidates(s.clock), None, matching).value, id);
    } else {
      RefusalKeepsFlows(s, x, caller, matching);
    }
  }

  lemma InstallKeepsTerms(s: State, f: Factor, x: ChallengeId, step: int, id: ChallengeId)
    requires x in s.challenges && s.challenges[x].pending.Some?
    ensures var r := Install(s, f, x, step);
      s.next <= r.next && (id in r.challenges ==> id in s.challenges && SameTerms(s.challenges[id], r.challenges[id]))
  {
  }

  lemma RefusalKeepsFlows(s: State, x: ChallengeId, caller: Option<SessionId>, matching: set<int>)
    requires !Confirm(s, x, caller, matching).1.NewCodes?
    ensures var r := Confirm(s, x, caller, matching).0; r.next == s.next && r.challenges == s.challenges
  {
  }

  lemma CompleteKeepsTerms(s: State, x: ChallengeId, caller: Option<SessionId>, given: Given, persistent: bool, conflict: bool, id: ChallengeId)
    ensures var r := CompleteSignIn(s, x, caller, given, persistent, conflict).0;
      s.next <= r.next && (id in r.challenges ==> id in s.challenges && SameTerms(s.challenges[id], r.challenges[id]))
  {
    var r := CompleteSignIn(s, x, caller, given, persistent, conflict).0;
    if r != s {
      if s.challenges[x].action == Verify {
        var f := StartVerification(s.factor.value, s.clock).value;
        if !given.RecoveryCodeId? && f.credential.Some? { VerifyKeepsTerms(s, f, x, MatchingOf(given), persistent, conflict, id); }
      } else {
        GrantKeepsTerms(s, x, persistent, conflict, id);
      }
    }
  }

  lemma VerifyKeepsTerms(s: State, f: Factor, x: ChallengeId, matching: set<int>, persistent: bool, conflict: bool, id: ChallengeId)
    requires x in s.challenges && f.credential.Some?
    ensures var r := VerifyAndGrant(s, f, x, matching, persistent, conflict).0;
      s.next <= r.next && (id in r.challenges ==> id in s.challenges && SameTerms(s.challenges[id], r.challenges[id]))
  {
    match AcceptedStep(Candidates(s.clock), f.last, matching)
    case None =>
    case Some(step) => GrantKeepsTerms(AcceptedBy(s, f, x, step), x, persistent, conflict, id);
  }

  lemma GrantKeepsTerms(s: State, x: ChallengeId, persistent: bool, conflict: bool, id: ChallengeId)
    requires x in s.challenges && s.factor.Some? && s.factor.value.credential.Some?
    ensures var r := GrantSession(s, x, persistent, conflict).0;
      s.next <= r.next && (id in r.challenges ==> id in s.challenges && SameTerms(s.challenges[id], r.challenges[id]))
  {
  }

  /** The event began this flow. */
  ghost predicate Begins(es: seq<Event>, n: nat, id: ChallengeId) {
    n < |es| && Run(es[..n]).next == id && id in Run(es[..n + 1]).challenges
  }

  lemma {:induction false} TermsStay(es: seq<Event>, n: nat, id: ChallengeId, m: nat)
    requires Begins(es, n, id) && n < m <= |es|
    ensures id < Run(es[..m]).next
    ensures id in Run(es[..m]).challenges ==> SameTerms(Run(es[..n + 1]).challenges[id], Run(es[..m]).challenges[id])
  {
    if m == n + 1 {
      EveryRunKeepsAccount(es[..n + 1]);
    } else {
      TermsStay(es, n, id, m - 1);
      assert es[..m][..m - 1] == es[..m - 1];
      if id in Run(es[..m]).challenges { StepKeepsTerms(Run(es[..m - 1]), es[m - 1], id); }
      NextGrows(Run(es[..m - 1]), es[m - 1]);
    }
  }

  lemma NextGrows(s: State, e: Event)
    ensures s.next <= Step(s, e).next
  {
    match e
    case ConfirmRequest(x, caller, matching) => ConfirmKeepsTerms(s, x, caller, matching, 0);
    case CompleteRequest(x, caller, given, persistent, conflict) => CompleteKeepsTerms(s, x, caller, given, persistent, conflict, 0);
    case ReauthenticateRequest(session, purpose, given) => if purpose != SignIn { ReauthenticateEffect(s, session, purpose, given); }
    case _ =>
  }

  lemma BeginsWithTerms(s: State, e: Event)
    requires s.next in Step(s, e).challenges && s.next !in s.challenges
    ensures var ch := Step(s, e).challenges[s.next];
      && ch.expires == s.clock + 300 && ch.stamp == s.stamp
      && (ch.purpose == SignIn <==> e.PasswordAccepted?)
      && (ch.purpose != SignIn ==> e.ReauthenticateRequest? && ch.purpose == e.purpose && ch.management == Some(e.session))
  {
    match e
    case ConfirmRequest(x, caller, matching) => ConfirmKeepsTerms(s, x, caller, matching, s.next);
    case CompleteRequest(x, caller, given, persistent, conflict) => CompleteKeepsTerms(s, x, caller, given, persistent, conflict, s.next);
    case ReauthenticateRequest(session, purpose, given) => if purpose != SignIn { ReauthenticationBegins(s, session, purpose, given); }
    case _ =>
  }

  lemma ReauthenticationBegins(s: State, caller: SessionId, purpose: Purpose, given: Given)
    requires purpose != SignIn && s.next !in s.challenges
    ensures var r := Reauthenticate(s, caller, purpose, given).0;
      s.next in r.challenges ==>
        && r.challenges[s.next].expires == s.clock + 300 && r.challenges[s.next].stamp == s.stamp
        && r.challenges[s.next].purpose == purpose && r.challenges[s.next].management == Some(caller)
  {
  }

  /** In every run a flow can be used only within five minutes of its beginning, under the same security stamp, and,
      when it manages the account, by the session that began it while that session lives. */
  lemma UsableFlowsAreFresh(es: seq<Event>, n: nat, id: ChallengeId, caller: Option<SessionId>)
    requires Begins(es, n, id) && FlowUsable(Run(es), id, caller)
    ensures var before, now := Run(es[..n]), Run(es);
      && now.clock < before.clock + 300 && now.stamp == before.stamp && now.challenges[id].open && id in now.disclosed
      && (es[n].PasswordAccepted? || (es[n].ReauthenticateRequest? && caller == Some(es[n].session) && LiveSession(now, es[n].session)))
  {
    assert es[..|es|] == es && es[..n + 1][..n] == es[..n];
    EveryRunKeepsAccount(es[..n]);
    BeginsWithTerms(Run(es[..n]), es[n]);
    TermsStay(es, n, id, |es|);
  }

  /** A flow that cannot be used answers nothing but that, and nothing changes. */
  lemma UnusableFlowsAreRefused(s: State, id: ChallengeId, caller: Option<SessionId>, matching: set<int>, given: Given, persistent: bool, conflict: bool)
    requires !FlowUsable(s, id, caller)
    ensures Setup(s, id, caller) == (s, Refused(AuthenticationFailed))
    ensures Confirm(s, id, caller, matching) == (s, Refused(AuthenticationFailed))
    ensures CompleteSignIn(s, id, caller, given, persistent, conflict) == (s, Refused(AuthenticationFailed))
    ensures Regenerate(s, id, caller) == (s, Refused(AuthenticationFailed))
  {
  }

  /** A Google account linked elsewhere gives no session; a claim confirms the member and ends all that was open. */
  lemma GoogleIsChecked(s: State, id: ChallengeId, persistent: bool, conflict: bool)
    requires id in s.challenges && s.challenges[id].google != NoGoogle && Current(s).Some?
    ensures var (r, reply) := GrantSession(s, id, persistent, conflict);
      && (reply == (if conflict then Refused(GoogleConflict) else SignedIn(s.next)))
      && (conflict ==> r == s)
      && (!conflict && s.challenges[id].google == Claim ==>
            && r.confirmed && r.stamp == s.stamp + 1
            && (forall x :: x in s.sessions && x != s.next ==> x in r.sessions && r.sessions[x].revoked)
            && (forall x :: x in r.challenges ==> !r.challenges[x].open))
  {
  }

  /** Administrative revocation ends every session and flow. */
  lemma RevocationEndsEverything(s: State)
    requires forall id :: id in s.challenges ==> id < s.next
    ensures var r := Step(s, RevokeEverything);
      && r.sessions.Keys == s.sessions.Keys && (forall id :: id in r.sessions ==> r.sessions[id].revoked)
      && (forall id :: id in r.challenges ==> !r.challenges[id].open) && Current(r) == Current(s) && r.codes == s.codes
  {
  }

  // ---------------------------------------------------------------- how sessions and flows end

  /** A recovery code that can be held begins a replacement and pays for it; any other is a failed proof, and with a
      recovery code nothing but a replacement can be begun. */
  lemma ReauthenticatingByRecovery(s: State, caller: SessionId, purpose: Purpose, code: CodeId)
    requires purpose != SignIn && Current(s).Some? && StartVerification(s.factor.value, s.clock).Some?
    ensures var (r, reply) := Reauthenticate(s, caller, purpose, RecoveryCodeId(code));
      if purpose != ReplaceAuthenticator then reply == Refused(OperationConflict) && r == s
      else if Reservable(s, code) then
        && reply == Began(s.next) && s.next in r.disclosed && s.next in r.challenges
        && r.challenges[s.next] == Challenge(ReplaceAuthenticator, Replace, s.clock + 300, Current(s), s.stamp, None, Some(caller), None,
                                             Some(code), NoGoogle, true)
        && code in r.codes && r.codes[code].reservedBy == Some(s.next) && r.codes[code].until == Some(s.clock + 300)
      else reply == Refused(CodeInvalid) && r.disclosed == s.disclosed && r.history.proofs == s.history.proofs + [Rejected(s.clock)]
  {
  }

  predicate Replaces(s: State, e: Event) {
    || (e.ConfirmRequest? && Confirm(s, e.id, e.caller, e.matching).1.NewCodes?)
    || (e.RegenerateRequest? && Regenerate(s, e.id, e.caller).1.NewCodes?)
  }

  predicate SignsIn(s: State, e: Event) {
    e.CompleteRequest? && e.id in s.challenges && CompleteSignIn(s, e.id, e.caller, e.given, e.persistent, e.conflict).1.SignedIn?
  }

  predicate EndsSession(s: State, e: Event, x: SessionId) {
    || e == EndSession(x) || e == RevokeEverything || Replaces(s, e)
    || (SignsIn(s, e) && (s.challenges[e.id].previous == Some(x) || s.challenges[e.id].google == Claim))
  }

  predicate IsRenewed(s: State, e: Event, x: SessionId) { e == RenewSession(x, false) && LiveSession(s, x) && s.confirmed }

  ghost predicate SessionMoves(s: State, e: Event, x: SessionId)
    requires x in s.sessions
  {
    var r := Step(s, e);
    && x in r.sessions && r.sessions[x].credential == s.sessions[x].credential
    && (r.sessions[x].revoked <==> s.sessions[x].revoked || EndsSession(s, e, x))
    && r.sessions[x].expires == if IsRenewed(s, e, x) then s.clock + 28800 else s.sessions[x].expires
  }

  /** A session ends by being signed out or replaced at a sign-in, or with all others by a revocation, new recovery codes,
      another authenticator or a Google claim; only a live temporary one is renewed, for eight hours. */
  lemma SessionsEndAsAsked(s: State, e: Event, x: SessionId)
    requires x in s.sessions && x < s.next
    ensures SessionMoves(s, e, x)
  {
    match e
    case ConfirmRequest(id, caller, matching) => ConfirmEndsAll(s, id, caller, matching, x);
    case CompleteRequest(id, caller, given, persistent, conflict) => CompletingEnds(s, id, caller, given, persistent, conflict, x);
    case RegenerateRequest(id, caller) => RegeneratingEndsAll(s, id, caller, x);
    case ReauthenticateRequest(session, purpose, given) => if purpose != SignIn { ReauthenticatingKeeps(s, session, purpose, given); }
    case _ =>
  }

  lemma RegeneratingEndsAll(s: State, id: ChallengeId, caller: Option<SessionId>, x: SessionId)
    requires x in s.sessions
    ensures SessionMoves(s, RegenerateRequest(id, caller), x)
  {
  }

  lemma InstallEndsAll(s: State, f: Factor, id: ChallengeId, step: int, x: SessionId)
    requires id in s.challenges && s.challenges[id].pending.Some? && x in s.sessions
    ensures var r := Install(s, f, id, step).sessions; x in r && r[x] == s.sessions[x].(revoked := true)
  {
  }

  lemma ConfirmingEnds(s: State, id: ChallengeId, caller: Option<SessionId>, matching: set<int>, x: SessionId)
    requires x in s.sessions
    ensures var (r, reply) := Confirm(s, id, caller, matching);
      x in r.sessions && r.sessions[x] == if reply.NewCodes? then s.sessions[x].(revoked := true) else s.sessions[x]
  {
    if Confirm(s, id, caller, matching).1.NewCodes? {
      InstallEndsAll(s, StartVerification(s.factor.value, s.clock).value, id, AcceptedStep(Candidates(s.clock), None, matching).value, x);
    }
  }

  lemma ConfirmEndsAll(s: State, id: ChallengeId, caller: Option<SessionId>, matching: set<int>, x: SessionId)
    requires x in s.sessions
    ensures SessionMoves(s, ConfirmRequest(id, caller, matching), x)
  {
    ConfirmingEnds(s, id, caller, matching, x);
  }

  predicate KeepsSessions(s: State, r: State) { r.sessions == s.sessions && r.stamp == s.stamp && r.confirmed == s.confirmed }

  lemma ByCodeKeeps(s: State, f: Factor, caller: SessionId, purpose: Purpose, matching: set<int>)
    requires f.credential.Some?
    ensures KeepsSessions(s, ReauthenticateByCode(s, f, caller, purpose, matching).0)
  {
  }

  lemma ByRecoveryKeeps(s: State, f: Factor, caller: SessionId, code: CodeId)
    ensures KeepsSessions(s, ReauthenticateByRecovery(s, f, caller, code).0)
  {
  }

  lemma ReauthenticatingKeeps(s: State, caller: SessionId, purpose: Purpose, given: Given)
    requires purpose != SignIn
    ensures KeepsSessions(s, Reauthenticate(s, caller, purpose, given).0)
  {
    if Current(s).Some? && StartVerification(s.factor.value, s.clock).Some? {
      var f := StartVerification(s.factor.value, s.clock).value;
      if given.RecoveryCodeId? { ByRecoveryKeeps(s, f, caller, given.code); } else { ByCodeKeeps(s, f, caller, purpose, MatchingOf(given)); }
    }
  }

  ghost predicate GrantMoves(s: State, r: State, reply: Reply, ch: Challenge, x: SessionId)
    requires x in s.sessions
  {
    && x in r.sessions && r.sessions[x].credential == s.sessions[x].credential && r.sessions[x].expires == s.sessions[x].expires
    && (r.sessions[x].revoked <==> s.sessions[x].revoked || (reply.SignedIn? && (ch.previous == Some(x) || ch.google == Claim)))
  }

  lemma GrantEnds(s: State, id: ChallengeId, persistent: bool, conflict: bool, x: SessionId)
    requires id in s.challenges && s.factor.Some? && s.factor.value.credential.Some? && x in s.sessions && x < s.next
    ensures var (r, reply) := GrantSession(s, id, persistent, conflict); GrantMoves(s, r, reply, s.challenges[id], x)
  {
  }

  lemma CompletingEnds(s: State, id: ChallengeId, caller: Option<SessionId>, given: Given, persistent: bool, conflict: bool, x: SessionId)
    requires x in s.sessions && x < s.next
    ensures SessionMoves(s, CompleteRequest(id, caller, given, persistent, conflict), x)
  {
    if FlowUsable(s, id, caller) && s.challenges[id].purpose == SignIn {
      CompletingUsableEnds(s, id, caller, given, persistent, conflict, x);
    }
  }

  lemma CompletingUsableEnds(s: State, id: ChallengeId, caller: Option<SessionId>, given: Given, persistent: bool, conflict: bool, x: SessionId)
    requires x in s.sessions && x < s.next && FlowUsable(s, id, caller) && s.challenges[id].purpose == SignIn
    ensures var (r, reply) := CompleteSignIn(s, id, caller, given, persistent, conflict); GrantMoves(s, r, reply, s.challenges[id], x)
  {
    if s.challenges[id].action == Verify && StartVerification(s.factor.value, s.clock).Some? {
      var f := StartVerification(s.factor.value, s.clock).value;
      if !given.RecoveryCodeId? && f.credential.Some? { VerifyingEnds(s, f, id, MatchingOf(given), persistent, conflict, x); }
    } else if Current(s).Some? {
      GrantEnds(s, id, persistent, conflict, x);
    }
  }

  lemma VerifyingEnds(s: State, f: Factor, id: ChallengeId, matching: set<int>, persistent: bool, conflict: bool, x: SessionId)
    requires id in s.challenges && f.credential.Some? && x in s.sessions && x < s.next
    ensures var (r, reply) := VerifyAndGrant(s, f, id, matching, persistent, conflict); GrantMoves(s, r, reply, s.challenges[id], x)
  {
    match AcceptedStep(Candidates(s.clock), f.last, matching)
    case None =>
    case Some(step) => GrantEnds(AcceptedBy(s, f, id, step), id, persistent, conflict, x);
  }

  predicate Claims(s: State, e: Event) { SignsIn(s, e) && s.challenges[e.id].google == Claim }

  /** The security stamp moves on with a new password or address and with a Google claim, and only then; a member is
      confirmed by such a claim, or as told. */
  lemma StampsMoveOn(s: State, e: Event)
    ensures Step(s, e).stamp == if e == NewStamp || Claims(s, e) then s.stamp + 1 else s.stamp
    ensures Step(s, e).confirmed == if e.SetConfirmed? then e.confirmed else s.confirmed || Claims(s, e)
  {
    match e
    case ConfirmRequest(id, caller, matching) => ConfirmingKeepsStamp(s, id, caller, matching);
    case CompleteRequest(id, caller, given, persistent, conflict) => CompletingMovesStamp(s, id, caller, given, persistent, conflict);
    case ReauthenticateRequest(session, purpose, given) => if purpose != SignIn { ReauthenticatingKeeps(s, session, purpose, given); }
    case _ =>
  }

  lemma ConfirmingKeepsStamp(s: State, id: ChallengeId, caller: Option<SessionId>, matching: set<int>)
    ensures var r := Confirm(s, id, caller, matching).0; r.stamp == s.stamp && r.confirmed == s.confirmed
  {
  }

  ghost predicate StampMoves(s: State, r: State, reply: Reply, ch: Challenge) {
    if reply.SignedIn? && ch.google == Claim then r.stamp == s.stamp + 1 && r.confirmed else r.stamp == s.stamp && r.confirmed == s.confirmed
  }

  lemma GrantMovesStamp(s: State, id: ChallengeId, persistent: bool, conflict: bool)
    requires id in s.challenges && s.factor.Some? && s.factor.value.credential.Some?
    ensures var (r, reply) := GrantSession(s, id, persistent, conflict); StampMoves(s, r, reply, s.challenges[id])
  {
  }

  lemma VerifyingMovesStamp(s: State, f: Factor, id: ChallengeId, matching: set<int>, persistent: bool, conflict: bool)
    requires id in s.challenges && f.credential.Some?
    ensures var (r, reply) := VerifyAndGrant(s, f, id, matching, persistent, conflict); StampMoves(s, r, reply, s.challenges[id])
  {
    match AcceptedStep(Candidates(s.clock), f.last, matching)
    case None =>
    case Some(step) => GrantMovesStamp(AcceptedBy(s, f, id, step), id, persistent, conflict);
  }

  lemma UsableCompletionMovesStamp(s: State, id: ChallengeId, caller: Option<SessionId>, given: Given, persistent: bool, conflict: bool)
    requires FlowUsable(s, id, caller) && s.challenges[id].purpose == SignIn
    ensures var (r, reply) := CompleteSignIn(s, id, caller, given, persistent, conflict); StampMoves(s, r, reply, s.challenges[id])
  {
    if s.challenges[id].action == Verify && StartVerification(s.factor.value, s.clock).Some? {
      var f := StartVerification(s.factor.value, s.clock).value;
      if !given.RecoveryCodeId? && f.credential.Some? { VerifyingMovesStamp(s, f, id, MatchingOf(given), persistent, conflict); }
    } else if Current(s).Some? {
      GrantMovesStamp(s, id, persistent, conflict);
    }
  }

  lemma CompletingMovesStamp(s: State, id: ChallengeId, caller: Option<SessionId>, given: Given, persistent: bool, conflict: bool)
    ensures var e := CompleteRequest(id, caller, given, persistent, conflict);
      var r := CompleteSignIn(s, id, caller, given, persistent, conflict).0;
      r.stamp == (if Claims(s, e) then s.stamp + 1 else s.stamp) && r.confirmed == (s.confirmed || Claims(s, e))
  {
    if FlowUsable(s, id, caller) && s.challenges[id].purpose == SignIn {
      UsableCompletionMovesStamp(s, id, caller, given, persistent, conflict);
    }
  }

  lemma {:induction false} StampGrows(es: seq<Event>, m: nat, n: nat)
    requires m <= n <= |es|
    ensures Run(es[..m]).stamp <= Run(es[..n]).stamp
  {
    if m < n {
      StampGrows(es, m, n - 1);
      assert es[..n][..n - 1] == es[..n - 1];
      StampsMoveOn(Run(es[..n - 1]), es[n - 1]);
    }
  }

  lemma NewStampIsLater(es: seq<Event>, n: nat, m: nat)
    requires n <= m < |es| && es[m] == NewStamp
    ensures Run(es[..n]).stamp < Run(es).stamp
  {
    assert es[..|es|] == es && es[..m + 1][..m] == es[..m];
    StampGrows(es, n, m);
    StampGrows(es, m + 1, |es|);
    StampsMoveOn(Run(es[..m]), es[m]);
  }

  /** In every run, no flow begun before a change of password or address can be used after it. */
  lemma FlowsEndWithTheStamp(es: seq<Event>, n: nat, m: nat, id: ChallengeId, caller: Option<SessionId>)
    requires Begins(es, n, id) && n <= m < |es| && es[m] == NewStamp
    ensures !FlowUsable(Run(es), id, caller)
  {
    NewStampIsLater(es, n, m);
    if FlowUsable(Run(es), id, caller) { UsableFlowsAreFresh(es, n, id, caller); }
  }

  /** Only a confirmed member, or one that Google confirms, can use a flow; deleting expired flows makes no difference. */
  lemma PurgingSparesUsableFlows(s: State, id: ChallengeId, caller: Option<SessionId>)
    ensures FlowUsable(Step(s, PurgeExpired), id, caller) <==> FlowUsable(s, id, caller)
    ensures FlowUsable(s, id, caller) ==> s.confirmed || s.challenges[id].google != NoGoogle
  {
  }
}
