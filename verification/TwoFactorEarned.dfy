/** What a second factor is for: whoever has only the password gets neither a session nor a new authenticator.
    Told from the events of a run, the proofs and the recovery codes. */
module TwoFactorEarned {
  import opened Common
  import opened TwoFactor

  // ---------------------------------------------------------------- flows that may replace the authenticator

  /** The flow holds a code of this credential, as long as that code exists. */
  ghost predicate HoldsOwnCode(s: State, ch: Challenge, c: Credential) {
    && ch.reserved.Some? && ch.reserved.value < s.next
    && (ch.reserved.value in s.codes ==> s.codes[ch.reserved.value].credential == c)
  }

  /** A usable flow that may install an authenticator in place of another had that one proved in it, or holds its code. */
  ghost predicate Warranted(s: State, id: ChallengeId, ch: Challenge) {
    ch.open && ch.expected.Some? && (ch.action == Enroll || ch.action == Replace) ==>
      if ch.reserved == None then Proved(s.history.proofs, id, ch.expected.value) else HoldsOwnCode(s, ch, ch.expected.value)
  }

  ghost predicate AllWarranted(s: State) {
    && (forall id :: id in s.challenges ==> id < s.next)
    && (forall id :: id in s.disclosed ==> id < s.next)
    && (forall code :: code in s.codes ==> code < s.next)
    && (forall id :: id in s.challenges && id in s.disclosed ==> Warranted(s, id, s.challenges[id]))
  }

  /** Proofs are only added, codes keep their credentials or are all new, and flows only close. */
  ghost predicate Calm(s: State, r: State) {
    && Extends(s.history.proofs, r.history.proofs) && s.next <= r.next
    && (forall code :: code in r.codes ==> s.next <= code || (code in s.codes && r.codes[code].credential == s.codes[code].credential))
  }

  predicate Closes(before: Challenge, after: Challenge) {
    after == before.(open := after.open, pending := after.pending) && (after.open ==> before.open)
  }

  lemma ClosingKeepsWarrant(s: State, r: State, id: ChallengeId, before: Challenge, after: Challenge)
    requires Warranted(s, id, before) && Calm(s, r) && Closes(before, after)
    ensures Warranted(r, id, after)
  {
    if before.expected.Some? && Proved(s.history.proofs, id, before.expected.value) {
      ProvedStays(s.history.proofs, r.history.proofs, id, before.expected.value);
    }
  }

  /** All flows but one only close, and that one is warranted. */
  lemma OneFlowMoves(s: State, r: State, moved: ChallengeId)
    requires AllWarranted(s) && Calm(s, r)
    requires forall id :: id in r.challenges ==> id < r.next
    requires forall code :: code in r.codes ==> code < r.next
    requires forall id :: id in r.disclosed ==> id < r.next && (id in s.disclosed || id == moved)
    requires forall id :: id in r.challenges && id != moved ==> id in s.challenges && Closes(s.challenges[id], r.challenges[id])
    requires moved in r.challenges && moved in r.disclosed ==> Warranted(r, moved, r.challenges[moved])
    ensures AllWarranted(r)
  {
    forall id | id in r.challenges && id in r.disclosed ensures Warranted(r, id, r.challenges[id]) {
      if id != moved { ClosingKeepsWarrant(s, r, id, s.challenges[id], r.challenges[id]); }
    }
  }

  lemma StepKeepsWarrants(s: State, e: Event)
    requires AllWarranted(s)
    ensures AllWarranted(Step(s, e))
  {
    match e
    case ConfirmRequest(id, caller, matching) => ConfirmKeepsWarrants(s, id, caller, matching);
    case CompleteRequest(id, caller, given, persistent, conflict) => CompleteKeepsWarrants(s, id, caller, given, persistent, conflict);
    case ReauthenticateRequest(session, purpose, given) =>
      if purpose != SignIn { ReauthenticateKeepsWarrants(s, session, purpose, given); }
    case PasswordAccepted(previous, google) => BeginningKeepsWarrants(s, previous, google);
    case RegenerateRequest(id, caller) => RegenerateKeepsWarrants(s, id, caller);
    case SetupRequest(id, caller) => SetupKeepsWarrants(s, id, caller);
    case _ => OthersKeepWarrants(s, e);
  }

  lemma BeginningKeepsWarrants(s: State, previous: Option<SessionId>, google: Google)
    requires AllWarranted(s)
    ensures AllWarranted(Step(s, PasswordAccepted(previous, google)))
  {
    OneFlowMoves(s, Step(s, PasswordAccepted(previous, google)), s.next);
  }

  lemma SetupKeepsWarrants(s: State, id: ChallengeId, caller: Option<SessionId>)
    requires AllWarranted(s)
    ensures AllWarranted(Setup(s, id, caller).0)
  {
    OneFlowMoves(s, Setup(s, id, caller).0, s.next);
  }

  predicate Elsewhere(e: Event) {
    !e.ConfirmRequest? && !e.CompleteRequest? && !e.ReauthenticateRequest? && !e.PasswordAccepted? && !e.RegenerateRequest? && !e.SetupRequest?
  }

  lemma OthersKeepWarrants(s: State, e: Event)
    requires AllWarranted(s) && Elsewhere(e)
    ensures AllWarranted(Step(s, e))
  {
    OneFlowMoves(s, Step(s, e), s.next);
  }

  lemma RegenerateKeepsWarrants(s: State, id: ChallengeId, caller: Option<SessionId>)
    requires AllWarranted(s)
    ensures AllWarranted(Regenerate(s, id, caller).0)
  {
    OneFlowMoves(s, Regenerate(s, id, caller).0, s.next);
  }

  lemma ConfirmKeepsWarrants(s: State, id: ChallengeId, caller: Option<SessionId>, matching: set<int>)
    requires AllWarranted(s)
    ensures AllWarranted(Confirm(s, id, caller, matching).0)
  {
    var (r, reply) := Confirm(s, id, caller, matching);
    if reply.NewCodes? {
      var f := StartVerification(s.factor.value, s.clock).value;
      InstallKeepsWarrants(s, f, id, AcceptedStep(Candidates(s.clock), None, matching).value);
    } else {
      OneFlowMoves(s, r, s.next);
    }
  }

  lemma InstallKeepsWarrants(s: State, f: Factor, id: ChallengeId, step: int)
    requires AllWarranted(s) && id in s.challenges && s.challenges[id].pending.Some?
    ensures AllWarranted(Install(s, f, id, step))
  {
    OneFlowMoves(s, Install(s, f, id, step), id);
  }

  lemma CompleteKeepsWarrants(s: State, id: ChallengeId, caller: Option<SessionId>, given: Given, persistent: bool, conflict: bool)
    requires AllWarranted(s)
    ensures AllWarranted(CompleteSignIn(s, id, caller, given, persistent, conflict).0)
  {
    var r := CompleteSignIn(s, id, caller, given, persistent, conflict).0;
    if r != s {
      if s.challenges[id].action == Verify {
        var f := StartVerification(s.factor.value, s.clock).value;
        if given.RecoveryCodeId? {
          ReserveKeepsWarrants(s, f, id, given.code);
        } else if f.credential.Some? {
          VerifyKeepsWarrants(s, f, id, MatchingOf(given), persistent, conflict);
        } else {
          OneFlowMoves(s, r, s.next);
        }
      } else {
        GrantKeepsWarrants(s, s, id, persistent, conflict);
      }
    }
  }

  lemma ReserveKeepsWarrants(s: State, f: Factor, id: ChallengeId, code: CodeId)
    requires AllWarranted(s) && id in s.challenges && s.factor.Some? && s.challenges[id].expected == s.factor.value.credential
    ensures AllWarranted(Reserve(s, f, id, code).0)
  {
    OneFlowMoves(s, Reserve(s, f, id, code).0, id);
  }

  lemma VerifyKeepsWarrants(s: State, f: Factor, id: ChallengeId, matching: set<int>, persistent: bool, conflict: bool)
    requires AllWarranted(s) && id in s.challenges && f.credential.Some?
    ensures AllWarranted(VerifyAndGrant(s, f, id, matching, persistent, conflict).0)
  {
    match AcceptedStep(Candidates(s.clock), f.last, matching)
    case None => OneFlowMoves(s, Failed(s, f), s.next);
    case Some(step) =>
      var a := AcceptedBy(s, f, id, step);
      assert Extends(s.history.proofs, a.history.proofs);
      OneFlowMoves(s, a, s.next);
      GrantKeepsWarrants(s, a, id, persistent, conflict);
  }

  lemma GrantKeepsWarrants(before: State, s: State, id: ChallengeId, persistent: bool, conflict: bool)
    requires AllWarranted(s) && id in s.challenges && s.factor.Some? && s.factor.value.credential.Some?
    ensures AllWarranted(GrantSession(s, id, persistent, conflict).0)
  {
    OneFlowMoves(s, GrantSession(s, id, persistent, conflict).0, id);
  }

  lemma ReauthenticateKeepsWarrants(s: State, caller: SessionId, purpose: Purpose, given: Given)
    requires AllWarranted(s) && purpose != SignIn
    ensures AllWarranted(Reauthenticate(s, caller, purpose, given).0)
  {
    if s.factor.Some? && s.factor.value.credential.Some? && StartVerification(s.factor.value, s.clock).Some? {
      var f := StartVerification(s.factor.value, s.clock).value;
      if !given.RecoveryCodeId? {
        ByCodeKeepsWarrants(s, f, caller, purpose, MatchingOf(given));
      } else {
        ByRecoveryKeepsWarrants(s, f, caller, given.code);
      }
    }
  }

  lemma ByCodeKeepsWarrants(s: State, f: Factor, caller: SessionId, purpose: Purpose, matching: set<int>)
    requires AllWarranted(s) && f.credential.Some?
    ensures AllWarranted(ReauthenticateByCode(s, f, caller, purpose, matching).0)
  {
    var r := ReauthenticateByCode(s, f, caller, purpose, matching).0;
    if r.next > s.next {
      var i := |s.history.proofs|;
      assert r.history.proofs[i].Accepted? && r.history.proofs[i].challenge == s.next;
    }
    OneFlowMoves(s, r, s.next);
  }

  lemma ByRecoveryKeepsWarrants(s: State, f: Factor, caller: SessionId, code: CodeId)
    requires AllWarranted(s)
    ensures AllWarranted(ReauthenticateByRecovery(s, f, caller, code).0)
  {
    OneFlowMoves(s, ReauthenticateByRecovery(s, f, caller, code).0, s.next);
  }

  lemma {:induction false} EveryRunIsWarranted(es: seq<Event>)
    ensures AllWarranted(Run(es))
  {
    if es != [] {
      EveryRunIsWarranted(es[..|es| - 1]);
      StepKeepsWarrants(Run(es[..|es| - 1]), es[|es| - 1]);
    }
  }

  // ---------------------------------------------------------------- replacing the authenticator

  /** The step spends an unspent recovery code of this credential for the flow: all codes before it are gone. */
  ghost predicate Pays(s: State, r: State, id: ChallengeId, c: Credential) {
    && id in s.challenges && s.challenges[id].reserved.Some?
    && var code := s.challenges[id].reserved.value;
       && code in s.codes && s.codes[code].credential == c && !s.codes[code].consumed && code !in r.codes
       && |r.history.replacements| == |s.history.replacements| + 1
       && r.history.replacements[|s.history.replacements|].challenge == id
       && r.history.replacements[|s.history.replacements|].code == Some(code)
  }

  lemma OnlyConfirmationsReplace(s: State, e: Event)
    requires Current(Step(s, e)) != Current(s)
    ensures e.ConfirmRequest? && Confirm(s, e.id, e.caller, e.matching).1.NewCodes?
  {
    match e
    case ConfirmRequest(id, caller, matching) =>
      if !Confirm(s, id, caller, matching).1.NewCodes? { ConfirmRefusalLeavesSessions(s, id, caller, matching); }
    case CompleteRequest(id, caller, given, persistent, conflict) => CompletionLeavesSessions(s, id, caller, given, persistent, conflict);
    case ReauthenticateRequest(session, purpose, given) => if purpose != SignIn { ReauthenticationLeavesSessions(s, session, purpose, given); }
    case _ => OthersLeaveSessions(s, e);
  }

  lemma ConfirmationPays(s: State, id: ChallengeId, caller: Option<SessionId>, matching: set<int>)
    requires AllWarranted(s) && Confirm(s, id, caller, matching).1.NewCodes? && Current(s).Some?
    ensures Proved(s.history.proofs, id, Current(s).value) || Pays(s, Confirm(s, id, caller, matching).0, id, Current(s).value)
    ensures Proved(Confirm(s, id, caller, matching).0.history.proofs, id, Current(Confirm(s, id, caller, matching).0).value)
  {
    assert Warranted(s, id, s.challenges[id]);
    var r := Confirm(s, id, caller, matching).0;
    var f := StartVerification(s.factor.value, s.clock).value;
    InstallSpends(s, f, id, AcceptedStep(Candidates(s.clock), None, matching).value);
    var i := |s.history.proofs|;
    assert r.history.proofs[i].Accepted? && r.history.proofs[i].challenge == id;
  }

  /** In every run an authenticator is replaced only in a flow in which a code of it was accepted, or that spends
      one of its recovery codes, and only by one whose own code was accepted. */
  lemma ReplacementIsTheOwners(es: seq<Event>, e: Event)
    requires Current(Run(es)).Some? && Current(Step(Run(es), e)) != Current(Run(es))
    ensures var s, r := Run(es), Step(Run(es), e);
      && e.ConfirmRequest? && Current(r).Some?
      && (Proved(s.history.proofs, e.id, Current(s).value) || Pays(s, r, e.id, Current(s).value))
      && Proved(r.history.proofs, e.id, Current(r).value)
  {
    var s := Run(es);
    EveryRunIsWarranted(es);
    OnlyConfirmationsReplace(s, e);
    ConfirmationPays(s, e.id, e.caller, e.matching);
  }

  // ---------------------------------------------------------------- signing in

  /** The event accepted a password and began this flow while this credential was in force. */
  ghost predicate BeginsSignIn(es: seq<Event>, n: nat, id: ChallengeId, c: Credential) {
    && n < |es| && es[n].PasswordAccepted? && Run(es[..n]).next == id && id in Run(es[..n + 1]).challenges
    && Current(Run(es[..n])) == Some(c)
  }

  ghost predicate PaidIn(es: seq<Event>, id: ChallengeId, c: Credential) {
    exists m :: 0 <= m < |es| && PaysAt(es, m, id, c)
  }

  ghost predicate PaysAt(es: seq<Event>, m: nat, id: ChallengeId, c: Credential)
    requires m < |es|
  {
    Pays(Run(es[..m]), Run(es[..m + 1]), id, c)
  }

  /** A sign-in begun under a credential still waits for that credential's code or a replacement, or was paid for. */
  ghost predicate Owed(s: State, id: ChallengeId, c: Credential, paid: bool) {
    && id < s.next
    && (id in s.challenges && s.challenges[id].open ==> OwedFlow(s.challenges[id], c, paid))
    && (forall i :: 0 <= i < |s.history.grants| && s.history.grants[i].challenge == id ==> Proved(s.history.proofs, id, c) || paid)
  }

  predicate OwedFlow(ch: Challenge, c: Credential, paid: bool) {
    && ch.purpose == SignIn
    && ((ch.expected == Some(c) && (ch.action == Verify || (ch.action == Replace && ch.reserved.Some?))) || (ch.action == Complete && paid))
  }

  /** The flow only closes or gets a candidate, and no session is granted. */
  ghost predicate LeavesFlow(s: State, r: State, id: ChallengeId) {
    && s.next <= r.next && r.history.grants == s.history.grants && Extends(s.history.proofs, r.history.proofs)
    && (id in r.challenges && r.challenges[id].open ==> id in s.challenges && Closes(s.challenges[id], r.challenges[id]))
  }

  lemma LeavingKeepsOwed(s: State, r: State, id: ChallengeId, c: Credential, paid: bool)
    requires Owed(s, id, c, paid) && LeavesFlow(s, r, id)
    ensures Owed(r, id, c, paid)
  {
    if Proved(s.history.proofs, id, c) { ProvedStays(s.history.proofs, r.history.proofs, id, c); }
  }

  lemma PaidStaysOwed(s: State, id: ChallengeId, c: Credential)
    requires Owed(s, id, c, false)
    ensures Owed(s, id, c, true)
  {
  }

  lemma StepKeepsOwed(s: State, e: Event, id: ChallengeId, c: Credential, paid: bool)
    requires AllWarranted(s) && Owed(s, id, c, paid)
    ensures Owed(Step(s, e), id, c, paid || Pays(s, Step(s, e), id, c))
  {
    match e
    case ConfirmRequest(x, caller, matching) => ConfirmKeepsOwed(s, x, caller, matching, id, c, paid);
    case CompleteRequest(x, caller, given, persistent, conflict) => CompleteKeepsOwed(s, x, caller, given, persistent, conflict, id, c, paid);
    case _ => StepKeepsOwedElsewhere(s, e, id, c, paid);
  }

  lemma StepKeepsOwedElsewhere(s: State, e: Event, id: ChallengeId, c: Credential, paid: bool)
    requires Owed(s, id, c, paid) && !e.ConfirmRequest? && !e.CompleteRequest?
    ensures Owed(Step(s, e), id, c, paid) && Owed(Step(s, e), id, c, true)
  {
    if e.ReauthenticateRequest? {
      if e.purpose != SignIn { ReauthenticateEffect(s, e.session, e.purpose, e.given); }
    }
    OthersLeaveFlow(s, e, id);
    LeavingKeepsOwed(s, Step(s, e), id, c, paid);
  }

  lemma OthersLeaveFlow(s: State, e: Event, id: ChallengeId)
    requires id < s.next && !e.ConfirmRequest? && !e.CompleteRequest?
    requires e.ReauthenticateRequest? && e.purpose != SignIn ==> AddsAtMostOne(s, Step(s, e), e.purpose)
    ensures LeavesFlow(s, Step(s, e), id)
  {
  }

  lemma ConfirmKeepsOwed(s: State, x: ChallengeId, caller: Option<SessionId>, matching: set<int>, id: ChallengeId, c: Credential, paid: bool)
    requires AllWarranted(s) && Owed(s, id, c, paid)
    ensures var r := Confirm(s, x, caller, matching).0; Owed(r, id, c, paid || Pays(s, r, id, c))
  {
    var (r, reply) := Confirm(s, x, caller, matching);
    if reply.NewCodes? {
      var f := StartVerification(s.factor.value, s.clock).value;
      InstallKeepsOwed(s, f, x, AcceptedStep(Candidates(s.clock), None, matching).value, id, c, paid);
    } else {
      LeavingKeepsOwed(s, r, id, c, paid);
    }
  }

  lemma InstallKeepsOwed(s: State, f: Factor, x: ChallengeId, step: int, id: ChallengeId, c: Credential, paid: bool)
    requires AllWarranted(s) && Owed(s, id, c, paid)
    requires x in s.challenges && x in s.disclosed && s.challenges[x].open && s.challenges[x].pending.Some?
    requires s.challenges[x].action == Enroll || s.challenges[x].action == Replace
    requires s.challenges[x].reserved.Some? ==> Payable(s, x, s.challenges[x].reserved.value)
    ensures var r := Install(s, f, x, step); Owed(r, id, c, paid || Pays(s, r, id, c))
  {
    var r := Install(s, f, x, step);
    if x == id {
      assert Warranted(s, x, s.challenges[x]);
      InstallSpends(s, f, x, step);
      if Proved(s.history.proofs, id, c) { ProvedStays(s.history.proofs, r.history.proofs, id, c); }
    } else {
      LeavingKeepsOwed(s, r, id, c, paid);
      if Pays(s, r, id, c) && !paid { PaidStaysOwed(r, id, c); }
    }
  }

  lemma CompleteKeepsOwed(s: State, x: ChallengeId, caller: Option<SessionId>, given: Given, persistent: bool, conflict: bool,
                          id: ChallengeId, c: Credential, paid: bool)
    requires Owed(s, id, c, paid)
    ensures Owed(CompleteSignIn(s, x, caller, given, persistent, conflict).0, id, c, paid)
  {
    var r := CompleteSignIn(s, x, caller, given, persistent, conflict).0;
    if r != s {
      if s.challenges[x].action == Verify {
        var f := StartVerification(s.factor.value, s.clock).value;
        if given.RecoveryCodeId? {
          HoldingKeepsOwed(s, f, x, given.code, id, c, paid);
        } else if f.credential.Some? {
          VerifyKeepsOwed(s, f, x, MatchingOf(given), persistent, conflict, id, c, paid);
        } else {
          LeavingKeepsOwed(s, r, id, c, paid);
        }
      } else {
        GrantKeepsOwed(s, x, persistent, conflict, id, c, paid);
      }
    }
  }

  lemma HoldingKeepsOwed(s: State, f: Factor, x: ChallengeId, code: CodeId, id: ChallengeId, c: Credential, paid: bool)
    requires Owed(s, id, c, paid) && x in s.challenges && s.challenges[x].action == Verify && s.challenges[x].open
    ensures Owed(Reserve(s, f, x, code).0, id, c, paid)
  {
    if x != id || !Reservable(s, code) { LeavingKeepsOwed(s, Reserve(s, f, x, code).0, id, c, paid); }
  }

  lemma VerifyKeepsOwed(s: State, f: Factor, x: ChallengeId, matching: set<int>, persistent: bool, conflict: bool,
                        id: ChallengeId, c: Credential, paid: bool)
    requires Owed(s, id, c, paid) && x in s.challenges && f.credential.Some? && s.challenges[x].expected == f.credential
    requires s.challenges[x].open && s.challenges[x].action == Verify
    ensures Owed(VerifyAndGrant(s, f, x, matching, persistent, conflict).0, id, c, paid)
  {
    match AcceptedStep(Candidates(s.clock), f.last, matching)
    case None => LeavingKeepsOwed(s, Failed(s, f), id, c, paid);
    case Some(step) =>
      var a := AcceptedBy(s, f, x, step);
      LeavingKeepsOwed(s, a, id, c, paid);
      var i := |s.history.proofs|;
      assert a.history.proofs[i] == Accepted(s.clock, x, f.credential.value, step);
      GrantKeepsOwed(a, x, persistent, conflict, id, c, paid);
  }

  /** A grant to the flow itself needs the code or the payment; any other one does not concern it. */
  lemma GrantKeepsOwed(s: State, x: ChallengeId, persistent: bool, conflict: bool, id: ChallengeId, c: Credential, paid: bool)
    requires Owed(s, id, c, paid) && x in s.challenges && s.factor.Some? && s.factor.value.credential.Some?
    requires x == id ==> Proved(s.history.proofs, id, c) || paid
    ensures Owed(GrantSession(s, x, persistent, conflict).0, id, c, paid)
  {
    var r := GrantSession(s, x, persistent, conflict).0;
    assert r.history.proofs == s.history.proofs;
    forall i | 0 <= i < |r.history.grants| && r.history.grants[i].challenge == id ensures Proved(r.history.proofs, id, c) || paid {
      if i < |s.history.grants| { assert r.history.grants[i] == s.history.grants[i]; }
    }
  }

  lemma BeginningOwes(s: State, previous: Option<SessionId>, google: Google, c: Credential)
    requires Current(s) == Some(c) && GrantsInv(s)
    ensures Owed(Step(s, PasswordAccepted(previous, google)), s.next, c, false)
  {
  }

  lemma {:induction false} SignInStaysOwed(es: seq<Event>, n: nat, id: ChallengeId, c: Credential, m: nat)
    requires BeginsSignIn(es, n, id, c) && n < m <= |es|
    ensures Owed(Run(es[..m]), id, c, PaidIn(es[..m], id, c))
  {
    var s, e := Run(es[..m - 1]), es[m - 1];
    assert es[..m][..m - 1] == es[..m - 1];
    assert Run(es[..m]) == Step(s, e);
    if m == n + 1 {
      EveryRunKeepsAccount(es[..n]);
      BeginningOwes(s, e.previous, e.google, c);
      if PaidIn(es[..m], id, c) { PaidStaysOwed(Run(es[..m]), id, c); }
    } else {
      SignInStaysOwed(es, n, id, c, m - 1);
      EveryRunIsWarranted(es[..m - 1]);
      StepKeepsOwed(s, e, id, c, PaidIn(es[..m - 1], id, c));
      OnePaymentMore(es, id, c, m);
      if PaidIn(es[..m], id, c) && !(PaidIn(es[..m - 1], id, c) || Pays(s, Run(es[..m]), id, c)) { PaidStaysOwed(Run(es[..m]), id, c); }
    }
  }

  lemma OnePaymentMore(es: seq<Event>, id: ChallengeId, c: Credential, m: nat)
    requires 0 < m <= |es|
    ensures PaidIn(es[..m - 1], id, c) || Pays(Run(es[..m - 1]), Run(es[..m]), id, c) ==> PaidIn(es[..m], id, c)
  {
    var part, front := es[..m], es[..m - 1];
    assert part[..m - 1] == front && part[..m] == part;
    if PaidIn(front, id, c) {
      var i :| 0 <= i < m - 1 && PaysAt(front, i, id, c);
      assert front[..i] == part[..i] && front[..i + 1] == part[..i + 1];
      assert PaysAt(part, i, id, c);
    } else if Pays(Run(front), Run(part), id, c) {
      assert PaysAt(part, m - 1, id, c);
    }
  }

  /** In every run, a sign-in begun while an authenticator is in force returns a session only after a code of that
      authenticator was accepted in it, or one of its recovery codes was spent in it. */
  lemma SignInIsTheOwners(es: seq<Event>, n: nat, id: ChallengeId, c: Credential, i: nat)
    requires BeginsSignIn(es, n, id, c) && i < |Run(es).history.grants| && Run(es).history.grants[i].challenge == id
    ensures Proved(Run(es).history.proofs, id, c) || PaidIn(es, id, c)
  {
    assert es[..|es|] == es;
    SignInStaysOwed(es, n, id, c, |es|);
  }

  /** Such a session appears only as the answer to a completion, and counts as one more grant to its flow. */
  lemma SessionsAreGranted(s: State, e: Event, id: SessionId)
    requires id in Step(s, e).sessions && id !in s.sessions && Step(s, e).sessions[id].credential.Some?
    ensures e.CompleteRequest? && CompleteSignIn(s, e.id, e.caller, e.given, e.persistent, e.conflict).1 == SignedIn(id)
    ensures Current(s).Some? && Step(s, e).sessions[id].credential == Current(s)
    ensures Step(s, e).history.grants == s.history.grants + [Grant(e.id, Current(s).value)]
  {
    match e
    case CompleteRequest(x, caller, given, persistent, conflict) => CompletionGrants(s, x, caller, given, persistent, conflict, id);
    case ReauthenticateRequest(session, purpose, given) => ReauthenticationAddsNoSession(s, session, purpose, given);
    case ConfirmRequest(x, caller, matching) => ConfirmationAddsNoSession(s, x, caller, matching);
    case RegenerateRequest(x, caller) => RegenerationAddsNoSession(s, x, caller);
    case _ => OthersAddNoSession(s, e, id);
  }

  /** The completion answers with the one session it adds, for the credential in force. */
  ghost predicate AddsGranted(s: State, x: ChallengeId, c: Credential, r: State, reply: Reply) {
    forall id :: id in r.sessions && id !in s.sessions ==>
      reply == SignedIn(id) && r.sessions[id].credential == Some(c) && r.history.grants == s.history.grants + [Grant(x, c)]
  }

  lemma CompletionGrants(s: State, x: ChallengeId, caller: Option<SessionId>, given: Given, persistent: bool, conflict: bool, id: SessionId)
    ensures var (r, reply) := CompleteSignIn(s, x, caller, given, persistent, conflict);
      id in r.sessions && id !in s.sessions ==>
        && reply == SignedIn(id) && Current(s).Some? && r.sessions[id].credential == Current(s)
        && r.history.grants == s.history.grants + [Grant(x, Current(s).value)]
  {
    var r := CompleteSignIn(s, x, caller, given, persistent, conflict).0;
    if r != s {
      if s.challenges[x].action == Verify {
        var f := StartVerification(s.factor.value, s.clock).value;
        if !given.RecoveryCodeId? && f.credential.Some? { VerificationGrants(s, f, x, MatchingOf(given), persistent, conflict); }
      } else {
        GrantAddsOne(s, x, persistent, conflict);
      }
    }
  }

  lemma VerificationGrants(s: State, f: Factor, x: ChallengeId, matching: set<int>, persistent: bool, conflict: bool)
    requires x in s.challenges && f.credential.Some?
    ensures AddsGranted(s, x, f.credential.value, VerifyAndGrant(s, f, x, matching, persistent, conflict).0,
                        VerifyAndGrant(s, f, x, matching, persistent, conflict).1)
  {
    match AcceptedStep(Candidates(s.clock), f.last, matching)
    case None =>
    case Some(step) => GrantAddsOne(AcceptedBy(s, f, x, step), x, persistent, conflict);
  }

  lemma GrantAddsOne(s: State, x: ChallengeId, persistent: bool, conflict: bool)
    requires x in s.challenges && s.factor.Some? && s.factor.value.credential.Some?
    ensures AddsGranted(s, x, s.factor.value.credential.value, GrantSession(s, x, persistent, conflict).0,
                        GrantSession(s, x, persistent, conflict).1)
  {
  }

  lemma ReauthenticationAddsNoSession(s: State, caller: SessionId, purpose: Purpose, given: Given)
    ensures purpose != SignIn ==> Reauthenticate(s, caller, purpose, given).0.sessions == s.sessions
  {
  }

  lemma ConfirmationAddsNoSession(s: State, x: ChallengeId, caller: Option<SessionId>, matching: set<int>)
    ensures Confirm(s, x, caller, matching).0.sessions.Keys <= s.sessions.Keys
  {
  }

  lemma RegenerationAddsNoSession(s: State, x: ChallengeId, caller: Option<SessionId>)
    ensures Regenerate(s, x, caller).0.sessions.Keys <= s.sessions.Keys
  {
  }

  lemma OthersAddNoSession(s: State, e: Event, id: SessionId)
    requires Elsewhere(e) || e.PasswordAccepted? || e.SetupRequest?
    ensures id in Step(s, e).sessions && id !in s.sessions ==> Step(s, e).sessions[id].credential == None
  {
  }
}
