/** The transactions of the second factor as they run: fields updated one statement after
    another. Each is proved equal to the operation of module TwoFactor on the whole state. */
module TwoFactorAccount {

  import opened TwoFactor
  import opened Common

  class Account {
    var clock: int
    var factor: Option<Factor>
    var stamp: nat
    var confirmed: bool
    var challenges: map<ChallengeId, Challenge>
    var codes: map<CodeId, RecoveryCode>
    var sessions: map<SessionId, Session>
    var next: nat
    var disclosed: set<ChallengeId>
    var history: History

    function Rows(): State
      reads this
    {
      State(clock, factor, stamp, confirmed, challenges, codes, sessions, next, disclosed, history)
    }

    constructor ()
      ensures Rows() == Registered && AccountInv(Rows())
    {
      clock, factor, stamp, confirmed := 0, None, 0, false;
      challenges, codes, sessions, next := map[], map[], map[], 0;
      disclosed, history := {}, History([], [], []);
      new;
      EveryRunKeepsAccount([]);
    }

    method BeginFactor(purpose: Purpose, management: Option<SessionId>, previous: Option<SessionId>, google: Google) returns (id: ChallengeId)
      modifies this
      ensures id == old(next) && Rows() == Begin(old(Rows()), purpose, management, previous, google)
    {
      if factor == None {
        factor := Some(Factor(None, None, 0, None, None, 0));
      }
      var credential := factor.value.credential;
      var action := Verify;
      if credential == None {
        action := Enroll;
      }
      if purpose == ReplaceAuthenticator {
        action := Replace;
      }
      if purpose == Purpose.RegenerateRecoveryCodes {
        action := Complete;
      }
      id, next := next, next + 1;
      challenges := challenges[id := Challenge(purpose, action, clock + CHALLENGE_LIFETIME, credential, stamp,
                                               None, management, previous, None, google, true)];
    }

    method StartFactorVerification() returns (limited: bool)
      requires factor.Some?
      modifies `factor
      ensures limited == (StartVerification(old(factor.value), clock) == None)
      ensures factor == if limited then old(factor) else StartVerification(old(factor.value), clock)
    {
      var f := factor.value;
      if f.locked.Some? && f.locked.value > clock {
        return true;
      }
      if f.window == None || f.window.value + MINUTE <= clock {
        f := f.(window := Some(clock), count := 0);
      }
      if f.count >= WINDOW_ATTEMPTS {
        return true;
      }
      f := f.(count := f.count + 1);
      factor := Some(f);
      return false;
    }

    method FactorFailed() returns (reply: Reply)
      requires factor.Some?
      modifies `factor, `history
      ensures Rows() == Failed(old(Rows()), old(factor.value)) && reply == Refused(CodeInvalid)
    {
      var f := factor.value;
      var failed, until := f.failed + 1, None;
      if failed >= MAXIMUM_FAILURES {
        until := Some(clock + LOCKOUT);
        failed := 0;
      }
      factor := Some(f.(failed := failed, locked := until));
      history := history.(proofs := history.proofs + [Rejected(clock)]);
      reply := Refused(CodeInvalid);
    }

    method VerifyCurrentFactor(challenge: ChallengeId, matching: set<int>) returns (accepted: bool)
      requires factor.Some? && factor.value.credential.Some?
      modifies `factor, `history
      ensures var f := old(factor.value);
        match AcceptedStep(Candidates(clock), f.last, matching)
        case None => !accepted && Rows() == Failed(old(Rows()), f)
        case Some(step) => accepted && Rows() == AcceptedBy(old(Rows()), f, challenge, step)
    {
      var f := factor.value;
      var step := VerifyAuthenticator(matching, clock, f.last);
      accepted := step.Some?;
      if accepted {
        factor := Some(f.(last := step, failed := 0, locked := None));
        history := history.(proofs := history.proofs + [Accepted(clock, challenge, f.credential.value, step.value)]);
      } else {
        var _ := FactorFailed();
      }
    }

    method ReserveRecovery(id: ChallengeId, code: CodeId) returns (reply: Reply)
      requires factor.Some? && id in challenges
      modifies `factor, `history, `codes, `challenges
      ensures (Rows(), reply) == Reserve(old(Rows()), old(factor.value), id, code)
    {
      if code !in codes || factor.value.credential != Some(codes[code].credential) || codes[code].consumed {
        reply := FactorFailed();
        return;
      }
      if codes[code].until.Some? && codes[code].until.value > clock {
        reply := FactorFailed();
        return;
      }
      codes := codes[code := codes[code].(reservedBy := Some(id), until := Some(challenges[id].expires))];
      challenges := challenges[id := challenges[id].(reserved := Some(code), action := Replace)];
      reply := ReplacementRequired;
    }

    method TwoFactorSetup(id: ChallengeId, caller: Option<SessionId>) returns (reply: Reply)
      modifies `challenges, `next
      ensures (Rows(), reply) == Setup(old(Rows()), id, caller)
    {
      if !FlowUsable(Rows(), id, caller) {
        return Refused(AuthenticationFailed);
      }
      var c := challenges[id];
      if c.action != Enroll && c.action != Replace {
        return Refused(OperationConflict);
      }
      if c.pending == None {
        c := c.(pending := Some(next));
        challenges := challenges[id := c];
        next := next + 1;
      }
      reply := Candidate(c.pending.value);
    }

    method RecoveryCodes(credential: Credential) returns (first: CodeId)
      modifies `codes, `next
      ensures first == old(next) && Rows() == WithNewCodes(old(Rows()), credential)
    {
      first := next;
      codes := map[];
      for i := 0 to RECOVERY_CODES
        invariant codes == InsertedCodes(first, i, credential)
        invariant first == old(next) && next == first + i
      {
        codes := codes[next := RecoveryCode(credential, false, None, None)];
        next := next + 1;
      }
    }

    method RevokeFactorProofs(keep: ChallengeId)
      modifies `sessions, `challenges
      ensures Rows() == WithProofsRevoked(old(Rows()), keep)
    {
      sessions := map id | id in sessions :: sessions[id].(revoked := true);
      challenges := map id | id in challenges :: if id == keep then challenges[id] else challenges[id].(open := false);
    }

    method ConfirmTwoFactorSetup(id: ChallengeId, caller: Option<SessionId>, matching: set<int>) returns (reply: Reply)
      modifies this
      ensures (Rows(), reply) == Confirm(old(Rows()), id, caller, matching)
    {
      if !FlowUsable(Rows(), id, caller) {
        return Refused(AuthenticationFailed);
      }
      var c := challenges[id];
      if (c.action != Enroll && c.action != Replace) || c.pending == None {
        return Refused(OperationConflict);
      }
      var limited := StartFactorVerification();
      if limited {
        return Refused(RateLimited);
      }
      var step := VerifyAuthenticator(matching, clock, None);
      if step == None {
        reply := FactorFailed();
        return;
      }
      if c.reserved.Some? && !Payable(Rows(), id, c.reserved.value) {
        return Refused(AuthenticationFailed);
      }
      var first := InstallCandidate(id, step.value);
      reply := NewCodes(first);
    }

    method InstallCandidate(id: ChallengeId, step: int) returns (first: CodeId)
      requires factor.Some? && id in challenges && challenges[id].pending.Some?
      modifies this
      ensures first == old(next) && Rows() == Install(old(Rows()), old(factor.value), id, step)
    {
      var c := challenges[id];
      var credential := c.pending.value;
      factor := Some(factor.value.(credential := c.pending, last := Some(step), failed := 0, locked := None));
      history := history.(proofs := history.proofs + [Accepted(clock, id, credential, step)],
                          replacements := history.replacements + [Replacement(id, credential, c.reserved)]);
      first := RecoveryCodes(credential);
      challenges := challenges[id := c.(expected := c.pending, action := Complete, pending := None, open := c.purpose == SignIn)];
      RevokeFactorProofs(id);
    }

    method CompleteTwoFactor(id: ChallengeId, caller: Option<SessionId>, given: Given, persistent: bool, conflict: bool) returns (reply: Reply)
      modifies this
      ensures (Rows(), reply) == CompleteSignIn(old(Rows()), id, caller, given, persistent, conflict)
    {
      if !FlowUsable(Rows(), id, caller) {
        return Refused(AuthenticationFailed);
      }
      var c := challenges[id];
      if c.purpose != SignIn {
        return Refused(OperationConflict);
      }
      if c.action == Verify {
        var limited := StartFactorVerification();
        if limited {
          return Refused(RateLimited);
        }
        if given.RecoveryCodeId? {
          reply := ReserveRecovery(id, given.code);
          return;
        }
        if factor.value.credential == None {
          return Refused(OperationConflict);
        }
        reply := VerifyAndCreateSession(id, MatchingOf(given), persistent, conflict);
        return;
      }
      if given != Nothing || c.action != Complete || factor.value.credential == None {
        return Refused(OperationConflict);
      }
      reply := CreateSession(id, persistent, conflict);
    }

    method VerifyAndCreateSession(id: ChallengeId, matching: set<int>, persistent: bool, conflict: bool) returns (reply: Reply)
      requires id in challenges && factor.Some? && factor.value.credential.Some?
      modifies this
      ensures (Rows(), reply) == VerifyAndGrant(old(Rows()), old(factor.value), id, matching, persistent, conflict)
    {
      var accepted := VerifyCurrentFactor(id, matching);
      if !accepted {
        return Refused(CodeInvalid);
      }
      reply := CreateSession(id, persistent, conflict);
    }

    // The Google association, the session, the end of the previous one, and the flow's consumption.
    method CreateSession(id: ChallengeId, persistent: bool, conflict: bool) returns (reply: Reply)
      requires id in challenges && factor.Some? && factor.value.credential.Some?
      modifies this
      ensures (Rows(), reply) == GrantSession(old(Rows()), id, persistent, conflict)
    {
      var c := challenges[id];
      if c.google != NoGoogle {
        if conflict {
          return Refused(GoogleConflict);
        }
        FinalizeGoogle(id);
      }
      var credential := factor.value.credential;
      var session := next;
      sessions := sessions[session := Session(credential, clock + if persistent then PERSISTENT_LIFETIME else SESSION_LIFETIME, false)];
      next := next + 1;
      if c.previous.Some? && c.previous.value in sessions {
        sessions := sessions[c.previous.value := sessions[c.previous.value].(revoked := true)];
      }
      challenges := challenges[id := c.(open := false, action := Complete)];
      history := history.(grants := history.grants + [Grant(id, credential.value)]);
      reply := SignedIn(session);
    }

    method FinalizeGoogle(id: ChallengeId)
      requires id in challenges
      modifies this
      ensures Rows() == if old(challenges[id].google) == Claim
                        then WithProofsRevoked(old(Rows()), id).(stamp := old(stamp) + 1, confirmed := true)
                        else old(Rows())
    {
      if challenges[id].google == Claim {
        RevokeFactorProofs(id);
        stamp, confirmed := stamp + 1, true;
      }
    }

    method ReauthenticateTwoFactor(caller: SessionId, purpose: Purpose, given: Given) returns (reply: Reply)
      requires purpose != SignIn
      modifies this
      ensures (Rows(), reply) == Reauthenticate(old(Rows()), caller, purpose, given)
    {
      if factor == None {
        return Refused(AuthenticationFailed);
      }
      if factor.value.credential == None {
        return Refused(OperationConflict);
      }
      var before := factor;
      var limited := StartFactorVerification();
      if limited {
        return Refused(RateLimited);
      }
      if given.RecoveryCodeId? && purpose != ReplaceAuthenticator {
        factor := before;
        return Refused(OperationConflict);
      }
      if !given.RecoveryCodeId? {
        var accepted := VerifyCurrentFactor(next, MatchingOf(given));
        if !accepted {
          return Refused(CodeInvalid);
        }
      }
      var id := BeginFactor(purpose, Some(caller), None, NoGoogle);
      if given.RecoveryCodeId? {
        reply := ReserveRecovery(id, given.code);
        if reply.Refused? {
          return;
        }
      }
      disclosed := disclosed + {id};
      reply := Began(id);
    }

    method RegenerateRecoveryCodes(id: ChallengeId, caller: Option<SessionId>) returns (reply: Reply)
      modifies this
      ensures (Rows(), reply) == Regenerate(old(Rows()), id, caller)
    {
      if !FlowUsable(Rows(), id, caller) {
        return Refused(AuthenticationFailed);
      }
      var c := challenges[id];
      if c.purpose != Purpose.RegenerateRecoveryCodes || c.action != Complete || factor.value.credential == None {
        return Refused(OperationConflict);
      }
      var first := RecoveryCodes(factor.value.credential.value);
      RevokeFactorProofs(id);
      challenges := challenges[id := c.(open := false)];
      reply := NewCodes(first);
    }
  }
}
