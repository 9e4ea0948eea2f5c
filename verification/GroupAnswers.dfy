/** What each request about a private group does and answers, told from who belongs, who is invited and which code is
    published when it arrives. */
module GroupAnswers {
  import opened Common
  import opened PrivateGroups

  // ---------------------------------------------------------------- who belongs

  /** The invitation can still be accepted. */
  predicate Live(s: State, id: GroupId, i: InvitationId) {
    id in s.groups && i in s.groups[id].invitations && s.groups[id].invitations[i].expires > s.clock
  }

  predicate LiveFor(s: State, id: GroupId, i: InvitationId, m: Member) { Live(s, id, i) && s.groups[id].invitations[i].member == m }

  predicate Awaited(g: Group, m: Member, now: int) {
    exists i :: i in g.invitations && g.invitations[i].member == m && g.invitations[i].expires > now
  }

  predicate HasRoom(g: Group, now: int) { |g.members| + |Pending(g.invitations, now)| < 100 }

  /** A place is free, or kept for this member by an invitation. */
  predicate HasPlace(g: Group, m: Member, now: int) { HasRoom(g, now) || Awaited(g, m, now) }

  predicate Unlocks(s: State, id: GroupId, code: Code) { id in s.groups && s.groups[id].code == Some(code) }

  predicate MayEnter(s: State, m: Member) { |GroupsOf(s.groups, m)| < 50 }

  predicate EntersByCode(s: State, m: Member, id: GroupId, code: Code) {
    m in s.users && Unlocks(s, id, code) && !Belongs(s, m, id) && MayEnter(s, m) && HasPlace(s.groups[id], m, s.clock)
  }

  /** Founding it, accepting an own live invitation, or showing the published code. */
  predicate Enters(s: State, e: Event, k: Member, id: GroupId) {
    || (e.CreateGroup? && e.m == k && id == s.next && k in s.users && MayEnter(s, k))
    || (e.AnswerInvitation? && e.m == k && e.id == id && e.accept && LiveFor(s, id, e.i, k) && MayEnter(s, k))
    || (e.JoinByCode? && e.m == k && e.id == id && EntersByCode(s, k, id, e.code))
  }

  /** The group deleted or the membership removed by someone who belongs, or the account deleted. */
  predicate Departs(s: State, e: Event, k: Member, id: GroupId) {
    || (e.DeleteGroup? && e.id == id && Belongs(s, e.m, id))
    || (e.RemoveMember? && e.id == id && e.target == k && Belongs(s, e.m, id))
    || (e.RemoveAccount? && e.m == k && k in s.users)
  }

  /** Whoever belonged and did not depart belongs since the same time, and whoever entered from now on. */
  ghost predicate MembersMove(s: State, e: Event, k: Member, id: GroupId) {
    var r := Step(s, e);
    && (Belongs(r, k, id) <==> (Belongs(s, k, id) && !Departs(s, e, k, id)) || Enters(s, e, k, id))
    && (Belongs(r, k, id) ==> r.groups[id].members[k] == if Belongs(s, k, id) then s.groups[id].members[k] else s.clock)
  }

  /** Who belongs after a step: whoever belonged and did not depart, and whoever entered, from that time on. */
  lemma MembershipIsEarned(s: State, e: Event, k: Member, id: GroupId)
    requires Inv(s)
    ensures MembersMove(s, e, k, id)
  {
    match e
    case CreateGroup(m) => FoundingMoves(s, m, k, id);
    case AnswerInvitation(m, x, i, accept) =>
      if Holds(s, m, x, i) { AcceptKeepsSound(s.groups[x], i, m, s.clock); }
      AnsweringMoves(s, m, x, i, accept, k, id);
    case JoinByCode(m, x, code) =>
      if x in s.groups { PlacesAreCounted(s.groups[x], m, s.clock); }
      JoiningMoves(s, m, x, code, k, id);
    case RemoveMember(m, x, target) => RemovingMoves(s, m, x, target, k, id);
    case RemoveAccount(m) =>
      if m in s.users && id in s.groups { AccountLeavesGroup(s, m, id); }
      DeletingMoves(s, m, k, id);
    case _ => OthersMoveNobody(s, e, k, id);
  }

  lemma OthersMoveNobody(s: State, e: Event, k: Member, id: GroupId)
    requires !e.CreateGroup? && !e.AnswerInvitation? && !e.JoinByCode? && !e.RemoveMember? && !e.RemoveAccount?
    ensures MembersMove(s, e, k, id)
  {
  }

  lemma FoundingMoves(s: State, m: Member, k: Member, id: GroupId)
    requires s.next !in s.groups
    ensures MembersMove(s, CreateGroup(m), k, id)
  {
  }

  lemma AnsweringMoves(s: State, m: Member, x: GroupId, i: InvitationId, accept: bool, k: Member, id: GroupId)
    requires Holds(s, m, x, i) ==> m !in s.groups[x].members
    ensures MembersMove(s, AnswerInvitation(m, x, i, accept), k, id)
  {
    assert LiveFor(s, x, i, m) == Holds(s, m, x, i);
  }

  lemma JoiningMoves(s: State, m: Member, x: GroupId, code: Code, k: Member, id: GroupId)
    requires x in s.groups ==> HasPlace(s.groups[x], m, s.clock) == (Occupied(s.groups[x], m, s.clock) < GROUP_LIMIT)
    ensures MembersMove(s, JoinByCode(m, x, code), k, id)
  {
  }

  lemma RemovingMoves(s: State, m: Member, x: GroupId, target: Member, k: Member, id: GroupId)
    ensures MembersMove(s, RemoveMember(m, x, target), k, id)
  {
    if Belongs(s, m, x) && Belongs(s, target, x) && Orphaned(s.groups[x], target) {
      assert s.groups[x].members.Keys == {target};
    }
  }

  lemma DeletingMoves(s: State, m: Member, k: Member, id: GroupId)
    requires m in s.users && id in s.groups ==> OnlyLeaves(s, m, id)
    ensures MembersMove(s, RemoveAccount(m), k, id)
  {
    assert id in DeleteAccount(s, m).0.groups ==> id in s.groups;
  }

  ghost predicate OnlyLeaves(s: State, m: Member, id: GroupId)
    requires id in s.groups
  {
    var r := DeleteAccount(s, m).0;
    && (id in r.groups <==> s.groups[id].members.Keys != {m})
    && (id in r.groups ==> r.groups[id].members == s.groups[id].members - {m})
  }

  lemma PlacesAreCounted(g: Group, m: Member, now: int)
    requires Sound(g, now)
    ensures HasPlace(g, m, now) <==> Occupied(g, m, now) < GROUP_LIMIT
  {
    if Awaited(g, m, now) {
      var i :| i in g.invitations && g.invitations[i].member == m && g.invitations[i].expires > now;
      InvitationKeepsAPlace(g, i, m, now);
    } else {
      OthersAreAll(g.invitations, m, now);
    }
  }

  lemma OthersAreAll(invitations: map<InvitationId, Invitation>, m: Member, now: int)
    requires forall i :: i in invitations && invitations[i].expires > now ==> invitations[i].member != m
    ensures Pending(Others(invitations, m), now) == Pending(invitations, now)
  {
  }

  // ---------------------------------------------------------------- which groups there are, and whose

  predicate Founded(s: State, e: Event, id: GroupId) { e.CreateGroup? && Enters(s, e, e.m, id) }

  /** Every member departs at once. */
  predicate Ends(s: State, e: Event, id: GroupId) { id in s.groups && forall k :: k in s.groups[id].members ==> Departs(s, e, k, id) }

  ghost predicate OwnerMoves(s: State, e: Event, id: GroupId) {
    var r := Step(s, e);
    && (id in r.groups <==> (id in s.groups && !Ends(s, e, id)) || Founded(s, e, id))
    && (id in r.groups && id !in s.groups ==> r.groups[id].owner == e.m)
    && (id in r.groups && id in s.groups ==>
          if Departs(s, e, s.groups[id].owner, id) then IsSuccessor(s.groups[id].members, s.groups[id].owner, r.groups[id].owner)
          else r.groups[id].owner == s.groups[id].owner)
  }

  predicate Owned(s: State, id: GroupId) { id in s.groups ==> s.groups[id].owner in s.groups[id].members }

  /** A group exists from its founding until its last member departs; when its owner departs before that, whoever joined
      first of the others succeeds. */
  lemma GroupsComeAndGo(s: State, e: Event, id: GroupId)
    requires Inv(s)
    ensures OwnerMoves(s, e, id)
  {
    assert Owned(s, id);
    match e
    case CreateGroup(m) => FoundingOwns(s, m, id);
    case DeleteGroup(m, x) => DeletingEnds(s, m, x, id);
    case RemoveMember(m, x, target) => RemovingEnds(s, m, x, target, id);
    case RemoveAccount(m) => AccountEnds(s, m, id);
    case _ => OthersKeepOwner(s, e, id);
  }

  lemma FoundingOwns(s: State, m: Member, id: GroupId)
    requires Owned(s, id) && s.next !in s.groups
    ensures OwnerMoves(s, CreateGroup(m), id)
  {
  }

  lemma DeletingEnds(s: State, m: Member, x: GroupId, id: GroupId)
    requires Owned(s, id)
    ensures OwnerMoves(s, DeleteGroup(m, x), id)
  {
  }

  lemma OthersKeepOwner(s: State, e: Event, id: GroupId)
    requires Owned(s, id) && !e.CreateGroup? && !e.DeleteGroup? && !e.RemoveMember? && !e.RemoveAccount?
    ensures OwnerMoves(s, e, id)
  {
  }

  lemma RemovingEnds(s: State, m: Member, x: GroupId, target: Member, id: GroupId)
    requires Owned(s, id)
    ensures OwnerMoves(s, RemoveMember(m, x, target), id)
  {
    if x == id && Belongs(s, m, id) && Belongs(s, target, id) {
      OneStays(s.groups[id], target);
      assert Ends(s, RemoveMember(m, x, target), id) <==> s.groups[id].members.Keys == {target};
    }
  }

  lemma AccountEnds(s: State, m: Member, id: GroupId)
    requires Owned(s, id)
    ensures OwnerMoves(s, RemoveAccount(m), id)
  {
    if m in s.users && id in s.groups {
      OneStays(s.groups[id], m);
      assert Ends(s, RemoveAccount(m), id) <==> s.groups[id].members.Keys <= {m};
    }
  }

  lemma OneStays(g: Group, departing: Member)
    requires g.owner in g.members
    ensures Orphaned(g, departing) <==> g.members.Keys == {departing}
    ensures g.members.Keys != {departing} ==> exists k :: k in g.members && k != departing
  {
    if g.owner == departing {
      assert g.members.Keys == {departing} + (g.members.Keys - {departing});
    } else {
      assert g.owner in g.members && g.owner != departing;
    }
  }

  // ---------------------------------------------------------------- who is invited

  /** A member invites a confirmed, visible outsider who is not invited yet, while a place is free. */
  predicate IsInvited(s: State, e: Event, id: GroupId, i: InvitationId) {
    && e.InviteMember? && e.id == id && i == s.next && Belongs(s, e.m, id)
    && e.target in s.users && s.users[e.target] && !Belongs(s, e.target, id)
    && HasRoom(s.groups[id], s.clock) && !Awaited(s.groups[id], e.target, s.clock)
  }

  /** It expires, is declined or accepted by its holder, is revoked by a member, is used up by the holder's joining, or
      goes with the group or the holder. */
  predicate Closes(s: State, e: Event, id: GroupId, i: InvitationId) {
    && Live(s, id, i)
    && var invitation := s.groups[id].invitations[i];
       || (e.Tick? && invitation.expires <= s.clock + e.seconds)
       || (e.AnswerInvitation? && e.id == id && e.i == i && e.m == invitation.member && (e.accept ==> MayEnter(s, e.m)))
       || (e.RevokeInvitation? && e.id == id && e.i == i && Belongs(s, e.m, id))
       || (e.JoinByCode? && Enters(s, e, invitation.member, id))
       || (e.RemoveAccount? && e.m == invitation.member && e.m in s.users)
       || Ends(s, e, id)
  }

  ghost predicate InvitationMoves(s: State, e: Event, id: GroupId, i: InvitationId) {
    var r := Step(s, e);
    && (Live(r, id, i) <==> (Live(s, id, i) && !Closes(s, e, id, i)) || IsInvited(s, e, id, i))
    && (Live(r, id, i) ==>
          r.groups[id].invitations[i] == if Live(s, id, i) then s.groups[id].invitations[i] else Invitation(e.target, s.clock + 1209600))
  }

  /** The live invitations after a step are those before it that were not closed, and a new one, which stays for fourteen days. */
  lemma InvitationsComeAndGo(s: State, e: Event, id: GroupId, i: InvitationId)
    requires Inv(s)
    ensures InvitationMoves(s, e, id, i)
  {
    GroupsComeAndGo(s, e, id);
    match e
    case Tick(seconds) => TimeCloses(s, seconds, id, i);
    case InviteMember(m, x, target) =>
      if id in s.groups { assert Refers(s.groups[id], s.users, s.next); }
      InvitingOpens(s, m, x, target, id, i);
    case AnswerInvitation(m, x, j, accept) => AnsweringCloses(s, m, x, j, accept, id, i);
    case RevokeInvitation(m, x, j) => RevokingCloses(s, m, x, j, id, i);
    case JoinByCode(m, x, code) =>
      if x in s.groups { PlacesAreCounted(s.groups[x], m, s.clock); }
      if id in s.groups { assert Sound(s.groups[id], s.clock); }
      JoiningCloses(s, m, x, code, id, i);
    case RemoveMember(m, x, target) => RemovingCloses(s, m, x, target, id, i);
    case RemoveAccount(m) =>
      if m in s.users && id in s.groups { AccountLeavesGroup(s, m, id); }
      AccountCloses(s, m, id, i);
    case _ => OthersCloseNothing(s, e, id, i);
  }

  lemma TimeCloses(s: State, seconds: nat, id: GroupId, i: InvitationId)
    requires Owned(s, id)
    ensures InvitationMoves(s, Tick(seconds), id, i)
  {
  }

  lemma InvitingOpens(s: State, m: Member, x: GroupId, target: Member, id: GroupId, i: InvitationId)
    requires Owned(s, id) && !Live(s, id, s.next)
    ensures InvitationMoves(s, InviteMember(m, x, target), id, i)
  {
    if x in s.groups { AwaitedIsPending(s.groups[x], target, s.clock); }
  }

  lemma AwaitedIsPending(g: Group, m: Member, now: int)
    ensures Awaited(g, m, now) == Invites(Pending(g.invitations, now), m)
  {
    var pending := Pending(g.invitations, now);
    if Awaited(g, m, now) {
      var i :| i in g.invitations && g.invitations[i].member == m && g.invitations[i].expires > now;
      assert i in pending && pending[i].member == m;
    }
  }

  lemma AnsweringCloses(s: State, m: Member, x: GroupId, j: InvitationId, accept: bool, id: GroupId, i: InvitationId)
    requires Owned(s, id)
    ensures InvitationMoves(s, AnswerInvitation(m, x, j, accept), id, i)
  {
  }

  lemma RevokingCloses(s: State, m: Member, x: GroupId, j: InvitationId, id: GroupId, i: InvitationId)
    requires Owned(s, id)
    ensures InvitationMoves(s, RevokeInvitation(m, x, j), id, i)
  {
  }

  lemma JoiningCloses(s: State, m: Member, x: GroupId, code: Code, id: GroupId, i: InvitationId)
    requires Owned(s, id) && (Live(s, id, i) ==> !Belongs(s, s.groups[id].invitations[i].member, id))
    requires x in s.groups ==> HasPlace(s.groups[x], m, s.clock) == (Occupied(s.groups[x], m, s.clock) < GROUP_LIMIT)
    ensures InvitationMoves(s, JoinByCode(m, x, code), id, i)
  {
  }

  lemma RemovingCloses(s: State, m: Member, x: GroupId, target: Member, id: GroupId, i: InvitationId)
    requires OwnerMoves(s, RemoveMember(m, x, target), id)
    ensures InvitationMoves(s, RemoveMember(m, x, target), id, i)
  {
  }

  lemma AccountCloses(s: State, m: Member, id: GroupId, i: InvitationId)
    requires OwnerMoves(s, RemoveAccount(m), id)
    requires m in s.users && id in s.groups && id in Step(s, RemoveAccount(m)).groups ==>
      Step(s, RemoveAccount(m)).groups[id].invitations == Others(s.groups[id].invitations, m)
    ensures InvitationMoves(s, RemoveAccount(m), id, i)
  {
  }

  lemma OthersCloseNothing(s: State, e: Event, id: GroupId, i: InvitationId)
    requires OwnerMoves(s, e, id) && Owned(s, id)
    requires s.next !in s.groups && (e.Register? || e.SetVisible? || e.CreateGroup? || e.DeleteGroup? || e.PublishLink? || e.RevokeLink?)
    ensures InvitationMoves(s, e, id, i)
  {
  }

  // ---------------------------------------------------------------- codes and accounts

  predicate Publishes(s: State, e: Event, id: GroupId) { e.PublishLink? && e.id == id && Belongs(s, e.m, id) && s.groups[id].code == None }

  predicate Withdraws(s: State, e: Event, id: GroupId) { e.RevokeLink? && e.id == id && Belongs(s, e.m, id) }

  ghost predicate CodeMoves(s: State, e: Event, id: GroupId) {
    var groups := Step(s, e).groups;
    && (id in groups && Publishes(s, e, id) ==> groups[id].code == Some(s.next))
    && (id in groups && (id !in s.groups || Withdraws(s, e, id)) ==> groups[id].code == None)
    && (id in groups && id in s.groups && !Publishes(s, e, id) && !Withdraws(s, e, id) ==> groups[id].code == s.groups[id].code)
  }

  /** A group's code changes only by a member's publishing one where there is none, or withdrawing it. */
  lemma CodesComeAndGo(s: State, e: Event, id: GroupId)
    requires Inv(s)
    ensures CodeMoves(s, e, id)
  {
    match e
    case RemoveMember(m, x, target) => RemovingKeepsCode(s, m, x, target, id);
    case RemoveAccount(m) => AccountKeepsCode(s, m, id);
    case _ => OthersKeepCode(s, e, id);
  }

  lemma RemovingKeepsCode(s: State, m: Member, x: GroupId, target: Member, id: GroupId)
    ensures CodeMoves(s, RemoveMember(m, x, target), id)
  {
  }

  lemma AccountKeepsCode(s: State, m: Member, id: GroupId)
    ensures CodeMoves(s, RemoveAccount(m), id)
  {
  }

  lemma OthersKeepCode(s: State, e: Event, id: GroupId)
    requires s.next !in s.groups && !e.RemoveMember? && !e.RemoveAccount?
    ensures CodeMoves(s, e, id)
  {
  }

  /** Accounts come by registration and go by deletion, and are visible as their holder last said. */
  lemma AccountsComeAndGo(s: State, e: Event, k: Member)
    requires Inv(s)
    ensures var r := Step(s, e);
      && (k in r.users <==> (k in s.users && e != RemoveAccount(k)) || (e.Register? && k == s.next))
      && (k in r.users && k !in s.users ==> !r.users[k])
      && (k in r.users && k in s.users ==> r.users[k] == if e.SetVisible? && e.m == k then e.visible else s.users[k])
  {
    match e
    case Register =>
    case SetVisible(m, visible) =>
    case RemoveAccount(m) =>
    case _ => OthersKeepUsers(s, e);
  }

  lemma OthersKeepUsers(s: State, e: Event)
    requires !e.Register? && !e.SetVisible? && !e.RemoveAccount?
    ensures Step(s, e).users == s.users
  {
  }

  // ---------------------------------------------------------------- replies

  /** A published code lets in everyone who may enter and has a place; nobody enters without it. */
  lemma JoinIsAnswered(s: State, m: Member, id: GroupId, code: Code)
    requires Inv(s)
    ensures var (r, reply) := Join(s, m, id, code);
      && (reply == Done <==> m in s.users && Unlocks(s, id, code) && (Belongs(s, m, id) || EntersByCode(s, m, id, code)))
      && (reply == Refused(LinkNotFound) <==> !Unlocks(s, id, code))
      && (reply == Refused(UserNotFound) ==> m !in s.users)
      && (reply == Refused(LimitReached) ==> !MayEnter(s, m) || !HasPlace(s.groups[id], m, s.clock))
      && (reply != Done ==> reply.failure in {LinkNotFound, UserNotFound, LimitReached} && r == s)
  {
    if id in s.groups { PlacesAreCounted(s.groups[id], m, s.clock); }
  }

  lemma InviteIsAnswered(s: State, m: Member, id: GroupId, target: Member)
    ensures var (r, reply) := Invite(s, m, id, target);
      && (reply == Done <==> IsInvited(s, InviteMember(m, id, target), id, s.next))
      && (reply == Refused(GroupNotFound) <==> !Belongs(s, m, id))
      && (reply == Refused(MemberNotFound) ==> target !in s.users || !s.users[target])
      && (reply == Refused(AlreadyMember) ==> Belongs(s, target, id))
      && (reply == Refused(LimitReached) ==> !HasRoom(s.groups[id], s.clock))
      && (reply == Refused(InvitationExists) ==> Awaited(s.groups[id], target, s.clock))
      && (reply != Done ==> reply.failure in {GroupNotFound, MemberNotFound, AlreadyMember, LimitReached, InvitationExists} && r == s)
  {
    if id in s.groups { AwaitedIsPending(s.groups[id], target, s.clock); }
  }

  lemma AnswerIsAnswered(s: State, m: Member, id: GroupId, i: InvitationId, accept: bool)
    ensures var (r, reply) := Answer(s, m, id, i, accept);
      && (reply == Done <==> LiveFor(s, id, i, m) && (accept ==> MayEnter(s, m)))
      && (reply == Refused(InvitationNotFound) <==> !LiveFor(s, id, i, m))
      && (reply != Done ==> reply.failure in {InvitationNotFound, LimitReached} && r == s)
  {
  }

  lemma RemovalIsAnswered(s: State, m: Member, id: GroupId, target: Member)
    ensures var (r, reply) := Remove(s, m, id, target);
      && (reply == Done <==> Belongs(s, m, id) && Belongs(s, target, id))
      && (reply == Refused(GroupNotFound) <==> !Belongs(s, m, id))
      && (reply != Done ==> reply.failure in {GroupNotFound, MemberNotFound} && r == s)
  {
  }
}
