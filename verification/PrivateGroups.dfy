/** Private groups: members, personal invitations, shared join codes and the succession of
    owners. Each operation is one transaction holding the user and group row locks; times
    are in seconds and never go back. */
module PrivateGroups {
  import opened Common

  const GROUP_LIMIT := 100
  const MEMBERSHIP_LIMIT := 50
  const INVITATION_LIFETIME := 14 * 24 * 3600

  type Member = nat
  type GroupId = nat
  type InvitationId = nat
  type Code = nat

  datatype Invitation = Invitation(member: Member, expires: int)

  /** `members` gives the time each one joined. */
  datatype Group = Group(owner: Member, members: map<Member, int>, invitations: map<InvitationId, Invitation>, code: Option<Code>)

  /** `users` says who is confirmed and visible in member search. */
  datatype State = State(clock: int, users: map<Member, bool>, groups: map<GroupId, Group>, next: nat)

  datatype Failure =
    | GroupNotFound | MemberNotFound | AlreadyMember | LimitReached
    | InvitationExists | InvitationNotFound | LinkExists | LinkNotFound | UserNotFound

  datatype Reply = Done | Refused(failure: Failure)

  // ---------------------------------------------------------------- one group

  function Pending(invitations: map<InvitationId, Invitation>, now: int): map<InvitationId, Invitation> {
    map id | id in invitations && invitations[id].expires > now :: invitations[id]
  }

  predicate Invites(invitations: map<InvitationId, Invitation>, m: Member) {
    exists id :: id in invitations && invitations[id].member == m
  }

  /** The invitations of everyone but `m`. */
  function Others(invitations: map<InvitationId, Invitation>, m: Member): map<InvitationId, Invitation> {
    map id | id in invitations && invitations[id].member != m :: invitations[id]
  }

  ghost predicate Sound(g: Group, now: int) {
    && g.owner in g.members
    && |g.members| + |Pending(g.invitations, now)| <= GROUP_LIMIT
    && (forall id :: id in g.invitations ==> g.invitations[id].member !in g.members)
    && (forall a, b :: a in g.invitations && b in g.invitations && g.invitations[a].member == g.invitations[b].member ==> a == b)
  }

  function Invited(g: Group, id: InvitationId, m: Member, now: int): Group {
    g.(invitations := Pending(g.invitations, now)[id := Invitation(m, now + INVITATION_LIFETIME)])
  }

  function Accepted(g: Group, id: InvitationId, m: Member, now: int): Group {
    g.(invitations := g.invitations - {id}, members := g.members[m := now])
  }

  function Joined(g: Group, m: Member, now: int): Group {
    g.(invitations := Others(g.invitations, m), members := g.members[m := now])
  }

  function Left(g: Group, m: Member): Group { g.(members := g.members - {m}) }

  /** Occupancy as the join counts it: the joiner's own invitation is free. */
  function Occupied(g: Group, m: Member, now: int): nat {
    |g.members| + |Pending(Others(g.invitations, m), now)|
  }

  lemma {:induction false} FewerEntries<K, V>(part: map<K, V>, whole: map<K, V>)
    requires forall k :: k in part ==> k in whole
    ensures |part| <= |whole|
    decreases |part|
  {
    if part != map[] {
      var k :| k in part;
      FewerEntries(part - {k}, whole - {k});
      OneFewer(part, k);
      OneFewer(whole, k);
    }
  }

  lemma OneFewer<K, V>(m: map<K, V>, k: K)
    requires k in m
    ensures |m - {k}| == |m| - 1
  {
    assert m.Keys == (m - {k}).Keys + {k};
  }

  lemma OneMore<K, V>(m: map<K, V>, k: K, v: V)
    requires k !in m
    ensures |m[k := v]| == |m| + 1
  {
    assert m[k := v].Keys == m.Keys + {k};
  }

  lemma TimeKeepsSound(g: Group, now: int, later: int)
    requires Sound(g, now) && now <= later
    ensures Sound(g, later)
  {
    FewerEntries(Pending(g.invitations, later), Pending(g.invitations, now));
  }

  lemma InviteKeepsSound(g: Group, id: InvitationId, m: Member, now: int)
    requires Sound(g, now) && m !in g.members && id !in g.invitations
    requires !Invites(Pending(g.invitations, now), m) && |g.members| + |Pending(g.invitations, now)| < GROUP_LIMIT
    ensures Sound(Invited(g, id, m, now), now)
  {
    var pending := Pending(g.invitations, now);
    OneMore(pending, id, Invitation(m, now + INVITATION_LIFETIME));
    assert Pending(Invited(g, id, m, now).invitations, now) == pending[id := Invitation(m, now + INVITATION_LIFETIME)];
  }

  /** An acceptance checks no size: the place was kept by the invitation it consumes. */
  lemma AcceptKeepsSound(g: Group, id: InvitationId, m: Member, now: int)
    requires Sound(g, now) && id in g.invitations && g.invitations[id].member == m && g.invitations[id].expires > now
    ensures Sound(Accepted(g, id, m, now), now) && m !in g.members
  {
    OneMore(g.members, m, now);
    var pending := Pending(g.invitations, now);
    OneFewer(pending, id);
    assert Pending(g.invitations - {id}, now) == pending - {id};
  }

  lemma JoinKeepsSound(g: Group, m: Member, now: int)
    requires Sound(g, now) && m !in g.members && Occupied(g, m, now) < GROUP_LIMIT
    ensures Sound(Joined(g, m, now), now)
  {
    OneMore(g.members, m, now);
  }

  lemma LeaveKeepsSound(g: Group, m: Member, now: int)
    requires Sound(g, now) && m != g.owner
    ensures Sound(Left(g, m), now)
  {
    FewerEntries(g.members - {m}, g.members);
  }

  /** The holder of an invitation is never turned away by a full group. */
  lemma InvitationKeepsAPlace(g: Group, id: InvitationId, m: Member, now: int)
    requires Sound(g, now) && id in g.invitations && g.invitations[id].member == m && g.invitations[id].expires > now
    ensures Occupied(g, m, now) < GROUP_LIMIT
  {
    var pending := Pending(g.invitations, now);
    OneFewer(pending, id);
    FewerEntries(Pending(Others(g.invitations, m), now), pending - {id});
  }

  // ---------------------------------------------------------------- succession

  predicate Before(members: map<Member, int>, a: Member, b: Member)
    requires a in members && b in members
  {
    members[a] < members[b] || (members[a] == members[b] && a <= b)
  }

  /** The longest-standing other member; identifiers decide between simultaneous ones. */
  ghost predicate IsSuccessor(members: map<Member, int>, departing: Member, m: Member) {
    && m in members && m != departing
    && forall k :: k in members && k != departing ==> Before(members, m, k)
  }

  lemma {:induction false} SuccessorExists(members: map<Member, int>, departing: Member)
    requires members.Keys - {departing} != {}
    ensures exists m :: IsSuccessor(members, departing, m)
    decreases |members|
  {
    var c :| c in members.Keys - {departing};
    var rest := members - {c};
    if rest.Keys - {departing} == {} {
      assert members.Keys == rest.Keys + {c};
      assert IsSuccessor(members, departing, c);
    } else {
      OneFewer(members, c);
      SuccessorExists(rest, departing);
      var m :| IsSuccessor(rest, departing, m);
      var first := if Before(members, c, m) then c else m;
      assert forall k :: k in members && k != departing && k != c ==> k in rest;
      assert IsSuccessor(members, departing, first);
    }
  }

  ghost function Successor(members: map<Member, int>, departing: Member): (m: Member)
    requires members.Keys - {departing} != {}
    ensures IsSuccessor(members, departing, m)
  {
    SuccessorExists(members, departing);
    var m :| IsSuccessor(members, departing, m);
    m
  }

  lemma SuccessorIsUnique(members: map<Member, int>, departing: Member, m: Member)
    requires IsSuccessor(members, departing, m)
    ensures members.Keys - {departing} != {} && Successor(members, departing) == m
  {
    assert m in members.Keys - {departing};
  }

  ghost predicate Orphaned(g: Group, departing: Member) { g.owner == departing && g.members.Keys - {departing} == {} }

  /** The group once its owner has made way, if it survives that. */
  ghost function Succeeded(g: Group, departing: Member): Group
    requires !Orphaned(g, departing)
  {
    if g.owner == departing then g.(owner := Successor(g.members, departing)) else g
  }

  // ---------------------------------------------------------------- operations

  function GroupsOf(groups: map<GroupId, Group>, m: Member): set<GroupId> {
    set id | id in groups && m in groups[id].members
  }

  predicate CanEnter(s: State, m: Member) { |GroupsOf(s.groups, m)| < MEMBERSHIP_LIMIT }

  predicate Belongs(s: State, m: Member, id: GroupId) { id in s.groups && m in s.groups[id].members }

  function Set(s: State, id: GroupId, g: Group): State { s.(groups := s.groups[id := g]) }

  function Create(s: State, m: Member): (State, Reply) {
    if m !in s.users then (s, Refused(UserNotFound))
    else if !CanEnter(s, m) then (s, Refused(LimitReached))
    else (Set(s, s.next, Group(m, map[m := s.clock], map[], None)).(next := s.next + 1), Done)
  }

  function Delete(s: State, m: Member, id: GroupId): (State, Reply) {
    if !Belongs(s, m, id) then (s, Refused(GroupNotFound)) else (s.(groups := s.groups - {id}), Done)
  }

  function Invite(s: State, m: Member, id: GroupId, target: Member): (State, Reply) {
    if !Belongs(s, m, id) then (s, Refused(GroupNotFound))
    else if target !in s.users || !s.users[target] then (s, Refused(MemberNotFound))
    else
      var g := s.groups[id];
      var pending := Pending(g.invitations, s.clock);
      if target in g.members then (s, Refused(AlreadyMember))
      else if |g.members| + |pending| >= GROUP_LIMIT then (s, Refused(LimitReached))
      else if Invites(pending, target) then (s, Refused(InvitationExists))
      else (Set(s, id, Invited(g, s.next, target, s.clock)).(next := s.next + 1), Done)
  }

  predicate Holds(s: State, m: Member, id: GroupId, i: InvitationId) {
    && id in s.groups && i in s.groups[id].invitations
    && s.groups[id].invitations[i].member == m && s.groups[id].invitations[i].expires > s.clock
  }

  function Answer(s: State, m: Member, id: GroupId, i: InvitationId, accept: bool): (State, Reply) {
    if !Holds(s, m, id, i) then (s, Refused(InvitationNotFound))
    else
      var g := s.groups[id];
      if !accept then (Set(s, id, g.(invitations := g.invitations - {i})), Done)
      else if !CanEnter(s, m) then (s, Refused(LimitReached))
      else (Set(s, id, Accepted(g, i, m, s.clock)), Done)
  }

  function Revoke(s: State, m: Member, id: GroupId, i: InvitationId): (State, Reply) {
    if !Belongs(s, m, id) then (s, Refused(GroupNotFound))
    else
      var g := s.groups[id];
      if i !in g.invitations || g.invitations[i].expires <= s.clock then (s, Refused(InvitationNotFound))
      else (Set(s, id, g.(invitations := g.invitations - {i})), Done)
  }

  /** Codes are random, so two groups never share one. */
  function Publish(s: State, m: Member, id: GroupId): (State, Reply) {
    if !Belongs(s, m, id) then (s, Refused(GroupNotFound))
    else if s.groups[id].code.Some? then (s, Refused(LinkExists))
    else (Set(s, id, s.groups[id].(code := Some(s.next))).(next := s.next + 1), Done)
  }

  function Unpublish(s: State, m: Member, id: GroupId): (State, Reply) {
    if !Belongs(s, m, id) then (s, Refused(GroupNotFound))
    else if s.groups[id].code == None then (s, Refused(LinkNotFound))
    else (Set(s, id, s.groups[id].(code := None)), Done)
  }

  function Join(s: State, m: Member, id: GroupId, code: Code): (State, Reply) {
    if id !in s.groups || s.groups[id].code != Some(code) then (s, Refused(LinkNotFound))
    else if m !in s.users then (s, Refused(UserNotFound))
    else if m in s.groups[id].members then (s, Done)
    else if !CanEnter(s, m) || Occupied(s.groups[id], m, s.clock) >= GROUP_LIMIT then (s, Refused(LimitReached))
    else (Set(s, id, Joined(s.groups[id], m, s.clock)), Done)
  }

  /** Any member may remove any member; a departing owner is replaced first. */
  ghost function Remove(s: State, m: Member, id: GroupId, target: Member): (State, Reply) {
    if !Belongs(s, m, id) then (s, Refused(GroupNotFound))
    else if target !in s.groups[id].members then (s, Refused(MemberNotFound))
    else if Orphaned(s.groups[id], target) then (s.(groups := s.groups - {id}), Done)
    else (Set(s, id, Left(Succeeded(s.groups[id], target), target)), Done)
  }

  /** The first half of an account deletion: every owned group gets another owner or goes. */
  ghost function Relinquished(groups: map<GroupId, Group>, m: Member): map<GroupId, Group> {
    map id | id in groups && !Orphaned(groups[id], m) :: Succeeded(groups[id], m)
  }

  /** The foreign keys of a deleted user: owned groups, memberships and invitations. */
  function Cascade(groups: map<GroupId, Group>, m: Member): map<GroupId, Group> {
    map id | id in groups && groups[id].owner != m ::
      groups[id].(members := groups[id].members - {m}, invitations := Others(groups[id].invitations, m))
  }

  ghost function DeleteAccount(s: State, m: Member): (State, Reply) {
    if m !in s.users then (s, Refused(UserNotFound))
    else (s.(users := s.users - {m}, groups := Cascade(Relinquished(s.groups, m), m)), Done)
  }

  // ---------------------------------------------------------------- runs

  datatype Event =
    | Tick(seconds: nat)
    | Register
    | SetVisible(m: Member, visible: bool)
    | CreateGroup(m: Member)
    | DeleteGroup(m: Member, id: GroupId)
    | InviteMember(m: Member, id: GroupId, target: Member)
    | AnswerInvitation(m: Member, id: GroupId, i: InvitationId, accept: bool)
    | RevokeInvitation(m: Member, id: GroupId, i: InvitationId)
    | PublishLink(m: Member, id: GroupId)
    | RevokeLink(m: Member, id: GroupId)
    | JoinByCode(m: Member, id: GroupId, code: Code)
    | RemoveMember(m: Member, id: GroupId, target: Member)
    | RemoveAccount(m: Member)

  ghost function Step(s: State, e: Event): State {
    match e
    case Tick(seconds) => s.(clock := s.clock + seconds)
    case Register => s.(users := s.users[s.next := false], next := s.next + 1)
    case SetVisible(m, visible) => if m in s.users then s.(users := s.users[m := visible]) else s
    case CreateGroup(m) => Create(s, m).0
    case DeleteGroup(m, id) => Delete(s, m, id).0
    case InviteMember(m, id, target) => Invite(s, m, id, target).0
    case AnswerInvitation(m, id, i, accept) => Answer(s, m, id, i, accept).0
    case RevokeInvitation(m, id, i) => Revoke(s, m, id, i).0
    case PublishLink(m, id) => Publish(s, m, id).0
    case RevokeLink(m, id) => Unpublish(s, m, id).0
    case JoinByCode(m, id, code) => Join(s, m, id, code).0
    case RemoveMember(m, id, target) => Remove(s, m, id, target).0
    case RemoveAccount(m) => DeleteAccount(s, m).0
  }

  ghost function Run(es: seq<Event>): State {
    if es == [] then State(0, map[], map[], 0) else Step(Run(es[..|es| - 1]), es[|es| - 1])
  }

  // ---------------------------------------------------------------- what every operation keeps

  ghost predicate AllSound(s: State) { forall id :: id in s.groups ==> Sound(s.groups[id], s.clock) }

  ghost predicate WithinLimits(s: State) { forall m: Member :: |GroupsOf(s.groups, m)| <= MEMBERSHIP_LIMIT }

  /** Identifiers in use are older than the next one, and rows refer to existing users. */
  ghost predicate Referential(s: State) {
    && (forall id :: id in s.groups ==> id < s.next && Refers(s.groups[id], s.users, s.next))
    && (forall m :: m in s.users ==> m < s.next)
  }

  ghost predicate Refers(g: Group, users: map<Member, bool>, next: nat) {
    && (forall m :: m in g.members ==> m in users)
    && (forall i :: i in g.invitations ==> i < next && g.invitations[i].member in users)
  }

  ghost predicate Inv(s: State) { AllSound(s) && WithinLimits(s) && Referential(s) }

  lemma StepKeepsInv(s: State, e: Event)
    requires Inv(s)
    ensures Inv(Step(s, e))
  {
    StepKeepsSound(s, e);
    StepKeepsLimits(s, e);
    StepKeepsReferential(s, e);
  }

  lemma {:induction false} EveryRunKeepsInv(es: seq<Event>)
    ensures Inv(Run(es))
  {
    if es != [] {
      EveryRunKeepsInv(es[..|es| - 1]);
      StepKeepsInv(Run(es[..|es| - 1]), es[|es| - 1]);
    } else {
      EmptyIsFine();
    }
  }

  lemma EmptyIsFine()
    ensures Inv(State(0, map[], map[], 0))
  {
    forall m: Member ensures GroupsOf(map[], m) == {} { }
  }

  // Soundness of each group.

  lemma StepKeepsSound(s: State, e: Event)
    requires AllSound(s) && Referential(s)
    ensures AllSound(Step(s, e))
  {
    match e
    case AnswerInvitation(m, id, i, accept) => AnswerIsSound(s, m, id, i, accept);
    case RevokeInvitation(m, id, i) => RevokeIsSound(s, m, id, i);
    case JoinByCode(m, id, code) => JoinIsSound(s, m, id, code);
    case RemoveMember(m, id, target) => RemoveIsSound(s, m, id, target);
    case RemoveAccount(m) => DeletionIsSound(s, m);
    case _ => OthersAreSound(s, e);
  }

  lemma OthersAreSound(s: State, e: Event)
    requires AllSound(s) && Referential(s)
    requires !e.AnswerInvitation? && !e.RevokeInvitation? && !e.JoinByCode? && !e.RemoveMember? && !e.RemoveAccount?
    ensures AllSound(Step(s, e))
  {
    match e
    case Tick(seconds) => TickIsSound(s, seconds);
    case CreateGroup(m) => CreateIsSound(s, m);
    case InviteMember(m, id, target) => InviteIsSound(s, m, id, target);
    case _ => RestIsSound(s, e);
  }

  lemma RestIsSound(s: State, e: Event)
    requires AllSound(s) && (e.Register? || e.SetVisible? || e.DeleteGroup? || e.PublishLink? || e.RevokeLink?)
    ensures AllSound(Step(s, e))
  {
  }

  lemma TickIsSound(s: State, seconds: nat)
    requires AllSound(s)
    ensures AllSound(Step(s, Tick(seconds)))
  {
    var later := s.clock + seconds;
    assert Step(s, Tick(seconds)).groups == s.groups;
    forall id | id in s.groups ensures Sound(s.groups[id], later) {
      TimeKeepsSound(s.groups[id], s.clock, later);
    }
  }

  lemma CreateIsSound(s: State, m: Member)
    requires AllSound(s)
    ensures AllSound(Create(s, m).0)
  {
    OneMore(map[], m, s.clock);
    assert Pending(map[], s.clock) == map[];
  }

  lemma RevokeIsSound(s: State, m: Member, id: GroupId, i: InvitationId)
    requires AllSound(s)
    ensures AllSound(Revoke(s, m, id, i).0)
  {
    if id in s.groups { WithdrawKeepsSound(s.groups[id], i, s.clock); }
  }

  lemma JoinIsSound(s: State, m: Member, id: GroupId, code: Code)
    requires AllSound(s)
    ensures AllSound(Join(s, m, id, code).0)
  {
    if id in s.groups && m !in s.groups[id].members && Occupied(s.groups[id], m, s.clock) < GROUP_LIMIT {
      JoinKeepsSound(s.groups[id], m, s.clock);
    }
  }

  lemma WithdrawKeepsSound(g: Group, i: InvitationId, now: int)
    requires Sound(g, now)
    ensures Sound(g.(invitations := g.invitations - {i}), now)
  {
    FewerEntries(Pending(g.invitations - {i}, now), Pending(g.invitations, now));
  }

  lemma InviteIsSound(s: State, m: Member, id: GroupId, target: Member)
    requires AllSound(s) && Referential(s)
    ensures AllSound(Invite(s, m, id, target).0)
  {
    if Invite(s, m, id, target).1.Done? {
      assert s.next !in s.groups[id].invitations;
      InviteKeepsSound(s.groups[id], s.next, target, s.clock);
    }
  }

  lemma AnswerIsSound(s: State, m: Member, id: GroupId, i: InvitationId, accept: bool)
    requires AllSound(s)
    ensures AllSound(Answer(s, m, id, i, accept).0)
  {
    if Holds(s, m, id, i) {
      WithdrawKeepsSound(s.groups[id], i, s.clock);
      AcceptKeepsSound(s.groups[id], i, m, s.clock);
    }
  }

  lemma RemoveIsSound(s: State, m: Member, id: GroupId, target: Member)
    requires AllSound(s)
    ensures AllSound(Remove(s, m, id, target).0)
  {
    if id in s.groups && !Orphaned(s.groups[id], target) {
      var g := Succeeded(s.groups[id], target);
      LeaveKeepsSound(g, target, s.clock);
    }
  }

  lemma DeletionIsSound(s: State, m: Member)
    requires AllSound(s)
    ensures AllSound(DeleteAccount(s, m).0)
  {
    var r := DeleteAccount(s, m).0;
    if m in s.users {
      forall id | id in r.groups ensures Sound(r.groups[id], s.clock) {
        var g := Succeeded(s.groups[id], m);
        LeaveKeepsSound(g, m, s.clock);
        UninviteKeepsSound(Left(g, m), m, s.clock);
      }
    }
  }

  lemma UninviteKeepsSound(g: Group, m: Member, now: int)
    requires Sound(g, now)
    ensures Sound(g.(invitations := Others(g.invitations, m)), now)
  {
    FewerEntries(Pending(Others(g.invitations, m), now), Pending(g.invitations, now));
  }

  // The number of groups of each member.

  /** Nobody but possibly `m` gains a membership, and `m` had room for it. */
  ghost predicate Admits(s: State, r: State, m: Member) {
    forall k: Member, id ::
      id in r.groups && k in r.groups[id].members ==>
        || (id in s.groups && k in s.groups[id].members)
        || (k == m && CanEnter(s, m))
  }

  lemma AdmissionKeepsLimits(s: State, r: State, m: Member, id: GroupId)
    requires WithinLimits(s) && Admits(s, r, m)
    requires forall x :: x in r.groups && x != id ==> x in s.groups && r.groups[x].members.Keys <= s.groups[x].members.Keys
    ensures WithinLimits(r)
  {
    forall k: Member ensures |GroupsOf(r.groups, k)| <= MEMBERSHIP_LIMIT {
      var before, after := GroupsOf(s.groups, k), GroupsOf(r.groups, k);
      if k == m && CanEnter(s, m) {
        assert after <= before + {id};
        SubsetIsSmaller(after, before + {id});
      } else {
        assert after <= before;
        SubsetIsSmaller(after, before);
      }
    }
  }

  lemma StepKeepsLimits(s: State, e: Event)
    requires WithinLimits(s)
    ensures WithinLimits(Step(s, e))
  {
    match e
    case CreateGroup(m) => AdmissionKeepsLimits(s, Create(s, m).0, m, s.next);
    case AnswerInvitation(m, id, i, accept) => AdmissionKeepsLimits(s, Answer(s, m, id, i, accept).0, m, id);
    case JoinByCode(m, id, code) => AdmissionKeepsLimits(s, Join(s, m, id, code).0, m, id);
    case RemoveMember(m, id, target) => RemovalAdmitsNobody(s, m, id, target);
    case RemoveAccount(m) => DeletionAdmitsNobody(s, m);
    case _ => OthersAdmitNobody(s, e);
  }

  lemma RemovalAdmitsNobody(s: State, m: Member, id: GroupId, target: Member)
    requires WithinLimits(s)
    ensures WithinLimits(Remove(s, m, id, target).0)
  {
    AdmissionKeepsLimits(s, Remove(s, m, id, target).0, m, id);
  }

  lemma DeletionAdmitsNobody(s: State, m: Member)
    requires WithinLimits(s)
    ensures WithinLimits(DeleteAccount(s, m).0)
  {
    AdmissionKeepsLimits(s, DeleteAccount(s, m).0, m, s.next);
  }

  lemma OthersAdmitNobody(s: State, e: Event)
    requires WithinLimits(s)
    requires !e.CreateGroup? && !e.AnswerInvitation? && !e.JoinByCode? && !e.RemoveMember? && !e.RemoveAccount?
    ensures WithinLimits(Step(s, e))
  {
    OthersKeepMembers(s, e);
    AdmissionKeepsLimits(s, Step(s, e), 0, s.next);
  }

  lemma OthersKeepMembers(s: State, e: Event)
    requires !e.CreateGroup? && !e.AnswerInvitation? && !e.JoinByCode? && !e.RemoveMember? && !e.RemoveAccount?
    ensures forall x :: x in Step(s, e).groups ==> x in s.groups && Step(s, e).groups[x].members == s.groups[x].members
  {
  }

  // References.

  lemma StepKeepsReferential(s: State, e: Event)
    requires Referential(s)
    ensures Referential(Step(s, e))
  {
    match e
    case InviteMember(m, id, target) => InviteKeepsReferential(s, m, id, target);
    case AnswerInvitation(m, id, i, accept) => AnswerKeepsReferential(s, m, id, i, accept);
    case JoinByCode(m, id, code) => JoinKeepsReferential(s, m, id, code);
    case RemoveMember(m, id, target) => RemoveKeepsReferential(s, m, id, target);
    case RemoveAccount(m) => DeletionKeepsReferential(s, m);
    case RevokeInvitation(m, id, i) => RevokeKeepsReferential(s, m, id, i);
    case _ => OthersKeepReferential(s, e);
  }

  lemma InviteKeepsReferential(s: State, m: Member, id: GroupId, target: Member)
    requires Referential(s)
    ensures Referential(Invite(s, m, id, target).0)
  {
    if Invite(s, m, id, target).1.Done? {
      assert Refers(s.groups[id], s.users, s.next);
      assert Refers(Invited(s.groups[id], s.next, target, s.clock), s.users, s.next + 1);
    }
  }

  lemma AnswerKeepsReferential(s: State, m: Member, id: GroupId, i: InvitationId, accept: bool)
    requires Referential(s)
    ensures Referential(Answer(s, m, id, i, accept).0)
  {
  }

  lemma JoinKeepsReferential(s: State, m: Member, id: GroupId, code: Code)
    requires Referential(s)
    ensures Referential(Join(s, m, id, code).0)
  {
  }

  lemma RemoveKeepsReferential(s: State, m: Member, id: GroupId, target: Member)
    requires Referential(s)
    ensures Referential(Remove(s, m, id, target).0)
  {
  }

  lemma RevokeKeepsReferential(s: State, m: Member, id: GroupId, i: InvitationId)
    requires Referential(s)
    ensures Referential(Revoke(s, m, id, i).0)
  {
  }

  lemma DeletionKeepsReferential(s: State, m: Member)
    requires Referential(s)
    ensures Referential(DeleteAccount(s, m).0)
  {
    var r := DeleteAccount(s, m).0;
    forall id | id in r.groups ensures id < r.next && Refers(r.groups[id], r.users, r.next) {
      assert Refers(s.groups[id], s.users, s.next);
    }
  }

  lemma OthersKeepReferential(s: State, e: Event)
    requires Referential(s) && !e.InviteMember? && !e.AnswerInvitation? && !e.JoinByCode?
    requires !e.RemoveMember? && !e.RemoveAccount? && !e.RevokeInvitation?
    ensures Referential(Step(s, e))
  {
  }

  // ---------------------------------------------------------------- main results

  /** In every reachable state each group has an owner among its members, at most a hundred
      members and pending invitations, and nobody both belongs and is invited; and nobody
      belongs to more than fifty groups. */
  lemma GroupsStayBounded(es: seq<Event>, id: GroupId, m: Member)
    requires id in Run(es).groups
    ensures var s := Run(es); var g := s.groups[id];
      && g.owner in g.members && |g.members| + |Pending(g.invitations, s.clock)| <= GROUP_LIMIT
      && !(m in g.members && Invites(g.invitations, m))
      && |GroupsOf(s.groups, m)| <= MEMBERSHIP_LIMIT
  {
    EveryRunKeepsInv(es);
  }

  /** An acceptance is refused only for a missing or expired invitation, or the member's own limit;
      it never meets an existing membership. */
  lemma AcceptanceNeedsNoSizeCheck(es: seq<Event>, m: Member, id: GroupId, i: InvitationId)
    ensures var s := Run(es); var (r, reply) := Answer(s, m, id, i, true);
      && (reply == Done <==> Holds(s, m, id, i) && CanEnter(s, m))
      && (reply == Done ==> !Belongs(s, m, id) && Belongs(r, m, id) && |r.groups[id].members| <= GROUP_LIMIT)
  {
    EveryRunKeepsInv(es);
    var s := Run(es);
    if Holds(s, m, id, i) {
      AcceptKeepsSound(s.groups[id], i, m, s.clock);
    }
  }

  /** Whoever holds an invitation can also enter by code, however full the group is. */
  lemma InvitedMemberCanJoin(es: seq<Event>, m: Member, id: GroupId, i: InvitationId, code: Code)
    requires Holds(Run(es), m, id, i) && Run(es).groups[id].code == Some(code) && CanEnter(Run(es), m)
    ensures var (r, reply) := Join(Run(es), m, id, code);
      reply == Done && Belongs(r, m, id) && !Invites(r.groups[id].invitations, m)
  {
    EveryRunKeepsInv(es);
    InvitationKeepsAPlace(Run(es).groups[id], i, m, Run(es).clock);
  }

  /** A departing owner hands over to the longest-standing other member; the group ends only with its last member. */
  lemma DepartureHandsOver(es: seq<Event>, m: Member, id: GroupId, target: Member)
    requires Belongs(Run(es), m, id) && target in Run(es).groups[id].members
    ensures var s := Run(es); var r := Remove(s, m, id, target).0; var g := s.groups[id];
      && (id in r.groups <==> g.members.Keys != {target})
      && (id in r.groups ==> r.groups[id].members == g.members - {target})
      && (id in r.groups ==> if g.owner == target then IsSuccessor(g.members, target, r.groups[id].owner) else r.groups[id].owner == g.owner)
  {
    EveryRunKeepsInv(es);
  }

  /** Deleting an account ends exactly the groups it was alone in, and takes only its own
      membership and invitations from the others. */
  lemma DeletionSparesOthers(es: seq<Event>, m: Member, id: GroupId)
    requires m in Run(es).users && id in Run(es).groups
    ensures var s := Run(es); var r := DeleteAccount(s, m).0; var g := s.groups[id];
      && (id in r.groups <==> g.members.Keys != {m})
      && (id in r.groups ==> r.groups[id].members == g.members - {m} && r.groups[id].invitations == Others(g.invitations, m))
  {
    EveryRunKeepsInv(es);
    AccountLeavesGroup(Run(es), m, id);
  }

  lemma AccountLeavesGroup(s: State, m: Member, id: GroupId)
    requires m in s.users && id in s.groups && Sound(s.groups[id], s.clock)
    ensures var r := DeleteAccount(s, m).0; var g := s.groups[id];
      && (id in r.groups <==> g.members.Keys != {m})
      && (id in r.groups ==> r.groups[id].members == g.members - {m} && r.groups[id].invitations == Others(g.invitations, m))
  {
    var g := s.groups[id];
    if Orphaned(g, m) {
      assert g.members.Keys == {m};
    } else {
      assert Succeeded(g, m).owner != m;
      assert g.owner in g.members;
    }
  }

  // ---------------------------------------------------------------- the transactions

  class GroupRows {
    var clock: int
    var users: map<Member, bool>
    var groups: map<GroupId, Group>
    var next: nat

    function Rows(): State
      reads this
    {
      State(clock, users, groups, next)
    }

    constructor ()
      ensures Rows() == Run([]) && Inv(Rows())
    {
      clock, users, groups, next := 0, map[], map[], 0;
      new;
      EmptyIsFine();
    }

    method InviteGroupMember(m: Member, id: GroupId, target: Member) returns (reply: Reply)
      modifies `groups, `next
      ensures (Rows(), reply) == Invite(old(Rows()), m, id, target)
    {
      if id !in groups || m !in groups[id].members {
        return Refused(GroupNotFound);
      }
      if target !in users || !users[target] {
        return Refused(MemberNotFound);
      }
      if target in groups[id].members {
        return Refused(AlreadyMember);
      }
      var rows := Pending(groups[id].invitations, clock);
      if |groups[id].members| + |rows| >= GROUP_LIMIT {
        return Refused(LimitReached);
      }
      // The unique key on group and member; the failed insert also rolls the deletion back.
      if Invites(rows, target) {
        return Refused(InvitationExists);
      }
      groups := groups[id := groups[id].(invitations := rows[next := Invitation(target, clock + INVITATION_LIFETIME)])];
      next := next + 1;
      reply := Done;
    }

    method AnswerGroupInvitation(m: Member, id: GroupId, i: InvitationId, accept: bool) returns (reply: Reply)
      modifies `groups
      ensures (Rows(), reply) == Answer(old(Rows()), m, id, i, accept)
    {
      if !Holds(Rows(), m, id, i) {
        return Refused(InvitationNotFound);
      }
      if accept && |GroupsOf(groups, m)| >= MEMBERSHIP_LIMIT {
        return Refused(LimitReached);
      }
      var g := groups[id];
      g := g.(invitations := g.invitations - {i});
      if accept {
        g := g.(members := g.members[m := clock]);
      }
      groups := groups[id := g];
      reply := Done;
    }

    method JoinGroup(m: Member, id: GroupId, code: Code) returns (reply: Reply)
      modifies `groups
      ensures (Rows(), reply) == Join(old(Rows()), m, id, code)
    {
      if id !in groups || groups[id].code != Some(code) {
        return Refused(LinkNotFound);
      }
      if m !in users {
        return Refused(UserNotFound);
      }
      if m in groups[id].members {
        return Done;
      }
      if |GroupsOf(groups, m)| >= MEMBERSHIP_LIMIT {
        return Refused(LimitReached);
      }
      var occupied := |groups[id].members| + |Pending(Others(groups[id].invitations, m), clock)|;
      if occupied >= GROUP_LIMIT {
        return Refused(LimitReached);
      }
      var g := groups[id];
      g := g.(members := g.members[m := clock]);
      g := g.(invitations := Others(g.invitations, m));
      groups := groups[id := g];
      reply := Done;
    }

    method FindSuccessor(members: map<Member, int>, departing: Member) returns (successor: Option<Member>)
      ensures successor == None <==> members.Keys - {departing} == {}
      ensures successor.Some? ==> IsSuccessor(members, departing, successor.value)
    {
      var left := members.Keys - {departing};
      if left == {} {
        return None;
      }
      var first :| first in left;
      left := left - {first};
      while left != {}
        invariant left <= members.Keys - {departing} && first in members && first != departing
        invariant forall k :: k in members && k != departing && k !in left ==> Before(members, first, k)
        decreases |left|
      {
        var k :| k in left;
        left := left - {k};
        if Before(members, k, first) {
          first := k;
        }
      }
      assert first in members.Keys - {departing};
      successor := Some(first);
    }

    method ReplaceDepartingGroupOwner(id: GroupId, departing: Member) returns (deleted: bool)
      requires id in groups && groups[id].owner == departing
      modifies `groups
      ensures deleted <==> Orphaned(old(groups[id]), departing)
      ensures groups == if deleted then old(groups) - {id} else old(groups)[id := Succeeded(old(groups[id]), departing)]
    {
      var successor := FindSuccessor(groups[id].members, departing);
      if successor == None {
        groups := groups - {id};
        return true;
      }
      SuccessorIsUnique(groups[id].members, departing, successor.value);
      groups := groups[id := groups[id].(owner := successor.value)];
      deleted := false;
    }

    method RemoveGroupMember(m: Member, id: GroupId, target: Member) returns (reply: Reply)
      requires id in groups ==> groups[id].owner in groups[id].members
      modifies `groups
      ensures (Rows(), reply) == Remove(old(Rows()), m, id, target)
    {
      if id !in groups || m !in groups[id].members {
        return Refused(GroupNotFound);
      }
      reply := Depart(id, target);
    }

    method Depart(id: GroupId, target: Member) returns (reply: Reply)
      requires id in groups && groups[id].owner in groups[id].members
      modifies `groups
      ensures if target !in old(groups)[id].members then reply == Refused(MemberNotFound) && groups == old(groups)
              else reply == Done && groups == if Orphaned(old(groups)[id], target) then old(groups) - {id}
                                              else old(groups)[id := Left(Succeeded(old(groups)[id], target), target)]
    {
      if target == groups[id].owner {
        var deleted := ReplaceDepartingGroupOwner(id, target);
        if deleted {
          return Done;
        }
      }
      reply := DeleteMembership(id, target);
    }

    method DeleteMembership(id: GroupId, target: Member) returns (reply: Reply)
      requires id in groups
      modifies `groups
      ensures if target in old(groups)[id].members then reply == Done && groups == old(groups)[id := Left(old(groups)[id], target)]
              else reply == Refused(MemberNotFound) && groups == old(groups)
    {
      if target !in groups[id].members {
        return Refused(MemberNotFound);
      }
      groups := groups[id := groups[id].(members := groups[id].members - {target})];
      reply := Done;
    }

    method RemoveMember(m: Member) returns (reply: Reply)
      modifies `groups, `users
      ensures (Rows(), reply) == DeleteAccount(old(Rows()), m)
    {
      if m !in users {
        return Refused(UserNotFound);
      }
      ReplaceInOwnedGroups(m);
      groups := Cascade(groups, m);
      users := users - {m};
      reply := Done;
    }

    method ReplaceInOwnedGroups(m: Member)
      modifies `groups
      ensures groups == Relinquished(old(groups), m)
    {
      var owned := set id | id in groups && groups[id].owner == m;
      var done: set<GroupId> := {};
      RelinquishedInNone(groups, m);
      while owned - done != {}
        invariant done <= owned && groups == RelinquishedIn(old(groups), m, done)
        decreases owned - done
      {
        var id :| id in owned - done;
        RelinquishedInOneMore(old(groups), m, done, id);
        var _ := ReplaceDepartingGroupOwner(id, m);
        done := done + {id};
      }
      assert forall id :: id in owned ==> id in done;
      RelinquishedInAll(old(groups), m, done);
    }
  }

  /** The groups once the departing owner has been replaced in those of `done`. */
  ghost function RelinquishedIn(groups: map<GroupId, Group>, m: Member, done: set<GroupId>): map<GroupId, Group> {
    map id | id in groups && !(id in done && Orphaned(groups[id], m)) :: if id in done then Succeeded(groups[id], m) else groups[id]
  }

  lemma RelinquishedInNone(groups: map<GroupId, Group>, m: Member)
    ensures RelinquishedIn(groups, m, {}) == groups
  {
  }

  lemma RelinquishedInAll(groups: map<GroupId, Group>, m: Member, owned: set<GroupId>)
    requires forall id :: id in groups ==> (id in owned <==> groups[id].owner == m)
    ensures RelinquishedIn(groups, m, owned) == Relinquished(groups, m)
  {
  }

  lemma RelinquishedInOneMore(groups: map<GroupId, Group>, m: Member, done: set<GroupId>, id: GroupId)
    requires id in groups && id !in done
    ensures id in RelinquishedIn(groups, m, done) && RelinquishedIn(groups, m, done)[id] == groups[id]
    ensures RelinquishedIn(groups, m, done + {id}) ==
            if Orphaned(groups[id], m) then RelinquishedIn(groups, m, done) - {id}
            else RelinquishedIn(groups, m, done)[id := Succeeded(groups[id], m)]
  {
  }
}
