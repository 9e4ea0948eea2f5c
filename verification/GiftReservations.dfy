/** Reservations of the gifts on one wishlist, made through its public link, by its owner or
    through a group, together with the members' reservation history. Each operation is one
    transaction; unique keys make a slot of participant and wish hold one row. Who may see
    the list is decided before these operations. */
module GiftReservations {
  import opened Common

  const PARTICIPANT_LIMIT := 100
  const MAXIMUM_QUANTITY := 100

  type Member = nat
  type Guest = nat
  type WishId = nat
  type ParticipantId = nat
  type ReservationId = nat

  datatype Identity = OfMember(member: Member) | OfGuest(guest: Guest)

  datatype Slot = Slot(participant: ParticipantId, wish: WishId)

  datatype Reservation = Reservation(id: ReservationId, quantity: nat, version: nat)

  datatype Written = Written(slot: Slot, row: Reservation)

  datatype Status = Active | Cancelled | Unavailable

  datatype History = History(member: Member, wish: WishId, quantity: nat, status: Status)

  /** The rows of one list. `orphans` are participants whose guest session is gone;
      `written` remembers every version of every reservation ever written, and its slot. */
  datatype State = State(owner: Member, wishes: map<WishId, nat>, participants: map<Identity, ParticipantId>,
                         orphans: set<ParticipantId>, reservations: map<Slot, Reservation>,
                         histories: map<ReservationId, History>, next: nat, written: map<nat, Written>)

  datatype Verb = Get | Put(quantity: nat) | Delete

  datatype Failure =
    | WishNotFound | ReservationNotFound | PreconditionRequired | VersionConflict | QuantityUnavailable | InvalidQuantity
    | IdentityRequired | ParticipantNotFound | ParticipantLimit | OwnerConflict | QuantityBelowReserved

  datatype Reply = Shown(row: Reservation) | Removed | Joined(participant: ParticipantId) | Changed | Refused(failure: Failure)

  // ---------------------------------------------------------------- reserved totals

  function Counted(slot: Slot, r: Reservation, wish: WishId): nat { if slot.wish == wish then r.quantity else 0 }

  ghost function Reserved(rows: map<Slot, Reservation>, wish: WishId): nat
    decreases |rows|
  {
    if rows == map[] then 0
    else
      var slot :| slot in rows;
      Counted(slot, rows[slot], wish) + Reserved(rows - {slot}, wish)
  }

  lemma {:induction false} ReservedWithout(rows: map<Slot, Reservation>, slot: Slot, wish: WishId)
    requires slot in rows
    ensures Reserved(rows, wish) == Counted(slot, rows[slot], wish) + Reserved(rows - {slot}, wish)
    decreases |rows|
  {
    var c :| c in rows && Reserved(rows, wish) == Counted(c, rows[c], wish) + Reserved(rows - {c}, wish);
    if c != slot {
      ReservedWithout(rows - {c}, slot, wish);
      ReservedWithout(rows - {slot}, c, wish);
      assert rows - {c} - {slot} == rows - {slot} - {c};
    }
  }

  lemma ReservedWith(rows: map<Slot, Reservation>, slot: Slot, r: Reservation, wish: WishId)
    ensures Reserved(rows[slot := r], wish) == Counted(slot, r, wish) + Reserved(rows - {slot}, wish)
  {
    ReservedWithout(rows[slot := r], slot, wish);
    assert rows[slot := r] - {slot} == rows - {slot};
  }

  lemma {:induction false} FewerReserved(part: map<Slot, Reservation>, whole: map<Slot, Reservation>, wish: WishId)
    requires forall k :: k in part ==> k in whole && (part[k] == whole[k] || k.wish != wish)
    ensures Reserved(part, wish) <= Reserved(whole, wish)
    decreases |part|
  {
    if part != map[] {
      var k :| k in part;
      ReservedWithout(part, k, wish);
      ReservedWithout(whole, k, wish);
      FewerReserved(part - {k}, whole - {k}, wish);
    }
  }

  // ---------------------------------------------------------------- the shared transaction

  function WithRow(s: State, slot: Slot, r: Reservation): State {
    s.(reservations := s.reservations[slot := r], written := s.written[r.version := Written(slot, r)])
  }

  /** A member's history row follows the reservation; guests have none. */
  function Noted(histories: map<ReservationId, History>, who: Identity, wish: WishId, r: Reservation): map<ReservationId, History> {
    if who.OfGuest? then histories
    else if r.id in histories then histories[r.id := histories[r.id].(quantity := r.quantity)]
    else histories[r.id := History(who.member, wish, r.quantity, Active)]
  }

  function Ended(histories: map<ReservationId, History>, who: Identity, id: ReservationId): map<ReservationId, History> {
    if who.OfGuest? || id !in histories then histories else histories[id := histories[id].(status := Cancelled)]
  }

  function Stored(s: State, who: Identity, slot: Slot, r: Reservation): State {
    WithRow(s, slot, r).(histories := Noted(s.histories, who, slot.wish, r), next := r.version + 1)
  }

  function Dropped(s: State, who: Identity, slot: Slot): State
    requires slot in s.reservations
  {
    s.(histories := Ended(s.histories, who, s.reservations[slot].id), reservations := s.reservations - {slot})
  }

  ghost function Reserve(s: State, who: Identity, p: ParticipantId, wish: WishId, verb: Verb, expected: Option<nat>): (State, Reply) {
    var slot := Slot(p, wish);
    if wish !in s.wishes then (s, Refused(WishNotFound))
    else if slot !in s.reservations && !verb.Put? then (s, Refused(ReservationNotFound))
    else if verb.Get? then (s, Shown(s.reservations[slot]))
    else if slot in s.reservations && expected == None then (s, Refused(PreconditionRequired))
    else if expected.Some? && (slot !in s.reservations || expected.value != s.reservations[slot].version)
    then (s, Refused(VersionConflict))
    else if verb.Delete? then
      (Dropped(s, who, slot), Removed)
    else PutQuantity(s, who, slot, verb.quantity)
  }

  ghost function PutQuantity(s: State, who: Identity, slot: Slot, quantity: nat): (State, Reply)
    requires slot.wish in s.wishes
  {
    if quantity + Reserved(s.reservations - {slot}, slot.wish) > s.wishes[slot.wish] then (s, Refused(QuantityUnavailable))
    else if slot in s.reservations && s.reservations[slot].quantity == quantity then (s, Shown(s.reservations[slot]))
    else if !(1 <= quantity <= MAXIMUM_QUANTITY) then (s, Refused(InvalidQuantity))
    else
      var r := RowFor(s, slot, quantity);
      (Stored(s, who, slot, r), Shown(r))
  }

  function RowFor(s: State, slot: Slot, quantity: nat): Reservation {
    if slot in s.reservations then Reservation(s.reservations[slot].id, quantity, s.next)
    else Reservation(s.next, quantity, s.next + 1)
  }

  // ---------------------------------------------------------------- the three ways in

  function Enrolled(s: State, who: Identity): State {
    s.(participants := s.participants[who := s.next], next := s.next + 1)
  }

  ghost function PublicReservation(s: State, who: Option<Identity>, wish: WishId, verb: Verb, expected: Option<nat>): (State, Reply) {
    if who == None then (s, Refused(IdentityRequired))
    else if who.value !in s.participants then (s, Refused(ParticipantNotFound))
    else Reserve(s, who.value, s.participants[who.value], wish, verb, expected)
  }

  /** An operation that may enrol its participant first, and undoes that when it is refused. */
  ghost function EnrolAndReserve(s: State, who: Identity, wish: WishId, verb: Verb, expected: Option<nat>, limited: bool): (State, Reply) {
    if who in s.participants then Reserve(s, who, s.participants[who], wish, verb, expected)
    else if !verb.Put? then (s, Refused(ReservationNotFound))
    else if expected.Some? then (s, Refused(VersionConflict))
    else if limited && |s.participants| >= PARTICIPANT_LIMIT then (s, Refused(ParticipantLimit))
    else
      var (r, reply) := Reserve(Enrolled(s, who), who, s.next, wish, verb, expected);
      if reply.Refused? then (s, reply) else (r, reply)
  }

  ghost function OwnerReservation(s: State, wish: WishId, verb: Verb, expected: Option<nat>): (State, Reply) {
    if wish !in s.wishes then (s, Refused(WishNotFound))
    else EnrolAndReserve(s, OfMember(s.owner), wish, verb, expected, false)
  }

  ghost function GroupReservation(s: State, m: Member, wish: WishId, verb: Verb, expected: Option<nat>): (State, Reply) {
    if m == s.owner then (s, Refused(OwnerConflict))
    else EnrolAndReserve(s, OfMember(m), wish, verb, expected, true)
  }

  function JoinWishlist(s: State, who: Identity): (State, Reply) {
    if who == OfMember(s.owner) then (s, Refused(OwnerConflict))
    else if who in s.participants then (s, Joined(s.participants[who]))
    else if |s.participants| >= PARTICIPANT_LIMIT then (s, Refused(ParticipantLimit))
    else (Enrolled(s, who), Joined(s.next))
  }

  // ---------------------------------------------------------------- the list around them

  /** A trigger refuses a quantity below what is already reserved. */
  ghost function EditWish(s: State, wish: WishId, quantity: nat): (State, Reply) {
    if wish !in s.wishes then (s, Refused(WishNotFound))
    else if quantity < Reserved(s.reservations, wish) then (s, Refused(QuantityBelowReserved))
    else (s.(wishes := s.wishes[wish := quantity]), Changed)
  }

  function Without(rows: map<Slot, Reservation>, wish: WishId): map<Slot, Reservation> {
    map k | k in rows && k.wish != wish :: rows[k]
  }

  function Marked(h: History): History { if h.status == Active then h.(status := Unavailable) else h }

  function MarkedFor(histories: map<ReservationId, History>, wish: WishId): map<ReservationId, History> {
    map id | id in histories :: if histories[id].wish == wish then Marked(histories[id]) else histories[id]
  }

  function RemoveWish(s: State, wish: WishId): State {
    s.(wishes := s.wishes - {wish}, reservations := Without(s.reservations, wish), histories := MarkedFor(s.histories, wish))
  }

  function RemoveList(s: State): State {
    s.(wishes := map[], participants := map[], orphans := {}, reservations := map[],
       histories := map id | id in s.histories :: Marked(s.histories[id]))
  }

  function RemoveGuest(s: State, g: Guest): State {
    if OfGuest(g) !in s.participants then s
    else s.(participants := s.participants - {OfGuest(g)}, orphans := s.orphans + {s.participants[OfGuest(g)]})
  }

  /** The participation of a deleted member, with its reservations. */
  function Vacated(s: State, m: Member): State {
    if OfMember(m) !in s.participants then s
    else s.(participants := s.participants - {OfMember(m)},
            reservations := map k | k in s.reservations && k.participant != s.participants[OfMember(m)] :: s.reservations[k])
  }

  function Forgotten(s: State, m: Member): State {
    s.(histories := map id | id in s.histories && s.histories[id].member != m :: s.histories[id])
  }

  function RemoveMember(s: State, m: Member): State {
    Forgotten(if m == s.owner then RemoveList(s) else Vacated(s, m), m)
  }

  datatype Event =
    | ByLink(who: Option<Identity>, wish: WishId, verb: Verb, expected: Option<nat>)
    | ByOwner(wish: WishId, verb: Verb, expected: Option<nat>)
    | ByGroup(m: Member, wish: WishId, verb: Verb, expected: Option<nat>)
    | Join(identity: Identity)
    | AddWish(quantity: nat)
    | Edit(wish: WishId, quantity: nat)
    | DeleteWish(wish: WishId)
    | DeleteList
    | GuestGone(g: Guest)
    | MemberGone(m: Member)

  ghost function Step(s: State, e: Event): State {
    match e
    case ByLink(who, wish, verb, expected) => PublicReservation(s, who, wish, verb, expected).0
    case ByOwner(wish, verb, expected) => OwnerReservation(s, wish, verb, expected).0
    case ByGroup(m, wish, verb, expected) => GroupReservation(s, m, wish, verb, expected).0
    case Join(who) => JoinWishlist(s, who).0
    case AddWish(quantity) => s.(wishes := s.wishes[s.next := quantity], next := s.next + 1)
    case Edit(wish, quantity) => EditWish(s, wish, quantity).0
    case DeleteWish(wish) => RemoveWish(s, wish)
    case DeleteList => RemoveList(s)
    case GuestGone(g) => RemoveGuest(s, g)
    case MemberGone(m) => RemoveMember(s, m)
  }

  function New(owner: Member): State { State(owner, map[], map[], {}, map[], map[], 0, map[]) }

  ghost function Run(owner: Member, es: seq<Event>): State {
    if es == [] then New(owner) else Step(Run(owner, es[..|es| - 1]), es[|es| - 1])
  }

  // ---------------------------------------------------------------- what every operation keeps

  ghost predicate Capacity(s: State) {
    && (forall k :: k in s.reservations ==> k.wish in s.wishes)
    && (forall w :: w in s.wishes ==> Reserved(s.reservations, w) <= s.wishes[w])
  }

  ghost predicate Fresh(s: State) {
    && (forall w :: w in s.wishes ==> w < s.next)
    && (forall who :: who in s.participants ==> s.participants[who] < s.next)
    && (forall p :: p in s.orphans ==> p < s.next)
    && (forall k :: k in s.reservations ==> k.participant < s.next && s.reservations[k].id < s.next)
    && (forall id :: id in s.histories ==> id < s.next)
    && (forall v :: v in s.written ==> v < s.next)
  }

  ghost predicate OwnsSlots(s: State) {
    && (forall a, b :: a in s.participants && b in s.participants && s.participants[a] == s.participants[b] ==> a == b)
    && (forall who :: who in s.participants ==> s.participants[who] !in s.orphans)
    && (forall j, k :: j in s.reservations && k in s.reservations && s.reservations[j].id == s.reservations[k].id ==> j == k)
  }

  ghost predicate SlotOf(s: State, m: Member, slot: Slot) {
    slot in s.reservations && OfMember(m) in s.participants && s.participants[OfMember(m)] == slot.participant
  }

  ghost predicate Follows(s: State, m: Member, slot: Slot)
    requires slot in s.reservations
  {
    var r := s.reservations[slot];
    r.id in s.histories && s.histories[r.id] == History(m, slot.wish, r.quantity, Active)
  }

  ghost predicate Live(s: State, id: ReservationId, h: History) {
    && OfMember(h.member) in s.participants
    && var slot := Slot(s.participants[OfMember(h.member)], h.wish);
       slot in s.reservations && s.reservations[slot].id == id && s.reservations[slot].quantity == h.quantity
  }

  /** Members' reservations and Active history rows are the same thing. */
  ghost predicate Agreement(s: State) {
    && (forall m: Member, slot: Slot :: SlotOf(s, m, slot) ==> Follows(s, m, slot))
    && (forall id :: id in s.histories && s.histories[id].status == Active ==> Live(s, id, s.histories[id]))
  }

  /** The identified participants other than the owner. */
  function Visitors(identities: set<Identity>, owner: Member): set<Identity> { identities - {OfMember(owner)} }

  ghost predicate Crowd(s: State) {
    |Visitors(s.participants.Keys, s.owner)| <= PARTICIPANT_LIMIT
  }

  ghost predicate Versions(s: State) {
    forall k :: k in s.reservations ==>
      s.reservations[k].version in s.written && s.written[s.reservations[k].version] == Written(k, s.reservations[k])
  }

  ghost predicate Inv(s: State) {
    Capacity(s) && Fresh(s) && OwnsSlots(s) && Agreement(s) && Crowd(s) && Versions(s)
  }

  // Capacity.

  lemma StoreKeepsCapacity(s: State, slot: Slot, r: Reservation)
    requires Capacity(s) && slot.wish in s.wishes
    requires r.quantity + Reserved(s.reservations - {slot}, slot.wish) <= s.wishes[slot.wish]
    ensures Capacity(WithRow(s, slot, r))
  {
    forall w | w in s.wishes ensures Reserved(s.reservations[slot := r], w) <= s.wishes[w] {
      ReservedWith(s.reservations, slot, r, w);
      FewerReserved(s.reservations - {slot}, s.reservations, w);
    }
  }

  lemma FewerRowsKeepCapacity(s: State, r: State)
    requires Capacity(s)
    requires forall w :: w in r.wishes ==> w in s.wishes && r.wishes[w] == s.wishes[w]
    requires forall k :: k in r.reservations ==> k in s.reservations && r.reservations[k] == s.reservations[k] && k.wish in r.wishes
    ensures Capacity(r)
  {
    forall w | w in r.wishes ensures Reserved(r.reservations, w) <= r.wishes[w] {
      FewerReserved(r.reservations, s.reservations, w);
    }
  }

  lemma {:induction false} NothingReserved(rows: map<Slot, Reservation>, wish: WishId)
    requires forall k :: k in rows ==> k.wish != wish
    ensures Reserved(rows, wish) == 0
    decreases |rows|
  {
    if rows != map[] {
      var k :| k in rows;
      ReservedWithout(rows, k, wish);
      NothingReserved(rows - {k}, wish);
    } else {
      assert Reserved(rows, wish) == 0;
    }
  }

  lemma AddKeepsCapacity(s: State, quantity: nat)
    requires Capacity(s) && Fresh(s)
    ensures Capacity(Step(s, AddWish(quantity)))
  {
    forall k | k in s.reservations ensures k.wish != s.next { }
    NothingReserved(s.reservations, s.next);
  }

  // A stored row.

  ghost predicate Storable(s: State, who: Identity, slot: Slot, r: Reservation) {
    && who in s.participants && s.participants[who] == slot.participant && slot.wish in s.wishes
    && r.quantity + Reserved(s.reservations - {slot}, slot.wish) <= s.wishes[slot.wish]
    && s.next <= r.version
    && if slot in s.reservations then r.id == s.reservations[slot].id else s.next <= r.id < r.version
  }

  lemma StoreKeepsFresh(s: State, who: Identity, slot: Slot, r: Reservation)
    requires Fresh(s) && Storable(s, who, slot, r)
    ensures Fresh(Stored(s, who, slot, r))
  {
  }

  lemma StoreKeepsSlots(s: State, who: Identity, slot: Slot, r: Reservation)
    requires Fresh(s) && OwnsSlots(s) && Storable(s, who, slot, r)
    ensures OwnsSlots(Stored(s, who, slot, r))
  {
  }

  lemma StoreKeepsVersions(s: State, who: Identity, slot: Slot, r: Reservation)
    requires Fresh(s) && Versions(s) && Storable(s, who, slot, r)
    ensures Versions(Stored(s, who, slot, r))
  {
  }

  lemma StoreKeepsAgreement(s: State, who: Identity, slot: Slot, r: Reservation)
    requires Fresh(s) && OwnsSlots(s) && Agreement(s) && Storable(s, who, slot, r)
    ensures Agreement(Stored(s, who, slot, r))
  {
    var t := Stored(s, who, slot, r);
    if who.OfMember? && slot in s.reservations { assert SlotOf(s, who.member, slot); }
    forall m: Member, k: Slot | SlotOf(t, m, k) ensures Follows(t, m, k) {
      if k != slot { assert SlotOf(s, m, k); }
    }
    forall id | id in t.histories && t.histories[id].status == Active ensures Live(t, id, t.histories[id]) {
      if id in s.histories && id != r.id { assert Live(s, id, s.histories[id]); }
    }
  }

  lemma StoreKeepsInv(s: State, who: Identity, slot: Slot, r: Reservation)
    requires Inv(s) && Storable(s, who, slot, r)
    ensures Inv(Stored(s, who, slot, r))
  {
    StoreKeepsCapacity(s, slot, r);
    StoreKeepsFresh(s, who, slot, r);
    StoreKeepsSlots(s, who, slot, r);
    StoreKeepsVersions(s, who, slot, r);
    StoreKeepsAgreement(s, who, slot, r);
  }

  // A dropped row.

  lemma DropKeepsAgreement(s: State, who: Identity, slot: Slot)
    requires OwnsSlots(s) && Agreement(s) && slot in s.reservations
    requires who in s.participants && s.participants[who] == slot.participant
    ensures Agreement(Dropped(s, who, slot))
  {
    var t := Dropped(s, who, slot);
    forall m: Member, k: Slot | SlotOf(t, m, k) ensures Follows(t, m, k) { assert SlotOf(s, m, k); }
    forall id | id in t.histories && t.histories[id].status == Active ensures Live(t, id, t.histories[id]) {
      assert Live(s, id, s.histories[id]);
    }
  }

  lemma DropKeepsInv(s: State, who: Identity, slot: Slot)
    requires Inv(s) && slot in s.reservations && who in s.participants && s.participants[who] == slot.participant
    ensures Inv(Dropped(s, who, slot))
  {
    FewerRowsKeepCapacity(s, Dropped(s, who, slot));
    DropKeepsAgreement(s, who, slot);
  }

  lemma ReserveKeepsInv(s: State, who: Identity, wish: WishId, verb: Verb, expected: Option<nat>)
    requires Inv(s) && who in s.participants
    ensures Inv(Reserve(s, who, s.participants[who], wish, verb, expected).0)
  {
    var slot := Slot(s.participants[who], wish);
    ReserveActs(s, who, slot.participant, wish, verb, expected);
    if Reserve(s, who, slot.participant, wish, verb, expected).0 != s {
      if verb.Delete? { DropKeepsInv(s, who, slot); } else { PutKeepsInv(s, who, slot, verb.quantity); }
    }
  }

  lemma ReserveActs(s: State, who: Identity, p: ParticipantId, wish: WishId, verb: Verb, expected: Option<nat>)
    ensures var slot, r := Slot(p, wish), Reserve(s, who, p, wish, verb, expected).0;
      || r == s
      || (verb.Delete? && slot in s.reservations && r == Dropped(s, who, slot))
      || (verb.Put? && wish in s.wishes && r == PutQuantity(s, who, slot, verb.quantity).0)
  {
  }

  lemma PutKeepsInv(s: State, who: Identity, slot: Slot, quantity: nat)
    requires Inv(s) && who in s.participants && s.participants[who] == slot.participant && slot.wish in s.wishes
    ensures Inv(PutQuantity(s, who, slot, quantity).0)
  {
    PutStores(s, who, slot, quantity);
    if PutQuantity(s, who, slot, quantity).0 != s { StoreKeepsInv(s, who, slot, RowFor(s, slot, quantity)); }
  }

  lemma PutStores(s: State, who: Identity, slot: Slot, quantity: nat)
    requires who in s.participants && s.participants[who] == slot.participant && slot.wish in s.wishes
    ensures var r := PutQuantity(s, who, slot, quantity).0;
      r == s || (r == Stored(s, who, slot, RowFor(s, slot, quantity)) && Storable(s, who, slot, RowFor(s, slot, quantity)))
  {
  }

  // Participants.

  lemma OneMoreIdentity(before: set<Identity>, owner: Member, who: Identity)
    requires |Visitors(before, owner)| <= PARTICIPANT_LIMIT && (who == OfMember(owner) || |before| < PARTICIPANT_LIMIT)
    ensures |Visitors(before + {who}, owner)| <= PARTICIPANT_LIMIT
  {
    if who == OfMember(owner) {
      assert Visitors(before + {who}, owner) == Visitors(before, owner);
    } else {
      assert Visitors(before + {who}, owner) == Visitors(before, owner) + {who};
      assert before == Visitors(before, owner) + (before * {OfMember(owner)});
    }
  }

  lemma EnrolKeepsCrowd(s: State, who: Identity)
    requires Crowd(s) && (who == OfMember(s.owner) || |s.participants.Keys| < PARTICIPANT_LIMIT)
    ensures Crowd(Enrolled(s, who))
  {
    OneMoreIdentity(s.participants.Keys, s.owner, who);
    assert Enrolled(s, who).participants.Keys == s.participants.Keys + {who};
  }

  lemma EnrolKeepsInv(s: State, who: Identity)
    requires Inv(s) && who !in s.participants && (who == OfMember(s.owner) || |s.participants| < PARTICIPANT_LIMIT)
    ensures Inv(Enrolled(s, who))
  {
    EnrolKeepsCrowd(s, who);
    EnrolKeepsAgreement(s, who);
    EnrolKeepsRows(s, who);
  }

  lemma EnrolKeepsRows(s: State, who: Identity)
    requires Fresh(s) && OwnsSlots(s) && Capacity(s) && Versions(s) && who !in s.participants
    ensures var r := Enrolled(s, who); Fresh(r) && OwnsSlots(r) && Capacity(r) && Versions(r)
  {
  }

  lemma EnrolKeepsAgreement(s: State, who: Identity)
    requires Agreement(s) && Fresh(s) && who !in s.participants
    ensures Agreement(Enrolled(s, who))
  {
    var t := Enrolled(s, who);
    forall m: Member, k: Slot | SlotOf(t, m, k) ensures Follows(t, m, k) { assert SlotOf(s, m, k); }
    forall id | id in t.histories && t.histories[id].status == Active ensures Live(t, id, t.histories[id]) {
      assert Live(s, id, s.histories[id]);
    }
  }

  lemma EnrolAndReserveKeepsInv(s: State, who: Identity, wish: WishId, verb: Verb, expected: Option<nat>, limited: bool)
    requires Inv(s) && (limited || who == OfMember(s.owner))
    ensures Inv(EnrolAndReserve(s, who, wish, verb, expected, limited).0)
  {
    var r := EnrolAndReserve(s, who, wish, verb, expected, limited).0;
    if who in s.participants {
      ReserveKeepsInv(s, who, wish, verb, expected);
    } else if r != s {
      EnrolKeepsInv(s, who);
      assert Enrolled(s, who).participants[who] == s.next;
      ReserveKeepsInv(Enrolled(s, who), who, wish, verb, expected);
    }
  }

  lemma RefusedEnrolmentIsUndone(s: State, who: Identity, wish: WishId, verb: Verb, expected: Option<nat>, limited: bool)
    requires EnrolAndReserve(s, who, wish, verb, expected, limited).1.Refused?
    ensures EnrolAndReserve(s, who, wish, verb, expected, limited).0 == s
  {
    if who in s.participants { RefusalChangesNothing(s, who, s.participants[who], wish, verb, expected); }
  }

  /** Whatever the way in, a refused request leaves every row as it was, and nobody enrolled. */
  lemma RefusedRequestsChangeNothing(s: State, who: Option<Identity>, m: Member, wish: WishId, verb: Verb, expected: Option<nat>)
    ensures PublicReservation(s, who, wish, verb, expected).1.Refused? ==> PublicReservation(s, who, wish, verb, expected).0 == s
    ensures OwnerReservation(s, wish, verb, expected).1.Refused? ==> OwnerReservation(s, wish, verb, expected).0 == s
    ensures GroupReservation(s, m, wish, verb, expected).1.Refused? ==> GroupReservation(s, m, wish, verb, expected).0 == s
  {
    if who.Some? && who.value in s.participants && PublicReservation(s, who, wish, verb, expected).1.Refused? {
      RefusalChangesNothing(s, who.value, s.participants[who.value], wish, verb, expected);
    }
    if EnrolAndReserve(s, OfMember(s.owner), wish, verb, expected, false).1.Refused? {
      RefusedEnrolmentIsUndone(s, OfMember(s.owner), wish, verb, expected, false);
    }
    if EnrolAndReserve(s, OfMember(m), wish, verb, expected, true).1.Refused? {
      RefusedEnrolmentIsUndone(s, OfMember(m), wish, verb, expected, true);
    }
  }

  // Rows that go.

  /** Wishes, participants and rows only go, apart from guests who lose their session. */
  ghost predicate Shrinks(s: State, r: State) {
    && r.owner == s.owner && r.next == s.next && r.written == s.written
    && (forall w :: w in r.wishes ==> w in s.wishes && r.wishes[w] == s.wishes[w])
    && (forall who :: who in r.participants ==> who in s.participants && r.participants[who] == s.participants[who])
    && (forall k :: k in r.reservations ==> k in s.reservations && r.reservations[k] == s.reservations[k] && k.wish in r.wishes)
    && (forall id :: id in r.histories ==> id in s.histories && r.histories[id] in {s.histories[id], Marked(s.histories[id])})
    && (forall p :: p in r.orphans ==> p in s.orphans || Departed(s, r, p))
  }

  ghost predicate Departed(s: State, r: State, p: ParticipantId) {
    exists who :: who in s.participants && who !in r.participants && s.participants[who] == p
  }

  lemma ShrinkKeepsRows(s: State, r: State)
    requires Inv(s) && Shrinks(s, r)
    ensures Capacity(r) && Fresh(r) && OwnsSlots(r) && Crowd(r) && Versions(r)
  {
    FewerRowsKeepCapacity(s, r);
    ShrinkKeepsKeys(s, r);
    SubsetIsSmaller(Visitors(r.participants.Keys, s.owner), Visitors(s.participants.Keys, s.owner));
  }

  lemma ShrinkKeepsKeys(s: State, r: State)
    requires Fresh(s) && OwnsSlots(s) && Versions(s) && Shrinks(s, r)
    ensures Fresh(r) && OwnsSlots(r) && Versions(r)
  {
  }

  lemma RemoveWishKeepsInv(s: State, wish: WishId)
    requires Inv(s)
    ensures Inv(RemoveWish(s, wish))
  {
    var t := RemoveWish(s, wish);
    ShrinkKeepsRows(s, t);
    RemoveWishKeepsAgreement(s, wish);
  }

  lemma RemoveWishKeepsAgreement(s: State, wish: WishId)
    requires Agreement(s)
    ensures Agreement(RemoveWish(s, wish))
  {
    var t := RemoveWish(s, wish);
    forall m: Member, k: Slot | SlotOf(t, m, k) ensures Follows(t, m, k) { assert SlotOf(s, m, k); assert Follows(s, m, k); }
    forall id | id in t.histories && t.histories[id].status == Active ensures Live(t, id, t.histories[id]) {
      assert Live(s, id, s.histories[id]);
    }
  }

  lemma RemoveListKeepsInv(s: State)
    requires Inv(s)
    ensures Inv(RemoveList(s))
  {
    ShrinkKeepsRows(s, RemoveList(s));
  }

  lemma RemoveGuestKeepsInv(s: State, g: Guest)
    requires Inv(s)
    ensures Inv(RemoveGuest(s, g))
  {
    var t := RemoveGuest(s, g);
    if t != s {
      assert Departed(s, t, s.participants[OfGuest(g)]);
      ShrinkKeepsRows(s, t);
      RemoveGuestKeepsAgreement(s, g);
    }
  }

  lemma RemoveGuestKeepsAgreement(s: State, g: Guest)
    requires Agreement(s)
    ensures Agreement(RemoveGuest(s, g))
  {
    var t := RemoveGuest(s, g);
    forall m: Member, k: Slot | SlotOf(t, m, k) ensures Follows(t, m, k) { assert SlotOf(s, m, k); }
    forall id | id in t.histories && t.histories[id].status == Active ensures Live(t, id, t.histories[id]) {
      assert Live(s, id, s.histories[id]);
    }
  }

  lemma RemoveMemberKeepsInv(s: State, m: Member)
    requires Inv(s)
    ensures Inv(RemoveMember(s, m))
  {
    if m == s.owner {
      RemoveListKeepsInv(s);
      ForgetKeepsInv(RemoveList(s), m);
    } else {
      VacateKeepsInv(s, m);
    }
  }

  /** A member without participation has no Active history to lose. */
  lemma ForgetKeepsInv(s: State, m: Member)
    requires Inv(s) && OfMember(m) !in s.participants
    ensures Inv(Forgotten(s, m))
  {
    var t := Forgotten(s, m);
    ShrinkKeepsRows(s, t);
    forall o: Member, k: Slot | SlotOf(t, o, k) ensures Follows(t, o, k) { assert SlotOf(s, o, k); assert Follows(s, o, k); }
    forall id | id in t.histories && t.histories[id].status == Active ensures Live(t, id, t.histories[id]) {
      assert Live(s, id, s.histories[id]);
    }
  }

  lemma VacateKeepsInv(s: State, m: Member)
    requires Inv(s)
    ensures Inv(Forgotten(Vacated(s, m), m))
  {
    VacateShrinks(s, m);
    ShrinkKeepsRows(s, Forgotten(Vacated(s, m), m));
    VacateKeepsAgreement(s, m);
  }

  lemma VacateShrinks(s: State, m: Member)
    requires Capacity(s)
    ensures Shrinks(s, Forgotten(Vacated(s, m), m))
  {
  }

  lemma VacateKeepsAgreement(s: State, m: Member)
    requires Agreement(s) && OwnsSlots(s)
    ensures Agreement(Forgotten(Vacated(s, m), m))
  {
    var t := Forgotten(Vacated(s, m), m);
    forall o: Member, k: Slot | SlotOf(t, o, k) ensures Follows(t, o, k) { assert SlotOf(s, o, k); assert Follows(s, o, k); }
    forall id | id in t.histories && t.histories[id].status == Active ensures Live(t, id, t.histories[id]) {
      assert Live(s, id, s.histories[id]);
    }
  }

  // Every event.

  lemma AddKeepsInv(s: State, quantity: nat)
    requires Inv(s)
    ensures Inv(Step(s, AddWish(quantity)))
  {
    var r := Step(s, AddWish(quantity));
    AddKeepsCapacity(s, quantity);
    WishesKeepAgreement(s, r);
    WishesKeepKeys(s, r);
  }

  lemma EditKeepsInv(s: State, wish: WishId, quantity: nat)
    requires Inv(s)
    ensures Inv(EditWish(s, wish, quantity).0)
  {
    var r := EditWish(s, wish, quantity).0;
    if r != s {
      EditKeepsCapacity(s, wish, quantity);
      WishesKeepAgreement(s, r);
      WishesKeepKeys(s, r);
    }
  }

  lemma EditKeepsCapacity(s: State, wish: WishId, quantity: nat)
    requires Capacity(s)
    ensures Capacity(EditWish(s, wish, quantity).0)
  {
  }

  /** Only wishes change, and new ones are as fresh as identifiers are. */
  ghost predicate WishesOnly(s: State, r: State) {
    && r == s.(wishes := r.wishes, next := r.next) && s.next <= r.next
  }

  lemma WishesKeepKeys(s: State, r: State)
    requires Fresh(s) && OwnsSlots(s) && Crowd(s) && Versions(s) && WishesOnly(s, r)
    requires forall w :: w in r.wishes ==> w < r.next
    ensures Fresh(r) && OwnsSlots(r) && Crowd(r) && Versions(r)
  {
  }

  lemma WishesKeepAgreement(s: State, r: State)
    requires Agreement(s) && WishesOnly(s, r)
    ensures Agreement(r)
  {
    forall m: Member, k: Slot | SlotOf(r, m, k) ensures Follows(r, m, k) { assert SlotOf(s, m, k); }
    forall id | id in r.histories && r.histories[id].status == Active ensures Live(r, id, r.histories[id]) {
      assert Live(s, id, s.histories[id]);
    }
  }

  predicate Reserves(e: Event) { e.ByLink? || e.ByOwner? || e.ByGroup? || e.Join? }

  lemma ReservingKeepsInv(s: State, e: Event)
    requires Inv(s) && Reserves(e)
    ensures Inv(Step(s, e))
  {
    match e
    case ByLink(who, wish, verb, expected) => LinkKeepsInv(s, who, wish, verb, expected);
    case ByOwner(wish, verb, expected) => OwnerKeepsInv(s, wish, verb, expected);
    case ByGroup(m, wish, verb, expected) => GroupKeepsInv(s, m, wish, verb, expected);
    case Join(who) => JoinKeepsInv(s, who);
  }

  lemma LinkKeepsInv(s: State, who: Option<Identity>, wish: WishId, verb: Verb, expected: Option<nat>)
    requires Inv(s)
    ensures Inv(PublicReservation(s, who, wish, verb, expected).0)
  {
    if who.Some? && who.value in s.participants { ReserveKeepsInv(s, who.value, wish, verb, expected); }
  }

  lemma OwnerKeepsInv(s: State, wish: WishId, verb: Verb, expected: Option<nat>)
    requires Inv(s)
    ensures Inv(OwnerReservation(s, wish, verb, expected).0)
  {
    EnrolAndReserveKeepsInv(s, OfMember(s.owner), wish, verb, expected, false);
  }

  lemma GroupKeepsInv(s: State, m: Member, wish: WishId, verb: Verb, expected: Option<nat>)
    requires Inv(s)
    ensures Inv(GroupReservation(s, m, wish, verb, expected).0)
  {
    EnrolAndReserveKeepsInv(s, OfMember(m), wish, verb, expected, true);
  }

  lemma JoinKeepsInv(s: State, who: Identity)
    requires Inv(s)
    ensures Inv(JoinWishlist(s, who).0)
  {
    if JoinWishlist(s, who).0 != s { EnrolKeepsInv(s, who); }
  }

  lemma {:induction false} StepKeepsInv(s: State, e: Event)
    requires Inv(s)
    ensures Inv(Step(s, e))
  {
    if Reserves(e) {
      ReservingKeepsInv(s, e);
    } else {
      ManagingKeepsInv(s, e);
    }
  }

  lemma ManagingKeepsInv(s: State, e: Event)
    requires Inv(s) && !Reserves(e)
    ensures Inv(Step(s, e))
  {
    match e
    case AddWish(quantity) => AddKeepsInv(s, quantity);
    case Edit(wish, quantity) => EditKeepsInv(s, wish, quantity);
    case DeleteWish(wish) => RemoveWishKeepsInv(s, wish);
    case DeleteList => RemoveListKeepsInv(s);
    case GuestGone(g) => RemoveGuestKeepsInv(s, g);
    case MemberGone(m) => RemoveMemberKeepsInv(s, m);
  }

  lemma {:induction false} EveryRunKeepsInv(owner: Member, es: seq<Event>)
    ensures Inv(Run(owner, es))
  {
    if es != [] {
      EveryRunKeepsInv(owner, es[..|es| - 1]);
      StepKeepsInv(Run(owner, es[..|es| - 1]), es[|es| - 1]);
    }
  }

  // ---------------------------------------------------------------- main results

  /** Whatever the ways in, and even for rows of guests long gone, no wish is over-reserved. */
  lemma NeverOverReserved(owner: Member, es: seq<Event>, wish: WishId)
    requires wish in Run(owner, es).wishes
    ensures Reserved(Run(owner, es).reservations, wish) <= Run(owner, es).wishes[wish]
  {
    EveryRunKeepsInv(owner, es);
  }

  /** A member's reservation and an Active history row of that member, wish and quantity are the same thing. */
  lemma HistoryIsFaithful(owner: Member, es: seq<Event>, id: ReservationId, h: History)
    requires h.status == Active
    ensures var s := Run(owner, es);
      (id in s.histories && s.histories[id] == h) <==> Live(s, id, h)
  {
    EveryRunKeepsInv(owner, es);
    var s := Run(owner, es);
    if Live(s, id, h) { assert SlotOf(s, h.member, Slot(s.participants[OfMember(h.member)], h.wish)); }
  }

  lemma AtMostOneHundredVisitors(owner: Member, es: seq<Event>)
    ensures |Visitors(Run(owner, es).participants.Keys, owner)| <= PARTICIPANT_LIMIT
  {
    EveryRunKeepsInv(owner, es);
    OwnerStays(owner, es);
  }

  lemma {:induction false} OwnerStays(owner: Member, es: seq<Event>)
    ensures Run(owner, es).owner == owner
  {
    if es != [] {
      OwnerStays(owner, es[..|es| - 1]);
      StepRemembers(Run(owner, es[..|es| - 1]), es[|es| - 1]);
    }
  }

  /** Nothing written is forgotten, and no version number is used again. */
  ghost predicate Remembers(s: State, r: State) {
    r.owner == s.owner && forall v :: v in s.written ==> v in r.written && (v < s.next ==> r.written[v] == s.written[v])
  }

  lemma ReserveRemembers(s: State, who: Identity, p: ParticipantId, wish: WishId, verb: Verb, expected: Option<nat>)
    ensures Remembers(s, Reserve(s, who, p, wish, verb, expected).0) && s.next <= Reserve(s, who, p, wish, verb, expected).0.next
  {
  }

  lemma StepRemembers(s: State, e: Event)
    ensures Remembers(s, Step(s, e))
  {
    match e
    case ByLink(who, wish, verb, expected) =>
      if who.Some? && who.value in s.participants { ReserveRemembers(s, who.value, s.participants[who.value], wish, verb, expected); }
    case ByOwner(wish, verb, expected) => EnrolAndReserveRemembers(s, OfMember(s.owner), wish, verb, expected, false);
    case ByGroup(m, wish, verb, expected) => EnrolAndReserveRemembers(s, OfMember(m), wish, verb, expected, true);
    case _ =>
  }

  lemma EnrolAndReserveRemembers(s: State, who: Identity, wish: WishId, verb: Verb, expected: Option<nat>, limited: bool)
    ensures Remembers(s, EnrolAndReserve(s, who, wish, verb, expected, limited).0)
  {
    if who in s.participants {
      ReserveRemembers(s, who, s.participants[who], wish, verb, expected);
    } else {
      ReserveRemembers(Enrolled(s, who), who, s.next, wish, verb, expected);
    }
  }

  lemma {:induction false} RunRemembers(owner: Member, es: seq<Event>, fs: seq<Event>, v: nat)
    requires v in Run(owner, es).written
    ensures v in Run(owner, es + fs).written && Run(owner, es + fs).written[v] == Run(owner, es).written[v]
    decreases |fs|
  {
    if fs == [] {
      assert es + fs == es;
    } else {
      var before := fs[..|fs| - 1];
      assert (es + fs)[..|es + fs| - 1] == es + before;
      RunRemembers(owner, es, before, v);
      EveryRunKeepsInv(owner, es + before);
      StepRemembers(Run(owner, es + before), fs[|fs| - 1]);
    }
  }

  /** A version stands for one row of one slot: whoever still finds it finds the row it was read from. */
  lemma SameVersionSameRow(owner: Member, es: seq<Event>, fs: seq<Event>, a: Slot, b: Slot)
    requires a in Run(owner, es).reservations && b in Run(owner, es + fs).reservations
    requires Run(owner, es).reservations[a].version == Run(owner, es + fs).reservations[b].version
    ensures a == b && Run(owner, es).reservations[a] == Run(owner, es + fs).reservations[b]
  {
    EveryRunKeepsInv(owner, es);
    EveryRunKeepsInv(owner, es + fs);
    RunRemembers(owner, es, fs, Run(owner, es).reservations[a].version);
  }

  /** A request in any of the three ways, with whoever makes it. */
  datatype Request = Request(who: Identity, wish: WishId, verb: Verb, expected: Option<nat>)

  function Asked(s: State, e: Event): Option<Request> {
    match e
    case ByLink(Some(who), wish, verb, expected) => Some(Request(who, wish, verb, expected))
    case ByOwner(wish, verb, expected) => Some(Request(OfMember(s.owner), wish, verb, expected))
    case ByGroup(m, wish, verb, expected) => Some(Request(OfMember(m), wish, verb, expected))
    case _ => None
  }

  /** The request is about this row, its caller owns it and names its current version. */
  predicate Concerns(s: State, q: Request, k: Slot) {
    && q.who in s.participants && k == Slot(s.participants[q.who], q.wish)
    && k in s.reservations && q.expected == Some(s.reservations[k].version)
  }

  /** What a request may do to the rows that exist: nothing, or replace or remove the one it concerns. */
  ghost predicate Bounded(s: State, q: Request, r: State) {
    && (forall k :: k in s.reservations ==>
          || (k in r.reservations && r.reservations[k] == s.reservations[k])
          || (Concerns(s, q, k) && q.verb.Put? && k in r.reservations
              && r.reservations[k] == Reservation(s.reservations[k].id, q.verb.quantity, s.next))
          || (Concerns(s, q, k) && q.verb.Delete? && k !in r.reservations))
    && (r != s && q.expected.Some? ==>
          && q.who in s.participants
          && var slot := Slot(s.participants[q.who], q.wish);
             Concerns(s, q, slot) && (slot in r.reservations ==> r.reservations[slot] != s.reservations[slot]))
    && (forall k :: k in r.reservations && k !in s.reservations ==> s.next <= r.reservations[k].version)
    && s.next <= r.next
  }

  lemma ReserveIsBounded(s: State, q: Request)
    requires q.who in s.participants
    ensures Bounded(s, q, Reserve(s, q.who, s.participants[q.who], q.wish, q.verb, q.expected).0)
  {
  }

  lemma NewcomerIsBounded(s: State, q: Request)
    requires Fresh(s) && q.who !in s.participants && q.expected == None
    ensures Bounded(s, q, Reserve(Enrolled(s, q.who), q.who, s.next, q.wish, q.verb, None).0)
  {
    assert Slot(s.next, q.wish) !in s.reservations;
  }

  lemma EnrolAndReserveIsBounded(s: State, q: Request, limited: bool)
    requires Fresh(s)
    ensures Bounded(s, q, EnrolAndReserve(s, q.who, q.wish, q.verb, q.expected, limited).0)
  {
    if q.who in s.participants {
      ReserveIsBounded(s, q);
    } else if q.expected == None {
      NewcomerIsBounded(s, q);
    }
  }

  lemma RequestsAreBounded(s: State, e: Event)
    requires Fresh(s) && Asked(s, e).Some?
    ensures Bounded(s, Asked(s, e).value, Step(s, e))
  {
    var q := Asked(s, e).value;
    match e
    case ByLink(who, wish, verb, expected) => if q.who in s.participants { ReserveIsBounded(s, q); }
    case ByOwner(wish, verb, expected) => EnrolAndReserveIsBounded(s, q, false);
    case ByGroup(m, wish, verb, expected) => EnrolAndReserveIsBounded(s, q, true);
  }

  /** The other events keep or remove rows. */
  ghost predicate Clears(s: State, e: Event, r: State) {
    && (forall k :: k in r.reservations ==> k in s.reservations && r.reservations[k] == s.reservations[k])
    && (forall k :: k in s.reservations && k !in r.reservations ==> Ends(s, e, k))
    && s.next <= r.next
  }

  /** The row goes with its wish, its list or its member. */
  predicate Ends(s: State, e: Event, k: Slot) {
    || e == DeleteWish(k.wish) || e == DeleteList
    || (e.MemberGone? && (e.m == s.owner || (OfMember(e.m) in s.participants && s.participants[OfMember(e.m)] == k.participant)))
  }

  ghost predicate Moves(s: State, e: Event, r: State) {
    if Asked(s, e).Some? then Bounded(s, Asked(s, e).value, r) else Clears(s, e, r)
  }

  lemma StepMoves(s: State, e: Event)
    requires Fresh(s)
    ensures Moves(s, e, Step(s, e))
  {
    if Asked(s, e).Some? { RequestsAreBounded(s, e); } else { OthersClear(s, e); }
  }

  lemma OthersClear(s: State, e: Event)
    requires Asked(s, e) == None
    ensures Clears(s, e, Step(s, e))
  {
    match e
    case MemberGone(m) => MemberClears(s, m);
    case _ =>
  }

  lemma MemberClears(s: State, m: Member)
    ensures Clears(s, MemberGone(m), RemoveMember(s, m))
  {
  }

  lemma RunMoves(owner: Member, es: seq<Event>, e: Event)
    ensures Inv(Run(owner, es)) && Moves(Run(owner, es), e, Run(owner, es + [e]))
  {
    EveryRunKeepsInv(owner, es);
    assert (es + [e])[..|es|] == es;
    StepMoves(Run(owner, es), e);
  }

  /** A request of the row's own participant, based on its current version, that replaces it. */
  predicate Replaces(s: State, e: Event, r: State, k: Slot)
    requires k in s.reservations && k in r.reservations
  {
    && Asked(s, e).Some? && Asked(s, e).value.verb.Put? && Concerns(s, Asked(s, e).value, k)
    && r.reservations[k] == Reservation(s.reservations[k].id, Asked(s, e).value.verb.quantity, s.next)
  }

  predicate Deletes(s: State, e: Event, k: Slot) {
    Asked(s, e).Some? && Asked(s, e).value.verb.Delete? && Concerns(s, Asked(s, e).value, k)
  }

  lemma MovesReplace(s: State, e: Event, r: State, k: Slot)
    requires Moves(s, e, r) && k in s.reservations && k in r.reservations && r.reservations[k] != s.reservations[k]
    ensures Replaces(s, e, r, k)
  {
  }

  /** In every run, a row changes only by a Put of the participant it belongs to, based on its current version. */
  lemma ChangesAreBasedOnCurrentVersion(owner: Member, es: seq<Event>, e: Event, k: Slot)
    requires k in Run(owner, es).reservations && k in Run(owner, es + [e]).reservations
    requires Run(owner, es + [e]).reservations[k] != Run(owner, es).reservations[k]
    ensures Replaces(Run(owner, es), e, Run(owner, es + [e]), k)
  {
    RunMoves(owner, es, e);
    MovesReplace(Run(owner, es), e, Run(owner, es + [e]), k);
  }

  /** In every run, a row disappears only by its own participant's Delete based on its current version, or with
      its wish, its list or its member. */
  lemma RemovalsAreBasedOnCurrentVersion(owner: Member, es: seq<Event>, e: Event, k: Slot)
    requires k in Run(owner, es).reservations && k !in Run(owner, es + [e]).reservations
    ensures Deletes(Run(owner, es), e, k) || Ends(Run(owner, es), e, k)
  {
    RunMoves(owner, es, e);
    MovesRemove(Run(owner, es), e, Run(owner, es + [e]), k);
  }

  lemma MovesRemove(s: State, e: Event, r: State, k: Slot)
    requires Moves(s, e, r) && k in s.reservations && k !in r.reservations
    ensures Deletes(s, e, k) || Ends(s, e, k)
  {
  }

  /** A change request that names a version. */
  predicate Names(s: State, e: Event, v: nat) {
    Asked(s, e).Some? && !Asked(s, e).value.verb.Get? && Asked(s, e).value.expected == Some(v)
  }

  /** The event replaces or deletes exactly this row, on behalf of its participant. */
  ghost predicate Touches(s: State, e: Event, r: State, k: Slot) {
    && k in s.reservations && (if k in r.reservations then Replaces(s, e, r, k) else Deletes(s, e, k))
    && forall j :: j in s.reservations && j != k ==> j in r.reservations && r.reservations[j] == s.reservations[j]
  }

  ghost predicate Vacant(s: State, v: nat) { forall k :: k in s.reservations ==> s.reservations[k].version != v }

  /** A request that names a version does nothing, or touches the one row that has it, and the version is gone. */
  lemma MovesByVersion(s: State, e: Event, r: State, v: nat)
    requires Inv(s) && Moves(s, e, r) && Names(s, e, v) && r != s
    ensures exists k :: k in s.reservations && s.reservations[k].version == v && Touches(s, e, r, k)
    ensures v < s.next && Vacant(r, v)
  {
    var q := Asked(s, e).value;
    var k := Slot(s.participants[q.who], q.wish);
    assert Concerns(s, q, k);
    assert Touches(s, e, r, k);
  }

  /** No update is lost: a request with a version read earlier takes effect only while the row is still the one that
      was read, and then on that row alone. */
  lemma NoLostUpdate(owner: Member, es: seq<Event>, fs: seq<Event>, e: Event, k: Slot)
    requires k in Run(owner, es).reservations && Names(Run(owner, es + fs), e, Run(owner, es).reservations[k].version)
    requires Run(owner, es + fs + [e]) != Run(owner, es + fs)
    ensures Touches(Run(owner, es + fs), e, Run(owner, es + fs + [e]), k)
    ensures Run(owner, es + fs).reservations[k] == Run(owner, es).reservations[k]
  {
    var s, r, v := Run(owner, es + fs), Run(owner, es + fs + [e]), Run(owner, es).reservations[k].version;
    RunMoves(owner, es + fs, e);
    MovesByVersion(s, e, r, v);
    var j :| j in s.reservations && s.reservations[j].version == v && Touches(s, e, r, j);
    SameVersionSameRow(owner, es, fs, k, j);
  }

  lemma MovesLeaveVacant(s: State, e: Event, r: State, v: nat)
    requires Moves(s, e, r) && v < s.next && Vacant(s, v)
    ensures v < r.next && Vacant(r, v)
  {
  }

  /** A version that is gone never comes back. */
  lemma {:induction false} VersionsNeverReturn(owner: Member, es: seq<Event>, fs: seq<Event>, v: nat)
    requires v < Run(owner, es).next && Vacant(Run(owner, es), v)
    ensures v < Run(owner, es + fs).next && Vacant(Run(owner, es + fs), v)
    decreases |fs|
  {
    if fs == [] {
      assert es + fs == es;
    } else {
      var before, last := fs[..|fs| - 1], fs[|fs| - 1];
      VersionsNeverReturn(owner, es, before, v);
      assert es + fs == es + before + [last];
      RunMoves(owner, es + before, last);
      MovesLeaveVacant(Run(owner, es + before), last, Run(owner, es + before + [last]), v);
    }
  }

  /** Of all requests made with the same version, at most one ever takes effect. */
  lemma FirstWriterWins(owner: Member, es: seq<Event>, first: Event, fs: seq<Event>, second: Event, v: nat)
    requires Names(Run(owner, es), first, v) && Run(owner, es + [first]) != Run(owner, es)
    requires Names(Run(owner, es + [first] + fs), second, v)
    ensures Run(owner, es + [first] + fs + [second]) == Run(owner, es + [first] + fs)
  {
    RunMoves(owner, es, first);
    MovesByVersion(Run(owner, es), first, Run(owner, es + [first]), v);
    VersionsNeverReturn(owner, es + [first], fs, v);
    var s, r := Run(owner, es + [first] + fs), Run(owner, es + [first] + fs + [second]);
    RunMoves(owner, es + [first] + fs, second);
    if r != s { MovesByVersion(s, second, r, v); }
  }

  // ---------------------------------------------------------------- the transactions

  class ListRows {
    var owner: Member
    var wishes: map<WishId, nat>
    var participants: map<Identity, ParticipantId>
    var orphans: set<ParticipantId>
    var reservations: map<Slot, Reservation>
    var histories: map<ReservationId, History>
    var next: nat
    ghost var written: map<nat, Written>

    ghost function Rows(): State
      reads this
    {
      State(owner, wishes, participants, orphans, reservations, histories, next, written)
    }

    constructor (owner: Member)
      ensures Rows() == New(owner) && Inv(Rows())
    {
      this.owner := owner;
      wishes, participants, orphans, reservations, histories, next, written := map[], map[], {}, map[], map[], 0, map[];
      new;
      EveryRunKeepsInv(owner, []);
    }

    method ReservedByOthers(slot: Slot) returns (reserved: nat)
      ensures reserved == Reserved(reservations - {slot}, slot.wish)
    {
      reserved := 0;
      var left := reservations - {slot};
      while left != map[]
        invariant reserved + Reserved(left, slot.wish) == Reserved(reservations - {slot}, slot.wish)
        decreases |left|
      {
        var k :| k in left;
        ReservedWithout(left, k, slot.wish);
        if k.wish == slot.wish {
          reserved := reserved + left[k].quantity;
        }
        left := left - {k};
      }
    }

    method ReservationInTransaction(who: Identity, p: ParticipantId, wish: WishId, verb: Verb, expected: Option<nat>) returns (reply: Reply)
      modifies this
      ensures (Rows(), reply) == Reserve(old(Rows()), who, p, wish, verb, expected)
    {
      if wish !in wishes {
        return Refused(WishNotFound);
      }
      var slot := Slot(p, wish);
      var found := slot in reservations;
      if !verb.Put? && !found {
        return Refused(ReservationNotFound);
      }
      if verb.Get? {
        return Shown(reservations[slot]);
      }
      if found && expected == None {
        return Refused(PreconditionRequired);
      }
      if expected.Some? && (!found || expected.value != reservations[slot].version) {
        return Refused(VersionConflict);
      }
      if verb.Delete? {
        histories := Ended(histories, who, reservations[slot].id);
        reservations := reservations - {slot};
        return Removed;
      }
      reply := PutReservation(who, slot, verb.quantity);
    }

    method PutReservation(who: Identity, slot: Slot, quantity: nat) returns (reply: Reply)
      requires slot.wish in wishes
      modifies this
      ensures (Rows(), reply) == PutQuantity(old(Rows()), who, slot, quantity)
    {
      var reserved := ReservedByOthers(slot);
      if quantity + reserved > wishes[slot.wish] {
        return Refused(QuantityUnavailable);
      }
      if slot in reservations && reservations[slot].quantity == quantity {
        return Shown(reservations[slot]);
      }
      if !(1 <= quantity <= MAXIMUM_QUANTITY) {
        return Refused(InvalidQuantity);
      }
      var id := next;
      if slot in reservations {
        id := reservations[slot].id;
      } else {
        next := next + 1;
      }
      var r := Reservation(id, quantity, next);
      next := next + 1;
      reservations := reservations[slot := r];
      written := written[r.version := Written(slot, r)];
      histories := Noted(histories, who, slot.wish, r);
      reply := Shown(r);
    }

    method ReserveAsOwner(wish: WishId, verb: Verb, expected: Option<nat>) returns (reply: Reply)
      modifies this
      ensures (Rows(), reply) == OwnerReservation(old(Rows()), wish, verb, expected)
    {
      if wish !in wishes {
        return Refused(WishNotFound);
      }
      reply := EnrolAnd(OfMember(owner), wish, verb, expected, false);
    }

    method ReserveThroughGroup(m: Member, wish: WishId, verb: Verb, expected: Option<nat>) returns (reply: Reply)
      modifies this
      ensures (Rows(), reply) == GroupReservation(old(Rows()), m, wish, verb, expected)
    {
      if m == owner {
        return Refused(OwnerConflict);
      }
      reply := EnrolAnd(OfMember(m), wish, verb, expected, true);
    }

    method EnrolAnd(who: Identity, wish: WishId, verb: Verb, expected: Option<nat>, limited: bool) returns (reply: Reply)
      modifies this
      ensures (Rows(), reply) == EnrolAndReserve(old(Rows()), who, wish, verb, expected, limited)
    {
      if who in participants {
        reply := ReservationInTransaction(who, participants[who], wish, verb, expected);
        return;
      }
      if !verb.Put? {
        return Refused(ReservationNotFound);
      }
      if expected.Some? {
        return Refused(VersionConflict);
      }
      if limited && |participants| >= PARTICIPANT_LIMIT {
        return Refused(ParticipantLimit);
      }
      reply := EnrolThenReserve(who, wish, verb, expected);
    }

    // A refusal rolls the enrolment back with the rest of the transaction.
    method EnrolThenReserve(who: Identity, wish: WishId, verb: Verb, expected: Option<nat>) returns (reply: Reply)
      modifies this
      ensures var (r, answer) := Reserve(Enrolled(old(Rows()), who), who, old(next), wish, verb, expected);
        reply == answer && Rows() == if answer.Refused? then old(Rows()) else r
    {
      var previous, id := participants, next;
      participants := participants[who := id];
      next := next + 1;
      reply := ReservationInTransaction(who, id, wish, verb, expected);
      if reply.Refused? {
        RefusalChangesNothing(Enrolled(old(Rows()), who), who, id, wish, verb, expected);
        participants, next := previous, id;
      }
    }
  }

  lemma RefusalChangesNothing(s: State, who: Identity, p: ParticipantId, wish: WishId, verb: Verb, expected: Option<nat>)
    requires Reserve(s, who, p, wish, verb, expected).1.Refused?
    ensures Reserve(s, who, p, wish, verb, expected).0 == s
  {
  }
}
