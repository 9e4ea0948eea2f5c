/** What the requests on one wishlist's reservations answer and leave behind, told from the request and the rows
    before it: when each succeeds, for which reason it is refused, and what the cascades take away. */
module ReservationAnswers {
  import opened Common
  import opened GiftReservations

  ghost function Answer(s: State, e: Event): Reply
    requires Asked(s, e).Some?
  {
    match e
    case ByLink(who, wish, verb, expected) => PublicReservation(s, who, wish, verb, expected).1
    case ByOwner(wish, verb, expected) => OwnerReservation(s, wish, verb, expected).1
    case ByGroup(m, wish, verb, expected) => GroupReservation(s, m, wish, verb, expected).1
  }

  // ---------------------------------------------------------------- what a request is about

  predicate Has(s: State, q: Request) { q.who in s.participants && Slot(s.participants[q.who], q.wish) in s.reservations }

  function RowOf(s: State, q: Request): Reservation
    requires Has(s, q)
  {
    s.reservations[Slot(s.participants[q.who], q.wish)]
  }

  /** The precondition: the current version of the caller's row, or none when there is no row. */
  predicate Matches(s: State, q: Request) { q.expected == if Has(s, q) then Some(RowOf(s, q).version) else None }

  /** Who may reserve: a participant of the link, the owner, and a member of a group while there is room for one more. */
  predicate MayReserve(s: State, e: Event)
    requires Asked(s, e).Some?
  {
    match e
    case ByLink(who, _, _, _) => who.value in s.participants
    case ByOwner(_, _, _) => true
    case ByGroup(m, _, _, _) => m != s.owner && (OfMember(m) in s.participants || |s.participants| < 100)
  }

  /** What everyone else has reserved of the wish. */
  ghost function Others(s: State, q: Request): nat {
    Reserved(if q.who in s.participants then s.reservations - {Slot(s.participants[q.who], q.wish)} else s.reservations, q.wish)
  }

  /** Reserved counts each row of the wish once, with its quantity, and nothing else. */
  lemma ReservedIsTheSum(rows: map<Slot, Reservation>, slot: Slot, r: Reservation, wish: WishId)
    requires slot !in rows
    ensures Reserved(map[], wish) == 0
    ensures Reserved(rows[slot := r], wish) == Reserved(rows, wish) + if slot.wish == wish then r.quantity else 0
  {
    ReservedWith(rows, slot, r, wish);
    assert rows - {slot} == rows;
  }

  ghost predicate Fits(s: State, q: Request, quantity: nat)
    requires q.wish in s.wishes
  {
    1 <= quantity <= 100 && quantity + Others(s, q) <= s.wishes[q.wish]
  }

  ghost predicate Sized(s: State) { forall k :: k in s.reservations ==> 1 <= s.reservations[k].quantity <= 100 }

  // ---------------------------------------------------------------- the shared transaction

  /** The caller's row is the shown one, in its slot; every other row, wish and history stays. */
  ghost predicate Leaves(s: State, who: Identity, slot: Slot, quantity: nat, row: Reservation, r: State) {
    && row.quantity == quantity && r.reservations == s.reservations[slot := row]
    && r.wishes == s.wishes && r.participants == s.participants && r.owner == s.owner && r.orphans == s.orphans
    && (slot in s.reservations ==> row.id == s.reservations[slot].id)
    && (forall id :: id in s.histories ==> id in r.histories)
    && (forall id :: id in r.histories && (id != row.id || who.OfGuest?) ==> id in s.histories && r.histories[id] == s.histories[id])
  }

  lemma PutInTransaction(s: State, who: Identity, slot: Slot, quantity: nat, expected: Option<nat>)
    requires Sized(s)
    ensures var (r, answer) := Reserve(s, who, slot.participant, slot.wish, Put(quantity), expected);
      && (answer.Shown? <==>
            && slot.wish in s.wishes && expected == (if slot in s.reservations then Some(s.reservations[slot].version) else None)
            && 1 <= quantity <= 100 && quantity + Reserved(s.reservations - {slot}, slot.wish) <= s.wishes[slot.wish])
      && (answer.Shown? || (answer.Refused? && r == s))
      && (answer.Shown? ==> Leaves(s, who, slot, quantity, answer.row, r))
  {
    if slot in s.reservations { assert s.reservations[slot := s.reservations[slot]] == s.reservations; }
  }

  lemma PutByNewcomer(s: State, who: Identity, wish: WishId, quantity: nat)
    requires Sized(s) && Fresh(s)
    ensures var slot := Slot(s.next, wish); var (r, answer) := Reserve(Enrolled(s, who), who, s.next, wish, Put(quantity), None);
      && (answer.Shown? <==> wish in s.wishes && 1 <= quantity <= 100 && quantity + Reserved(s.reservations, wish) <= s.wishes[wish])
      && (answer.Shown? || answer.Refused?)
      && (answer.Shown? ==> slot !in s.reservations && Leaves(Enrolled(s, who), who, slot, quantity, answer.row, r))
  {
    var slot := Slot(s.next, wish);
    assert slot !in s.reservations;
    assert Enrolled(s, who).reservations - {slot} == s.reservations;
    PutInTransaction(Enrolled(s, who), who, slot, quantity, None);
  }

  // ---------------------------------------------------------------- runs

  lemma {:induction false} EveryRunIsSized(owner: Member, es: seq<Event>)
    ensures Sized(Run(owner, es))
  {
    if es != [] {
      var s, e := Run(owner, es[..|es| - 1]), es[|es| - 1];
      EveryRunIsSized(owner, es[..|es| - 1]);
      EveryRunKeepsInv(owner, es[..|es| - 1]);
      StepIsSized(s, e);
    }
  }

  lemma StepIsSized(s: State, e: Event)
    requires Sized(s) && Fresh(s)
    ensures Sized(Step(s, e))
  {
    if Asked(s, e).Some? {
      var q := Asked(s, e).value;
      if q.verb.Put? { PutIsExact(s, e); } else { RequestsAreBounded(s, e); NothingNew(s, e); }
    } else {
      OthersClear(s, e);
    }
  }

  lemma NothingNew(s: State, e: Event)
    requires Asked(s, e).Some? && !Asked(s, e).value.verb.Put?
    ensures forall k :: k in Step(s, e).reservations ==> k in s.reservations
  {
  }

  /** What a successful Put leaves: the caller takes part, exactly its own row holds the quantity, all else stays. */
  ghost predicate Granted(s: State, q: Request, row: Reservation, r: State) {
    && q.who in r.participants && r.owner == s.owner && r.wishes == s.wishes && r.orphans == s.orphans
    && (forall who :: who in s.participants ==> who in r.participants && r.participants[who] == s.participants[who])
    && (forall who :: who in r.participants && who !in s.participants ==> who == q.who)
    && q.verb.Put? && row.quantity == q.verb.quantity && (Has(s, q) || Slot(r.participants[q.who], q.wish) !in s.reservations)
    && r.reservations == s.reservations[Slot(r.participants[q.who], q.wish) := row]
    && (Has(s, q) ==> row.id == RowOf(s, q).id)
    && (forall id :: id in s.histories ==> id in r.histories)
    && (forall id :: id in r.histories && (id != row.id || q.who.OfGuest?) ==> id in s.histories && r.histories[id] == s.histories[id])
  }

  lemma PutIsExact(s: State, e: Event)
    requires Sized(s) && Fresh(s) && Asked(s, e).Some? && Asked(s, e).value.verb.Put?
    ensures var q := Asked(s, e).value;
      && (Answer(s, e).Shown? <==> MayReserve(s, e) && q.wish in s.wishes && Matches(s, q) && Fits(s, q, q.verb.quantity))
      && (Answer(s, e).Shown? || (Answer(s, e).Refused? && Step(s, e) == s))
      && (Answer(s, e).Shown? ==> Granted(s, q, Answer(s, e).row, Step(s, e)))
  {
    var q := Asked(s, e).value;
    if q.who in s.participants {
      PutInTransaction(s, q.who, Slot(s.participants[q.who], q.wish), q.verb.quantity, q.expected);
    } else {
      PutByNewcomer(s, q.who, q.wish, q.verb.quantity);
    }
  }

  /** In every run and whatever the way in, a Put succeeds exactly when its caller may reserve, the wish exists, the
      precondition matches, the quantity is between 1 and 100 and fits beside what the others have; then the caller's
      row holds exactly that quantity, and so do the answer and, for a member, an Active history row. */
  lemma PutSucceedsExactlyWhenItFits(owner: Member, es: seq<Event>, e: Event)
    requires Asked(Run(owner, es), e).Some? && Asked(Run(owner, es), e).value.verb.Put?
    ensures var s := Run(owner, es); var q, r := Asked(s, e).value, Step(s, e);
      && (Answer(s, e).Shown? <==> MayReserve(s, e) && q.wish in s.wishes && Matches(s, q) && Fits(s, q, q.verb.quantity))
      && (Answer(s, e).Shown? || (Answer(s, e).Refused? && r == s))
      && (Answer(s, e).Shown? ==>
            && Granted(s, q, Answer(s, e).row, r)
            && (q.who.OfMember? ==>
                  var id := Answer(s, e).row.id;
                  id in r.histories && r.histories[id] == History(q.who.member, q.wish, q.verb.quantity, Active)))
  {
    var s := Run(owner, es);
    var q, r := Asked(s, e).value, Step(s, e);
    EveryRunKeepsInv(owner, es);
    EveryRunIsSized(owner, es);
    PutIsExact(s, e);
    if Answer(s, e).Shown? && q.who.OfMember? {
      EveryRunKeepsInv(owner, es + [e]);
      assert (es + [e])[..|es|] == es;
      RowIsFollowed(r, q.who.member, Slot(r.participants[q.who], q.wish));
    }
  }

  lemma RowIsFollowed(r: State, m: Member, slot: Slot)
    requires Agreement(r) && OfMember(m) in r.participants && slot.participant == r.participants[OfMember(m)] && slot in r.reservations
    ensures Follows(r, m, slot)
  {
    assert SlotOf(r, m, slot);
  }

  /** In every run, a Delete succeeds exactly for the caller's own row and its current version; the row is gone and
      a member's history of it is cancelled, and nothing else changes. */
  lemma DeleteSucceedsExactlyWhenCurrent(owner: Member, es: seq<Event>, e: Event)
    requires Asked(Run(owner, es), e).Some? && Asked(Run(owner, es), e).value.verb.Delete?
    ensures var s := Run(owner, es); var q, r := Asked(s, e).value, Step(s, e);
      && (Answer(s, e) == Removed <==> MayReserve(s, e) && q.wish in s.wishes && Has(s, q) && Matches(s, q))
      && (Answer(s, e) == Removed || (Answer(s, e).Refused? && r == s))
      && (Answer(s, e) == Removed ==>
            && r == s.(reservations := r.reservations, histories := r.histories)
            && r.reservations == s.reservations - {Slot(s.participants[q.who], q.wish)}
            && Cancels(s, r, q.who, RowOf(s, q).id))
  {
    EveryRunKeepsInv(owner, es);
    DeleteIsExact(Run(owner, es), e);
  }

  /** Only this history entry is touched, and only a member's: it is cancelled. */
  predicate Cancels(s: State, r: State, who: Identity, id: ReservationId) {
    if who.OfGuest? then r.histories == s.histories
    else id in s.histories && r.histories == s.histories[id := s.histories[id].(status := Cancelled)]
  }

  lemma DeleteIsExact(s: State, e: Event)
    requires Agreement(s) && Asked(s, e).Some? && Asked(s, e).value.verb.Delete?
    ensures var q, r := Asked(s, e).value, Step(s, e);
      && (Answer(s, e) == Removed <==> MayReserve(s, e) && q.wish in s.wishes && Has(s, q) && Matches(s, q))
      && (Answer(s, e) == Removed || (Answer(s, e).Refused? && r == s))
      && (Answer(s, e) == Removed ==>
            && r == s.(reservations := r.reservations, histories := r.histories)
            && r.reservations == s.reservations - {Slot(s.participants[q.who], q.wish)}
            && Cancels(s, r, q.who, RowOf(s, q).id))
  {
    var q := Asked(s, e).value;
    if Has(s, q) && q.who.OfMember? { RowIsFollowed(s, q.who.member, Slot(s.participants[q.who], q.wish)); }
  }

  /** A Get shows exactly the caller's own row and changes nothing. */
  lemma GetShowsTheOwnRow(s: State, e: Event)
    requires Asked(s, e).Some? && Asked(s, e).value.verb.Get?
    ensures var q := Asked(s, e).value;
      && Step(s, e) == s
      && (Answer(s, e).Shown? <==> MayReserve(s, e) && q.wish in s.wishes && Has(s, q))
      && (Answer(s, e).Shown? ==> Answer(s, e).row == RowOf(s, q))
      && (Answer(s, e).Shown? || Answer(s, e).Refused?)
  {
  }

  /** A refusal names a reason that holds. */
  ghost predicate Justified(s: State, e: Event, failure: Failure)
    requires Asked(s, e).Some?
  {
    var q := Asked(s, e).value;
    match failure
    case WishNotFound => q.wish !in s.wishes
    case ReservationNotFound => !q.verb.Put? && !Has(s, q)
    case PreconditionRequired => !q.verb.Get? && Has(s, q) && q.expected == None
    case VersionConflict => !q.verb.Get? && q.expected.Some? && !Matches(s, q)
    case QuantityUnavailable => q.verb.Put? && q.wish in s.wishes && q.verb.quantity + Others(s, q) > s.wishes[q.wish]
    case InvalidQuantity => q.verb.Put? && !(1 <= q.verb.quantity <= 100)
    case ParticipantNotFound => e.ByLink? && q.who !in s.participants
    case ParticipantLimit => e.ByGroup? && q.who !in s.participants && |s.participants| >= 100
    case OwnerConflict => e.ByGroup? && e.m == s.owner
    case _ => false
  }

  lemma RefusalsAreJustified(s: State, e: Event)
    requires Fresh(s) && Asked(s, e).Some? && Answer(s, e).Refused?
    ensures Justified(s, e, Answer(s, e).failure)
  {
    var q := Asked(s, e).value;
    if q.who in s.participants {
      RefusalsInTransaction(s, q.who, Slot(s.participants[q.who], q.wish), q.verb, q.expected);
    } else {
      assert Slot(s.next, q.wish) !in s.reservations;
      assert Enrolled(s, q.who).reservations - {Slot(s.next, q.wish)} == s.reservations;
      RefusalsInTransaction(Enrolled(s, q.who), q.who, Slot(s.next, q.wish), q.verb, q.expected);
    }
  }

  ghost predicate JustifiedInTransaction(s: State, slot: Slot, verb: Verb, expected: Option<nat>, failure: Failure) {
    match failure
    case WishNotFound => slot.wish !in s.wishes
    case ReservationNotFound => !verb.Put? && slot !in s.reservations
    case PreconditionRequired => !verb.Get? && slot in s.reservations && expected == None
    case VersionConflict => !verb.Get? && expected.Some? && (slot in s.reservations ==> expected.value != s.reservations[slot].version)
    case QuantityUnavailable =>
      verb.Put? && slot.wish in s.wishes && verb.quantity + Reserved(s.reservations - {slot}, slot.wish) > s.wishes[slot.wish]
    case InvalidQuantity => verb.Put? && !(1 <= verb.quantity <= 100)
    case _ => false
  }

  lemma RefusalsInTransaction(s: State, who: Identity, slot: Slot, verb: Verb, expected: Option<nat>)
    ensures var answer := Reserve(s, who, slot.participant, slot.wish, verb, expected).1;
      answer.Refused? ==> JustifiedInTransaction(s, slot, verb, expected, answer.failure)
  {
  }

  // ---------------------------------------------------------------- around the reservations

  /** Joining gives everyone but the owner one place, under the limit, and keeps the place one has. */
  lemma JoiningIsExact(s: State, who: Identity)
    ensures var (r, answer) := JoinWishlist(s, who);
      && (answer.Joined? <==> who != OfMember(s.owner) && (who in s.participants || |s.participants| < 100))
      && (answer.Joined? ==>
            && who in r.participants && r.participants[who] == answer.participant
            && r == s.(participants := r.participants, next := r.next)
            && (if who in s.participants then r == s
                else r.participants == s.participants[who := answer.participant] && answer.participant == s.next < r.next))
      && (!answer.Joined? ==> answer.Refused? && r == s)
  {
  }

  /** An edit takes effect exactly when the wish exists and everything reserved still fits. */
  lemma EditingIsExact(s: State, wish: WishId, quantity: nat)
    ensures var (r, answer) := EditWish(s, wish, quantity);
      && (answer == Changed <==> wish in s.wishes && Reserved(s.reservations, wish) <= quantity)
      && r == if answer == Changed then s.(wishes := s.wishes[wish := quantity]) else s
  {
  }

  /** An Active history entry becomes unavailable when its gift is withdrawn; every other one stays. */
  ghost predicate Withdraws(s: State, r: State, affected: set<ReservationId>) {
    && r.histories.Keys == s.histories.Keys
    && forall id :: id in s.histories ==>
         var h := s.histories[id];
         r.histories[id] == (if id in affected && h.status == Active then h.(status := Unavailable) else h)
  }

  function HistoriesOf(s: State, wish: WishId): set<ReservationId> { set id | id in s.histories && s.histories[id].wish == wish }

  /** A new wish is the only change; a deleted one takes its reservations along; a deleted list takes everything. */
  lemma WishesComeAndGo(s: State, quantity: nat, wish: WishId)
    ensures var r := Step(s, AddWish(quantity));
      s.next in r.wishes && r.wishes == s.wishes[s.next := quantity] && r == s.(wishes := r.wishes, next := r.next)
    ensures var r := Step(s, DeleteWish(wish));
      && r == s.(wishes := r.wishes, reservations := r.reservations, histories := r.histories)
      && r.wishes == s.wishes - {wish}
      && (forall k :: k in r.reservations <==> k in s.reservations && k.wish != wish)
      && (forall k :: k in r.reservations ==> r.reservations[k] == s.reservations[k])
      && Withdraws(s, r, HistoriesOf(s, wish))
    ensures var r := Step(s, DeleteList);
      r.wishes == map[] && r.participants == map[] && r.reservations == map[] && Withdraws(s, r, s.histories.Keys)
  {
  }

  predicate OwnedBy(s: State, m: Member, k: Slot) { OfMember(m) in s.participants && k.participant == s.participants[OfMember(m)] }

  /** A guest session that ends leaves its reservations; a deleted member's go with its participation and history. */
  lemma PeopleGo(s: State, g: Guest, m: Member)
    ensures var r := Step(s, GuestGone(g));
      r.participants == s.participants - {OfGuest(g)} && r.reservations == s.reservations && r.histories == s.histories && r.wishes == s.wishes
    ensures m != s.owner ==> var r := Step(s, MemberGone(m));
      && r.participants == s.participants - {OfMember(m)} && r.wishes == s.wishes
      && (forall k :: k in r.reservations <==> (k in s.reservations && !OwnedBy(s, m, k)))
      && (forall k :: k in r.reservations ==> r.reservations[k] == s.reservations[k])
      && (forall id :: id in r.histories <==> id in s.histories && s.histories[id].member != m)
      && (forall id :: id in r.histories ==> r.histories[id] == s.histories[id])
    ensures var r := Step(s, MemberGone(s.owner));
      r.wishes == map[] && r.participants == map[] && r.reservations == map[]
  {
    assert OfGuest(g) !in s.participants ==> s.participants - {OfGuest(g)} == s.participants;
    assert OfMember(m) !in s.participants ==> s.participants - {OfMember(m)} == s.participants;
  }
}
