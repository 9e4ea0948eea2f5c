/** What every request about a list changes in it, told from the wishes and versions it finds. */
module WishAnswers {
  import opened Common
  import opened WishOrder

  /** A version is handed in that the wish still has. */
  predicate Fresh(s: State, id: Id, version: nat) { id in s.wishes && s.wishes[id].version == version }

  predicate Comes(s: State, e: Event, id: Id) { e == Add(id) && id !in s.wishes && |s.wishes| < 1000 }

  predicate Goes(s: State, e: Event, id: Id) { e.Remove? && e.id == id && Fresh(s, id, e.version) }

  predicate IsEdited(s: State, e: Event, id: Id) { e.Edit? && e.id == id && e.differs && Fresh(s, id, e.version) }

  /** The request reorders the list as it is: with its version, and naming each wish once. */
  ghost predicate IsReordered(s: State, e: Event) { e.Reorder? && e.version == s.order && NamesAll(e.ids, s.wishes.Keys) }

  /** A wish is in the list from its creation until a removal with its current version. */
  lemma WishesComeAndGo(s: State, e: Event, r: State, id: Id)
    requires Inv(s) && Step(s, e, r)
    ensures id in r.wishes <==> (id in s.wishes && !Goes(s, e, id)) || Comes(s, e, id)
  {
  }

  /** A new wish is last, below every place ever given out; all others keep theirs, except when the list is reordered,
      which gives the same places out anew in the order asked for. */
  lemma PlacesAreKept(s: State, e: Event, r: State)
    requires Inv(s) && Step(s, e, r)
    ensures forall id :: Comes(s, e, id) ==> r.wishes[id].position == r.next == s.next + 1
    ensures forall id, other :: Comes(s, e, id) && other in s.wishes ==> s.wishes[other].position < r.wishes[id].position
    ensures !IsReordered(s, e) ==> forall id :: id in s.wishes && id in r.wishes ==> r.wishes[id].position == s.wishes[id].position
    ensures IsReordered(s, e) ==> ListedAs(r.wishes, Parsed(e.ids)) && PositionsOf(r.wishes) == PositionsOf(s.wishes)
    ensures (forall id :: !Comes(s, e, id)) ==> r.next == s.next
  {
    if e.Add? && Comes(s, e, e.id) { assert r.wishes[e.id].position == s.next + 1; }
  }

  /** A wish has a new version when it is created, edited or moved, and only then. */
  lemma VersionsTellChanges(s: State, e: Event, r: State, id: Id)
    requires Inv(s) && Step(s, e, r) && id in r.wishes
    ensures r.wishes[id].version ==
      if id !in s.wishes || IsEdited(s, e, id) || r.wishes[id].position != s.wishes[id].position then s.transaction + 1 else s.wishes[id].version
  {
  }

  /** The list has a new version when a wish came, went, was edited or was moved, and only then. */
  lemma ListVersionTellsChanges(s: State, e: Event, r: State)
    requires Inv(s) && Step(s, e, r)
    ensures r.transaction == s.transaction + 1
    ensures r.order == if r.wishes != s.wishes then s.transaction + 1 else s.order
  {
    if e.Add? && Comes(s, e, e.id) { assert e.id in r.wishes && e.id !in s.wishes; }
    if e.Remove? && Goes(s, e, e.id) { assert e.id !in r.wishes && e.id in s.wishes; }
    if e.Edit? && IsEdited(s, e, e.id) { assert r.wishes[e.id].version != s.wishes[e.id].version; }
  }
}
