/** Positions of the wishes in one list: allocation, deletion, and reordering by
    parking every misplaced wish beyond the last allocated position first. */
module WishOrder {
  import opened Common

  const WISH_LIMIT := 1000

  type Id = nat

  datatype Wish = Wish(position: int, version: nat)

  datatype Error = NotFound | VersionConflict | LimitReached | OrderVersionConflict | OrderConflict

  datatype Item = Item(id: Id, position: int, version: nat)

  datatype Order = Order(items: seq<Item>, version: nat)

  datatype Result<T> = Ok(value: T) | Err(error: Error)

  // ---------------------------------------------------------------- orders and permutations

  ghost predicate UniquePositions(wishes: map<Id, Wish>) {
    forall a, b :: a in wishes && b in wishes && wishes[a].position == wishes[b].position ==> a == b
  }

  ghost predicate Permutation(ids: seq<Id>, all: set<Id>) {
    && (forall i :: 0 <= i < |ids| ==> ids[i] in all)
    && (forall i, j :: 0 <= i < j < |ids| ==> ids[i] != ids[j])
    && (forall id :: id in all ==> id in ids)
  }

  /** Reading the list by ascending position yields exactly `ids`. */
  ghost predicate ListedAs(wishes: map<Id, Wish>, ids: seq<Id>) {
    && Permutation(ids, wishes.Keys)
    && forall i, j :: 0 <= i < j < |ids| ==> wishes[ids[i]].position < wishes[ids[j]].position
  }

  ghost function Named(ids: seq<Id>): (r: set<Id>)
    ensures forall id :: id in r <==> id in ids
  {
    set id | id in ids
  }

  lemma {:induction false} DistinctIdsFill(ids: seq<Id>)
    requires forall i, j :: 0 <= i < j < |ids| ==> ids[i] != ids[j]
    ensures |Named(ids)| == |ids|
  {
    if ids == [] {
      assert Named(ids) == {};
    } else {
      var front, last := ids[..|ids| - 1], ids[|ids| - 1];
      DistinctIdsFill(front);
      assert last !in front;
      assert ids == front + [last];
      assert Named(ids) == Named(front) + {last};
    }
  }

  /** Pigeonhole: distinct known ids, as many as there are wishes, name every wish. */
  lemma DistinctKnownIdsArePermutation(ids: seq<Id>, all: set<Id>)
    requires |ids| == |all|
    requires forall i :: 0 <= i < |ids| ==> ids[i] in all
    requires forall i, j :: 0 <= i < j < |ids| ==> ids[i] != ids[j]
    ensures Permutation(ids, all)
  {
    DistinctIdsFill(ids);
    assert Named(ids) <= all;
    assert all == Named(ids) + (all - Named(ids));
    assert |all| == |Named(ids)| + |all - Named(ids)|;
    assert all - Named(ids) == {};
  }

  lemma PermutationsHaveTheLength(ids: seq<Id>, all: set<Id>)
    requires Permutation(ids, all)
    ensures |ids| == |all|
  {
    DistinctIdsFill(ids);
    assert Named(ids) == all;
  }

  lemma SameNext(wishes: map<Id, Wish>, a: seq<Id>, b: seq<Id>, n: nat)
    requires ListedAs(wishes, a) && ListedAs(wishes, b) && n < |a| && n < |b|
    requires forall k :: 0 <= k < n ==> a[k] == b[k]
    ensures wishes[a[n]].position >= wishes[b[n]].position
  {
    assert a[n] in wishes.Keys;
    var i :| 0 <= i < |b| && b[i] == a[n];
    assert forall k :: 0 <= k < n ==> b[k] == a[k] != a[n];
  }

  lemma {:induction false} ListedFirst(wishes: map<Id, Wish>, a: seq<Id>, b: seq<Id>, n: nat)
    requires UniquePositions(wishes) && ListedAs(wishes, a) && ListedAs(wishes, b) && n <= |a| && n <= |b|
    ensures forall k :: 0 <= k < n ==> a[k] == b[k]
  {
    if n > 0 {
      ListedFirst(wishes, a, b, n - 1);
      SameAt(wishes, a, b, n - 1);
    }
  }

  lemma SameAt(wishes: map<Id, Wish>, a: seq<Id>, b: seq<Id>, n: nat)
    requires UniquePositions(wishes) && ListedAs(wishes, a) && ListedAs(wishes, b) && n < |a| && n < |b|
    requires forall k :: 0 <= k < n ==> a[k] == b[k]
    ensures a[n] == b[n]
  {
    SameNext(wishes, a, b, n);
    SameNext(wishes, b, a, n);
    SamePlace(wishes, a[n], b[n]);
  }

  lemma SamePlace(wishes: map<Id, Wish>, x: Id, y: Id)
    requires UniquePositions(wishes) && x in wishes && y in wishes && wishes[x].position == wishes[y].position
    ensures x == y
  {
  }

  /** A list has one order only. */
  lemma OrderIsUnique(wishes: map<Id, Wish>, a: seq<Id>, b: seq<Id>)
    requires UniquePositions(wishes) && ListedAs(wishes, a) && ListedAs(wishes, b)
    ensures a == b
  {
    PermutationsHaveTheLength(a, wishes.Keys);
    PermutationsHaveTheLength(b, wishes.Keys);
    ListedFirst(wishes, a, b, |a|);
  }

  lemma {:induction false} LowestExists(wishes: map<Id, Wish>, ids: set<Id>)
    requires ids != {} && ids <= wishes.Keys
    ensures exists id :: id in ids && forall other :: other in ids ==> wishes[id].position <= wishes[other].position
  {
    var id :| id in ids;
    var rest := ids - {id};
    if rest == {} {
      assert ids == {id};
    } else {
      LowestExists(wishes, rest);
      var low :| low in rest && forall other :: other in rest ==> wishes[low].position <= wishes[other].position;
      var best := if wishes[id].position <= wishes[low].position then id else low;
      assert forall other :: other in ids ==> other == id || other in rest;
      assert best in ids && forall other :: other in ids ==> wishes[best].position <= wishes[other].position;
    }
  }

  function Parsed(ids: seq<Option<Id>>): seq<Id>
    requires forall i :: 0 <= i < |ids| ==> ids[i].Some?
  {
    seq(|ids|, i requires 0 <= i < |ids| => ids[i].value)
  }

  /** The request names every wish of the list exactly once. */
  ghost predicate NamesAll(ids: seq<Option<Id>>, all: set<Id>) {
    (forall i :: 0 <= i < |ids| ==> ids[i].Some?) && Permutation(Parsed(ids), all)
  }

  /** The promise of a reordering: the requested order, the same set of positions, and new
      versions for exactly the wishes that moved. */
  ghost predicate Reordered(before: map<Id, Wish>, after: map<Id, Wish>, ids: seq<Id>, transaction: nat) {
    && after.Keys == before.Keys && PositionsOf(after) == PositionsOf(before)
    && ListedAs(after, ids)
    && forall id :: id in after ==>
         if after[id].position == before[id].position then after[id] == before[id] else after[id].version == transaction
  }

  ghost predicate Reports(items: seq<Item>, ids: seq<Id>, wishes: map<Id, Wish>) {
    && |items| == |ids|
    && forall i :: 0 <= i < |items| ==>
         items[i].id == ids[i] && ids[i] in wishes && wishes[ids[i]] == Wish(items[i].position, items[i].version)
  }

  lemma NamesAllMeans(ids: seq<Option<Id>>, all: set<Id>)
    ensures NamesAll(ids, all) ==>
      && |ids| == |all|
      && (forall i :: 0 <= i < |ids| ==> ids[i].Some? && ids[i].value in all)
      && (forall i, j :: 0 <= i < j < |ids| ==> ids[i] != ids[j])
  {
    if NamesAll(ids, all) {
      PermutationsHaveTheLength(Parsed(ids), all);
      assert forall i :: 0 <= i < |ids| ==> Parsed(ids)[i] == ids[i].value;
    }
  }

  ghost function PositionsOf(wishes: map<Id, Wish>): set<int> {
    set id | id in wishes :: wishes[id].position
  }

  ghost function Occupied(positions: seq<int>): (r: set<int>)
    ensures forall p :: p in r <==> p in positions
  {
    set p | p in positions
  }

  lemma LastFits(wishes: map<Id, Wish>, id: Id, wish: Wish)
    requires UniquePositions(wishes) && id !in wishes
    requires forall other :: other in wishes ==> wishes[other].position < wish.position
    ensures UniquePositions(wishes[id := wish])
    ensures |wishes[id := wish]| == |wishes| + 1
  {
    assert wishes[id := wish].Keys == wishes.Keys + {id};
  }

  // ---------------------------------------------------------------- runs of one list

  /** One list's rows; `order` is its collection version, `transaction` numbers what wrote last. */
  datatype State = State(wishes: map<Id, Wish>, next: int, order: nat, transaction: nat)

  datatype Event =
    | Add(id: Id)                                     // a wish is created in the list or copied into it
    | Edit(id: Id, version: nat, differs: bool)       // an edit that leaves every field as it is writes nothing
    | Remove(id: Id, version: nat)
    | Reorder(ids: seq<Option<Id>>, version: nat)

  function Idle(s: State): State { s.(transaction := s.transaction + 1) }

  predicate Current(s: State, id: Id, version: nat) { id in s.wishes && s.wishes[id].version == version }

  /** Every write to a wish moves the list's version on, by a trigger. */
  function Written(s: State, wishes: map<Id, Wish>): State {
    s.(wishes := wishes, order := s.transaction + 1, transaction := s.transaction + 1)
  }

  function Added(s: State, id: Id): State {
    if id in s.wishes || |s.wishes| >= WISH_LIMIT then Idle(s)
    else Written(s, s.wishes[id := Wish(s.next + 1, s.transaction + 1)]).(next := s.next + 1)
  }

  function Edited(s: State, id: Id, version: nat, differs: bool): State {
    if Current(s, id, version) && differs then Written(s, s.wishes[id := Wish(s.wishes[id].position, s.transaction + 1)]) else Idle(s)
  }

  function Removed(s: State, id: Id, version: nat): State {
    if Current(s, id, version) then Written(s, s.wishes - {id}) else Idle(s)
  }

  ghost predicate Rearranged(s: State, ids: seq<Option<Id>>, version: nat, r: State) {
    if version != s.order || !NamesAll(ids, s.wishes.Keys) then r == Idle(s)
    else
      && Reordered(s.wishes, r.wishes, Parsed(ids), s.transaction + 1)
      && r == if r.wishes == s.wishes then Idle(s) else Written(s, r.wishes)
  }

  /** What one transaction leaves behind; the refused ones change nothing. */
  ghost predicate Step(s: State, e: Event, r: State) {
    match e
    case Add(id) => r == Added(s, id)
    case Edit(id, version, differs) => r == Edited(s, id, version, differs)
    case Remove(id, version) => r == Removed(s, id, version)
    case Reorder(ids, version) => Rearranged(s, ids, version, r)
  }

  lemma ReorderingIsStep(s: State, ids: seq<Option<Id>>, version: nat, r: State)
    requires version == s.order && NamesAll(ids, s.wishes.Keys) && r.transaction == s.transaction + 1 && r.next == s.next
    requires Reordered(s.wishes, r.wishes, Parsed(ids), r.transaction)
    requires r.order == if r.wishes == s.wishes then s.order else r.transaction
    ensures Rearranged(s, ids, version, r)
  {
  }

  const Created: State := State(map[], 0, 0, 0)

  /** The states of a list from its creation on, one after each transaction. */
  ghost predicate Run(states: seq<State>, es: seq<Event>) {
    |states| == |es| + 1 && states[0] == Created && forall i :: 0 <= i < |es| ==> Step(states[i], es[i], states[i + 1])
  }

  ghost predicate Inv(s: State) {
    && UniquePositions(s.wishes) && 0 <= s.next
    && (forall id :: id in s.wishes ==> 0 < s.wishes[id].position <= s.next)
    && |s.wishes| <= WISH_LIMIT && s.order <= s.transaction
    && (forall id :: id in s.wishes ==> s.wishes[id].version <= s.transaction)
  }

  lemma StepKeepsInv(s: State, e: Event, r: State)
    requires Inv(s) && Step(s, e, r)
    ensures Inv(r)
  {
    match e
    case Add(id) => AddKeepsInv(s, id);
    case Edit(id, version, differs) => EditKeepsInv(s, id, version, differs);
    case Remove(id, version) => RemoveKeepsInv(s, id, version);
    case Reorder(ids, version) =>
      if r != Idle(s) { ReorderingKeepsInv(s, r, Parsed(ids)); }
  }

  lemma AddKeepsInv(s: State, id: Id)
    requires Inv(s)
    ensures Inv(Added(s, id))
  {
    if id !in s.wishes { LastFits(s.wishes, id, Wish(s.next + 1, s.transaction + 1)); }
  }

  lemma EditKeepsInv(s: State, id: Id, version: nat, differs: bool)
    requires Inv(s)
    ensures Inv(Edited(s, id, version, differs))
  {
    if Current(s, id, version) && differs { Edits(s, id, Edited(s, id, version, differs)); }
  }

  lemma Adds(s: State, id: Id, r: State)
    requires Inv(s) && id !in s.wishes && |s.wishes| < WISH_LIMIT
    requires r == State(s.wishes[id := Wish(s.next + 1, s.transaction + 1)], s.next + 1, s.transaction + 1, s.transaction + 1)
    ensures Inv(r) && r == Added(s, id) && |r.wishes| == |s.wishes| + 1
  {
    AddKeepsInv(s, id);
    LastFits(s.wishes, id, Wish(s.next + 1, s.transaction + 1));
  }

  lemma Edits(s: State, id: Id, r: State)
    requires Inv(s) && id in s.wishes
    requires r == State(s.wishes[id := Wish(s.wishes[id].position, s.transaction + 1)], s.next, s.transaction + 1, s.transaction + 1)
    ensures Inv(r) && r == Edited(s, id, s.wishes[id].version, true) && |r.wishes| == |s.wishes|
  {
    KeepsPlace(s.wishes, id, s.transaction + 1);
  }

  lemma Removes(s: State, id: Id, r: State)
    requires Inv(s) && id in s.wishes
    requires r == State(s.wishes - {id}, s.next, s.transaction + 1, s.transaction + 1)
    ensures Inv(r) && r == Removed(s, id, s.wishes[id].version) && |r.wishes| == |s.wishes| - 1
  {
    RemoveKeepsInv(s, id, s.wishes[id].version);
    OneFewer(s.wishes, id);
  }

  lemma KeepsPlace(wishes: map<Id, Wish>, id: Id, version: nat)
    requires id in wishes
    ensures var r := wishes[id := Wish(wishes[id].position, version)];
      r.Keys == wishes.Keys && |r| == |wishes| && forall x :: x in r ==> r[x].position == wishes[x].position
  {
    var r := wishes[id := Wish(wishes[id].position, version)];
    assert r.Keys == wishes.Keys;
    assert |r| == |r.Keys| && |wishes| == |wishes.Keys|;
  }

  lemma RemoveKeepsInv(s: State, id: Id, version: nat)
    requires Inv(s)
    ensures Inv(Removed(s, id, version))
  {
    if id in s.wishes { OneFewer(s.wishes, id); }
  }

  lemma OneFewer(wishes: map<Id, Wish>, id: Id)
    requires id in wishes
    ensures |wishes - {id}| == |wishes| - 1
  {
    assert wishes.Keys == (wishes - {id}).Keys + {id};
  }

  lemma ReorderingKeepsInv(s: State, r: State, ids: seq<Id>)
    requires Inv(s) && Reordered(s.wishes, r.wishes, ids, s.transaction + 1) && r == Written(s, r.wishes)
    ensures Inv(r)
  {
    ListedIsUnique(r.wishes, ids);
    forall id | id in r.wishes ensures 0 < r.wishes[id].position <= s.next && r.wishes[id].version <= r.transaction {
      assert r.wishes[id].position in PositionsOf(r.wishes);
      assert r.wishes[id].position in PositionsOf(s.wishes);
    }
    assert |r.wishes| == |r.wishes.Keys|;
  }

  lemma ListedIsUnique(wishes: map<Id, Wish>, ids: seq<Id>)
    requires ListedAs(wishes, ids)
    ensures UniquePositions(wishes)
  {
    forall a, b | a in wishes && b in wishes && wishes[a].position == wishes[b].position ensures a == b {
      assert a in wishes.Keys && b in wishes.Keys;
      var i :| 0 <= i < |ids| && ids[i] == a;
      var j :| 0 <= j < |ids| && ids[j] == b;
    }
  }

  /** In every run positions are unique and allocated, and the list holds at most a thousand wishes. */
  lemma {:induction false} EveryRunKeepsOrder(states: seq<State>, es: seq<Event>, i: nat)
    requires Run(states, es) && i < |states|
    ensures Inv(states[i])
  {
    if i > 0 {
      EveryRunKeepsOrder(states, es, i - 1);
      assert Step(states[i - 1], es[i - 1], states[i - 1 + 1]);
      StepKeepsInv(states[i - 1], es[i - 1], states[i]);
    }
  }

  ghost predicate SameList(s: State, r: State) { r.wishes == s.wishes && r.next == s.next }

  /** The list and its version are as they were, or the version is one never seen before. */
  ghost predicate Since(s: State, r: State) {
    s.transaction <= r.transaction && if r.order == s.order then SameList(s, r) else s.transaction < r.order
  }

  lemma SinceThen(a: State, b: State, c: State)
    requires a.order <= a.transaction && Since(a, b) && Since(b, c)
    ensures Since(a, c)
  {
  }

  lemma StepMoves(s: State, e: Event, r: State)
    requires s.order <= s.transaction && Step(s, e, r)
    ensures Since(s, r)
  {
  }

  lemma RunMoves(states: seq<State>, es: seq<Event>, i: nat)
    requires Run(states, es) && i < |es|
    ensures states[i].order <= states[i].transaction && Step(states[i], es[i], states[i + 1]) && Since(states[i], states[i + 1])
  {
    EveryRunKeepsOrder(states, es, i);
    assert Step(states[i], es[i], states[i + 1]);
    StepMoves(states[i], es[i], states[i + 1]);
  }

  /** Over every run, one version of the list stands for one content, and a version once left never returns. */
  lemma SameVersionSameList(states: seq<State>, es: seq<Event>, i: nat, j: nat)
    requires Run(states, es) && i <= j < |states|
    ensures Since(states[i], states[j])
  {
    forall k | 0 <= k < |es| ensures states[k].order <= states[k].transaction && Since(states[k], states[k + 1]) {
      RunMoves(states, es, k);
    }
    ChainMoves(states, i, j);
  }

  lemma {:induction false} ChainMoves(states: seq<State>, i: nat, j: nat)
    requires i <= j < |states|
    requires forall k :: 0 <= k < |states| - 1 ==> states[k].order <= states[k].transaction && Since(states[k], states[k + 1])
    ensures Since(states[i], states[j])
  {
    if i < j {
      ChainMoves(states, i, j - 1);
      assert Since(states[j - 1], states[j - 1 + 1]);
      SinceThen(states[i], states[j - 1], states[j]);
    }
  }

  /** A reordering that moved a wish named the version of the list it moved it in. */
  lemma MovesAreCurrent(s: State, e: Event, r: State)
    requires Step(s, e, r) && e.Reorder? && r.wishes != s.wishes
    ensures e.version == s.order && NamesAll(e.ids, s.wishes.Keys) && r.order == s.transaction + 1
    ensures ListedAs(r.wishes, Parsed(e.ids)) && PositionsOf(r.wishes) == PositionsOf(s.wishes)
  {
  }

  /** A reordering made with a version read earlier moves wishes only in the very list that was read. */
  lemma ReorderingActsOnWhatWasRead(states: seq<State>, es: seq<Event>, i: nat, j: nat)
    requires Run(states, es) && i <= j < |es| && es[j].Reorder? && es[j].version == states[i].order
    requires states[j + 1].wishes != states[j].wishes
    ensures SameList(states[i], states[j])
    ensures NamesAll(es[j].ids, states[i].wishes.Keys) && ListedAs(states[j + 1].wishes, Parsed(es[j].ids))
    ensures PositionsOf(states[j + 1].wishes) == PositionsOf(states[i].wishes)
  {
    SameVersionSameList(states, es, i, j);
    RunMoves(states, es, j);
    MovesAreCurrent(states[j], es[j], states[j + 1]);
  }

  lemma StaleReorderingIsIdle(s: State, e: Event, r: State)
    requires Step(s, e, r) && e.Reorder? && e.version != s.order
    ensures r == Idle(s)
  {
  }

  /** Of all reorderings made with one version of the list, at most one ever moves a wish. */
  lemma FirstReorderingWins(states: seq<State>, es: seq<Event>, i: nat, j: nat)
    requires Run(states, es) && i < j < |es| && es[i].Reorder? && es[j].Reorder? && es[i].version == es[j].version
    requires states[i + 1].wishes != states[i].wishes
    ensures states[j + 1] == Idle(states[j])
  {
    RunMoves(states, es, i);
    RunMoves(states, es, j);
    MovesAreCurrent(states[i], es[i], states[i + 1]);
    SameVersionSameList(states, es, i + 1, j);
    StaleReorderingIsIdle(states[j], es[j], states[j + 1]);
  }

  // The step leaves no choice: the requested order and the positions determine every row.

  ghost predicate Increasing(row: seq<int>) { forall i, j :: 0 <= i < j < |row| ==> row[i] < row[j] }

  lemma {:induction false} IncreasingRowsAgree(a: seq<int>, b: seq<int>, n: nat)
    requires Increasing(a) && Increasing(b) && Occupied(a) == Occupied(b) && n <= |a| && n <= |b|
    ensures forall k :: 0 <= k < n ==> a[k] == b[k]
  {
    if n > 0 {
      IncreasingRowsAgree(a, b, n - 1);
      NextIsNoLess(a, b, n - 1);
      NextIsNoLess(b, a, n - 1);
    }
  }

  lemma NextIsNoLess(a: seq<int>, b: seq<int>, n: nat)
    requires Increasing(a) && Increasing(b) && Occupied(a) == Occupied(b) && n < |a| && n < |b|
    requires forall k :: 0 <= k < n ==> a[k] == b[k]
    ensures b[n] <= a[n]
  {
    assert a[n] in Occupied(b);
    var i :| 0 <= i < |b| && b[i] == a[n];
  }

  ghost function PositionsAlong(wishes: map<Id, Wish>, ids: seq<Id>): (row: seq<int>)
    requires ListedAs(wishes, ids)
    ensures |row| == |ids| && Increasing(row) && Occupied(row) == PositionsOf(wishes)
  {
    var row := seq(|ids|, i requires 0 <= i < |ids| => wishes[ids[i]].position);
    assert forall p :: p in PositionsOf(wishes) ==> p in row by {
      forall p | p in PositionsOf(wishes) ensures p in row {
        var id :| id in wishes && wishes[id].position == p;
        assert id in wishes.Keys;
        var i :| 0 <= i < |ids| && ids[i] == id;
        assert row[i] == p;
      }
    }
    row
  }

  lemma ReorderingIsDetermined(before: map<Id, Wish>, a: map<Id, Wish>, b: map<Id, Wish>, ids: seq<Id>, transaction: nat)
    requires Reordered(before, a, ids, transaction) && Reordered(before, b, ids, transaction)
    ensures a == b
  {
    var p, q := PositionsAlong(a, ids), PositionsAlong(b, ids);
    IncreasingRowsAgree(p, q, |ids|);
    forall id | id in a ensures a[id] == b[id] {
      assert id in a.Keys;
      var i :| 0 <= i < |ids| && ids[i] == id;
      assert p[i] == q[i];
    }
  }

  lemma StepIsDetermined(s: State, e: Event, a: State, b: State)
    requires Step(s, e, a) && Step(s, e, b)
    ensures a == b
  {
    if e.Reorder? && e.version == s.order && NamesAll(e.ids, s.wishes.Keys) {
      ReorderingIsDetermined(s.wishes, a.wishes, b.wishes, Parsed(e.ids), s.transaction + 1);
    }
  }

  // ---------------------------------------------------------------- the list

  /** One wishlist's rows. Every statement of one transaction stamps the row
      versions it writes with that transaction's number. */
  class WishList {
    var wishes: map<Id, Wish>
    var nextPosition: int
    var currentCount: nat
    var orderVersion: nat
    var transaction: nat

    ghost predicate Valid()
      reads this
    {
      Inv(View()) && currentCount == |wishes|
    }

    ghost function View(): State
      reads this
    {
      State(wishes, nextPosition, orderVersion, transaction)
    }

    constructor ()
      ensures Valid() && View() == Created
    {
      wishes, nextPosition, currentCount, orderVersion, transaction := map[], 0, 0, 0, 0;
    }

    // An insertion at the next free position; copying a wish into the list allocates in the same way.
    method Create(id: Id) returns (r: Result<Wish>)
      requires Valid() && id !in wishes
      modifies this
      ensures Valid() && View() == Added(old(View()), id)
      ensures if old(currentCount) >= WISH_LIMIT then r == Err(LimitReached) else r.Ok? && id in wishes && r.value == wishes[id]
      ensures r.Ok? ==> forall other :: other in old(wishes) ==> old(wishes)[other].position < r.value.position
    {
      transaction := transaction + 1;
      if currentCount >= WISH_LIMIT {
        return Err(LimitReached);
      }
      var position := nextPosition;
      nextPosition := position + 1;
      var wish := Wish(position + 1, transaction);
      wishes := wishes[id := wish];
      currentCount, orderVersion := currentCount + 1, transaction;
      Adds(old(View()), id, View());
      r := Ok(wish);
    }

    method Delete(id: Id, version: nat) returns (r: Result<()>)
      requires Valid()
      modifies this
      ensures Valid() && View() == Removed(old(View()), id, version)
      ensures r == if id !in old(wishes) then Err(NotFound)
                   else if old(wishes)[id].version != version then Err(VersionConflict) else Ok(())
    {
      transaction := transaction + 1;
      if id !in wishes {
        return Err(NotFound);
      }
      if wishes[id].version != version {
        return Err(VersionConflict);
      }
      wishes := wishes - {id};
      currentCount, orderVersion := currentCount - 1, transaction;
      Removes(old(View()), id, View());
      r := Ok(());
    }

    // An edit of other fields; quantities are checked elsewhere.
    method Update(id: Id, version: nat, differs: bool) returns (r: Result<nat>)
      requires Valid()
      modifies this
      ensures Valid() && View() == Edited(old(View()), id, version, differs)
      ensures r == if id !in old(wishes) then Err(NotFound)
                   else if old(wishes)[id].version != version then Err(VersionConflict) else Ok(wishes[id].version)
    {
      transaction := transaction + 1;
      if id !in wishes {
        return Err(NotFound);
      }
      if wishes[id].version != version {
        return Err(VersionConflict);
      }
      if !differs {
        return Ok(version);
      }
      var current := SetPosition(id, wishes[id].position);
      Edits(old(View()), id, View());
      r := Ok(current);
    }

    // One UPDATE statement. The unique index on positions admits it only when no other wish is there.
    method SetPosition(id: Id, position: int) returns (version: nat)
      requires id in wishes && UniquePositions(wishes)
      requires forall other :: other in wishes && other != id ==> wishes[other].position != position
      modifies this`wishes, this`orderVersion
      ensures version == transaction == orderVersion
      ensures wishes == old(wishes)[id := Wish(position, version)]
      ensures UniquePositions(wishes)
    {
      wishes := wishes[id := Wish(position, transaction)];
      orderVersion := transaction;
      version := transaction;
    }

    // The checks and the two update loops of one reordering transaction. The list's version moves on
    // exactly when some wish does, so that a second request made with the old one conflicts.
    method ReorderWishes(ids: seq<Option<Id>>, version: nat) returns (r: Result<Order>)
      requires Valid()
      modifies this
      ensures Valid() && Rearranged(old(View()), ids, version, View())
      ensures r == Err(OrderVersionConflict) <==> version != old(orderVersion)
      ensures r.Ok? <==> version == old(orderVersion) && NamesAll(ids, old(wishes).Keys)
      ensures r.Err? ==> r.error in {OrderVersionConflict, OrderConflict}
      ensures r.Ok? ==> Reports(r.value.items, Parsed(ids), wishes) && r.value.version == orderVersion
    {
      transaction := transaction + 1;
      if orderVersion != version {
        return Err(OrderVersionConflict);
      }
      var named := Recognise(ids);
      if named == None {
        return Err(OrderConflict);
      }
      var items := Execute(named.value);
      ReorderingIsStep(old(View()), ids, version, View());
      r := Ok(Order(items, orderVersion));
    }

    method Execute(ordered: seq<Id>) returns (items: seq<Item>)
      requires Valid() && Permutation(ordered, wishes.Keys)
      modifies this`wishes, this`orderVersion
      ensures Valid()
      ensures Reordered(old(wishes), wishes, ordered, transaction) && Reports(items, ordered, wishes)
      ensures orderVersion == if wishes == old(wishes) then old(orderVersion) else transaction
    {
      var rows := SelectOrdered();
      var positions := seq(|rows|, i requires 0 <= i < |rows| => rows[i].position);
      ListsAll(rows, wishes, positions, nextPosition, ordered);
      items := Apply(Plan(wishes, ordered, positions, nextPosition));
    }

    method Apply(p: Plan) returns (items: seq<Item>)
      requires Valid() && p.Valid() && p.original == wishes && p.maximum == nextPosition
      modifies this`wishes, this`orderVersion
      ensures Valid()
      ensures Reordered(old(wishes), wishes, p.ordered, transaction) && Reports(items, p.ordered, wishes)
      ensures orderVersion == if wishes == old(wishes) then old(orderVersion) else transaction
    {
      items := Rearrange(p);
      PlacedKeepsPromise(p, wishes, items, transaction);
      MisplacedMove(p, wishes, transaction);
    }

    method Rearrange(p: Plan) returns (items: seq<Item>)
      requires p.Valid() && p.original == wishes && UniquePositions(wishes)
      modifies this`wishes, this`orderVersion
      ensures UniquePositions(wishes) && p.Reached(wishes, |p.ordered|, |p.ordered|, transaction)
      ensures orderVersion == if p.AnyMisplaced(|p.ordered|) then transaction else old(orderVersion)
      ensures |items| == |p.ordered| && forall i :: 0 <= i < |items| ==> Answers(p, items[i], i, transaction)
    {
      Park(p);
      items := Place(p);
    }

    // The request is accepted exactly when it names every wish once, however its ids are spelled.
    method Recognise(ids: seq<Option<Id>>) returns (ordered: Option<seq<Id>>)
      requires currentCount == |wishes|
      ensures ordered.Some? <==> NamesAll(ids, wishes.Keys)
      ensures ordered.Some? ==> ordered.value == Parsed(ids)
    {
      NamesAllMeans(ids, wishes.Keys);
      if |ids| != currentCount {
        return None;
      }
      var list: seq<Id>, seen: set<Id> := [], {};
      for i := 0 to |ids|
        invariant |list| == i
        invariant forall k :: 0 <= k < i ==> ids[k].Some? && list[k] == ids[k].value && list[k] in wishes && list[k] in seen
        invariant forall id :: id in seen ==> exists k :: 0 <= k < i && list[k] == id
        invariant forall j, k :: 0 <= j < k < i ==> list[j] != list[k]
      {
        if ids[i] == None || ids[i].value !in wishes || ids[i].value in seen {
          return None;
        }
        seen := seen + {ids[i].value};
        list := list + [ids[i].value];
      }
      assert list == Parsed(ids);
      DistinctKnownIdsArePermutation(list, wishes.Keys);
      ordered := Some(list);
    }

    // First loop: every misplaced wish moves beyond the last allocated position.
    method Park(p: Plan)
      requires p.Valid() && p.original == wishes && UniquePositions(wishes)
      modifies this`wishes, this`orderVersion
      ensures UniquePositions(wishes) && p.Reached(wishes, |p.ordered|, 0, transaction)
      ensures orderVersion == if p.AnyMisplaced(|p.ordered|) then transaction else old(orderVersion)
    {
      for i := 0 to |p.ordered|
        invariant UniquePositions(wishes) && p.Reached(wishes, i, 0, transaction)
        invariant orderVersion == if p.AnyMisplaced(i) then transaction else old(orderVersion)
      {
        ParkStep(p, wishes, i, transaction);
        if p.Misplaced(i) {
          ParkingIsFree(p, wishes, i, transaction);
          var _ := SetPosition(p.ordered[i], p.maximum + i + 1);
        }
      }
    }

    // Second loop: the freed positions are assigned in the requested order.
    method Place(p: Plan) returns (items: seq<Item>)
      requires p.Valid() && UniquePositions(wishes) && p.Reached(wishes, |p.ordered|, 0, transaction)
      requires p.AnyMisplaced(|p.ordered|) ==> orderVersion == transaction
      modifies this`wishes, this`orderVersion
      ensures UniquePositions(wishes) && p.Reached(wishes, |p.ordered|, |p.ordered|, transaction)
      ensures orderVersion == old(orderVersion)
      ensures |items| == |p.ordered|
      ensures forall i :: 0 <= i < |items| ==> Answers(p, items[i], i, transaction)
    {
      items := [];
      for i := 0 to |p.ordered|
        invariant UniquePositions(wishes) && p.Reached(wishes, |p.ordered|, i, transaction)
        invariant orderVersion == old(orderVersion)
        invariant |items| == i
        invariant forall k :: 0 <= k < |items| ==> Answers(p, items[k], k, transaction)
      {
        var item := PlaceOne(p, i);
        OneMoreAnswer(p, items, item, transaction);
        items := items + [item];
      }
    }

    method PlaceOne(p: Plan, i: nat) returns (item: Item)
      requires p.Valid() && i < |p.ordered|
      requires UniquePositions(wishes) && p.Reached(wishes, |p.ordered|, i, transaction)
      requires p.Misplaced(i) ==> orderVersion == transaction
      modifies this`wishes, this`orderVersion
      ensures UniquePositions(wishes) && p.Reached(wishes, |p.ordered|, i + 1, transaction)
      ensures orderVersion == old(orderVersion)
      ensures Answers(p, item, i, transaction)
    {
      PlaceStep(p, wishes, i, transaction);
      var id := p.ordered[i];
      if !p.Misplaced(i) {
        return Item(id, p.original[id].position, p.original[id].version);
      }
      TargetIsFree(p, wishes, i, transaction);
      var version := SetPosition(id, p.positions[i]);
      item := Item(id, p.positions[i], version);
    }

    // SELECT ... ORDER BY position.
    method SelectOrdered() returns (items: seq<Item>)
      requires UniquePositions(wishes)
      ensures Lists(items, wishes, {})
    {
      items := [];
      var rest := wishes.Keys;
      while rest != {}
        invariant Lists(items, wishes, rest)
        decreases |rest|
      {
        LowestExists(wishes, rest);
        var id :| id in rest && forall other :: other in rest ==> wishes[id].position <= wishes[other].position;
        ListsOneMore(items, wishes, rest, id);
        items := items + [Item(id, wishes[id].position, wishes[id].version)];
        rest := rest - {id};
      }
    }
  }

  // ---------------------------------------------------------------- the two phases

  /** What one reordering works on: the requested order and the sorted rows it read. */
  datatype Plan = Plan(original: map<Id, Wish>, ordered: seq<Id>, positions: seq<int>, maximum: int) {
    ghost predicate Valid() {
      && Permutation(ordered, original.Keys) && |positions| == |ordered|
      && (forall i, j :: 0 <= i < j < |positions| ==> positions[i] < positions[j])
      && (forall i :: 0 <= i < |positions| ==> positions[i] <= maximum)
      && (forall id :: id in original ==> original[id].position <= maximum)
      && PositionsOf(original) == Occupied(positions)
    }

    predicate Misplaced(i: nat)
      requires i < |ordered| && |positions| == |ordered| && ordered[i] in original
    {
      original[ordered[i]].position != positions[i]
    }

    ghost predicate AnyMisplaced(n: nat)
      requires Valid() && n <= |ordered|
    {
      exists i :: 0 <= i < n && Misplaced(i)
    }

    /** The row of the i-th requested wish after parking those before `parked` and placing those before `placed`. */
    function RowAt(i: nat, parked: nat, placed: nat, transaction: nat): Wish
      requires i < |ordered| && |positions| == |ordered| && ordered[i] in original
    {
      if !Misplaced(i) || i >= parked then original[ordered[i]]
      else if i < placed then Wish(positions[i], transaction)
      else Wish(maximum + i + 1, transaction)
    }

    ghost predicate Reached(wishes: map<Id, Wish>, parked: nat, placed: nat, transaction: nat)
      requires Valid()
    {
      && wishes.Keys == original.Keys
      && forall i :: 0 <= i < |ordered| ==> wishes[ordered[i]] == RowAt(i, parked, placed, transaction)
    }
  }

  ghost predicate Answers(p: Plan, item: Item, i: nat, transaction: nat)
    requires p.Valid() && i < |p.ordered|
  {
    item.id == p.ordered[i] && Wish(item.position, item.version) == p.RowAt(i, |p.ordered|, |p.ordered|, transaction)
  }

  lemma OneMoreAnswer(p: Plan, items: seq<Item>, item: Item, transaction: nat)
    requires p.Valid() && |items| < |p.ordered| && Answers(p, item, |items|, transaction)
    requires forall k :: 0 <= k < |items| ==> Answers(p, items[k], k, transaction)
    ensures forall k :: 0 <= k < |items + [item]| ==> Answers(p, (items + [item])[k], k, transaction)
  {
  }

  lemma MisplacedMove(p: Plan, wishes: map<Id, Wish>, transaction: nat)
    requires p.Valid() && p.Reached(wishes, |p.ordered|, |p.ordered|, transaction)
    ensures wishes != p.original <==> p.AnyMisplaced(|p.ordered|)
  {
    if i :| 0 <= i < |p.ordered| && p.Misplaced(i) {
      assert wishes[p.ordered[i]] == p.RowAt(i, |p.ordered|, |p.ordered|, transaction);
    } else {
      forall id | id in wishes ensures wishes[id] == p.original[id] {
        var i :| 0 <= i < |p.ordered| && p.ordered[i] == id;
      }
    }
  }

  lemma ParkingIsFree(p: Plan, wishes: map<Id, Wish>, i: nat, transaction: nat)
    requires p.Valid() && i < |p.ordered| && p.Reached(wishes, i, 0, transaction)
    ensures forall id :: id in wishes ==> wishes[id].position != p.maximum + i + 1
  {
    forall id | id in wishes ensures wishes[id].position != p.maximum + i + 1 {
      var k :| 0 <= k < |p.ordered| && p.ordered[k] == id;
      assert wishes[p.ordered[k]] == p.RowAt(k, i, 0, transaction);
    }
  }

  lemma TargetDiffers(p: Plan, i: nat, k: nat, transaction: nat)
    requires p.Valid() && i < |p.ordered| && k < |p.ordered| && i != k && p.Misplaced(i)
    ensures p.RowAt(k, |p.ordered|, i, transaction).position != p.positions[i]
  {
  }

  lemma TargetIsFree(p: Plan, wishes: map<Id, Wish>, i: nat, transaction: nat)
    requires p.Valid() && i < |p.ordered| && p.Misplaced(i) && p.Reached(wishes, |p.ordered|, i, transaction)
    ensures forall id :: id in wishes && id != p.ordered[i] ==> wishes[id].position != p.positions[i]
  {
    forall id | id in wishes && id != p.ordered[i] ensures wishes[id].position != p.positions[i] {
      var k :| 0 <= k < |p.ordered| && p.ordered[k] == id;
      TargetDiffers(p, i, k, transaction);
    }
  }

  /** One more wish parked: the update, or the decision not to touch it, extends the reached prefix. */
  lemma ParkStep(p: Plan, wishes: map<Id, Wish>, i: nat, transaction: nat)
    requires p.Valid() && i < |p.ordered| && p.Reached(wishes, i, 0, transaction)
    ensures p.Reached(if p.Misplaced(i) then wishes[p.ordered[i] := Wish(p.maximum + i + 1, transaction)] else wishes,
                      i + 1, 0, transaction)
  {
    assert forall k :: 0 <= k < |p.ordered| && k != i ==> p.ordered[k] != p.ordered[i];
    assert forall k :: 0 <= k < |p.ordered| && k != i ==> p.RowAt(k, i + 1, 0, transaction) == p.RowAt(k, i, 0, transaction);
  }

  lemma PlaceStep(p: Plan, wishes: map<Id, Wish>, i: nat, transaction: nat)
    requires p.Valid() && i < |p.ordered| && p.Reached(wishes, |p.ordered|, i, transaction)
    ensures p.Reached(if p.Misplaced(i) then wishes[p.ordered[i] := Wish(p.positions[i], transaction)] else wishes,
                      |p.ordered|, i + 1, transaction)
  {
    assert forall k :: 0 <= k < |p.ordered| && k != i ==> p.ordered[k] != p.ordered[i];
    assert forall k :: 0 <= k < |p.ordered| && k != i ==>
      p.RowAt(k, |p.ordered|, i + 1, transaction) == p.RowAt(k, |p.ordered|, i, transaction);
  }

  lemma PlacedIsListed(p: Plan, wishes: map<Id, Wish>, transaction: nat)
    requires p.Valid() && p.Reached(wishes, |p.ordered|, |p.ordered|, transaction)
    ensures forall i :: 0 <= i < |p.ordered| ==> wishes[p.ordered[i]].position == p.positions[i]
    ensures ListedAs(wishes, p.ordered)
    ensures PositionsOf(wishes) == PositionsOf(p.original)
  {
    forall i | 0 <= i < |p.ordered| ensures wishes[p.ordered[i]].position == p.positions[i] {
      assert wishes[p.ordered[i]] == p.RowAt(i, |p.ordered|, |p.ordered|, transaction);
    }
    PlacedKeepsPositions(p, wishes);
  }

  lemma PlacedIsStamped(p: Plan, wishes: map<Id, Wish>, transaction: nat)
    requires p.Valid() && p.Reached(wishes, |p.ordered|, |p.ordered|, transaction)
    requires forall id :: id in p.original ==> 0 < p.original[id].position
    ensures |wishes| == |p.original|
    ensures forall id :: id in wishes ==> 0 < wishes[id].position <= p.maximum
    ensures forall id :: id in wishes ==>
      if wishes[id].position == p.original[id].position then wishes[id] == p.original[id] else wishes[id].version == transaction
  {
    assert |wishes.Keys| == |p.original.Keys|;
    forall id | id in wishes
      ensures 0 < wishes[id].position <= p.maximum
      ensures if wishes[id].position == p.original[id].position then wishes[id] == p.original[id] else wishes[id].version == transaction
    {
      var k :| 0 <= k < |p.ordered| && p.ordered[k] == id;
      assert wishes[p.ordered[k]] == p.RowAt(k, |p.ordered|, |p.ordered|, transaction);
      assert p.positions[k] in Occupied(p.positions);
    }
  }

  lemma PlacedIsReported(p: Plan, wishes: map<Id, Wish>, items: seq<Item>, transaction: nat)
    requires p.Valid() && p.Reached(wishes, |p.ordered|, |p.ordered|, transaction)
    requires |items| == |p.ordered| && forall i :: 0 <= i < |items| ==> Answers(p, items[i], i, transaction)
    ensures Reports(items, p.ordered, wishes)
  {
  }

  lemma PlacedKeepsPromise(p: Plan, wishes: map<Id, Wish>, items: seq<Item>, transaction: nat)
    requires p.Valid() && p.Reached(wishes, |p.ordered|, |p.ordered|, transaction)
    requires forall id :: id in p.original ==> 0 < p.original[id].position && p.original[id].version <= transaction
    requires |items| == |p.ordered| && forall i :: 0 <= i < |items| ==> Answers(p, items[i], i, transaction)
    ensures Reordered(p.original, wishes, p.ordered, transaction) && Reports(items, p.ordered, wishes)
    ensures |wishes| == |p.original|
    ensures forall id :: id in wishes ==> 0 < wishes[id].position <= p.maximum && wishes[id].version <= transaction
  {
    PlacedIsListed(p, wishes, transaction);
    PlacedIsStamped(p, wishes, transaction);
    PlacedIsReported(p, wishes, items, transaction);
  }

  lemma PlacedKeepsPositions(p: Plan, wishes: map<Id, Wish>)
    requires p.Valid() && wishes.Keys == p.original.Keys
    requires forall i :: 0 <= i < |p.ordered| ==> wishes[p.ordered[i]].position == p.positions[i]
    ensures PositionsOf(wishes) == PositionsOf(p.original)
  {
    forall position | position in PositionsOf(wishes) ensures position in Occupied(p.positions) {
      var id :| id in wishes && wishes[id].position == position;
      var k :| 0 <= k < |p.ordered| && p.ordered[k] == id;
      assert p.positions[k] == position;
    }
    forall position | position in Occupied(p.positions) ensures position in PositionsOf(wishes) {
      var k :| 0 <= k < |p.positions| && p.positions[k] == position;
      assert wishes[p.ordered[k]].position == position;
    }
  }

  /** The rows outside `rest`, all lower than those in it, in ascending order. */
  ghost predicate Lists(items: seq<Item>, wishes: map<Id, Wish>, rest: set<Id>) {
    && rest <= wishes.Keys
    && (forall i :: 0 <= i < |items| ==> items[i].id in wishes.Keys - rest && wishes[items[i].id] == Wish(items[i].position, items[i].version))
    && (forall i, j :: 0 <= i < j < |items| ==> items[i].position < items[j].position)
    && (forall i, id :: 0 <= i < |items| && id in rest ==> items[i].position < wishes[id].position)
    && (forall id :: id in wishes.Keys - rest ==> exists i :: 0 <= i < |items| && items[i].id == id)
  }

  lemma ListsAll(items: seq<Item>, wishes: map<Id, Wish>, positions: seq<int>, maximum: int, ordered: seq<Id>)
    requires Lists(items, wishes, {}) && Permutation(ordered, wishes.Keys)
    requires |positions| == |items| && forall i :: 0 <= i < |positions| ==> positions[i] == items[i].position
    requires forall id :: id in wishes ==> wishes[id].position <= maximum
    ensures Plan(wishes, ordered, positions, maximum).Valid()
  {
    var ids := seq(|items|, i requires 0 <= i < |items| => items[i].id);
    ListsPermutation(items, wishes, ids);
    PermutationsHaveTheLength(ids, wishes.Keys);
    PermutationsHaveTheLength(ordered, wishes.Keys);
    ListsPositions(items, wishes, positions);
    forall i | 0 <= i < |positions| ensures positions[i] <= maximum {
      assert items[i].id in wishes;
    }
  }

  lemma ListsPermutation(items: seq<Item>, wishes: map<Id, Wish>, ids: seq<Id>)
    requires Lists(items, wishes, {})
    requires |ids| == |items| && forall i :: 0 <= i < |ids| ==> ids[i] == items[i].id
    ensures Permutation(ids, wishes.Keys)
  {
    forall id | id in wishes ensures id in ids {
      assert id in wishes.Keys - {};
      var i :| 0 <= i < |items| && items[i].id == id;
      assert ids[i] == id;
    }
    forall i, j | 0 <= i < j < |ids| ensures ids[i] != ids[j] {
      assert items[i].position < items[j].position;
    }
  }

  lemma ListsPositions(items: seq<Item>, wishes: map<Id, Wish>, positions: seq<int>)
    requires Lists(items, wishes, {})
    requires |positions| == |items| && forall i :: 0 <= i < |items| ==> positions[i] == items[i].position
    ensures PositionsOf(wishes) == Occupied(positions)
    ensures forall i, j :: 0 <= i < j < |positions| ==> positions[i] < positions[j]
  {
    forall p | p in PositionsOf(wishes) ensures p in Occupied(positions) {
      var id :| id in wishes && wishes[id].position == p;
      assert id in wishes.Keys - {};
      var i :| 0 <= i < |items| && items[i].id == id;
      assert positions[i] == p;
    }
    forall p | p in Occupied(positions) ensures p in PositionsOf(wishes) {
      var i :| 0 <= i < |positions| && positions[i] == p;
      assert wishes[items[i].id].position == p;
    }
  }

  lemma ListsOneMore(items: seq<Item>, wishes: map<Id, Wish>, rest: set<Id>, id: Id)
    requires UniquePositions(wishes) && Lists(items, wishes, rest)
    requires id in rest && forall other :: other in rest ==> wishes[id].position <= wishes[other].position
    ensures Lists(items + [Item(id, wishes[id].position, wishes[id].version)], wishes, rest - {id})
  {
    var more := items + [Item(id, wishes[id].position, wishes[id].version)];
    forall x | x in wishes.Keys - (rest - {id})
      ensures exists i :: 0 <= i < |more| && more[i].id == x
    {
      if x == id {
        assert more[|items|].id == x;
      } else {
        assert x in wishes.Keys - rest;
        var i :| 0 <= i < |items| && items[i].id == x;
        assert more[i].id == x;
      }
    }
  }
}
