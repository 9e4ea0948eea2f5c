/** Which images the thumbnail cache keeps and in which order, and what each caller is answered, told from the history
    of hits, conversions and cancellations. */
module ThumbnailAnswers {
  import opened ThumbnailCache

  // ---------------------------------------------------------------- uses

  predicate Hits(s: State, e: Event, k: Key) {
    e.Look? && e.i < |s.callers| && s.callers[e.i].phase.Looking? && s.callers[e.i].key == k && k in s.store.entries
  }

  /** A conversion that was not cut short by its own caller yields an image the cache can hold. */
  predicate Brings(convert: Key -> Outcome, limits: Limits, s: State, e: Event, k: Key) {
    && e.Finish? && e.i < |s.callers| && s.callers[e.i].phase.Converting? && s.callers[e.i].key == k
    && !(e.cut && s.callers[e.i].cancelled)
    && convert(k).Converted? && |convert(k).image.content| <= limits.bytes && 1 <= limits.entries
  }

  predicate Uses(convert: Key -> Outcome, limits: Limits, s: State, e: Event, k: Key) { Hits(s, e, k) || Brings(convert, limits, s, e, k) }

  /** When the key was last asked for with success or brought in; zero when it never was. */
  ghost function LastUse(convert: Key -> Outcome, limits: Limits, es: seq<Event>, k: Key): (n: nat)
    requires forall x :: convert(x) != Cancelled
    ensures n <= |es|
  {
    if es == [] then 0
    else
      var front, s := es[..|es| - 1], Run(convert, limits, es[..|es| - 1]);
      if Uses(convert, limits, s, es[|es| - 1], k) then |es| else LastUse(convert, limits, front, k)
  }

  ghost predicate RecentFirst(convert: Key -> Outcome, limits: Limits, es: seq<Event>, order: seq<Key>)
    requires forall x :: convert(x) != Cancelled
  {
    forall i, j :: 0 <= i < j < |order| ==> LastUse(convert, limits, es, order[i]) > LastUse(convert, limits, es, order[j])
  }

  /** In every run the use order is the order of last use: a hit brings its key to the front and leaves the others as they were. */
  lemma {:induction false} OrderIsRecency(convert: Key -> Outcome, limits: Limits, es: seq<Event>)
    requires forall k :: convert(k) != Cancelled
    ensures RecentFirst(convert, limits, es, Run(convert, limits, es).store.order)
  {
    if es != [] {
      var front, e := es[..|es| - 1], es[|es| - 1];
      var s := Run(convert, limits, front);
      OrderIsRecency(convert, limits, front);
      if k :| Uses(convert, limits, s, e, k) {
        UseMoves(convert, limits, s, e, k);
        WithoutStaysRecent(convert, limits, front, s.store.order, k);
        WithoutDropsOne(s.store.order, k);
        OnlyOneIsUsed(convert, limits, s, e, k);
        UseComesFirst(convert, limits, es, k, Without(s.store.order, k));
      } else {
        NoUseMovesNothing(convert, limits, s, e);
        assert forall k :: LastUse(convert, limits, es, k) == LastUse(convert, limits, front, k);
      }
    }
  }

  lemma OnlyOneIsUsed(convert: Key -> Outcome, limits: Limits, s: State, e: Event, k: Key)
    requires Uses(convert, limits, s, e, k)
    ensures forall x :: Uses(convert, limits, s, e, x) ==> x == k
  {
  }

  lemma TailIsOlder(convert: Key -> Outcome, limits: Limits, es: seq<Event>, order: seq<Key>)
    requires (forall x :: convert(x) != Cancelled) && order != [] && RecentFirst(convert, limits, es, order)
    ensures RecentFirst(convert, limits, es, order[1..])
    ensures forall x :: x in order[1..] ==> LastUse(convert, limits, es, x) < LastUse(convert, limits, es, order[0])
  {
    assert forall i :: 0 <= i < |order| - 1 ==> order[1..][i] == order[i + 1];
  }

  lemma FirstIsNewer(convert: Key -> Outcome, limits: Limits, es: seq<Event>, first: Key, rest: seq<Key>)
    requires (forall x :: convert(x) != Cancelled) && RecentFirst(convert, limits, es, rest)
    requires forall x :: x in rest ==> LastUse(convert, limits, es, x) < LastUse(convert, limits, es, first)
    ensures RecentFirst(convert, limits, es, [first] + rest)
  {
  }

  lemma {:induction false} WithoutStaysRecent(convert: Key -> Outcome, limits: Limits, es: seq<Event>, order: seq<Key>, k: Key)
    requires (forall x :: convert(x) != Cancelled) && RecentFirst(convert, limits, es, order)
    ensures RecentFirst(convert, limits, es, Without(order, k))
    ensures forall x :: x in Without(order, k) ==> x in order
  {
    if order != [] {
      TailIsOlder(convert, limits, es, order);
      if order[0] != k {
        WithoutStaysRecent(convert, limits, es, order[1..], k);
        FirstIsNewer(convert, limits, es, order[0], Without(order[1..], k));
      }
    }
  }

  lemma UseComesFirst(convert: Key -> Outcome, limits: Limits, es: seq<Event>, k: Key, others: seq<Key>)
    requires (forall x :: convert(x) != Cancelled) && es != []
    requires RecentFirst(convert, limits, es[..|es| - 1], others) && k !in others
    requires LastUse(convert, limits, es, k) == |es|
    requires forall x :: x != k ==> LastUse(convert, limits, es, x) == LastUse(convert, limits, es[..|es| - 1], x)
    ensures RecentFirst(convert, limits, es, [k] + others)
  {
    var front := es[..|es| - 1];
    forall x | x in others ensures LastUse(convert, limits, es, x) == LastUse(convert, limits, front, x) < |es| { }
    StaysRecent(convert, limits, es, others);
    FirstIsNewer(convert, limits, es, k, others);
  }

  lemma StaysRecent(convert: Key -> Outcome, limits: Limits, es: seq<Event>, order: seq<Key>)
    requires (forall x :: convert(x) != Cancelled) && es != [] && RecentFirst(convert, limits, es[..|es| - 1], order)
    requires forall x :: x in order ==> LastUse(convert, limits, es, x) == LastUse(convert, limits, es[..|es| - 1], x)
    ensures RecentFirst(convert, limits, es, order)
  {
  }

  lemma {:induction false} WithoutOfOthers(order: seq<Key>, k: Key)
    requires k !in order
    ensures Without(order, k) == order
  {
    if order != [] { WithoutOfOthers(order[1..], k); }
  }

  /** A used key comes first, before what is left of the others. */
  lemma UseMoves(convert: Key -> Outcome, limits: Limits, s: State, e: Event, k: Key)
    requires Inv(convert, limits, s) && Uses(convert, limits, s, e, k)
    ensures Step(convert, limits, s, e).store.order <= [k] + Without(s.store.order, k)
  {
    if e.Finish? {
      BringingInserts(convert, limits, s, e, k);
      WithoutOfOthers(s.store.order, k);
      InsertKeepsValid(s.store, k, convert(k).image, limits);
    }
  }

  lemma BringingInserts(convert: Key -> Outcome, limits: Limits, s: State, e: Event, k: Key)
    requires Inv(convert, limits, s) && Brings(convert, limits, s, e, k)
    ensures k !in s.store.entries && s.store.Admits(convert(k).image, limits)
    ensures Step(convert, limits, s, e).store == s.store.Inserted(k, convert(k).image, limits)
  {
    assert k in s.flights;
  }

  lemma NoUseMovesNothing(convert: Key -> Outcome, limits: Limits, s: State, e: Event)
    requires Inv(convert, limits, s) && forall k :: !Uses(convert, limits, s, e, k)
    ensures Step(convert, limits, s, e).store == s.store
  {
    match e
    case Look(i) => if i < |s.callers| { assert !Uses(convert, limits, s, e, s.callers[i].key); }
    case Finish(i, cut) => if i < |s.callers| { assert !Uses(convert, limits, s, e, s.callers[i].key); }
    case _ =>
  }

  // ---------------------------------------------------------------- what stays cached

  /** The key at this place, all used after it and the new image are within both limits. */
  ghost predicate HasRoom(limits: Limits, store: Store, p: nat, image: Image)
    requires p < |store.order| && forall k :: k in store.order ==> k in store.entries
  {
    assert forall k :: k in store.order[..p + 1] ==> k in store.order;
    |image.content| + Total(store.order[..p + 1], store.entries) <= limits.bytes && p + 2 <= limits.entries
  }

  /** A new image comes in, and another stays exactly when it has room beside the new one and all that were used since. */
  lemma EvictionIsExact(convert: Key -> Outcome, limits: Limits, s: State, e: Event, k: Key, p: nat)
    requires Inv(convert, limits, s) && Brings(convert, limits, s, e, k)
    ensures var r := Step(convert, limits, s, e).store;
      && k !in s.store.entries && k in r.entries && Converted(r.entries[k]) == convert(k)
      && (p < |s.store.order| ==> (s.store.order[p] in r.entries <==> HasRoom(limits, s.store, p, convert(k).image)))
      && (forall x :: x in r.entries && x != k ==> x in s.store.entries && r.entries[x] == s.store.entries[x])
  {
    BringingInserts(convert, limits, s, e, k);
    InsertKeepsValid(s.store, k, convert(k).image, limits);
    if p < |s.store.order| { PlaceIsKept(limits, s.store, k, convert(k).image, p); }
  }

  /** Nothing leaves or enters the cache otherwise. */
  lemma EntriesStayOtherwise(convert: Key -> Outcome, limits: Limits, s: State, e: Event)
    requires Inv(convert, limits, s) && forall k :: !Brings(convert, limits, s, e, k)
    ensures Step(convert, limits, s, e).store.entries == s.store.entries
  {
    if e.Finish? && e.i < |s.callers| { assert !Brings(convert, limits, s, e, s.callers[e.i].key); }
  }

  lemma PlaceIsKept(limits: Limits, store: Store, k: Key, image: Image, p: nat)
    requires store.Valid(limits) && k !in store.entries && store.Admits(image, limits) && p < |store.order|
    ensures store.order[p] in store.Inserted(k, image, limits).entries <==> HasRoom(limits, store, p, image)
  {
    var all, order := store.entries[k := image], [k] + store.order;
    var kept := Trim(order, all, limits);
    RoomIsFit(limits, store, k, image, p, order, all);
    assert order[p + 1] == store.order[p];
    if p + 2 <= |kept| {
      assert kept[p + 1] == order[p + 1] && kept[..p + 2] == order[..p + 2];
      ShorterFits(kept, p + 2, all, limits);
    } else {
      TrimIsLongest(order, all, limits, p + 2);
      PrefixLacks(kept, order, p + 1);
    }
  }

  lemma PrefixLacks(kept: seq<Key>, order: seq<Key>, p: nat)
    requires Distinct(order) && kept <= order && |kept| <= p < |order|
    ensures order[p] !in kept
  {
  }

  lemma RoomIsFit(limits: Limits, store: Store, k: Key, image: Image, p: nat, order: seq<Key>, all: map<Key, Image>)
    requires store.Valid(limits) && k !in store.entries && p < |store.order|
    requires order == [k] + store.order && all == store.entries[k := image]
    ensures Distinct(order) && forall x :: x in order[..p + 2] ==> x in all
    ensures Fits(order[..p + 2], all, limits) <==> HasRoom(limits, store, p, image)
  {
    var since := store.order[..p + 1];
    assert order[..p + 2] == [k] + since;
    assert forall x :: x in since ==> x in store.order;
    TotalSplits([k], since, all);
    assert [k][..0] == [];
    TotalIgnoresOthers(since, store.entries, all);
  }

  lemma {:induction false} ShorterFits(order: seq<Key>, n: nat, entries: map<Key, Image>, limits: Limits)
    requires n <= |order| && (forall k :: k in order ==> k in entries) && Fits(order, entries, limits)
    ensures (forall k :: k in order[..n] ==> k in entries) && Fits(order[..n], entries, limits)
  {
    assert order == order[..n] + order[n..];
    assert forall k :: k in order[..n] || k in order[n..] ==> k in order;
    TotalSplits(order[..n], order[n..], entries);
  }

  // ---------------------------------------------------------------- what callers are answered

  ghost predicate Converts(s: State, j: nat, k: Key) { j < |s.callers| && s.callers[j].key == k && s.callers[j].phase.Converting? }

  /** A look hits, joins the conversion that is under way for its key, or starts one nobody has been told of. */
  lemma LookIsAnswered(convert: Key -> Outcome, limits: Limits, s: State, i: nat)
    requires Inv(convert, limits, s) && i < |s.callers| && s.callers[i].phase.Looking?
    ensures var k := s.callers[i].key; var phase := Step(convert, limits, s, ThumbnailCache.Event.Look(i)).callers[i].phase;
      && (k in s.store.entries ==> phase == Returned(convert(k)))
      && (forall j: nat :: Converts(s, j, k) ==> phase == Waiting(s.callers[j].phase.flight))
      && (k !in s.store.entries && (forall j: nat :: !Converts(s, j, k)) ==>
            phase.Converting? && phase.flight !in s.done && forall x :: x in s.flights ==> s.flights[x] != phase.flight)
  {
    var k := s.callers[i].key;
    if k in s.flights {
      assert Produced(s.callers, k, s.flights[k]);
      var j: nat :| j < |s.callers| && s.callers[j].key == k && s.callers[j].phase == Converting(s.flights[k]);
      assert Converts(s, j, k);
    }
  }

  /** How a conversion ended: not yet, on its own, or cut short by its caller's cancellation. */
  datatype End = Open | Complete | CutShort

  ghost function EndOf(convert: Key -> Outcome, limits: Limits, es: seq<Event>, f: Flight): End
    requires forall k :: convert(k) != Cancelled
  {
    if es == [] then Open
    else
      var s, e := Run(convert, limits, es[..|es| - 1]), es[|es| - 1];
      if e.Finish? && e.i < |s.callers| && s.callers[e.i].phase == Converting(f)
      then if e.cut && s.callers[e.i].cancelled then CutShort else Complete
      else EndOf(convert, limits, es[..|es| - 1], f)
  }

  lemma EndIsRecorded(convert: Key -> Outcome, limits: Limits, s: State, e: Event, f: Flight)
    requires s.store.Valid(limits) && forall k :: convert(k) != Cancelled
    ensures var r := Step(convert, limits, s, e);
      if e.Finish? && e.i < |s.callers| && s.callers[e.i].phase == Converting(f)
      then f in r.done && (r.done[f] == Cancelled <==> e.cut && s.callers[e.i].cancelled)
      else (f in r.done <==> f in s.done) && (f in s.done ==> r.done[f] == s.done[f])
  {
  }

  lemma {:induction false} EndsAreRecorded(convert: Key -> Outcome, limits: Limits, es: seq<Event>, f: Flight)
    requires forall k :: convert(k) != Cancelled
    ensures var done := Run(convert, limits, es).done;
      && (EndOf(convert, limits, es, f) == Open <==> f !in done)
      && (EndOf(convert, limits, es, f) == CutShort <==> f in done && done[f] == Cancelled)
  {
    if es != [] {
      EndsAreRecorded(convert, limits, es[..|es| - 1], f);
      EndIsRecorded(convert, limits, Run(convert, limits, es[..|es| - 1]), es[|es| - 1], f);
    }
  }

  /** A live waiter stays while the conversion runs, looks again when it was cut short, and else gets its result. */
  lemma WakingIsExact(convert: Key -> Outcome, limits: Limits, es: seq<Event>, i: nat)
    requires forall k :: convert(k) != Cancelled
    requires var s := Run(convert, limits, es); i < |s.callers| && s.callers[i].phase.Waiting? && !s.callers[i].cancelled
    ensures var c := Run(convert, limits, es).callers[i];
      Run(convert, limits, es + [Wake(i)]).callers[i].phase ==
        match EndOf(convert, limits, es, c.phase.flight)
        case Open => c.phase
        case CutShort => Looking
        case Complete => Returned(convert(c.key))
  {
    assert (es + [Wake(i)])[..|es|] == es;
    EndsAreRecorded(convert, limits, es, Run(convert, limits, es).callers[i].phase.flight);
    Waking(convert, limits, Run(convert, limits, es), i);
  }

  lemma Waking(convert: Key -> Outcome, limits: Limits, s: State, i: nat)
    requires Inv(convert, limits, s) && i < |s.callers| && s.callers[i].phase.Waiting? && !s.callers[i].cancelled
    ensures var c := s.callers[i];
      Step(convert, limits, s, Wake(i)).callers[i].phase ==
        if c.phase.flight !in s.done then c.phase else if s.done[c.phase.flight] == Cancelled then Looking else Returned(convert(c.key))
  {
    assert CallerConsistent(convert, s, s.callers[i]);
  }

  /** A producer gets its own result, or its own cancellation when that cut the conversion short. */
  lemma FinishIsAnswered(convert: Key -> Outcome, limits: Limits, s: State, i: nat, cut: bool)
    requires Inv(convert, limits, s) && i < |s.callers| && s.callers[i].phase.Converting?
    ensures Step(convert, limits, s, Finish(i, cut)).callers[i].phase ==
      Returned(if cut && s.callers[i].cancelled then Cancelled else convert(s.callers[i].key))
  {
  }

  /** A caller whose context has ended leaves with that, before it begins or while it waits. */
  lemma CancelledCallersLeave(convert: Key -> Outcome, limits: Limits, s: State, i: nat, k: Key, cancelled: bool)
    requires Inv(convert, limits, s)
    ensures var r := Step(convert, limits, s, Call(k, cancelled));
      r.callers == s.callers + [Caller(k, cancelled, if cancelled then Returned(Cancelled) else Looking)]
    ensures i < |s.callers| && s.callers[i].phase.Waiting? && s.callers[i].cancelled ==>
      && Step(convert, limits, s, GiveUp(i)).callers[i].phase == Returned(Cancelled)
      && (s.callers[i].phase.flight in s.done ==> Step(convert, limits, s, Wake(i)).callers[i].phase == Returned(Cancelled))
    ensures i < |s.callers| ==> Step(convert, limits, s, Cancel(i)).callers[i] == s.callers[i].(cancelled := true)
  {
  }
}
