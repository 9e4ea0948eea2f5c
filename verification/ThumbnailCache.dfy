/** The thumbnail cache: a bounded least-recently-used store with single-flight
    conversions shared by concurrent callers. Source digests are collision-free,
    so a key stands for its source. */
module ThumbnailCache {

  type Key = nat
  type Flight = nat

  datatype Image = Image(content: seq<int>, mediaType: string)

  /** What one conversion attempt yields; Cancelled covers the caller's deadline too. */
  datatype Outcome = Converted(image: Image) | Invalid | Cancelled

  datatype Limits = Limits(bytes: nat, entries: nat)

  // ---------------------------------------------------------------- the bounded order

  ghost predicate Distinct(order: seq<Key>) {
    forall i, j :: 0 <= i < j < |order| ==> order[i] != order[j]
  }

  ghost predicate Indexes(order: seq<Key>, entries: map<Key, Image>) {
    Distinct(order) && forall k :: k in order <==> k in entries
  }

  function Without(order: seq<Key>, k: Key): seq<Key> {
    if order == [] then []
    else if order[0] == k then order[1..] else [order[0]] + Without(order[1..], k)
  }

  function Total(order: seq<Key>, entries: map<Key, Image>): nat
    requires forall k :: k in order ==> k in entries
  {
    if order == [] then 0
    else
      var front := order[..|order| - 1];
      assert forall k :: k in front ==> k in order;
      Total(front, entries) + |entries[order[|order| - 1]].content|
  }

  predicate Fits(order: seq<Key>, entries: map<Key, Image>, limits: Limits)
    requires forall k :: k in order ==> k in entries
  {
    Total(order, entries) <= limits.bytes && |order| <= limits.entries
  }

  /** What remains after dropping least recently used keys until both limits hold. */
  function Trim(order: seq<Key>, entries: map<Key, Image>, limits: Limits): (r: seq<Key>)
    requires forall k :: k in order ==> k in entries
    ensures r <= order && Fits(r, entries, limits)
  {
    if Fits(order, entries, limits) then order
    else
      var front := order[..|order| - 1];
      assert forall k :: k in front ==> k in order;
      Trim(front, entries, limits)
  }

  /** Eviction is minimal: no longer prefix of the order would have fitted. */
  lemma {:induction false} TrimIsLongest(order: seq<Key>, entries: map<Key, Image>, limits: Limits, n: nat)
    requires forall k :: k in order ==> k in entries
    requires |Trim(order, entries, limits)| < n <= |order|
    ensures forall k :: k in order[..n] ==> k in entries
    ensures !Fits(order[..n], entries, limits)
  {
    var front := order[..|order| - 1];
    assert forall k :: k in front ==> k in order;
    if n == |order| {
      assert order[..n] == order;
    } else {
      TrimIsLongest(front, entries, limits, n);
      assert front[..n] == order[..n];
    }
  }

  /** The most recently used entry is never evicted when it fits on its own. */
  lemma {:induction false} FirstSurvives(order: seq<Key>, entries: map<Key, Image>, limits: Limits)
    requires order != [] && forall k :: k in order ==> k in entries
    requires |entries[order[0]].content| <= limits.bytes && 0 < limits.entries
    ensures |Trim(order, entries, limits)| >= 1 && Trim(order, entries, limits)[0] == order[0]
  {
    assert order[..1] == [order[0]];
    assert [order[0]][..0] == [];
    assert Fits([order[0]], entries, limits);
    if Trim(order, entries, limits) == [] {
      TrimIsLongest(order, entries, limits, 1);
    }
  }

  lemma {:induction false} WithoutDropsOne(order: seq<Key>, k: Key)
    requires Distinct(order)
    ensures Distinct(Without(order, k))
    ensures forall x :: x in Without(order, k) <==> x in order && x != k
  {
    if order != [] {
      assert order == [order[0]] + order[1..];
      assert order[0] !in order[1..];
      if order[0] != k { WithoutDropsOne(order[1..], k); }
    }
  }

  lemma {:induction false} WithoutKeepsTotal(order: seq<Key>, k: Key, entries: map<Key, Image>)
    requires Distinct(order) && k in order && forall x :: x in order ==> x in entries
    ensures forall x :: x in Without(order, k) ==> x in entries
    ensures Total(Without(order, k), entries) + |entries[k].content| == Total(order, entries)
    ensures |Without(order, k)| == |order| - 1
  {
    WithoutDropsOne(order, k);
    TotalSplits(order[..1], order[1..], entries);
    assert order == order[..1] + order[1..];
    assert order[..1][..0] == [];
    if order[0] != k {
      WithoutKeepsTotal(order[1..], k, entries);
      TotalSplits([order[0]], Without(order[1..], k), entries);
      assert [order[0]] == order[..1];
    }
  }

  lemma {:induction false} TotalSplits(a: seq<Key>, b: seq<Key>, entries: map<Key, Image>)
    requires forall x :: x in a || x in b ==> x in entries
    ensures forall x :: x in a + b ==> x in entries
    ensures Total(a + b, entries) == Total(a, entries) + Total(b, entries)
  {
    if b == [] {
      assert a + b == a;
    } else {
      var front := b[..|b| - 1];
      assert forall x :: x in front ==> x in b;
      TotalSplits(a, front, entries);
      assert (a + b)[..|a + b| - 1] == a + front;
    }
  }

  lemma {:induction false} TotalIgnoresOthers(order: seq<Key>, one: map<Key, Image>, other: map<Key, Image>)
    requires forall x :: x in order ==> x in one && x in other && one[x] == other[x]
    ensures Total(order, one) == Total(order, other)
  {
    if order != [] {
      var front := order[..|order| - 1];
      assert forall x :: x in front ==> x in order;
      TotalIgnoresOthers(front, one, other);
    }
  }

  // ---------------------------------------------------------------- the cache fields

  datatype Store = Store(entries: map<Key, Image>, order: seq<Key>, bytes: nat) {
    /** Entries and order agree, bytes are counted exactly, and both limits hold. */
    ghost predicate Valid(limits: Limits) {
      Indexes(order, entries) && bytes == Total(order, entries) && Fits(order, entries, limits)
    }

    function Touched(k: Key): Store {
      this.(order := [k] + Without(order, k))
    }

    /** A new image in front, then the least recently used ones dropped until both limits hold. */
    ghost function Inserted(k: Key, image: Image, limits: Limits): Store
      requires Indexes(order, entries)
    {
      var all := entries[k := image];
      var kept := Trim([k] + order, all, limits);
      assert forall x :: x in kept ==> x in [k] + order;
      Store(map x | x in kept :: all[x], kept, Total(kept, all))
    }

    predicate Admits(image: Image, limits: Limits) {
      |image.content| <= limits.bytes && 0 < limits.entries
    }
  }

  lemma TouchKeepsValid(s: Store, k: Key, limits: Limits)
    requires s.Valid(limits) && k in s.entries
    ensures s.Touched(k).Valid(limits)
  {
    WithoutDropsOne(s.order, k);
    WithoutKeepsTotal(s.order, k, s.entries);
    TotalSplits([k], Without(s.order, k), s.entries);
    assert [k][..0] == [];
  }

  lemma InsertKeepsValid(s: Store, k: Key, image: Image, limits: Limits)
    requires s.Valid(limits) && k !in s.entries && s.Admits(image, limits)
    ensures var r := s.Inserted(k, image, limits);
      && r.Valid(limits)
      && k in r.entries && r.entries[k] == image && r.order[0] == k
      && (forall x :: x in r.entries && x != k ==> x in s.entries && r.entries[x] == s.entries[x])
      && r.order <= [k] + s.order
  {
    var all := s.entries[k := image];
    var order := [k] + s.order;
    assert Distinct(order);
    FirstSurvives(order, all, limits);
    var r := s.Inserted(k, image, limits);
    assert forall i :: 0 <= i < |r.order| ==> r.order[i] == order[i];
    TotalIgnoresOthers(r.order, r.entries, all);
    assert k in r.order;
  }

  // ---------------------------------------------------------------- interleaved callers

  datatype Phase = Looking | Waiting(flight: Flight) | Converting(flight: Flight) | Returned(outcome: Outcome)

  datatype Caller = Caller(key: Key, cancelled: bool, phase: Phase)

  datatype State = State(store: Store, flights: map<Key, Flight>, done: map<Flight, Outcome>, launched: nat, callers: seq<Caller>)

  datatype Event =
    | Call(key: Key, cancelled: bool)
    | Cancel(i: nat)           // the caller's context ends
    | Look(i: nat)             // one pass through the first critical section
    | Wake(i: nat)             // the awaited flight's channel is closed
    | GiveUp(i: nat)           // the context ends first
    | Finish(i: nat, cut: bool) // the conversion returns, cut short or not, and is published

  ghost function Become(s: State, i: nat, phase: Phase): State
    requires i < |s.callers|
  {
    s.(callers := s.callers[i := s.callers[i].(phase := phase)])
  }

  ghost function Look(s: State, i: nat): State
    requires i < |s.callers|
  {
    var k := s.callers[i].key;
    if k in s.store.entries then
      Become(s, i, Returned(Converted(s.store.entries[k]))).(store := s.store.Touched(k))
    else if k in s.flights then Become(s, i, Waiting(s.flights[k]))
    else Become(s, i, Converting(s.launched)).(flights := s.flights[k := s.launched], launched := s.launched + 1)
  }

  ghost function Publish(s: State, i: nat, outcome: Outcome, limits: Limits): State
    requires i < |s.callers| && s.callers[i].phase.Converting? && Indexes(s.store.order, s.store.entries)
  {
    var k := s.callers[i].key;
    var store := if outcome.Converted? && s.store.Admits(outcome.image, limits)
                 then s.store.Inserted(k, outcome.image, limits) else s.store;
    Become(s, i, Returned(outcome)).(store := store, flights := s.flights - {k},
                                     done := s.done[s.callers[i].phase.flight := outcome])
  }

  /** One event; an event its caller cannot perform at that point changes nothing.
      A conversion cut short by its own caller's context fails with that context's error. */
  ghost function Step(convert: Key -> Outcome, limits: Limits, s: State, e: Event): State
    requires s.store.Valid(limits)
  {
    match e
    case Call(k, cancelled) =>
      s.(callers := s.callers + [Caller(k, cancelled, if cancelled then Returned(Cancelled) else Looking)])
    case Cancel(i) =>
      if i < |s.callers| then s.(callers := s.callers[i := s.callers[i].(cancelled := true)]) else s
    case Look(i) => if i < |s.callers| && s.callers[i].phase.Looking? then Look(s, i) else s
    case Wake(i) =>
      if i < |s.callers| && s.callers[i].phase.Waiting? && s.callers[i].phase.flight in s.done then
        var outcome := s.done[s.callers[i].phase.flight];
        if s.callers[i].cancelled then Become(s, i, Returned(Cancelled))
        else if outcome == Cancelled then Become(s, i, Looking)
        else Become(s, i, Returned(outcome))
      else s
    case GiveUp(i) =>
      if i < |s.callers| && s.callers[i].phase.Waiting? && s.callers[i].cancelled then Become(s, i, Returned(Cancelled)) else s
    case Finish(i, cut) =>
      if i < |s.callers| && s.callers[i].phase.Converting? then
        Publish(s, i, if cut && s.callers[i].cancelled then Cancelled else convert(s.callers[i].key), limits)
      else s
  }

  const Empty: State := State(Store(map[], [], 0), map[], map[], 0, [])

  ghost predicate Inv(convert: Key -> Outcome, limits: Limits, s: State) {
    s.store.Valid(limits) && Transparent(convert, s) && FlightsConsistent(s) && CallersConsistent(convert, s)
  }

  ghost predicate Transparent(convert: Key -> Outcome, s: State) {
    forall k :: k in s.store.entries ==> convert(k) == Converted(s.store.entries[k]) && k !in s.flights
  }

  ghost predicate Produced(callers: seq<Caller>, k: Key, f: Flight) {
    exists i :: 0 <= i < |callers| && callers[i].key == k && callers[i].phase == Converting(f)
  }

  lemma StaysProduced(before: seq<Caller>, after: seq<Caller>, k: Key, f: Flight)
    requires Produced(before, k, f) && |before| <= |after|
    requires forall i :: 0 <= i < |before| && before[i].phase == Converting(f) ==>
      after[i].key == before[i].key && after[i].phase == before[i].phase
    ensures Produced(after, k, f)
  {
    var i :| 0 <= i < |before| && before[i].key == k && before[i].phase == Converting(f);
    assert after[i].key == k;
  }

  /** Every flight has exactly one producer, and no two keys share a flight. */
  ghost predicate FlightsConsistent(s: State) {
    && (forall k :: k in s.flights ==> s.flights[k] < s.launched && s.flights[k] !in s.done)
    && (forall k, l :: k in s.flights && l in s.flights && s.flights[k] == s.flights[l] ==> k == l)
    && (forall f :: f in s.done ==> f < s.launched)
    && (forall k :: k in s.flights ==> Produced(s.callers, k, s.flights[k]))
    && (forall i :: 0 <= i < |s.callers| && s.callers[i].phase.Converting? ==>
          s.callers[i].key in s.flights && s.flights[s.callers[i].key] == s.callers[i].phase.flight)
    && (forall i, j :: 0 <= i < j < |s.callers| && s.callers[i].phase.Converting? && s.callers[j].phase.Converting?
          ==> s.callers[i].key != s.callers[j].key)
  }

  ghost predicate CallerConsistent(convert: Key -> Outcome, s: State, c: Caller) {
    match c.phase
    case Looking => true
    case Converting(_) => true
    case Waiting(f) =>
      || (c.key in s.flights && s.flights[c.key] == f)
      || (f in s.done && s.done[f] in {Cancelled, convert(c.key)})
    case Returned(o) => if o == Cancelled then c.cancelled else o == convert(c.key)
  }

  ghost predicate CallersConsistent(convert: Key -> Outcome, s: State) {
    forall i :: 0 <= i < |s.callers| ==> CallerConsistent(convert, s, s.callers[i])
  }

  /** A caller moves between phases without starting or ending a conversion. */
  lemma QuietKeepsFlights(before: State, after: State)
    requires FlightsConsistent(before)
    requires after.flights == before.flights && after.done == before.done && after.launched == before.launched
    requires |before.callers| <= |after.callers|
    requires forall i :: 0 <= i < |before.callers| ==> after.callers[i].key == before.callers[i].key
    requires forall i :: 0 <= i < |before.callers| && before.callers[i].phase.Converting? ==> after.callers[i].phase == before.callers[i].phase
    requires forall i :: 0 <= i < |after.callers| && after.callers[i].phase.Converting? ==>
      i < |before.callers| && before.callers[i].phase == after.callers[i].phase
    ensures FlightsConsistent(after)
  {
    forall k | k in before.flights ensures Produced(after.callers, k, before.flights[k]) {
      StaysProduced(before.callers, after.callers, k, before.flights[k]);
    }
  }

  lemma LookKeepsFlights(s: State, i: nat)
    requires FlightsConsistent(s) && i < |s.callers| && s.callers[i].phase.Looking?
    ensures FlightsConsistent(Look(s, i))
  {
    var k := s.callers[i].key;
    var r := Look(s, i);
    if k in s.store.entries || k in s.flights {
      QuietKeepsFlights(s, r);
    } else {
      LaunchKeepsFlights(s, i);
    }
  }

  lemma LaunchKeepsFlights(s: State, i: nat)
    requires FlightsConsistent(s) && i < |s.callers| && s.callers[i].phase.Looking? && s.callers[i].key !in s.flights
    ensures FlightsConsistent(Become(s, i, Converting(s.launched)).(flights := s.flights[s.callers[i].key := s.launched],
                                                                    launched := s.launched + 1))
  {
    var callers := s.callers[i := s.callers[i].(phase := Converting(s.launched))];
    assert callers[i].key == s.callers[i].key && callers[i].phase == Converting(s.launched);
    assert Produced(callers, s.callers[i].key, s.launched);
    forall l | l in s.flights ensures Produced(callers, l, s.flights[l]) {
      StaysProduced(s.callers, callers, l, s.flights[l]);
    }
  }

  lemma LookKeepsCallers(convert: Key -> Outcome, s: State, i: nat)
    requires FlightsConsistent(s) && Transparent(convert, s) && CallersConsistent(convert, s)
    requires i < |s.callers| && s.callers[i].phase.Looking?
    ensures CallersConsistent(convert, Look(s, i)) && Transparent(convert, Look(s, i))
  {
    var r := Look(s, i);
    forall j | 0 <= j < |r.callers| ensures CallerConsistent(convert, r, r.callers[j]) {
      assert CallerConsistent(convert, s, s.callers[j]);
      assert j != i ==> r.callers[j] == s.callers[j];
    }
  }

  lemma PublishKeepsFlights(s: State, i: nat, outcome: Outcome, limits: Limits)
    requires FlightsConsistent(s) && Indexes(s.store.order, s.store.entries)
    requires i < |s.callers| && s.callers[i].phase.Converting?
    ensures FlightsConsistent(Publish(s, i, outcome, limits))
  {
    var k := s.callers[i].key;
    var callers := s.callers[i := s.callers[i].(phase := Returned(outcome))];
    forall l | l in s.flights && l != k ensures Produced(callers, l, s.flights[l]) {
      StaysProduced(s.callers, callers, l, s.flights[l]);
    }
    assert Publish(s, i, outcome, limits).callers == callers;
  }

  lemma PublishKeepsCallers(convert: Key -> Outcome, s: State, i: nat, outcome: Outcome, limits: Limits)
    requires FlightsConsistent(s) && CallersConsistent(convert, s) && Indexes(s.store.order, s.store.entries)
    requires i < |s.callers| && s.callers[i].phase.Converting?
    requires if outcome == Cancelled then s.callers[i].cancelled else outcome == convert(s.callers[i].key)
    ensures CallersConsistent(convert, Publish(s, i, outcome, limits))
  {
    var r := Publish(s, i, outcome, limits);
    forall j | 0 <= j < |r.callers| ensures CallerConsistent(convert, r, r.callers[j]) {
      assert CallerConsistent(convert, s, s.callers[j]);
      assert j != i ==> r.callers[j] == s.callers[j];
    }
  }

  lemma PublishKeepsStore(convert: Key -> Outcome, s: State, i: nat, outcome: Outcome, limits: Limits)
    requires s.store.Valid(limits) && Transparent(convert, s)
    requires i < |s.callers| && s.callers[i].phase.Converting? && s.callers[i].key in s.flights
    requires outcome != Cancelled ==> outcome == convert(s.callers[i].key)
    ensures Publish(s, i, outcome, limits).store.Valid(limits)
    ensures Transparent(convert, Publish(s, i, outcome, limits))
  {
    if outcome.Converted? && s.store.Admits(outcome.image, limits) {
      InsertKeepsValid(s.store, s.callers[i].key, outcome.image, limits);
    }
  }

  predicate Quiet(e: Event) { !e.Look? && !e.Finish? }

  lemma QuietStepKeepsFlights(convert: Key -> Outcome, limits: Limits, s: State, e: Event)
    requires s.store.Valid(limits) && FlightsConsistent(s) && Quiet(e)
    ensures FlightsConsistent(Step(convert, limits, s, e))
  {
    QuietStepKeepsConverting(convert, limits, s, e);
    QuietKeepsFlights(s, Step(convert, limits, s, e));
  }

  lemma QuietStepKeepsConverting(convert: Key -> Outcome, limits: Limits, s: State, e: Event)
    requires s.store.Valid(limits) && Quiet(e)
    ensures var r := Step(convert, limits, s, e);
      && r.flights == s.flights && r.done == s.done && r.launched == s.launched && |s.callers| <= |r.callers|
      && (forall i :: 0 <= i < |s.callers| ==> r.callers[i].key == s.callers[i].key)
      && (forall i :: 0 <= i < |s.callers| && s.callers[i].phase.Converting? ==> r.callers[i].phase == s.callers[i].phase)
      && (forall i :: 0 <= i < |r.callers| && r.callers[i].phase.Converting? ==>
            i < |s.callers| && s.callers[i].phase == r.callers[i].phase)
  {
  }

  lemma QuietStepKeepsCallers(convert: Key -> Outcome, limits: Limits, s: State, e: Event)
    requires s.store.Valid(limits) && Quiet(e)
    requires Transparent(convert, s) && CallersConsistent(convert, s) && FlightsConsistent(s)
    ensures Transparent(convert, Step(convert, limits, s, e)) && CallersConsistent(convert, Step(convert, limits, s, e))
  {
    var r := Step(convert, limits, s, e);
    assert r.store == s.store && r.flights == s.flights && r.done == s.done;
    forall j | 0 <= j < |r.callers| ensures CallerConsistent(convert, r, r.callers[j]) {
      assert j < |s.callers| ==> CallerConsistent(convert, s, s.callers[j]);
    }
  }

  lemma {:induction false} StepKeepsInv(convert: Key -> Outcome, limits: Limits, s: State, e: Event)
    requires Inv(convert, limits, s) && (forall k :: convert(k) != Cancelled)
    ensures Inv(convert, limits, Step(convert, limits, s, e))
  {
    match e
    case Look(i) =>
      if i < |s.callers| && s.callers[i].phase.Looking? {
        LookKeepsFlights(s, i);
        LookKeepsCallers(convert, s, i);
        if s.callers[i].key in s.store.entries { TouchKeepsValid(s.store, s.callers[i].key, limits); }
      }
    case Finish(i, cut) =>
      if i < |s.callers| && s.callers[i].phase.Converting? {
        var outcome := if cut && s.callers[i].cancelled then Cancelled else convert(s.callers[i].key);
        PublishKeepsFlights(s, i, outcome, limits);
        PublishKeepsCallers(convert, s, i, outcome, limits);
        PublishKeepsStore(convert, s, i, outcome, limits);
      }
    case _ =>
      QuietStepKeepsFlights(convert, limits, s, e);
      QuietStepKeepsCallers(convert, limits, s, e);
  }

  ghost function Run(convert: Key -> Outcome, limits: Limits, es: seq<Event>): (s: State)
    requires forall k :: convert(k) != Cancelled
    ensures Inv(convert, limits, s)
  {
    if es == [] then Empty
    else
      var before := Run(convert, limits, es[..|es| - 1]);
      StepKeepsInv(convert, limits, before, es[|es| - 1]);
      Step(convert, limits, before, es[|es| - 1])
  }

  /** Whatever the interleaving, a caller gets its own source's conversion, or its own cancellation. */
  lemma CacheIsTransparent(convert: Key -> Outcome, limits: Limits, es: seq<Event>, i: nat)
    requires forall k :: convert(k) != Cancelled
    requires i < |Run(convert, limits, es).callers| && Run(convert, limits, es).callers[i].phase.Returned?
    ensures var c := Run(convert, limits, es).callers[i];
            c.phase.outcome == convert(c.key) || (c.phase.outcome == Cancelled && c.cancelled)
  {
    assert CallerConsistent(convert, Run(convert, limits, es), Run(convert, limits, es).callers[i]);
  }

  /** A key is converted by at most one caller at a time, and never while it is cached. */
  lemma SingleFlight(convert: Key -> Outcome, limits: Limits, es: seq<Event>, i: nat, j: nat)
    requires forall k :: convert(k) != Cancelled
    requires var s := Run(convert, limits, es);
      i < |s.callers| && j < |s.callers| && s.callers[i].phase.Converting? && s.callers[j].phase.Converting?
    ensures var s := Run(convert, limits, es);
            s.callers[i].key == s.callers[j].key ==> i == j
    ensures var s := Run(convert, limits, es); s.callers[i].key !in s.store.entries
  {
    var s := Run(convert, limits, es);
    assert s.callers[i].key in s.flights;
  }

  /** A live caller's wake-up never ends in someone else's cancellation: it finishes or looks again. */
  lemma ProducerCancellationIsNotShared(convert: Key -> Outcome, limits: Limits, es: seq<Event>, i: nat)
    requires forall k :: convert(k) != Cancelled
    requires var s := Run(convert, limits, es);
      i < |s.callers| && s.callers[i].phase.Waiting? && !s.callers[i].cancelled
    ensures var s := Run(convert, limits, es); var c := Run(convert, limits, es + [Wake(i)]).callers[i];
            if s.callers[i].phase.flight in s.done
            then c.phase == Looking || c.phase == Returned(convert(c.key))
            else c.phase == s.callers[i].phase && Produced(s.callers, c.key, c.phase.flight)
  {
    var s := Run(convert, limits, es);
    assert CallerConsistent(convert, s, s.callers[i]);
    assert (es + [Wake(i)])[..|es|] == es;
  }

  /** The image just converted is cached, most recently used, whenever it fits the cache by itself. */
  lemma NewImageSurvives(convert: Key -> Outcome, limits: Limits, es: seq<Event>, i: nat)
    requires forall k :: convert(k) != Cancelled
    requires var s := Run(convert, limits, es);
      && i < |s.callers| && s.callers[i].phase.Converting?
      && convert(s.callers[i].key).Converted? && s.store.Admits(convert(s.callers[i].key).image, limits)
    ensures var s := Run(convert, limits, es); var k := s.callers[i].key;
            var r := Run(convert, limits, es + [Finish(i, false)]).store;
            && k in r.entries && convert(k) == Converted(r.entries[k]) && r.order[0] == k
            && (forall x :: x in r.entries && x != k ==> x in s.store.entries)
            && r.order <= [k] + s.store.order
  {
    var s := Run(convert, limits, es);
    assert (es + [Finish(i, false)])[..|es|] == es;
    FinishInserts(convert, limits, s, i);
    InsertKeepsValid(s.store, s.callers[i].key, convert(s.callers[i].key).image, limits);
  }

  lemma FinishInserts(convert: Key -> Outcome, limits: Limits, s: State, i: nat)
    requires s.store.Valid(limits) && Transparent(convert, s) && FlightsConsistent(s)
    requires i < |s.callers| && s.callers[i].phase.Converting?
    requires convert(s.callers[i].key).Converted? && s.store.Admits(convert(s.callers[i].key).image, limits)
    ensures s.callers[i].key !in s.store.entries
    ensures Step(convert, limits, s, Finish(i, false)).store
         == s.store.Inserted(s.callers[i].key, convert(s.callers[i].key).image, limits)
  {
  }

  // ---------------------------------------------------------------- the cache object

  /** The fields under the mutex; `order` lists keys from most to least recently used. */
  class Cache {
    const limits: Limits
    var entries: map<Key, Image>
    var order: seq<Key>
    var bytes: nat
    var flights: map<Key, Flight>
    var done: map<Flight, Outcome>
    var launched: nat

    ghost function View(): Store
      reads this
    {
      Store(entries, order, bytes)
    }

    constructor (limits: Limits)
      ensures View() == Empty.store && View().Valid(limits) && this.limits == limits
      ensures flights == map[] && done == map[] && launched == 0
    {
      this.limits := limits;
      entries, order, bytes, flights, done, launched := map[], [], 0, map[], map[], 0;
    }

    // A hit returns the cached image and makes it the most recently used one.
    method Lookup(k: Key) returns (hit: bool, image: Image)
      requires View().Valid(limits)
      modifies this`order
      ensures View().Valid(limits)
      ensures hit <==> k in entries
      ensures hit ==> image == entries[k] && View() == old(View()).Touched(k)
      ensures !hit ==> View() == old(View())
    {
      if k in entries {
        TouchKeepsValid(View(), k, limits);
        order := [k] + Without(order, k);
        return true, entries[k];
      }
      return false, Image([], "");
    }

    // The first critical section: a hit, another caller's flight to wait for, or a flight of its own.
    method Board(k: Key) returns (phase: Phase)
      requires View().Valid(limits)
      modifies this`order, this`flights, this`launched
      ensures View().Valid(limits) && View() == if k in entries then old(View()).Touched(k) else old(View())
      ensures phase == if k in entries then Returned(Converted(entries[k]))
                       else if k in old(flights) then Waiting(old(flights)[k]) else Converting(old(launched))
      ensures if phase.Converting? then flights == old(flights)[k := phase.flight] && launched == old(launched) + 1
              else flights == old(flights) && launched == old(launched)
    {
      var hit, image := Lookup(k);
      if hit {
        return Returned(Converted(image));
      }
      if k in flights {
        return Waiting(flights[k]);
      }
      phase := Converting(launched);
      flights := flights[k := launched];
      launched := launched + 1;
    }

    // The producer's last critical section: store the flight's outcome, publish the image and evict from the
    // back until both limits hold, then release the key and wake everyone who waits for the flight.
    method Settle(k: Key, flight: Flight, outcome: Outcome)
      requires View().Valid(limits) && k !in entries
      modifies this
      ensures View().Valid(limits)
      ensures View() == if outcome.Converted? && old(View()).Admits(outcome.image, limits)
                        then old(View()).Inserted(k, outcome.image, limits) else old(View())
      ensures flights == old(flights) - {k} && done == old(done)[flight := outcome] && launched == old(launched)
    {
      if outcome.Converted? && |outcome.image.content| <= limits.bytes && 0 < limits.entries {
        InsertKeepsValid(View(), k, outcome.image, limits);
        Insert(k, outcome.image);
      }
      flights := flights - {k};
      done := done[flight := outcome];
    }

    method Insert(k: Key, image: Image)
      requires Indexes(order, entries) && bytes == Total(order, entries) && k !in entries
      modifies this`entries, this`order, this`bytes
      ensures View() == old(View()).Inserted(k, image, limits)
    {
      Push(k, image);
      Evict();
    }

    method Evict()
      requires Indexes(order, entries) && bytes == Total(order, entries)
      modifies this`entries, this`order, this`bytes
      ensures order == Trim(old(order), old(entries), limits)
      ensures entries == map x | x in order :: old(entries)[x]
      ensures bytes == Total(order, old(entries))
    {
      while bytes > limits.bytes || |order| > limits.entries
        invariant Indexes(order, entries) && bytes == Total(order, entries)
        invariant entries.Keys <= old(entries).Keys && forall x :: x in entries ==> entries[x] == old(entries)[x]
        invariant Trim(order, old(entries), limits) == Trim(old(order), old(entries), limits)
        decreases |order|
      {
        TotalIgnoresOthers(order, entries, old(entries));
        EvictOldest();
      }
      TotalIgnoresOthers(order, entries, old(entries));
    }

    method Push(k: Key, image: Image)
      requires Indexes(order, entries) && bytes == Total(order, entries) && k !in entries
      modifies this`entries, this`order, this`bytes
      ensures order == [k] + old(order) && entries == old(entries)[k := image]
      ensures Indexes(order, entries) && bytes == Total(order, entries)
    {
      TotalIgnoresOthers(order, entries, entries[k := image]);
      TotalSplits([k], order, entries[k := image]);
      assert [k][..0] == [];
      order := [k] + order;
      entries := entries[k := image];
      bytes := bytes + |image.content|;
    }

    method EvictOldest()
      requires order != [] && Indexes(order, entries) && bytes == Total(order, entries)
      modifies this`entries, this`order, this`bytes
      ensures order == old(order)[..|old(order)| - 1]
      ensures entries == old(entries) - {old(order)[|old(order)| - 1]}
      ensures Indexes(order, entries) && bytes == Total(order, entries)
    {
      var oldest := order[|order| - 1];
      var front := order[..|order| - 1];
      assert order == front + [oldest];
      assert oldest !in front;
      TotalIgnoresOthers(front, entries, entries - {oldest});
      bytes := bytes - |entries[oldest].content|;
      entries := entries - {oldest};
      order := front;
    }
  }
}
