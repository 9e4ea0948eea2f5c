/** What the preview cache answers and keeps, told from the history of lookups and imports: which imports it accepts and
    until when it repeats them, in which order keys were used, which of them have to make way, and who works for whom. */
module PreviewAnswers {
  import opened Common
  import opened PreviewCache

  // ---------------------------------------------------------------- what is accepted, and until when

  const TEN_MINUTES := 600_000_000_000
  const TWO_DAYS := 172_800_000_000_000
  const TEN_SECONDS := 10_000_000_000

  predicate Complete(i: Import) {
    && i.preview.name.Some? && i.preview.image.Some?
    && if i.preview.price.Some? then i.preview.warnings in {[], [PriceMayBeStale]} else i.ambiguous && i.preview.warnings == [PriceUnavailable]
  }

  function ImageSize(adaptive: bool, bytes: nat): nat { if adaptive then bytes else (bytes + 2) / 3 * 4 }

  function Weight(adaptive: bool, p: Preview): nat
    requires p.name.Some? && p.image.Some?
  {
    128 + |p.name.value| + |p.image.value.mediaType| + ImageSize(adaptive, |p.image.value.content|)
    + match p.price case Some(price) => |price| case None => 0
  }

  /** When the provider last read the page, if that is known. */
  function LastRead(i: Import): Option<int> {
    match i.origin
    case Primary => Some(i.began)
    case ProviderMiss => Some(i.asked)
    case ProviderHit(cachedAt) => if cachedAt <= i.asked then Some(cachedAt) else None
    case ProviderSilent => None
  }

  /** Ten minutes, or two days but for ten seconds since a known reading of the price. */
  function RepeatedUntil(adaptive: bool, i: Import, at: int): int {
    if adaptive && i.preview.price.Some? && LastRead(i).Some? then LastRead(i).value + TWO_DAYS - TEN_SECONDS else at + TEN_MINUTES
  }

  predicate Accepts(adaptive: bool, i: Import, at: int) {
    && Complete(i) && (adaptive ==> i.preview.image.value.content != [])
    && Weight(adaptive, i.preview) <= 16777216 && at < RepeatedUntil(adaptive, i, at)
  }

  lemma {:induction false} Base64IsFourForThree(bytes: nat)
    ensures Base64Length(bytes) == (bytes + 2) / 3 * 4
  {
    if bytes > 3 { Base64IsFourForThree(bytes - 3); }
  }

  lemma WeightIsSize(adaptive: bool, p: Preview)
    requires p.name.Some? && p.image.Some?
    ensures SizeOf(adaptive, p) == Weight(adaptive, p)
  {
    Base64IsFourForThree(|p.image.value.content|);
  }

  lemma ExpiryIsRepeatedUntil(adaptive: bool, i: Import, at: int)
    requires Honest(i, at)
    ensures Expiry(adaptive, FreshUntil(adaptive, i), at) == RepeatedUntil(adaptive, i, at)
  {
  }

  lemma StoresIsAccepts(adaptive: bool, i: Import, at: int)
    requires Honest(i, at)
    ensures Stores(adaptive, i.preview, i.ambiguous, FreshUntil(adaptive, i), at) <==> Accepts(adaptive, i, at)
  {
    ExpiryIsRepeatedUntil(adaptive, i, at);
    if i.preview.name.Some? && i.preview.image.Some? { WeightIsSize(adaptive, i.preview); }
  }

  /** The last import accepted for the key. */
  ghost function Latest(adaptive: bool, es: seq<Event>, k: Key): Option<Deposit> {
    if es == [] then None
    else
      var e, at := es[|es| - 1], Run(adaptive, es[..|es| - 1]).clock;
      if e.Finish? && e.key == k && Accepts(adaptive, e.done, at) then Some(Deposit(e.done, at)) else Latest(adaptive, es[..|es| - 1], k)
  }

  lemma {:induction false} LatestIsRecorded(adaptive: bool, es: seq<Event>, k: Key)
    requires IsRun(adaptive, es)
    ensures Latest(adaptive, es, k) == if k in Run(adaptive, es).deposits then Some(Run(adaptive, es).deposits[k]) else None
  {
    if es != [] {
      var front, e := es[..|es| - 1], es[|es| - 1];
      LatestIsRecorded(adaptive, front, k);
      EveryRunKeepsInv(adaptive, front);
      if e.Finish? { StoresIsAccepts(adaptive, e.done, Run(adaptive, front).clock); }
    }
  }

  // ---------------------------------------------------------------- uses

  /** A lookup that hits, or an accepted import. */
  ghost predicate Uses(w: World, e: Event, k: Key) {
    || (e.Lookup? && e.key == k && k in w.cache.entries && w.clock < w.cache.entries[k].expires)
    || (e.Finish? && e.key == k && Accepts(w.cache.adaptive, e.done, w.clock))
  }

  ghost function LastUse(adaptive: bool, es: seq<Event>, k: Key): (n: nat)
    ensures n <= |es|
  {
    if es == [] then 0
    else if Uses(Run(adaptive, es[..|es| - 1]), es[|es| - 1], k) then |es| else LastUse(adaptive, es[..|es| - 1], k)
  }

  /** The use order compares entries as the history does. */
  ghost predicate AsUsed(adaptive: bool, es: seq<Event>, entries: map<Key, Entry>) {
    forall a, b :: a in entries && b in entries ==>
      (entries[a].order < entries[b].order <==> LastUse(adaptive, es, a) < LastUse(adaptive, es, b))
  }

  /** How a step moves the order: the used key gets the newest place, and all others keep theirs. */
  ghost predicate OrderMoves(w: World, e: Event) {
    var r := Step(w, e);
    && (forall k :: k in r.cache.entries && !Uses(w, e, k) ==> k in w.cache.entries && r.cache.entries[k].order == w.cache.entries[k].order)
    && (forall k :: k in r.cache.entries && Uses(w, e, k) ==> r.cache.entries[k].order == w.cache.order + 1)
  }

  lemma StepMovesOrder(w: World, e: Event)
    requires Allowed(w, e)
    ensures OrderMoves(w, e)
  {
    match e
    case Lookup(who, key) => LookupMoves(w, who, key);
    case Finish(key, i) =>
      PutEffect(w.cache, key, i.preview, i.ambiguous, FreshUntil(w.cache.adaptive, i), w.clock);
      StoresIsAccepts(w.cache.adaptive, i, w.clock);
    case _ =>
  }

  lemma LookupMoves(w: World, who: Caller, key: Key)
    ensures OrderMoves(w, Lookup(who, key))
  {
  }

  /** In every run, of two cached keys the one used later comes later in the use order. */
  lemma {:induction false} OrderIsRecency(adaptive: bool, es: seq<Event>)
    requires IsRun(adaptive, es)
    ensures AsUsed(adaptive, es, Run(adaptive, es).cache.entries)
  {
    if es != [] {
      var front, e := es[..|es| - 1], es[|es| - 1];
      var w := Run(adaptive, front);
      OrderIsRecency(adaptive, front);
      EveryRunKeepsInv(adaptive, front);
      StepMovesOrder(w, e);
      forall a, b | a in Step(w, e).cache.entries && b in Step(w, e).cache.entries
        ensures Step(w, e).cache.entries[a].order < Step(w, e).cache.entries[b].order <==> LastUse(adaptive, es, a) < LastUse(adaptive, es, b)
      {
        assert Uses(w, e, a) && Uses(w, e, b) ==> a == b;
      }
    }
  }

  // ---------------------------------------------------------------- what stays cached

  /** The entries used no earlier than this one. */
  function NotOlder(entries: map<Key, Entry>, k: Key): map<Key, Entry>
    requires k in entries
  {
    map j | j in entries && entries[k].order <= entries[j].order :: entries[j]
  }

  lemma NotOlderThanOldest(entries: map<Key, Entry>, oldest: Key)
    requires IsOldest(entries, oldest)
    ensures NotOlder(entries, oldest) == entries
  {
  }

  lemma NotOlderWithoutOldest(entries: map<Key, Entry>, order: nat, oldest: Key, k: Key)
    requires Ordered(entries, order) && IsOldest(entries, oldest) && k in entries && k != oldest
    ensures k in entries - {oldest} && NotOlder(entries - {oldest}, k) == NotOlder(entries, k)
  {
    var before, after := NotOlder(entries, k), NotOlder(entries - {oldest}, k);
    assert entries[oldest].order < entries[k].order;
    assert forall j :: j in after <==> j in before;
  }

  lemma {:induction false} FitIsExact(entries: map<Key, Entry>, order: nat, size: nat, k: Key)
    requires size <= MAXIMUM_BYTES && Ordered(entries, order) && k in entries
    ensures k in Fit(entries, size) <==> !Tight(NotOlder(entries, k), size)
    decreases |entries|
  {
    if Tight(entries, size) {
      var oldest := Oldest(entries);
      if k == oldest {
        NotOlderThanOldest(entries, oldest);
      } else {
        NotOlderWithoutOldest(entries, order, oldest, k);
        FitIsExact(entries - {oldest}, order, size, k);
      }
    } else {
      PartIsSmaller(NotOlder(entries, k), entries);
    }
  }

  /** The keys beside which the new entry is put. */
  function Rivals(w: World, key: Key): map<Key, Entry> { Live(w.cache.entries, w.clock) - {key} }

  /** It and everything used no earlier leave room for the new entry. */
  ghost predicate HasRoom(others: map<Key, Entry>, k: Key, weight: nat) {
    k in others && |NotOlder(others, k)| < 128 && Sum(NotOlder(others, k)) + weight <= 16777216
  }

  /** A key stays beside a new import exactly when it has not expired and everything used no earlier fits with the import. */
  lemma EvictionIsExact(w: World, key: Key, i: Import, k: Key)
    requires Inv(w) && Honest(i, w.clock) && Accepts(w.cache.adaptive, i, w.clock)
    ensures var r := Step(w, Finish(key, i)).cache.entries;
      && key in r && r[key].value == i.preview.(url := None)
      && (k != key ==> (k in r <==> HasRoom(Rivals(w, key), k, Weight(w.cache.adaptive, i.preview))))
      && (k != key && k in r ==> r[k] == w.cache.entries[k])
  {
    StoresIsAccepts(w.cache.adaptive, i, w.clock);
    WeightIsSize(w.cache.adaptive, i.preview);
    var until := FreshUntil(w.cache.adaptive, i);
    var entry := EntryOf(w.cache.adaptive, i.preview, until, w.clock, w.cache.order + 1);
    PutStores(w.cache, key, i.preview, i.ambiguous, until, w.clock);
    StoreKeeps(Expire(w.cache, w.clock), key, entry, k);
  }

  lemma StoreKeeps(c: Cache, key: Key, entry: Entry, k: Key)
    requires Ordered(c.entries, c.order) && entry.size <= MAXIMUM_BYTES
    ensures var r := Store(c, key, entry).entries;
      && key in r && r[key] == entry
      && (k != key ==> (k in r <==> HasRoom(c.entries - {key}, k, entry.size)))
      && (k != key && k in r ==> r[k] == c.entries[k])
  {
    var others := c.entries - {key};
    StoreIs(c, key, entry, Fit(others, entry.size));
    if k in others { FitIsExact(others, c.order, entry.size, k); }
  }

  /** Otherwise only time takes anything out, and nothing comes in. */
  lemma EntriesStayOtherwise(w: World, e: Event, k: Key)
    requires Allowed(w, e) && !(e.Finish? && Accepts(w.cache.adaptive, e.done, w.clock))
    ensures var r := Step(w, e);
      && (k in r.cache.entries && w.clock < r.cache.entries[k].expires <==> k in w.cache.entries && w.clock < w.cache.entries[k].expires)
      && (k in r.cache.entries ==> k in w.cache.entries && r.cache.entries[k] == w.cache.entries[k].(order := r.cache.entries[k].order))
  {
    match e
    case Lookup(who, key) => LookEffect(w.cache, key, w.clock);
    case Finish(key, i) => StoresIsAccepts(w.cache.adaptive, i, w.clock);
    case _ =>
  }

  // ---------------------------------------------------------------- answers

  lemma {:induction false} AsManyValues(owners: map<Caller, Key>)
    requires forall a, b :: a in owners && b in owners && owners[a] == owners[b] ==> a == b
    ensures |owners.Values| == |owners|
    decreases |owners|
  {
    if owners != map[] {
      var a :| a in owners;
      var rest := owners - {a};
      assert owners.Keys == rest.Keys + {a};
      assert owners.Values == rest.Values + {owners[a]};
      AsManyValues(rest);
    } else {
      assert owners.Values == {};
    }
  }

  /** A lookup repeats an entry that has not expired; else it waits for whoever works for the key, or goes to work
      itself: for the others too, unless sixty-four do so already. */
  lemma LookupIsAnswered(w: World, key: Key)
    requires Inv(w) && NoOrphans(w)
    ensures var live := key in w.cache.entries && w.clock < w.cache.entries[key].expires;
      match Look(w.cache, key, w.clock).1
      case Hit(entry) => live && entry == w.cache.entries[key].(order := entry.order)
      case Busy => !live && HasOwner(w, key)
      case Owner => !live && !HasOwner(w, key) && |w.owners| < 64
      case Unshared => !live && !HasOwner(w, key) && |w.owners| >= 64
  {
    AsManyValues(w.owners);
    assert HasOwner(w, key) <==> key in w.cache.pending;
    assert w.owners.Values == w.cache.pending;
  }

  /** A caller owns a key from the lookup that made it so until its release. */
  lemma OwnersComeAndGo(w: World, e: Event, who: Caller)
    requires Inv(w) && NoOrphans(w) && Allowed(w, e)
    ensures var r := Step(w, e);
      var begins := e.Lookup? && e.who == who && Look(w.cache, e.key, w.clock).1.Owner?;
      && (who in r.owners <==> (who in w.owners && e != Release(who)) || begins)
      && (who in r.owners ==> r.owners[who] == if begins then e.key else w.owners[who])
  {
  }

  /** A suggestion as it is handed out: with one warning once its price has aged ten minutes and may still be repeated. */
  function HandedOut(adaptive: bool, d: Deposit, later: int): Preview {
    var aged := d.at + TEN_MINUTES <= later && d.at + TEN_MINUTES < RepeatedUntil(adaptive, d.done, d.at);
    var priced := d.done.preview.price.Some? && d.done.preview.warnings == [];
    d.done.preview.(url := None, warnings := if aged && priced then [PriceMayBeStale] else d.done.preview.warnings)
  }

  lemma ServedIsHandedOut(adaptive: bool, e: Entry, d: Deposit, clock: int, later: int)
    requires Backed(adaptive, e, d, clock)
    ensures Served(e, later) == HandedOut(adaptive, d, later) && e.expires == RepeatedUntil(adaptive, d.done, d.at)
  {
    ExpiryIsRepeatedUntil(adaptive, d.done, d.at);
  }

  /** A hit hands out the latest accepted import of its key, within its time. */
  lemma HitIsExact(adaptive: bool, es: seq<Event>, key: Key, later: int)
    requires IsRun(adaptive, es) && Look(Run(adaptive, es).cache, key, Run(adaptive, es).clock).1.Hit?
    ensures var w := Run(adaptive, es); var latest := Latest(adaptive, es, key);
      && latest.Some? && w.clock < RepeatedUntil(adaptive, latest.value.done, latest.value.at)
      && Served(Look(w.cache, key, w.clock).1.entry, later) == HandedOut(adaptive, latest.value, later)
  {
    EveryRunKeepsInv(adaptive, es);
    LatestIsRecorded(adaptive, es, key);
    HitIsBacked(Run(adaptive, es), key);
    var w := Run(adaptive, es);
    ServedIsHandedOut(adaptive, Look(w.cache, key, w.clock).1.entry, w.deposits[key], w.clock, later);
  }

  lemma HitIsBacked(w: World, key: Key)
    requires AllBacked(w) && Look(w.cache, key, w.clock).1.Hit?
    ensures var e := Look(w.cache, key, w.clock).1.entry;
      key in w.deposits && Backed(w.cache.adaptive, e, w.deposits[key], w.clock) && w.clock < e.expires
  {
    assert Backed(w.cache.adaptive, w.cache.entries[key], w.deposits[key], w.clock);
  }
}
