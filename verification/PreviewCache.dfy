/** The import preview cache: bounded by entries, bytes and pending keys, least recently
    used first out, and never a source of a price older than two days. Times are in
    nanoseconds; a key stands for its canonical URL. */
module PreviewCache {
  import opened Common

  const SECOND := 1_000_000_000
  const LIFETIME := 600 * SECOND
  const FRESHNESS := 48 * 3600 * SECOND
  const SAFETY := 10 * SECOND
  const PROVIDER_MAXIMUM_AGE := FRESHNESS - LIFETIME - SAFETY
  const MAXIMUM_ENTRIES := 128
  const MAXIMUM_BYTES := 16 * 1024 * 1024
  const MAXIMUM_PENDING := 64

  type Key = nat
  type Caller = nat

  datatype Image = Image(content: seq<byte>, mediaType: string)

  datatype Warning = PriceUnavailable | PriceMayBeStale | OtherWarning(code: nat)

  datatype Preview = Preview(url: Option<string>, name: Option<string>, price: Option<string>, image: Option<Image>, warnings: seq<Warning>)

  datatype Entry = Entry(value: Preview, expires: int, staleAt: Option<int>, order: nat, size: nat)

  datatype Cache = Cache(adaptive: bool, entries: map<Key, Entry>, pending: set<Key>, bytes: int, order: nat)

  // ---------------------------------------------------------------- sizes

  ghost function Sum(entries: map<Key, Entry>): nat
    decreases |entries|
  {
    if entries == map[] then 0
    else
      var k :| k in entries;
      entries[k].size + Sum(entries - {k})
  }

  lemma {:induction false} SumWithout(entries: map<Key, Entry>, k: Key)
    requires k in entries
    ensures Sum(entries) == entries[k].size + Sum(entries - {k})
    decreases |entries|
  {
    var c :| c in entries && Sum(entries) == entries[c].size + Sum(entries - {c});
    if c != k {
      SumWithout(entries - {c}, k);
      SumWithout(entries - {k}, c);
      assert entries - {c} - {k} == entries - {k} - {c};
    }
  }

  lemma SumWith(entries: map<Key, Entry>, k: Key, e: Entry)
    requires k !in entries
    ensures Sum(entries[k := e]) == Sum(entries) + e.size
  {
    SumWithout(entries[k := e], k);
    assert entries[k := e] - {k} == entries;
  }

  // ---------------------------------------------------------------- the bounded order

  ghost predicate Ordered(entries: map<Key, Entry>, order: nat) {
    && (forall k :: k in entries ==> entries[k].order <= order)
    && (forall j, k :: j in entries && k in entries && entries[j].order == entries[k].order ==> j == k)
  }

  ghost predicate Valid(c: Cache) {
    && c.bytes == Sum(c.entries) <= MAXIMUM_BYTES && |c.entries| <= MAXIMUM_ENTRIES && |c.pending| <= MAXIMUM_PENDING
    && Ordered(c.entries, c.order)
  }

  ghost predicate IsOldest(entries: map<Key, Entry>, k: Key) {
    k in entries && forall j :: j in entries ==> entries[k].order <= entries[j].order
  }

  lemma {:induction false} OldestExists(entries: map<Key, Entry>)
    requires entries != map[]
    ensures exists k :: IsOldest(entries, k)
    decreases |entries|
  {
    var c :| c in entries;
    if entries - {c} == map[] {
      assert entries.Keys == (entries - {c}).Keys + {c};
      assert IsOldest(entries, c);
    } else {
      OldestExists(entries - {c});
      var k :| IsOldest(entries - {c}, k);
      var oldest := if entries[c].order < entries[k].order then c else k;
      assert IsOldest(entries, oldest) by {
        forall j | j in entries ensures entries[oldest].order <= entries[j].order {
          if j != c { assert j in entries - {c}; }
        }
      }
    }
  }

  ghost function Oldest(entries: map<Key, Entry>): (k: Key)
    requires entries != map[]
    ensures IsOldest(entries, k)
  {
    OldestExists(entries);
    var k :| IsOldest(entries, k);
    k
  }

  ghost predicate Tight(entries: map<Key, Entry>, size: nat) {
    |entries| >= MAXIMUM_ENTRIES || Sum(entries) + size > MAXIMUM_BYTES
  }

  /** What remains once least recently used entries have made room for a new one. An empty
      cache has no bytes, so the eviction ends. */
  ghost function Fit(entries: map<Key, Entry>, size: nat): (r: map<Key, Entry>)
    requires size <= MAXIMUM_BYTES
    ensures !Tight(r, size) && forall k :: k in r ==> k in entries && r[k] == entries[k]
    decreases |entries|
  {
    if Tight(entries, size) then Fit(entries - {Oldest(entries)}, size) else entries
  }

  /** Every survivor was used more recently than everything evicted. */
  lemma {:induction false} FitKeepsNewest(entries: map<Key, Entry>, order: nat, size: nat, kept: Key, gone: Key)
    requires size <= MAXIMUM_BYTES && Ordered(entries, order)
    requires kept in Fit(entries, size) && gone in entries && gone !in Fit(entries, size)
    ensures entries[gone].order < entries[kept].order
    decreases |entries|
  {
    if Tight(entries, size) {
      var oldest := Oldest(entries);
      assert entries[oldest].order <= entries[kept].order;
      if gone != oldest { FitKeepsNewest(entries - {oldest}, order, size, kept, gone); }
    }
  }

  ghost predicate LastEvicted(entries: map<Key, Entry>, size: nat, last: Key)
    requires size <= MAXIMUM_BYTES
  {
    var r := Fit(entries, size);
    && last in entries && last !in r && Tight(r[last := entries[last]], size)
    && forall k :: k in entries && k !in r ==> entries[k].order <= entries[last].order
  }

  /** Nothing is evicted without need: the survivors and the youngest victim would not have fitted. */
  lemma {:induction false} FitIsLargest(entries: map<Key, Entry>, size: nat)
    requires size <= MAXIMUM_BYTES && Fit(entries, size) != entries
    ensures exists last :: LastEvicted(entries, size, last)
    decreases |entries|
  {
    var oldest := Oldest(entries);
    var rest := entries - {oldest};
    var r := Fit(rest, size);
    if r == rest {
      assert r[oldest := entries[oldest]] == entries;
      assert LastEvicted(entries, size, oldest);
    } else {
      FitIsLargest(rest, size);
      var last :| LastEvicted(rest, size, last);
      assert LastEvicted(entries, size, last);
    }
  }

  // ---------------------------------------------------------------- operations

  function Live(entries: map<Key, Entry>, now: int): map<Key, Entry> {
    map k | k in entries && now < entries[k].expires :: entries[k]
  }

  ghost function Expire(c: Cache, now: int): Cache {
    c.(entries := Live(c.entries, now), bytes := Sum(Live(c.entries, now)))
  }

  predicate Reusable(p: Preview, ambiguous: bool) {
    && p.name.Some? && p.image.Some?
    && ((p.price.Some? && (p.warnings == [] || p.warnings == [PriceMayBeStale]))
        || (ambiguous && p.price == None && p.warnings == [PriceUnavailable]))
  }

  /** Four characters for every started group of three bytes. */
  function Base64Length(bytes: nat): nat { if bytes == 0 then 0 else if bytes <= 3 then 4 else 4 + Base64Length(bytes - 3) }

  /** Adaptive entries hold image bytes; the others hold their base64 text. */
  function SizeOf(adaptive: bool, p: Preview): nat
    requires p.name.Some? && p.image.Some?
  {
    |p.name.value| + |p.image.value.mediaType| + 128
    + (if adaptive then |p.image.value.content| else Base64Length(|p.image.value.content|))
    + (if p.price.Some? then |p.price.value| else 0)
  }

  predicate Storable(adaptive: bool, p: Preview, ambiguous: bool) {
    Reusable(p, ambiguous) && (adaptive ==> p.image.value.content != []) && SizeOf(adaptive, p) <= MAXIMUM_BYTES
  }

  function Expiry(adaptive: bool, freshUntil: Option<int>, now: int): int {
    if adaptive && freshUntil.Some? then
      var longest := now + (FRESHNESS - SAFETY);
      if freshUntil.value < longest then freshUntil.value else longest
    else
      now + LIFETIME
  }

  function EntryOf(adaptive: bool, p: Preview, freshUntil: Option<int>, now: int, order: nat): Entry
    requires p.name.Some? && p.image.Some?
  {
    var expires := Expiry(adaptive, freshUntil, now);
    var stales := adaptive && p.price.Some? && p.warnings == [] && expires > now + LIFETIME;
    Entry(p.(url := None), expires, if stales then Some(now + LIFETIME) else None, order, SizeOf(adaptive, p))
  }

  predicate Stores(adaptive: bool, p: Preview, ambiguous: bool, freshUntil: Option<int>, now: int) {
    Storable(adaptive, p, ambiguous) && Expiry(adaptive, freshUntil, now) > now
  }

  ghost function Put(c: Cache, key: Key, p: Preview, ambiguous: bool, freshUntil: Option<int>, now: int): Cache {
    if !Storable(c.adaptive, p, ambiguous) then c
    else if !Stores(c.adaptive, p, ambiguous, freshUntil, now) then Expire(c, now)
    else Store(Expire(c, now), key, EntryOf(c.adaptive, p, freshUntil, now, c.order + 1))
  }

  ghost function Store(c: Cache, key: Key, entry: Entry): Cache
    requires entry.size <= MAXIMUM_BYTES
  {
    var kept := Fit(c.entries - {key}, entry.size);
    c.(entries := kept[key := entry], bytes := Sum(kept) + entry.size, order := entry.order)
  }

  datatype Found = Hit(entry: Entry) | Owner | Busy | Unshared

  /** One pass of a lookup; Busy waits for the owner of the key and tries again. */
  ghost function Look(c: Cache, key: Key, now: int): (Cache, Found) { Find(Expire(c, now), key) }

  function Find(c: Cache, key: Key): (Cache, Found) {
    if key in c.entries then
      (c.(entries := Retouched(c.entries, key, c.order + 1), order := c.order + 1), Hit(c.entries[key].(order := c.order + 1)))
    else if key in c.pending then (c, Busy)
    else if |c.pending| >= MAXIMUM_PENDING then (c, Unshared)
    else (c.(pending := c.pending + {key}), Owner)
  }

  function Retouched(entries: map<Key, Entry>, k: Key, order: nat): map<Key, Entry>
    requires k in entries
  {
    entries[k := entries[k].(order := order)]
  }

  /** The suggestion a caller receives from an entry. */
  function Served(e: Entry, now: int): Preview {
    if e.staleAt.Some? && now >= e.staleAt.value && e.value.price.Some?
    then e.value.(warnings := e.value.warnings + [PriceMayBeStale]) else e.value
  }

  // ---------------------------------------------------------------- every operation keeps the bounds

  lemma {:induction false} PartIsSmaller(part: map<Key, Entry>, whole: map<Key, Entry>)
    requires forall k :: k in part ==> k in whole && part[k] == whole[k]
    ensures |part| <= |whole| && Sum(part) <= Sum(whole)
    decreases |part|
  {
    if part != map[] {
      var k :| k in part;
      SumWithout(part, k);
      SumWithout(whole, k);
      PartIsSmaller(part - {k}, whole - {k});
    }
  }

  lemma ExpireKeepsValid(c: Cache, now: int)
    requires Valid(c)
    ensures Valid(Expire(c, now))
  {
    PartIsSmaller(Live(c.entries, now), c.entries);
  }

  lemma RetouchKeepsSum(entries: map<Key, Entry>, k: Key, order: nat)
    requires k in entries
    ensures Sum(Retouched(entries, k, order)) == Sum(entries) && |Retouched(entries, k, order)| == |entries|
  {
    var touched := Retouched(entries, k, order);
    SumWithout(entries, k);
    SumWithout(touched, k);
    assert touched - {k} == entries - {k};
    assert touched.Keys == entries.Keys;
    assert |touched| == |touched.Keys| && |entries| == |entries.Keys|;
  }

  lemma RetouchKeepsOrdered(entries: map<Key, Entry>, k: Key, order: nat)
    requires k in entries && Ordered(entries, order)
    ensures Ordered(Retouched(entries, k, order + 1), order + 1)
  {
  }

  lemma RetouchKeepsValid(c: Cache, k: Key)
    requires Valid(c) && k in c.entries
    ensures Valid(c.(entries := Retouched(c.entries, k, c.order + 1), order := c.order + 1))
  {
    RetouchKeepsSum(c.entries, k, c.order + 1);
    RetouchKeepsOrdered(c.entries, k, c.order);
    SameSizeIsValid(c, Retouched(c.entries, k, c.order + 1), c.order + 1);
  }

  lemma SameSizeIsValid(c: Cache, entries: map<Key, Entry>, order: nat)
    requires Valid(c) && Sum(entries) == Sum(c.entries) && |entries| == |c.entries| && Ordered(entries, order)
    ensures Valid(c.(entries := entries, order := order))
  {
  }

  lemma LookKeepsValid(c: Cache, key: Key, now: int)
    requires Valid(c)
    ensures Valid(Look(c, key, now).0)
  {
    ExpireKeepsValid(c, now);
    FindKeepsValid(Expire(c, now), key);
  }

  lemma FindKeepsValid(c: Cache, key: Key)
    requires Valid(c)
    ensures Valid(Find(c, key).0)
  {
    if key in c.entries {
      RetouchKeepsValid(c, key);
    }
  }

  lemma AddKeepsOrdered(entries: map<Key, Entry>, order: nat, key: Key, entry: Entry)
    requires Ordered(entries, order) && entry.order == order + 1
    ensures Ordered(entries[key := entry], order + 1)
  {
  }

  lemma AddCountsOne(entries: map<Key, Entry>, key: Key, entry: Entry)
    requires key !in entries
    ensures |entries[key := entry]| == |entries| + 1
  {
    assert entries[key := entry].Keys == entries.Keys + {key};
  }

  /** A new entry, used last, in a cache with room for it. */
  lemma AddKeepsValid(c: Cache, key: Key, entry: Entry)
    requires key !in c.entries && !Tight(c.entries, entry.size) && c.bytes == Sum(c.entries) && |c.pending| <= MAXIMUM_PENDING
    requires Ordered(c.entries, c.order) && entry.order == c.order + 1
    ensures Valid(c.(entries := c.entries[key := entry], bytes := c.bytes + entry.size, order := entry.order))
  {
    SumWith(c.entries, key, entry);
    AddCountsOne(c.entries, key, entry);
    AddKeepsOrdered(c.entries, c.order, key, entry);
  }

  lemma PutStores(c: Cache, key: Key, p: Preview, ambiguous: bool, freshUntil: Option<int>, now: int)
    ensures var r := Put(c, key, p, ambiguous, freshUntil, now);
      if Stores(c.adaptive, p, ambiguous, freshUntil, now) then
        var entry := EntryOf(c.adaptive, p, freshUntil, now, c.order + 1);
        entry.size <= MAXIMUM_BYTES && entry.order == c.order + 1 && r == Store(Expire(c, now), key, entry)
      else r == if Storable(c.adaptive, p, ambiguous) then Expire(c, now) else c
  {
  }

  lemma PutOfEntry(c: Cache, key: Key, p: Preview, ambiguous: bool, freshUntil: Option<int>, now: int, entry: Entry)
    requires Storable(c.adaptive, p, ambiguous) && entry == EntryOf(c.adaptive, p, freshUntil, now, c.order + 1)
    ensures entry.size <= MAXIMUM_BYTES && entry.order == c.order + 1
    ensures Put(c, key, p, ambiguous, freshUntil, now) ==
            if entry.expires > now then Store(Expire(c, now), key, entry) else Expire(c, now)
  {
  }

  lemma PutKeepsValid(c: Cache, key: Key, p: Preview, ambiguous: bool, freshUntil: Option<int>, now: int)
    requires Valid(c)
    ensures Valid(Put(c, key, p, ambiguous, freshUntil, now))
  {
    ExpireKeepsValid(c, now);
    PutStores(c, key, p, ambiguous, freshUntil, now);
    var r := Put(c, key, p, ambiguous, freshUntil, now);
    if r != c && r != Expire(c, now) {
      StoreKeepsValid(Expire(c, now), key, EntryOf(c.adaptive, p, freshUntil, now, c.order + 1));
    }
  }

  lemma StoreKeepsValid(c: Cache, key: Key, entry: Entry)
    requires Valid(c) && entry.size <= MAXIMUM_BYTES && entry.order == c.order + 1
    ensures Valid(Store(c, key, entry))
  {
    var kept := Fit(c.entries - {key}, entry.size);
    AddKeepsValid(c.(entries := kept, bytes := Sum(kept)), key, entry);
  }

  // ---------------------------------------------------------------- runs of many imports

  /** Where the price of a preview came from, and what the provider said about its age. */
  datatype Origin = Primary | ProviderMiss | ProviderHit(cachedAt: int) | ProviderSilent

  /** One finished import: `began` is when it started, `asked` when its last price source was called. */
  datatype Import = Import(preview: Preview, ambiguous: bool, origin: Origin, began: int, asked: int, observed: int)

  function FreshUntil(adaptive: bool, i: Import): Option<int> {
    if i.preview.price == None then None
    else
      match i.origin
      case Primary => if adaptive then Some(i.began + (FRESHNESS - SAFETY)) else None
      case ProviderMiss => Some(i.asked + (FRESHNESS - SAFETY))
      case ProviderHit(cachedAt) => if cachedAt <= i.asked then Some(cachedAt + (FRESHNESS - SAFETY)) else None
      case ProviderSilent => None
  }

  /** A live read happened during the import; a provider's copy is no older than the age it was
      asked for, and is from the time the provider states. The budget is under ten seconds. */
  predicate Honest(i: Import, now: int) {
    && i.began <= i.asked <= now && now < i.began + SAFETY
    && match i.origin
       case Primary => i.began <= i.observed
       case ProviderMiss => i.asked <= i.observed
       case ProviderHit(cachedAt) => i.asked - PROVIDER_MAXIMUM_AGE <= i.observed && cachedAt <= i.observed
       case ProviderSilent => i.asked - PROVIDER_MAXIMUM_AGE <= i.observed
  }

  datatype Deposit = Deposit(done: Import, at: int)

  datatype World = World(cache: Cache, clock: int, owners: map<Caller, Key>, deposits: map<Key, Deposit>)

  datatype Event =
    | Tick(elapsed: nat)
    | Lookup(who: Caller, key: Key)
    | Finish(key: Key, done: Import)
    | Release(who: Caller)

  ghost predicate Allowed(w: World, e: Event) {
    match e
    case Lookup(who, _) => who !in w.owners
    case Finish(_, i) => Honest(i, w.clock)
    case _ => true
  }

  ghost function Step(w: World, e: Event): World {
    match e
    case Tick(elapsed) => w.(clock := w.clock + elapsed)
    case Lookup(who, key) =>
      var (c, found) := Look(w.cache, key, w.clock);
      w.(cache := c, owners := if found.Owner? then w.owners[who := key] else w.owners)
    case Finish(key, i) =>
      var until := FreshUntil(w.cache.adaptive, i);
      w.(cache := Put(w.cache, key, i.preview, i.ambiguous, until, w.clock),
         deposits := if Stores(w.cache.adaptive, i.preview, i.ambiguous, until, w.clock)
                     then w.deposits[key := Deposit(i, w.clock)] else w.deposits)
    case Release(who) =>
      if who in w.owners then w.(cache := w.cache.(pending := w.cache.pending - {w.owners[who]}), owners := w.owners - {who}) else w
  }

  function Empty(adaptive: bool): World { World(Cache(adaptive, map[], {}, 0, 0), 0, map[], map[]) }

  ghost predicate IsRun(adaptive: bool, es: seq<Event>) {
    es == [] || (IsRun(adaptive, es[..|es| - 1]) && Allowed(Run(adaptive, es[..|es| - 1]), es[|es| - 1]))
  }

  ghost function Run(adaptive: bool, es: seq<Event>): World {
    if es == [] then Empty(adaptive) else Step(Run(adaptive, es[..|es| - 1]), es[|es| - 1])
  }

  /** Each entry is what its key's last accepted deposit says, touched since or not. */
  ghost predicate Backed(adaptive: bool, e: Entry, d: Deposit, clock: int) {
    var until := FreshUntil(adaptive, d.done);
    && Honest(d.done, d.at) && d.at <= clock && Stores(adaptive, d.done.preview, d.done.ambiguous, until, d.at)
    && e == EntryOf(adaptive, d.done.preview, until, d.at, e.order)
  }

  ghost predicate AllBacked(w: World) {
    forall k :: k in w.cache.entries ==> k in w.deposits && Backed(w.cache.adaptive, w.cache.entries[k], w.deposits[k], w.clock)
  }

  ghost predicate SoleOwners(w: World) {
    && (forall who :: who in w.owners ==> w.owners[who] in w.cache.pending)
    && (forall a, b :: a in w.owners && b in w.owners && w.owners[a] == w.owners[b] ==> a == b)
  }

  ghost predicate Inv(w: World) { Valid(w.cache) && SoleOwners(w) && AllBacked(w) }

  lemma StepKeepsInv(w: World, e: Event)
    requires Inv(w) && Allowed(w, e)
    ensures Inv(Step(w, e)) && Step(w, e).cache.adaptive == w.cache.adaptive
  {
    StepKeepsValid(w, e);
    StepKeepsOwners(w, e);
    StepKeepsBacked(w, e);
  }

  lemma StepKeepsValid(w: World, e: Event)
    requires Valid(w.cache)
    ensures Valid(Step(w, e).cache) && Step(w, e).cache.adaptive == w.cache.adaptive
  {
    match e
    case Tick(_) =>
    case Lookup(who, key) => LookKeepsValid(w.cache, key, w.clock);
    case Finish(key, i) => PutKeepsValid(w.cache, key, i.preview, i.ambiguous, FreshUntil(w.cache.adaptive, i), w.clock);
    case Release(who) =>
      if who in w.owners { assert |w.cache.pending - {w.owners[who]}| <= |w.cache.pending|; }
  }

  lemma StepKeepsOwners(w: World, e: Event)
    requires SoleOwners(w) && Allowed(w, e)
    ensures SoleOwners(Step(w, e))
  {
  }

  lemma StepKeepsBacked(w: World, e: Event)
    requires AllBacked(w) && Allowed(w, e)
    ensures AllBacked(Step(w, e))
  {
    match e
    case Tick(_) =>
    case Lookup(who, key) => LookKeepsBacked(w, who, key);
    case Finish(key, i) => PutKeepsBacked(w, key, i);
    case Release(who) =>
  }

  lemma LookEffect(c: Cache, key: Key, now: int)
    ensures var r := Look(c, key, now).0;
      r.adaptive == c.adaptive &&
      forall k :: k in r.entries ==> k in c.entries && r.entries[k] == c.entries[k].(order := r.entries[k].order)
  {
  }

  lemma LookKeepsBacked(w: World, who: Caller, key: Key)
    requires AllBacked(w)
    ensures AllBacked(Step(w, Lookup(who, key)))
  {
    LookEffect(w.cache, key, w.clock);
  }

  lemma PutKeepsBacked(w: World, key: Key, i: Import)
    requires AllBacked(w) && Honest(i, w.clock)
    ensures AllBacked(Step(w, Finish(key, i)))
  {
    var until := FreshUntil(w.cache.adaptive, i);
    PutEffect(w.cache, key, i.preview, i.ambiguous, until, w.clock);
    var r := Step(w, Finish(key, i));
    forall k | k in r.cache.entries
      ensures k in r.deposits && Backed(r.cache.adaptive, r.cache.entries[k], r.deposits[k], r.clock)
    {
      if k != key || !Stores(w.cache.adaptive, i.preview, i.ambiguous, until, w.clock) {
        assert k in w.deposits && Backed(w.cache.adaptive, w.cache.entries[k], w.deposits[k], w.clock);
      }
    }
  }

  lemma StoreIs(c: Cache, key: Key, entry: Entry, kept: map<Key, Entry>)
    requires entry.size <= MAXIMUM_BYTES && kept == Fit(c.entries - {key}, entry.size)
    ensures Store(c, key, entry) == c.(entries := kept[key := entry], bytes := Sum(kept) + entry.size, order := entry.order)
  {
  }

  lemma StoreEffect(c: Cache, key: Key, entry: Entry)
    requires entry.size <= MAXIMUM_BYTES
    ensures var r := Store(c, key, entry);
      && r.adaptive == c.adaptive && key in r.entries && r.entries[key] == entry
      && forall k :: k in r.entries && k != key ==> k in c.entries && r.entries[k] == c.entries[k]
  {
  }

  lemma PutEffect(c: Cache, key: Key, p: Preview, ambiguous: bool, freshUntil: Option<int>, now: int)
    ensures var r := Put(c, key, p, ambiguous, freshUntil, now);
      && r.adaptive == c.adaptive
      && (forall k :: k in r.entries && k != key ==> k in c.entries && r.entries[k] == c.entries[k])
      && if Stores(c.adaptive, p, ambiguous, freshUntil, now)
         then key in r.entries && r.entries[key] == EntryOf(c.adaptive, p, freshUntil, now, c.order + 1)
         else key in r.entries ==> key in c.entries && r.entries[key] == c.entries[key]
  {
    PutStores(c, key, p, ambiguous, freshUntil, now);
    var r := Put(c, key, p, ambiguous, freshUntil, now);
    if r != c && r != Expire(c, now) {
      StoreEffect(Expire(c, now), key, EntryOf(c.adaptive, p, freshUntil, now, c.order + 1));
    }
  }

  lemma {:induction false} EveryRunKeepsInv(adaptive: bool, es: seq<Event>)
    requires IsRun(adaptive, es)
    ensures Inv(Run(adaptive, es)) && Run(adaptive, es).cache.adaptive == adaptive
  {
    if es != [] {
      EveryRunKeepsInv(adaptive, es[..|es| - 1]);
      StepKeepsInv(Run(adaptive, es[..|es| - 1]), es[|es| - 1]);
    }
  }

  ghost predicate HasOwner(w: World, k: Key) { exists who :: who in w.owners && w.owners[who] == k }

  ghost predicate NoOrphans(w: World) { forall k :: k in w.cache.pending ==> HasOwner(w, k) }

  lemma StepKeepsOwned(w: World, e: Event)
    requires NoOrphans(w) && Allowed(w, e)
    ensures NoOrphans(Step(w, e))
  {
    var r := Step(w, e);
    forall k | k in r.cache.pending ensures HasOwner(r, k) {
      if k in w.cache.pending {
        assert HasOwner(w, k);
        var who :| who in w.owners && w.owners[who] == k;
        assert who in r.owners && r.owners[who] == k;
      } else {
        assert e.Lookup? && e.key == k;
        assert e.who in r.owners && r.owners[e.who] == k;
      }
    }
  }

  /** No key stays pending without an import that will release it. */
  lemma {:induction false} PendingKeysAreOwned(adaptive: bool, es: seq<Event>)
    requires IsRun(adaptive, es)
    ensures NoOrphans(Run(adaptive, es))
  {
    if es != [] {
      PendingKeysAreOwned(adaptive, es[..|es| - 1]);
      StepKeepsOwned(Run(adaptive, es[..|es| - 1]), es[|es| - 1]);
    }
  }

  lemma BoundsHold(adaptive: bool, es: seq<Event>)
    requires IsRun(adaptive, es)
    ensures var c := Run(adaptive, es).cache;
      c.bytes == Sum(c.entries) <= MAXIMUM_BYTES && |c.entries| <= MAXIMUM_ENTRIES && |c.pending| <= MAXIMUM_PENDING
  {
    EveryRunKeepsInv(adaptive, es);
  }

  /** At most one import per key works on behalf of the others. */
  lemma OneOwnerPerKey(adaptive: bool, es: seq<Event>, a: Caller, b: Caller)
    requires IsRun(adaptive, es)
    requires a in Run(adaptive, es).owners && b in Run(adaptive, es).owners && a != b
    ensures Run(adaptive, es).owners[a] != Run(adaptive, es).owners[b]
  {
    EveryRunKeepsInv(adaptive, es);
  }

  /** A hit repeats the latest stored import of its key, apart from the URL and a staleness warning. */
  lemma HitRepeatsTheLatestImport(adaptive: bool, es: seq<Event>, key: Key, later: int)
    requires IsRun(adaptive, es) && Look(Run(adaptive, es).cache, key, Run(adaptive, es).clock).1.Hit?
    ensures var w := Run(adaptive, es); var served := Served(Look(w.cache, key, w.clock).1.entry, later);
      && key in w.deposits
      && var p := w.deposits[key].done.preview;
         served == p.(url := None, warnings := served.warnings) && p.warnings <= served.warnings
  {
    EveryRunKeepsInv(adaptive, es);
  }

  /** No price is served two days or more after it was observed. */
  lemma ServedPriceIsFresh(adaptive: bool, es: seq<Event>, key: Key)
    requires IsRun(adaptive, es) && Look(Run(adaptive, es).cache, key, Run(adaptive, es).clock).1.Hit?
    requires Look(Run(adaptive, es).cache, key, Run(adaptive, es).clock).1.entry.value.price.Some?
    ensures var w := Run(adaptive, es); key in w.deposits && w.clock < w.deposits[key].done.observed + FRESHNESS
  {
    EveryRunKeepsInv(adaptive, es);
    var w := Run(adaptive, es);
    assert Backed(adaptive, w.cache.entries[key], w.deposits[key], w.clock);
  }

  /** A served price found ten minutes or more after its import carries the staleness warning exactly once;
      before that it carries it only if the import itself did. */
  lemma StalenessIsToldOnce(adaptive: bool, es: seq<Event>, key: Key, later: int)
    requires IsRun(adaptive, es) && Look(Run(adaptive, es).cache, key, Run(adaptive, es).clock).1.Hit?
    requires Run(adaptive, es).clock <= later
    ensures var w := Run(adaptive, es); var served := Served(Look(w.cache, key, w.clock).1.entry, later);
      && key in w.deposits
      && (served.price == None ==> served.warnings == [PriceUnavailable])
      && (served.price.Some? ==> served.warnings == [] || served.warnings == [PriceMayBeStale])
      && (served.price.Some? && w.clock >= w.deposits[key].at + LIFETIME ==> served.warnings == [PriceMayBeStale])
      && (served.price.Some? && later < w.deposits[key].at + LIFETIME ==> served.warnings == w.deposits[key].done.preview.warnings)
  {
    EveryRunKeepsInv(adaptive, es);
    var w := Run(adaptive, es);
    assert Backed(adaptive, w.cache.entries[key], w.deposits[key], w.clock);
  }

  // ---------------------------------------------------------------- the cache object

  lemma OldestIsUnique(entries: map<Key, Entry>, order: nat, k: Key)
    requires Ordered(entries, order) && IsOldest(entries, k)
    ensures Oldest(entries) == k
  {
  }

  class PreviewStore {
    const adaptive: bool
    var entries: map<Key, Entry>
    var pending: set<Key>
    var bytes: int
    var order: nat

    ghost function Value(): Cache
      reads this
    {
      Cache(adaptive, entries, pending, bytes, order)
    }

    constructor (adaptive: bool)
      ensures Value() == Empty(adaptive).cache && Valid(Value())
    {
      this.adaptive := adaptive;
      entries, pending, bytes, order := map[], {}, 0, 0;
    }

    method Remove(key: Key)
      requires key in entries && bytes == Sum(entries)
      modifies `entries, `bytes
      ensures entries == old(entries) - {key} && bytes == Sum(entries)
    {
      SumWithout(entries, key);
      bytes := bytes - entries[key].size;
      entries := entries - {key};
    }

    method RemoveExpired(now: int)
      requires bytes == Sum(entries)
      modifies `entries, `bytes
      ensures Value() == Expire(old(Value()), now)
    {
      var left := entries.Keys;
      while left != {}
        invariant left <= entries.Keys && bytes == Sum(entries)
        invariant forall k :: k in entries ==> k in old(entries) && entries[k] == old(entries[k])
        invariant forall k :: k in old(entries) && k !in entries ==> old(entries[k]).expires <= now
        invariant forall k :: k in entries && k !in left ==> now < entries[k].expires
        decreases |left|
      {
        var key :| key in left;
        left := left - {key};
        if now >= entries[key].expires {
          Remove(key);
        }
      }
      assert entries == Live(old(entries), now);
    }

    // One pass of the lookup loop, and what a hit hands out when it checks staleness at `later`.
    method Acquire(key: Key, now: int, later: int) returns (found: Found, served: Option<Preview>)
      requires Valid(Value())
      modifies `entries, `bytes, `order, `pending
      ensures Valid(Value()) && (Value(), found) == Look(old(Value()), key, now)
      ensures served == if found.Hit? then Some(Served(found.entry, later)) else None
    {
      LookKeepsValid(Value(), key, now);
      RemoveExpired(now);
      found := Touch(key);
      served := None;
      if found.Hit? {
        var result := found.entry.value;
        if found.entry.staleAt.Some? && later >= found.entry.staleAt.value && result.price.Some? {
          result := result.(warnings := result.warnings + [PriceMayBeStale]);
        }
        served := Some(result);
      }
    }

    method Touch(key: Key) returns (found: Found)
      modifies `entries, `order, `pending
      ensures (Value(), found) == Find(old(Value()), key)
    {
      if key in entries {
        order := order + 1;
        var entry := entries[key].(order := order);
        entries := entries[key := entry];
        return Hit(entry);
      }
      if key in pending {
        return Busy;
      }
      if |pending| >= MAXIMUM_PENDING {
        return Unshared;
      }
      pending := pending + {key};
      return Owner;
    }

    method Release(key: Key)
      requires Valid(Value())
      modifies `pending
      ensures Valid(Value()) && pending == old(pending) - {key}
    {
      pending := pending - {key};
      assert old(pending) == pending || old(pending) == pending + {key};
    }

    method Deposit(key: Key, preview: Preview, ambiguous: bool, freshUntil: Option<int>, now: int)
      requires Valid(Value())
      modifies `entries, `bytes, `order
      ensures Valid(Value()) && Value() == Put(old(Value()), key, preview, ambiguous, freshUntil, now)
    {
      PutKeepsValid(Value(), key, preview, ambiguous, freshUntil, now);
      if Storable(adaptive, preview, ambiguous) {
        DepositUnexpired(key, preview, ambiguous, freshUntil, now);
      }
    }

    method DepositUnexpired(key: Key, preview: Preview, ambiguous: bool, freshUntil: Option<int>, now: int)
      requires Valid(Value()) && Storable(adaptive, preview, ambiguous)
      modifies `entries, `bytes, `order
      ensures Value() == Put(old(Value()), key, preview, ambiguous, freshUntil, now)
    {
      ghost var before := Value();
      ExpireKeepsValid(before, now);
      RemoveExpired(now);
      var entry := NewEntry(preview, freshUntil, now);
      PutOfEntry(before, key, preview, ambiguous, freshUntil, now, entry);
      if entry.expires > now {
        Insert(key, entry);
      }
    }

    method NewEntry(preview: Preview, freshUntil: Option<int>, now: int) returns (entry: Entry)
      requires preview.name.Some? && preview.image.Some?
      ensures entry == EntryOf(adaptive, preview, freshUntil, now, order + 1)
    {
      var expires := now + LIFETIME;
      if adaptive && freshUntil.Some? {
        expires := if freshUntil.value < now + (FRESHNESS - SAFETY) then freshUntil.value else now + (FRESHNESS - SAFETY);
      }
      var staleAt := None;
      if adaptive && preview.price.Some? && preview.warnings == [] && expires > now + LIFETIME {
        staleAt := Some(now + LIFETIME);
      }
      entry := Entry(preview.(url := None), expires, staleAt, order + 1, SizeOf(adaptive, preview));
    }

    method Insert(key: Key, entry: Entry)
      requires Valid(Value()) && entry.size <= MAXIMUM_BYTES && entry.order == order + 1
      modifies `entries, `bytes, `order
      ensures Value() == Store(old(Value()), key, entry)
    {
      ghost var before := Value();
      Clear(key, entry.size);
      StoreIs(before, key, entry, entries);
      Append(key, entry);
    }

    method Clear(key: Key, size: nat)
      requires bytes == Sum(entries) && Ordered(entries, order) && size <= MAXIMUM_BYTES
      modifies `entries, `bytes
      ensures entries == Fit(old(entries) - {key}, size) && bytes == Sum(entries)
    {
      Replace(key);
      MakeRoom(size);
    }

    method Append(key: Key, entry: Entry)
      modifies `entries, `bytes, `order
      ensures entries == old(entries)[key := entry] && bytes == old(bytes) + entry.size && order == old(order) + 1
    {
      order := order + 1;
      entries := entries[key := entry];
      bytes := bytes + entry.size;
    }

    method Replace(key: Key)
      requires bytes == Sum(entries) && Ordered(entries, order)
      modifies `entries, `bytes
      ensures entries == old(entries) - {key} && bytes == Sum(entries) && Ordered(entries, order)
    {
      if key in entries {
        Remove(key);
      } else {
        assert entries - {key} == entries;
      }
    }

    method MakeRoom(size: nat)
      requires bytes == Sum(entries) && Ordered(entries, order) && size <= MAXIMUM_BYTES
      modifies `entries, `bytes
      ensures entries == Fit(old(entries), size) && bytes == Sum(entries)
    {
      while |entries| >= MAXIMUM_ENTRIES || bytes + size > MAXIMUM_BYTES
        invariant bytes == Sum(entries) && Ordered(entries, order)
        invariant Fit(entries, size) == Fit(old(entries), size)
        decreases |entries|
      {
        EvictOldest();
      }
    }

    method EvictOldest()
      requires entries != map[] && bytes == Sum(entries) && Ordered(entries, order)
      modifies `entries, `bytes
      ensures entries == old(entries) - {Oldest(old(entries))}
      ensures bytes == Sum(entries) && Ordered(entries, order) && |entries| < |old(entries)|
    {
      var oldest := FindOldest();
      OldestIsUnique(entries, order, oldest);
      Remove(oldest);
      assert old(entries).Keys == entries.Keys + {oldest};
    }

    method FindOldest() returns (oldest: Key)
      requires entries != map[]
      ensures IsOldest(entries, oldest)
    {
      oldest :| oldest in entries;
      var left := entries.Keys - {oldest};
      while left != {}
        invariant left <= entries.Keys && oldest in entries && oldest !in left
        invariant forall k :: k in entries && k !in left ==> entries[oldest].order <= entries[k].order
        decreases |left|
      {
        var candidate :| candidate in left;
        left := left - {candidate};
        if entries[candidate].order < entries[oldest].order {
          oldest := candidate;
        }
      }
    }
  }
}
