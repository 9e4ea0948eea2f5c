/** The box walk that bounds an AVIF file before its pixels are decoded (section 4.2 of
    ISO/IEC 14496-12 for the box layout). */
module AvifBoxes {
  import opened Common

  const MAXIMUM_PIXELS := 16_000_000
  const MAXIMUM_BOXES := 512
  const MAXIMUM_DEPTH := 8
  const MAXIMUM_ITEMS := 128
  const TWO_TO_THE_64 := 0x1_0000_0000_0000_0000

  newtype uint64 = x: int | 0 <= x < TWO_TO_THE_64

  datatype Verdict = Accepted | Invalid | Unsupported

  // ---------------------------------------------------------------- box headers

  const FTYP: seq<byte> := [0x66, 0x74, 0x79, 0x70]
  const MOOV: seq<byte> := [0x6D, 0x6F, 0x6F, 0x76]
  const META: seq<byte> := [0x6D, 0x65, 0x74, 0x61]
  const IPRP: seq<byte> := [0x69, 0x70, 0x72, 0x70]
  const IPCO: seq<byte> := [0x69, 0x70, 0x63, 0x6F]
  const IINF: seq<byte> := [0x69, 0x69, 0x6E, 0x66]
  const INFE: seq<byte> := [0x69, 0x6E, 0x66, 0x65]
  const ISPE: seq<byte> := [0x69, 0x73, 0x70, 0x65]
  const AVIS: seq<byte> := [0x61, 0x76, 0x69, 0x73]
  const MSF1: seq<byte> := [0x6D, 0x73, 0x66, 0x31]

  function Half(b: seq<byte>, i: nat): (n: nat)
    requires i + 2 <= |b|
    ensures n < 0x1_0000
  {
    var high: nat, low: nat := b[i], b[i + 1];
    high * 0x100 + low
  }

  function Word(b: seq<byte>, i: nat): (n: nat)
    requires i + 4 <= |b|
    ensures n < TWO_TO_THE_32
  {
    Half(b, i) * 0x1_0000 + Half(b, i + 2)
  }

  function Long(b: seq<byte>, i: nat): (n: nat)
    requires i + 8 <= |b|
    ensures n < TWO_TO_THE_64
  {
    Word(b, i) * TWO_TO_THE_32 + Word(b, i + 4)
  }

  datatype Header = Header(kind: seq<byte>, start: nat, size: nat)

  /** The first box: a size of one is followed by a 64-bit size, a size of zero runs to the end. */
  function FirstBox(data: seq<byte>): (r: Option<Header>)
    ensures r.Some? ==> 8 <= r.value.start <= r.value.size <= |data|
  {
    if |data| < 8 then None
    else
      var size := Word(data, 0);
      if size == 1 then
        if |data| < 16 || Long(data, 8) < 16 || Long(data, 8) > |data| then None
        else Some(Header(data[4..8], 16, Long(data, 8)))
      else
        var all := if size == 0 then |data| else size;
        if all < 8 || all > |data| then None else Some(Header(data[4..8], 8, all))
  }

  // ---------------------------------------------------------------- what a file declares

  /** Boxes, nesting below this level, items, and the largest declared area. */
  datatype Tally = Tally(boxes: nat, levels: nat, items: nat, area: nat)

  function Plus(a: Tally, b: Tally): Tally {
    Tally(a.boxes + b.boxes, Max(a.levels, b.levels), a.items + b.items, Max(a.area, b.area))
  }

  function Sum(a: Option<Tally>, b: Option<Tally>): Option<Tally> {
    if a.Some? && b.Some? then Some(Plus(a.value, b.value)) else None
  }

  /** A container's box counts once and its contents lie one level deeper. */
  function Nested(inner: Option<Tally>): Option<Tally> {
    if inner.Some? then Some(inner.value.(boxes := inner.value.boxes + 1, levels := inner.value.levels + 1)) else None
  }

  predicate Brand(payload: seq<byte>, i: nat, name: seq<byte>)
    requires i + 4 <= |payload|
  {
    payload[i..i + 4] == name
  }

  /** No sequence brand, apart from the version word. */
  predicate StillBrands(payload: seq<byte>)
    requires |payload| % 4 == 0
  {
    forall k :: 0 <= k < |payload| / 4 && k != 1 ==> !Brand(payload, 4 * k, AVIS) && !Brand(payload, 4 * k, MSF1)
  }

  function IinfStart(payload: seq<byte>): Option<nat> {
    if |payload| < 6 || (payload[0] != 0 && |payload| < 8) then None else Some(if payload[0] != 0 then 8 else 6)
  }

  function IinfCount(payload: seq<byte>): nat
    requires IinfStart(payload).Some?
  {
    if payload[0] != 0 then Word(payload, 4) else Half(payload, 4)
  }

  function Area(payload: seq<byte>): nat
    requires |payload| == 12
  {
    Rectangle(Word(payload, 4), Word(payload, 8))
  }

  function Rectangle(width: nat, height: nat): nat { width * height }

  /** What a run of boxes declares, whatever the limits; None when it is malformed or a sequence. */
  function Declared(data: seq<byte>): Option<Tally>
    decreases |data|, 0
  {
    if data == [] then Some(Nothing)
    else
      match FirstBox(data)
      case None => None
      case Some(h) => Sum(DeclaredBy(h.kind, data[h.start..h.size]), Declared(data[h.size..]))
  }

  function DeclaredBy(kind: seq<byte>, payload: seq<byte>): Option<Tally>
    decreases |payload|, 1
  {
    var one := Some(Tally(1, 0, 0, 0));
    if kind == FTYP then if |payload| >= 8 && |payload| % 4 == 0 && StillBrands(payload) then one else None
    else if kind == MOOV then None
    else if kind == META then if |payload| < 4 then None else Nested(Declared(payload[4..]))
    else if kind == IPRP || kind == IPCO then Nested(Declared(payload))
    else if kind == IINF then
      match IinfStart(payload)
      case None => None
      case Some(start) =>
        var inner := Declared(payload[start..]);
        if IinfCount(payload) <= MAXIMUM_ITEMS && inner.Some? && inner.value.items == IinfCount(payload) then Nested(inner) else None
    else if kind == INFE then Some(Tally(1, 0, 1, 0))
    else if kind == ISPE then if |payload| == 12 && Area(payload) > 0 then Some(Tally(1, 0, 0, Area(payload))) else None
    else one
  }

  function DeclaredByFirst(data: seq<byte>): Option<Tally> {
    match FirstBox(data)
    case None => None
    case Some(h) => DeclaredBy(h.kind, data[h.start..h.size])
  }

  predicate Acceptable(data: seq<byte>) { WithinLimits(Declared(data)) }

  predicate WithinLimits(declared: Option<Tally>) {
    match declared
    case None => false
    case Some(t) => t.boxes <= MAXIMUM_BOXES && t.levels <= MAXIMUM_DEPTH && 1 <= t.items <= MAXIMUM_ITEMS
                    && t.area > 0 && t.area * t.items <= MAXIMUM_PIXELS
  }

  // ---------------------------------------------------------------- areas of items

  /** Every extent declared anywhere in the file. */
  function Extents(data: seq<byte>): seq<nat>
    decreases |data|, 0
  {
    match FirstBox(data)
    case None => []
    case Some(h) => ExtentsBy(h.kind, data[h.start..h.size]) + Extents(data[h.size..])
  }

  function ExtentsBy(kind: seq<byte>, payload: seq<byte>): seq<nat>
    decreases |payload|, 1
  {
    if kind == META && |payload| >= 4 then Extents(payload[4..])
    else if kind == IPRP || kind == IPCO then Extents(payload)
    else if kind == IINF && IinfStart(payload).Some? then Extents(payload[IinfStart(payload).value..])
    else if kind == ISPE && |payload| == 12 then [Area(payload)]
    else []
  }

  lemma {:induction false} AreaBoundsExtents(data: seq<byte>)
    requires Declared(data).Some?
    ensures forall a :: a in Extents(data) ==> a <= Declared(data).value.area
    decreases |data|, 0
  {
    if data != [] {
      var h := FirstBox(data).value;
      AreaBoundsBox(h.kind, data[h.start..h.size]);
      AreaBoundsExtents(data[h.size..]);
    }
  }

  lemma {:induction false} AreaBoundsBox(kind: seq<byte>, payload: seq<byte>)
    requires DeclaredBy(kind, payload).Some?
    ensures forall a :: a in ExtentsBy(kind, payload) ==> a <= DeclaredBy(kind, payload).value.area
    decreases |payload|, 1
  {
    if kind == META {
      AreaBoundsExtents(payload[4..]);
    } else if kind == IPRP || kind == IPCO {
      AreaBoundsExtents(payload);
    } else if kind == IINF {
      AreaBoundsExtents(payload[IinfStart(payload).value..]);
    }
  }

  function Total(areas: seq<nat>): nat { if areas == [] then 0 else areas[0] + Total(areas[1..]) }

  lemma {:induction false} TotalIsBounded(areas: seq<nat>, most: nat)
    requires forall a :: a in areas ==> a <= most
    ensures Total(areas) <= most * |areas|
  {
    if areas == [] {
      assert most * |areas| == 0;
    } else {
      assert forall a :: a in areas[1..] ==> a in areas;
      assert areas[0] in areas;
      TotalIsBounded(areas[1..], most);
      assert most * |areas| == most + most * |areas[1..]|;
    }
  }

  /** Whatever declared extent each item turns out to have, an accepted file stays within the pixel budget. */
  lemma AnyAssignmentFits(data: seq<byte>, areas: seq<nat>)
    requires Acceptable(data) && |areas| == Declared(data).value.items
    requires forall a :: a in areas ==> a in Extents(data)
    ensures Total(areas) <= MAXIMUM_PIXELS
  {
    var t := Declared(data).value;
    AreaBoundsExtents(data);
    TotalIsBounded(areas, t.area);
  }

  // ---------------------------------------------------------------- the walker

  /** What further boxes may declare before a limit is passed. */
  ghost predicate Room(before: Tally, declared: Option<Tally>, depth: nat) {
    && declared.Some? && before.boxes + declared.value.boxes <= MAXIMUM_BOXES && depth + declared.value.levels <= MAXIMUM_DEPTH
    && before.items + declared.value.items <= MAXIMUM_ITEMS && declared.value.area <= MAXIMUM_PIXELS
  }

  /** What has been declared so far is counted and within the limits. */
  ghost predicate Progress(before: Tally, now: Tally, done: Tally, depth: nat) {
    && now == Plus(before, done).(levels := 0)
    && before.boxes + done.boxes <= MAXIMUM_BOXES && depth + done.levels <= MAXIMUM_DEPTH
    && before.items + done.items <= MAXIMUM_ITEMS && done.area <= MAXIMUM_PIXELS
  }

  function AfterFirst(data: seq<byte>): Option<Tally> {
    match FirstBox(data)
    case None => None
    case Some(h) => Declared(data[h.size..])
  }

  lemma FirstAndRest(data: seq<byte>)
    requires data != []
    ensures Declared(data) == Sum(DeclaredByFirst(data), AfterFirst(data))
  {
  }

  const Nothing := Tally(0, 0, 0, 0)

  lemma Begins(before: Tally, declared: Option<Tally>, depth: nat)
    requires before.levels == 0 && before.boxes <= MAXIMUM_BOXES && before.items <= MAXIMUM_ITEMS && depth <= MAXIMUM_DEPTH
    ensures Progress(before, before, Nothing, depth) && declared == Sum(Some(Nothing), declared)
  {
  }

  lemma Ends(before: Tally, now: Tally, done: Tally, depth: nat)
    requires Progress(before, now, done, depth)
    ensures Sum(Some(done), Declared([])) == Some(done) && Room(before, Some(done), depth)
  {
  }

  lemma NothingIsFree(data: seq<byte>)
    ensures DeclaredByFirst(data).Some? ==> DeclaredByFirst(data).value.boxes >= 1
  {
  }

  lemma OneMore(before: Tally, now: Tally, done: Tally, one: Tally, later: Tally, rest: Option<Tally>, depth: nat)
    requires Progress(before, now, done, depth) && Room(now, Some(one), depth) && later == Plus(now, one).(levels := 0)
    ensures Progress(before, later, Plus(done, one), depth)
    ensures Sum(Some(Plus(done, one)), rest) == Sum(Some(done), Sum(Some(one), rest))
  {
  }

  lemma NoRoomForOne(before: Tally, now: Tally, done: Tally, first: Option<Tally>, rest: Option<Tally>, depth: nat)
    requires Progress(before, now, done, depth) && !Room(now, first, depth)
    ensures !Room(before, Sum(Some(done), Sum(first, rest)), depth)
  {
  }

  class Walker {
    var boxes: nat
    var items: uint64
    var largestArea: uint64

    constructor ()
      ensures boxes == 0 && items == 0 && largestArea == 0
    {
      boxes, items, largestArea := 0, 0, 0;
    }

    function Seen(): Tally
      reads this
    {
      Tally(boxes, 0, items as nat, largestArea as nat)
    }

    ghost predicate Within()
      reads this
    {
      boxes <= MAXIMUM_BOXES && items as int <= MAXIMUM_ITEMS && largestArea as int <= MAXIMUM_PIXELS
    }

    method Walk(data: seq<byte>, depth: nat) returns (r: Verdict)
      requires Within()
      modifies this
      ensures r == Accepted <==> Room(old(Seen()), Declared(data), depth)
      ensures r == Accepted ==> Within() && Seen() == Plus(old(Seen()), Declared(data).value).(levels := 0)
      decreases |data|, 1
    {
      if depth > MAXIMUM_DEPTH {
        return Invalid;
      }
      var rest := data;
      ghost var done := Nothing;
      Begins(Seen(), Declared(data), depth);
      while rest != []
        invariant |rest| <= |data| && Within()
        invariant Progress(old(Seen()), Seen(), done, depth)
        invariant Declared(data) == Sum(Some(done), Declared(rest))
        decreases |rest|
      {
        ghost var now, one := Seen(), DeclaredByFirst(rest);
        FirstAndRest(rest);
        ghost var after := AfterFirst(rest);
        r, rest := WalkOne(rest, depth);
        if r != Accepted {
          NoRoomForOne(old(Seen()), now, done, one, after, depth);
          return;
        }
        OneMore(old(Seen()), now, done, one.value, Seen(), after, depth);
        done := Plus(done, one.value);
      }
      Ends(old(Seen()), Seen(), done, depth);
      r := Accepted;
    }

    method WalkOne(data: seq<byte>, depth: nat) returns (r: Verdict, rest: seq<byte>)
      requires Within() && data != [] && depth <= MAXIMUM_DEPTH
      modifies this
      ensures r == Accepted <==> Room(old(Seen()), DeclaredByFirst(data), depth)
      ensures r == Accepted ==> Within() && Seen() == Plus(old(Seen()), DeclaredByFirst(data).value).(levels := 0)
      ensures r == Accepted ==> |rest| < |data| && Declared(rest) == AfterFirst(data)
      decreases |data|, 0
    {
      rest := data;
      boxes := boxes + 1;
      if boxes > MAXIMUM_BOXES {
        NothingIsFree(data);
        return Invalid, rest;
      }
      var first := FirstBox(data);
      if first == None {
        return Invalid, rest;
      }
      var h := first.value;
      r := Enter(h.kind, data[h.start..h.size], depth);
      rest := data[h.size..];
    }

    // One box, already counted.
    method Enter(kind: seq<byte>, payload: seq<byte>, depth: nat) returns (r: Verdict)
      requires Within() && boxes >= 1 && depth <= MAXIMUM_DEPTH
      modifies this
      ensures r == Accepted <==> Room(old(Seen()).(boxes := old(boxes) - 1), DeclaredBy(kind, payload), depth)
      ensures r == Accepted ==> Within() && Seen() == Plus(old(Seen()).(boxes := old(boxes) - 1), DeclaredBy(kind, payload).value).(levels := 0)
      decreases |payload|, 3
    {
      if kind == FTYP {
        r := CheckBrands(payload);
      } else if kind == MOOV {
        r := Unsupported;
      } else if kind == META {
        if |payload| < 4 {
          return Invalid;
        }
        r := Walk(payload[4..], depth + 1);
      } else if kind == IPRP || kind == IPCO {
        r := Walk(payload, depth + 1);
      } else if kind == IINF {
        r := ItemInfo(payload, depth);
      } else if kind == INFE {
        items := items + 1;
        r := if items as int > MAXIMUM_ITEMS then Invalid else Accepted;
      } else if kind == ISPE {
        r := Extent(payload);
      } else {
        r := Accepted;
      }
    }

    method CheckBrands(payload: seq<byte>) returns (r: Verdict)
      ensures r == Accepted <==> |payload| >= 8 && |payload| % 4 == 0 && StillBrands(payload)
    {
      if |payload| < 8 || |payload| % 4 != 0 {
        return Invalid;
      }
      var k := 0;
      while k < |payload| / 4
        invariant 0 <= k <= |payload| / 4
        invariant forall j :: 0 <= j < k && j != 1 ==> !Brand(payload, 4 * j, AVIS) && !Brand(payload, 4 * j, MSF1)
      {
        if k != 1 && (Brand(payload, 4 * k, AVIS) || Brand(payload, 4 * k, MSF1)) {
          return Unsupported;
        }
        k := k + 1;
      }
      r := Accepted;
    }

    method ItemInfo(payload: seq<byte>, depth: nat) returns (r: Verdict)
      requires Within() && boxes >= 1 && depth <= MAXIMUM_DEPTH
      modifies this
      ensures r == Accepted <==> Room(old(Seen()).(boxes := old(boxes) - 1), DeclaredBy(IINF, payload), depth)
      ensures r == Accepted ==> Within() && Seen() == Plus(old(Seen()).(boxes := old(boxes) - 1), DeclaredBy(IINF, payload).value).(levels := 0)
      decreases |payload|, 2
    {
      var start := IinfStart(payload);
      if start == None || IinfCount(payload) > MAXIMUM_ITEMS {
        return Invalid;
      }
      var before := items;
      r := Walk(payload[start.value..], depth + 1);
      if r == Accepted && (items - before) as int != IinfCount(payload) {
        r := Invalid;
      }
    }

    method Extent(payload: seq<byte>) returns (r: Verdict)
      requires Within()
      modifies `largestArea
      ensures r == Accepted <==> |payload| == 12 && 0 < Area(payload) <= MAXIMUM_PIXELS
      ensures r == Accepted ==> Within() && largestArea as nat == Max(old(largestArea) as nat, Area(payload))
    {
      if |payload| != 12 {
        return Invalid;
      }
      var w, h := Word(payload, 4) as uint64, Word(payload, 8) as uint64;
      var area := Multiply(w, h);
      ZeroProduct(w as nat, h as nat);
      if largestArea < area {
        largestArea := area;
      }
      r := if w == 0 || h == 0 || largestArea as int > MAXIMUM_PIXELS then Invalid else Accepted;
    }
  }

  lemma Monotonic(a: nat, b: nat, c: nat)
    requires b <= c
    ensures a * b <= a * c
  {
  }

  lemma ZeroProduct(w: nat, h: nat)
    ensures w * h == 0 <==> w == 0 || h == 0
  {
  }

  /** No 64-bit product of two 32-bit numbers overflows. */
  lemma ProductFits(w: nat, h: nat)
    requires w < TWO_TO_THE_32 && h < TWO_TO_THE_32
    ensures w * h < TWO_TO_THE_64
  {
    Monotonic(w, h, TWO_TO_THE_32);
    assert w * TWO_TO_THE_32 < TWO_TO_THE_64;
  }

  method Multiply(w: uint64, h: uint64) returns (area: uint64)
    requires w as int < TWO_TO_THE_32 && h as int < TWO_TO_THE_32
    ensures area as nat == (w as nat) * (h as nat)
  {
    ProductFits(w as nat, h as nat);
    area := w * h;
  }

  /** The file is accepted exactly when everything it declares is within the limits. */
  method ValidateAvif(data: seq<byte>) returns (r: Verdict)
    ensures r == Accepted <==> Acceptable(data)
  {
    var area, items;
    r, area, items := WalkFile(data);
    ghost var declared := Declared(data);
    AcceptableMeansRoom(declared);
    if r == Accepted {
      var fits := TotalFits(area, items);
      r := if fits then Accepted else Invalid;
    }
  }

  method WalkFile(data: seq<byte>) returns (r: Verdict, area: uint64, items: uint64)
    ensures r == Accepted <==> Room(Nothing, Declared(data), 0)
    ensures r == Accepted ==> area as int <= MAXIMUM_PIXELS && items as int <= MAXIMUM_ITEMS
    ensures r == Accepted ==> area as nat == Declared(data).value.area && items as nat == Declared(data).value.items
  {
    var walker := new Walker();
    assert walker.Seen() == Nothing;
    r := walker.Walk(data, 0);
    area, items := walker.largestArea, walker.items;
  }

  lemma AcceptableMeansRoom(declared: Option<Tally>)
    ensures WithinLimits(declared) <==>
            Room(Nothing, declared, 0) && declared.value.items > 0 && declared.value.area > 0
            && declared.value.area * declared.value.items <= MAXIMUM_PIXELS
  {
    if WithinLimits(declared) {
      Monotonic(declared.value.area, 1, declared.value.items);
    }
  }

  method TotalFits(area: uint64, items: uint64) returns (fits: bool)
    requires area as int <= MAXIMUM_PIXELS && items as int <= MAXIMUM_ITEMS
    ensures fits <==> items > 0 && area > 0 && (area as nat) * (items as nat) <= MAXIMUM_PIXELS
  {
    ItemAreaFits(area as nat, items as nat);
    fits := items != 0 && area != 0 && (area * items) as int <= MAXIMUM_PIXELS;
  }

  lemma ItemAreaFits(area: nat, items: nat)
    requires area <= MAXIMUM_PIXELS && items <= MAXIMUM_ITEMS
    ensures area * items <= MAXIMUM_PIXELS * MAXIMUM_ITEMS < TWO_TO_THE_64
  {
    Monotonic(area, items, MAXIMUM_ITEMS);
  }
}
