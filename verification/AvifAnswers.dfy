/** Which files the box walk accepts, told from the tree of boxes a file is printed from. */
module AvifAnswers {
  import opened Common
  import opened AvifBoxes

  // ---------------------------------------------------------------- trees and their bytes

  type Four = s: seq<byte> | |s| == 4 witness [0, 0, 0, 0]

  /** The two ways a size is written: in 32 or in 64 bits. */
  datatype Form = Short | Long

  datatype Box = Box(form: Form, content: Content)

  datatype Content =
    | FileType(brands: seq<Four>)
    | Movie(payload: seq<byte>)
    | Meta(flags: Four, boxes: seq<Box>)
    | Properties(container: bool, boxes: seq<Box>)
    | ItemList(flags: Four, count: nat, boxes: seq<Box>)
    | ItemEntry(payload: seq<byte>)
    | Extent(flags: Four, width: nat, height: nat)
    | Plain(kind: Four, payload: seq<byte>)
    | Damaged(kind: Four, payload: seq<byte>)

  function Kind(c: Content): Four {
    match c
    case FileType(_) => FTYP
    case Movie(_) => MOOV
    case Meta(_, _) => META
    case Properties(container, _) => if container then IPCO else IPRP
    case ItemList(_, _, _) => IINF
    case ItemEntry(_) => INFE
    case Extent(_, _, _) => ISPE
    case Plain(kind, _) => kind
    case Damaged(kind, _) => kind
  }

  function Big2(n: nat): (r: seq<byte>)
    requires n < 0x1_0000
    ensures |r| == 2 && Half(r, 0) == n
  {
    [(n / 0x100) as byte, (n % 0x100) as byte]
  }

  function Big4(n: nat): (r: Four)
    requires n < TWO_TO_THE_32
    ensures Word(r, 0) == n
  {
    Big2(n / 0x1_0000) + Big2(n % 0x1_0000)
  }

  function Big8(n: nat): (r: seq<byte>)
    requires n < TWO_TO_THE_64
    ensures |r| == 8 && AvifBoxes.Long(r, 0) == n
  {
    Big4(n / TWO_TO_THE_32) + Big4(n % TWO_TO_THE_32)
  }

  function Flat(brands: seq<Four>): (r: seq<byte>)
    ensures |r| == 4 * |brands|
  {
    if brands == [] then [] else brands[0] + Flat(brands[1..])
  }

  function Wide(flags: Four): bool { flags[0] != 0 }

  /** The numbers fit their fields, plain boxes are of no kind the walk knows, and damaged ones are. */
  predicate Printable(list: seq<Box>)
    decreases list, 0
  {
    list == [] || (PrintableBox(list[0]) && Printable(list[1..]))
  }

  predicate PrintableBox(b: Box)
    decreases b, 0
  {
    && PrintableContent(b.content)
    && if b.form.Short? then 8 + |Payload(b.content)| < TWO_TO_THE_32 else 16 + |Payload(b.content)| < TWO_TO_THE_64
  }

  predicate PrintableContent(c: Content)
    decreases c, 0
  {
    match c
    case Meta(_, boxes) => Printable(boxes)
    case Properties(_, boxes) => Printable(boxes)
    case ItemList(flags, count, boxes) => Printable(boxes) && count < if Wide(flags) then TWO_TO_THE_32 else 0x1_0000
    case Extent(_, width, height) => width < TWO_TO_THE_32 && height < TWO_TO_THE_32
    case Plain(kind, _) => kind !in {FTYP, MOOV, META, IPRP, IPCO, IINF, INFE, ISPE}
    case Damaged(kind, payload) => Misshapen(kind, payload)
    case _ => true
  }

  /** A known kind with a payload of the wrong length. */
  predicate Misshapen(kind: Four, payload: seq<byte>) {
    || (kind == FTYP && (|payload| < 8 || |payload| % 4 != 0)) || (kind == META && |payload| < 4)
    || (kind == IINF && (|payload| < 6 || (payload[0] != 0 && |payload| < 8))) || (kind == ISPE && |payload| != 12)
  }

  function Payload(c: Content): seq<byte>
    requires PrintableContent(c)
    decreases c, 1
  {
    match c
    case FileType(brands) => Flat(brands)
    case Movie(payload) => payload
    case Meta(flags, boxes) => flags + Text(boxes)
    case Properties(_, boxes) => Text(boxes)
    case ItemList(flags, count, boxes) => flags + (if Wide(flags) then Big4(count) else Big2(count)) + Text(boxes)
    case ItemEntry(payload) => payload
    case Extent(flags, width, height) => flags + Big4(width) + Big4(height)
    case Plain(_, payload) => payload
    case Damaged(_, payload) => payload
  }

  function Printed(b: Box): seq<byte>
    requires PrintableBox(b)
    decreases b, 1
  {
    var payload := Payload(b.content);
    if b.form.Short? then Big4(8 + |payload|) + Kind(b.content) + payload
    else Big4(1) + Kind(b.content) + Big8(16 + |payload|) + payload
  }

  function Text(list: seq<Box>): seq<byte>
    requires Printable(list)
    decreases list, 1
  {
    if list == [] then [] else Printed(list[0]) + Text(list[1..])
  }

  // ---------------------------------------------------------------- what a tree holds

  /** Every box of the tree. */
  function All(list: seq<Box>): seq<Box>
    decreases list, 0
  {
    if list == [] then [] else AllIn(list[0]) + All(list[1..])
  }

  function AllIn(b: Box): seq<Box>
    decreases b, 1
  {
    [b] + AllBelow(b.content)
  }

  function AllBelow(c: Content): seq<Box>
    decreases c, 1
  {
    match c
    case Meta(_, boxes) => All(boxes)
    case Properties(_, boxes) => All(boxes)
    case ItemList(_, _, boxes) => All(boxes)
    case _ => []
  }

  function Items(all: seq<Box>): nat {
    if all == [] then 0 else (if all[0].content.ItemEntry? then 1 else 0) + Items(all[1..])
  }

  function Largest(all: seq<Box>): nat {
    if all == [] then 0
    else Max(if all[0].content.Extent? then Rectangle(all[0].content.width, all[0].content.height) else 0, Largest(all[1..]))
  }

  function Levels(list: seq<Box>): nat
    decreases list, 0
  {
    if list == [] then 0 else Max(LevelsIn(list[0]), Levels(list[1..]))
  }

  function LevelsIn(b: Box): nat
    decreases b, 1
  {
    match b.content
    case Meta(_, boxes) => 1 + Levels(boxes)
    case Properties(_, boxes) => 1 + Levels(boxes)
    case ItemList(_, _, boxes) => 1 + Levels(boxes)
    case _ => 0
  }

  /** Brands of a still picture, no movie, nothing damaged, as many items as announced, and no empty picture. */
  predicate Fine(b: Box) {
    match b.content
    case FileType(brands) => |brands| >= 2 && forall k :: 0 <= k < |brands| && k != 1 ==> brands[k] != AVIS && brands[k] != MSF1
    case Movie(_) => false
    case Damaged(_, _) => false
    case ItemList(_, count, boxes) => count <= 128 && Items(All(boxes)) == count
    case Extent(_, width, height) => width > 0 && height > 0
    case _ => true
  }

  predicate AllFine(all: seq<Box>) { forall b :: b in all ==> Fine(b) }

  function Held(all: seq<Box>, levels: nat): Option<Tally> {
    if AllFine(all) then Some(Tally(|all|, levels, Items(all), Largest(all))) else None
  }

  lemma {:induction false} ItemsAdd(a: seq<Box>, b: seq<Box>)
    ensures Items(a + b) == Items(a) + Items(b) && Largest(a + b) == Max(Largest(a), Largest(b))
  {
    if a == [] {
      assert a + b == b;
    } else {
      ItemsAdd(a[1..], b);
      assert (a + b)[1..] == a[1..] + b;
    }
  }

  lemma HeldAdds(a: seq<Box>, m: nat, b: seq<Box>, n: nat)
    ensures Held(a + b, Max(m, n)) == Sum(Held(a, m), Held(b, n))
  {
    ItemsAdd(a, b);
    assert AllFine(a + b) <==> AllFine(a) && AllFine(b) by {
      assert forall x :: x in a + b <==> x in a || x in b;
    }
  }

  // ---------------------------------------------------------------- reading back

  lemma HeaderReadsBack(b: Box, rest: seq<byte>)
    requires PrintableBox(b)
    ensures var data := Printed(b) + rest; var h := FirstBox(data);
      && h.Some? && h.value.kind == Kind(b.content) && h.value.size == |Printed(b)|
      && data[h.value.start..h.value.size] == Payload(b.content) && data[h.value.size..] == rest
  {
    if b.form.Short? {
      ShortReadsBack(Kind(b.content), Payload(b.content), rest);
    } else {
      LongReadsBack(Kind(b.content), Payload(b.content), rest);
    }
  }

  lemma ShortReadsBack(kind: Four, payload: seq<byte>, rest: seq<byte>)
    requires 8 + |payload| < TWO_TO_THE_32
    ensures var data := Big4(8 + |payload|) + kind + payload + rest; var n := 8 + |payload|;
      FirstBox(data) == Some(Header(kind, 8, n)) && data[8..n] == payload && data[n..] == rest
  {
    var data := Big4(8 + |payload|) + kind + payload + rest;
    assert data[0..4] == Big4(8 + |payload|) && data[4..8] == kind;
    WordAt(data, 0, 8 + |payload|);
  }

  lemma LongReadsBack(kind: Four, payload: seq<byte>, rest: seq<byte>)
    requires 16 + |payload| < TWO_TO_THE_64
    ensures var data := Big4(1) + kind + Big8(16 + |payload|) + payload + rest; var n := 16 + |payload|;
      FirstBox(data) == Some(Header(kind, 16, n)) && data[16..n] == payload && data[n..] == rest
  {
    var data := Big4(1) + kind + Big8(16 + |payload|) + payload + rest;
    assert data[0..4] == Big4(1) && data[4..8] == kind && data[8..16] == Big8(16 + |payload|);
    WordAt(data, 0, 1);
    LongAt(data, 8, 16 + |payload|);
  }

  lemma WordAt(data: seq<byte>, i: nat, n: nat)
    requires i + 4 <= |data| && n < TWO_TO_THE_32 && data[i..i + 4] == Big4(n)
    ensures Word(data, i) == n
  {
    var b := data[i..i + 4];
    assert b[0] == data[i] && b[1] == data[i + 1] && b[2] == data[i + 2] && b[3] == data[i + 3];
  }

  lemma LongAt(data: seq<byte>, i: nat, n: nat)
    requires i + 8 <= |data| && n < TWO_TO_THE_64 && data[i..i + 8] == Big8(n)
    ensures AvifBoxes.Long(data, i) == n
  {
    var b := data[i..i + 8];
    assert data[i..i + 4] == b[..4] == Big4(n / TWO_TO_THE_32);
    assert data[i + 4..i + 8] == b[4..8] == Big4(n % TWO_TO_THE_32);
    WordAt(data, i, n / TWO_TO_THE_32);
    WordAt(data, i + 4, n % TWO_TO_THE_32);
  }

  lemma {:induction false} BrandAt(brands: seq<Four>, k: nat)
    requires k < |brands|
    ensures Flat(brands)[4 * k..4 * k + 4] == brands[k]
  {
    if k > 0 {
      BrandAt(brands[1..], k - 1);
      assert Flat(brands)[4 * k..4 * k + 4] == Flat(brands[1..])[4 * (k - 1)..4 * (k - 1) + 4];
    }
  }

  lemma BrandsReadBack(brands: seq<Four>)
    ensures StillBrands(Flat(brands)) <==> forall k :: 0 <= k < |brands| && k != 1 ==> brands[k] != AVIS && brands[k] != MSF1
  {
    forall k | 0 <= k < |brands|
      ensures (Brand(Flat(brands), 4 * k, AVIS) <==> brands[k] == AVIS) && (Brand(Flat(brands), 4 * k, MSF1) <==> brands[k] == MSF1)
    {
      BrandAt(brands, k);
    }
  }

  /** What a file declares is what its tree holds, in whichever form the sizes are written. */
  lemma {:induction false} TreesAreRead(list: seq<Box>)
    requires Printable(list)
    ensures AreRead(list)
    decreases list, 0
  {
    if list != [] {
      var b, rest := list[0], list[1..];
      HeaderReadsBack(b, Text(rest));
      BoxIsRead(b);
      TreesAreRead(rest);
      HeldAdds(AllIn(b), LevelsIn(b), All(rest), Levels(rest));
    }
  }

  ghost predicate AreRead(list: seq<Box>)
    requires Printable(list)
  {
    Declared(Text(list)) == Held(All(list), Levels(list))
  }

  ghost predicate IsRead(b: Box)
    requires PrintableBox(b)
  {
    DeclaredBy(Kind(b.content), Payload(b.content)) == Held(AllIn(b), LevelsIn(b))
  }

  lemma {:induction false} BoxIsRead(b: Box)
    requires PrintableBox(b)
    ensures IsRead(b)
    decreases b, 1
  {
    match b.content
    case Meta(flags, boxes) => TreesAreRead(boxes); MetaIsRead(b);
    case Properties(container, boxes) => TreesAreRead(boxes); PropertiesAreRead(b);
    case ItemList(flags, count, boxes) => TreesAreRead(boxes); ListIsRead(b);
    case FileType(brands) => FileTypeIsRead(b);
    case Extent(flags, width, height) => ExtentIsRead(b);
    case _ => OthersAreRead(b);
  }

  lemma FileTypeIsRead(b: Box)
    requires PrintableBox(b) && b.content.FileType?
    ensures IsRead(b)
  {
    BrandsReadBack(b.content.brands);
    OneIsHeld(b);
  }

  lemma OthersAreRead(b: Box)
    requires PrintableBox(b) && (b.content.Movie? || b.content.ItemEntry? || b.content.Plain? || b.content.Damaged?)
    ensures IsRead(b)
  {
    OneIsHeld(b);
  }

  lemma MetaIsRead(b: Box)
    requires PrintableBox(b) && b.content.Meta?
    requires Printable(b.content.boxes) && AreRead(b.content.boxes)
    ensures IsRead(b)
  {
    assert Payload(b.content)[4..] == Text(b.content.boxes);
    MetaDeclares(Payload(b.content));
    NestedIsHeld(b, b.content.boxes);
  }

  lemma MetaDeclares(payload: seq<byte>)
    requires |payload| >= 4
    ensures DeclaredBy(META, payload) == Nested(Declared(payload[4..]))
  {
  }

  lemma PropertiesAreRead(b: Box)
    requires PrintableBox(b) && b.content.Properties?
    requires Printable(b.content.boxes) && AreRead(b.content.boxes)
    ensures IsRead(b)
  {
    NestedIsHeld(b, b.content.boxes);
  }

  lemma ListIsRead(b: Box)
    requires PrintableBox(b) && b.content.ItemList?
    requires Printable(b.content.boxes) && AreRead(b.content.boxes)
    ensures IsRead(b)
  {
    CountReadsBack(b.content.flags, b.content.count, b.content.boxes);
    NestedIsHeld(b, b.content.boxes);
  }

  lemma ExtentIsRead(b: Box)
    requires PrintableBox(b) && b.content.Extent?
    ensures IsRead(b)
  {
    ExtentReadsBack(b);
    OneIsHeld(b);
    ZeroProduct(b.content.width, b.content.height);
  }

  lemma OneIsHeld(b: Box)
    requires AllBelow(b.content) == []
    ensures AllIn(b) == [b] && Items([b]) == (if b.content.ItemEntry? then 1 else 0)
    ensures Largest([b]) == if b.content.Extent? then Rectangle(b.content.width, b.content.height) else 0
    ensures AllFine([b]) <==> Fine(b)
  {
  }

  lemma NestedIsHeld(b: Box, boxes: seq<Box>)
    requires AllBelow(b.content) == All(boxes) && !b.content.ItemEntry? && !b.content.Extent?
    ensures Held(AllIn(b), Levels(boxes) + 1) == if Fine(b) then Nested(Held(All(boxes), Levels(boxes))) else None
  {
    assert AllIn(b) == [b] + All(boxes);
    ItemsAdd([b], All(boxes));
  }

  lemma CountReadsBack(flags: Four, count: nat, boxes: seq<Box>)
    requires PrintableContent(ItemList(flags, count, boxes))
    ensures var payload := Payload(ItemList(flags, count, boxes)); var start := IinfStart(payload);
      start.Some? && IinfCount(payload) == count && payload[start.value..] == Text(boxes)
  {
    var payload := Payload(ItemList(flags, count, boxes));
    if Wide(flags) {
      assert payload[4..8] == Big4(count);
      WordAt(payload, 4, count);
      assert payload[8..] == Text(boxes);
    } else {
      assert payload[4..6] == Big2(count);
      assert payload[4] == Big2(count)[0] && payload[5] == Big2(count)[1];
      assert payload[6..] == Text(boxes);
    }
  }

  lemma ExtentReadsBack(b: Box)
    requires PrintableBox(b) && b.content.Extent?
    ensures var payload := Payload(b.content);
      |payload| == 12 && Area(payload) == Rectangle(b.content.width, b.content.height)
  {
    var payload := Payload(b.content);
    assert payload[4..8] == Big4(b.content.width) && payload[8..12] == Big4(b.content.height);
    WordAt(payload, 4, b.content.width);
    WordAt(payload, 8, b.content.height);
  }

  /** A file is accepted exactly when nothing in its tree is amiss, it has at most 512 boxes in at most eight levels, and
      between 1 and 128 items which, each as large as the largest picture, are within sixteen million pixels. */
  lemma AcceptedTrees(list: seq<Box>)
    requires Printable(list)
    ensures var all := All(list);
      Acceptable(Text(list)) <==>
        && AllFine(all) && |all| <= 512 && Levels(list) <= 8 && 1 <= Items(all) <= 128
        && 0 < Largest(all) && Largest(all) * Items(all) <= 16_000_000
  {
    TreesAreRead(list);
  }
}
