/** Two walks over image bytes and pixels: whether a PNG or WebP file is animated, and the eight
    EXIF orientations. */
module ImageFrames {
  import opened Common

  // ---------------------------------------------------------------- lengths and kinds

  const ACTL: seq<byte> := [0x61, 0x63, 0x54, 0x4C]
  const ANIM: seq<byte> := [0x41, 0x4E, 0x49, 0x4D]
  const ANMF: seq<byte> := [0x41, 0x4E, 0x4D, 0x46]
  const VP8X: seq<byte> := [0x56, 0x50, 0x38, 0x58]

  function BigEndian(b: seq<byte>): nat
    requires |b| == 4
  {
    Pair(b[0], b[1]) * 0x1_0000 + Pair(b[2], b[3])
  }

  function Pair(high: byte, low: byte): (n: nat)
    ensures n < 0x1_0000
  {
    var h: nat, l: nat := high, low;
    h * 0x100 + l
  }

  function High(n: nat): byte
    requires n < 0x1_0000
  {
    n / 0x100
  }

  function Low(n: nat): byte { n % 0x100 }

  lemma PairRoundTrip(n: nat)
    requires n < 0x1_0000
    ensures Pair(High(n), Low(n)) == n
  {
  }

  function Reversed(b: seq<byte>): (r: seq<byte>)
    requires |b| == 4
    ensures |r| == 4
  {
    [b[3], b[2], b[1], b[0]]
  }

  function LittleEndian(b: seq<byte>): nat
    requires |b| == 4
  {
    BigEndian(Reversed(b))
  }

  function Bytes(n: nat): (b: seq<byte>)
    requires n < TWO_TO_THE_32
    ensures |b| == 4 && BigEndian(b) == n
  {
    var a, b := n / 0x1_0000, n % 0x1_0000;
    PairRoundTrip(a);
    PairRoundTrip(b);
    [High(a), Low(a), High(b), Low(b)]
  }

  // ---------------------------------------------------------------- chunks

  /** One chunk; only PNG has a checksum after it and only WebP pads it to an even length. */
  datatype Chunk = Chunk(kind: seq<byte>, payload: seq<byte>, checksum: seq<byte>) {
    ghost predicate Valid() { |kind| == 4 && |payload| < TWO_TO_THE_32 && |checksum| == 4 }
  }

  /** Section 5.3 of the W3C PNG Specification. */
  function PngText(cs: seq<Chunk>): seq<byte>
    requires forall c :: c in cs ==> c.Valid()
  {
    if cs == [] then []
    else
      assert cs[0].Valid();
      Bytes(|cs[0].payload|) + cs[0].kind + cs[0].payload + cs[0].checksum + PngText(cs[1..])
  }

  /** Sections 2.3 and 2.7 of RFC 9649. */
  function WebpText(cs: seq<Chunk>): seq<byte>
    requires forall c :: c in cs ==> c.Valid()
  {
    if cs == [] then []
    else
      assert cs[0].Valid();
      cs[0].kind + Reversed(Bytes(|cs[0].payload|)) + cs[0].payload + Padding(|cs[0].payload|) + WebpText(cs[1..])
  }

  function Padding(length: nat): (p: seq<byte>)
    ensures |p| == length % 2
  {
    if length % 2 == 0 then [] else [0]
  }

  /** Bit one of the flags byte. */
  predicate AnimationFlag(flags: byte) { flags / 2 % 2 == 1 }

  function Bit(on: bool): nat { if on then 1 else 0 }

  /** Animation is the second lowest flag, whatever the others are (section 2.7 of RFC 9649). */
  lemma FlagsAreRead(reserved: nat, profile: bool, alpha: bool, exif: bool, xmp: bool, animation: bool, last: bool)
    requires reserved < 4
    ensures var flags := 64 * reserved + 32 * Bit(profile) + 16 * Bit(alpha) + 8 * Bit(exif) + 4 * Bit(xmp) + 2 * Bit(animation) + Bit(last);
      flags < 256 && (AnimationFlag(flags) <==> animation)
  {
  }

  predicate Animates(kind: seq<byte>, payload: seq<byte>) {
    kind == ANIM || kind == ANMF || (kind == VP8X && payload != [] && AnimationFlag(payload[0]))
  }

  // ---------------------------------------------------------------- the scans

  /** What follows the signature of a PNG file; a chunk longer than the file counts as animated. */
  predicate AnimatedPng(data: seq<byte>)
    decreases |data|
  {
    |data| >= 12 &&
    var length := BigEndian(data[..4]);
    length > |data| - 12 || data[4..8] == ACTL || AnimatedPng(data[length + 12..])
  }

  predicate AnimatedWebp(data: seq<byte>)
    decreases |data|
  {
    |data| >= 8 &&
    var length := LittleEndian(data[4..8]);
    length > |data| - 8 || Animates(data[..4], data[8..8 + length]) ||
    (8 + length + length % 2 <= |data| && AnimatedWebp(data[8 + length + length % 2..]))
  }

  lemma {:induction false} PngIsAnimatedByControl(cs: seq<Chunk>)
    requires forall c :: c in cs ==> c.Valid()
    ensures AnimatedPng(PngText(cs)) <==> exists c :: c in cs && c.kind == ACTL
  {
    if cs != [] {
      var c, rest := cs[0], cs[1..];
      assert c.Valid();
      assert forall x :: x in rest ==> x in cs;
      PngIsAnimatedByControl(rest);
      PngStarts(c, PngText(rest));
      assert cs == [c] + rest;
    }
  }

  lemma PngStarts(c: Chunk, rest: seq<byte>)
    requires c.Valid()
    ensures var t := Bytes(|c.payload|) + c.kind + c.payload + c.checksum + rest;
      && |t| >= 12 && BigEndian(t[..4]) == |c.payload| <= |t| - 12 && t[4..8] == c.kind && t[|c.payload| + 12..] == rest
  {
    var t := Bytes(|c.payload|) + c.kind + c.payload + c.checksum + rest;
    assert t[..4] == Bytes(|c.payload|);
    assert t[4..8] == c.kind;
    assert t[|c.payload| + 12..] == rest;
  }

  lemma {:induction false} WebpIsAnimatedByFrames(cs: seq<Chunk>)
    requires forall c :: c in cs ==> c.Valid()
    ensures AnimatedWebp(WebpText(cs)) <==> exists c :: c in cs && Animates(c.kind, c.payload)
  {
    if cs != [] {
      var c, rest := cs[0], cs[1..];
      assert c.Valid();
      assert forall x :: x in rest ==> x in cs;
      WebpIsAnimatedByFrames(rest);
      WebpStarts(c, WebpText(rest));
      assert cs == [c] + rest;
    }
  }

  lemma WebpStarts(c: Chunk, rest: seq<byte>)
    requires c.Valid()
    ensures var n := |c.payload|; var t := c.kind + Reversed(Bytes(n)) + c.payload + Padding(n) + rest;
      && |t| >= 8 && LittleEndian(t[4..8]) == n <= |t| - 8 && t[..4] == c.kind && t[8..8 + n] == c.payload
      && 8 + n + n % 2 <= |t| && t[8 + n + n % 2..] == rest
  {
    var n := |c.payload|;
    var t := c.kind + Reversed(Bytes(n)) + c.payload + Padding(n) + rest;
    assert t[4..8] == Reversed(Bytes(n));
    assert Reversed(Reversed(Bytes(n))) == Bytes(n);
    assert t[..4] == c.kind;
    assert t[8..8 + n] == c.payload;
    assert t[8 + n + n % 2..] == rest;
  }

  lemma OnePngChunk(c: Chunk, rest: seq<byte>)
    requires c.Valid()
    ensures AnimatedPng(Bytes(|c.payload|) + c.kind + c.payload + c.checksum + rest) <==> c.kind == ACTL || AnimatedPng(rest)
  {
    PngStarts(c, rest);
  }

  /** A file that breaks off inside a chunk counts as animated; a rest too short for a chunk is ignored. */
  lemma {:induction false} BrokenPngIsAnimated(cs: seq<Chunk>, rest: seq<byte>)
    requires forall c :: c in cs ==> c.Valid()
    requires |rest| < 12 || BigEndian(rest[..4]) > |rest| - 12
    ensures AnimatedPng(PngText(cs) + rest) <==> |rest| >= 12 || exists c :: c in cs && c.kind == ACTL
  {
    if cs == [] {
      assert PngText(cs) + rest == rest;
    } else {
      var c, more := cs[0], cs[1..];
      assert c.Valid() && cs == [c] + more;
      BrokenPngIsAnimated(more, rest);
      OnePngChunk(c, PngText(more) + rest);
      assert PngText(cs) + rest == Bytes(|c.payload|) + c.kind + c.payload + c.checksum + (PngText(more) + rest);
    }
  }

  lemma OneWebpChunk(c: Chunk, rest: seq<byte>)
    requires c.Valid()
    ensures AnimatedWebp(c.kind + Reversed(Bytes(|c.payload|)) + c.payload + Padding(|c.payload|) + rest) <==>
            Animates(c.kind, c.payload) || AnimatedWebp(rest)
  {
    WebpStarts(c, rest);
  }

  /** The same for WebP, whose last chunk may also lack its padding. */
  lemma {:induction false} BrokenWebpIsAnimated(cs: seq<Chunk>, rest: seq<byte>)
    requires forall c :: c in cs ==> c.Valid()
    ensures AnimatedWebp(WebpText(cs) + rest) <==> AnimatedWebp(rest) || exists c :: c in cs && Animates(c.kind, c.payload)
  {
    if cs == [] {
      assert WebpText(cs) + rest == rest;
    } else {
      var c, more := cs[0], cs[1..];
      assert c.Valid() && cs == [c] + more;
      BrokenWebpIsAnimated(more, rest);
      OneWebpChunk(c, WebpText(more) + rest);
      assert WebpText(cs) + rest == c.kind + Reversed(Bytes(|c.payload|)) + c.payload + Padding(|c.payload|) + (WebpText(more) + rest);
    }
  }

  lemma WebpEnds(rest: seq<byte>)
    ensures |rest| < 8 ==> !AnimatedWebp(rest)
    ensures |rest| >= 8 && LittleEndian(rest[4..8]) > |rest| - 8 ==> AnimatedWebp(rest)
    ensures |rest| >= 8 && LittleEndian(rest[4..8]) == |rest| - 8 && |rest| % 2 == 1 ==> AnimatedWebp(rest) == Animates(rest[..4], rest[8..])
  {
  }

  method ScanPng(data: seq<byte>) returns (animated: bool)
    ensures animated <==> |data| >= 8 && AnimatedPng(data[8..])
  {
    var offset := 8;
    while offset + 12 <= |data|
      invariant 8 <= offset
      invariant |data| >= 8 && AnimatedPng(data[8..]) <==> offset <= |data| && AnimatedPng(data[offset..])
    {
      ghost var rest := data[offset..];
      var length := BigEndian(data[offset..offset + 4]);
      assert rest[..4] == data[offset..offset + 4] && rest[4..8] == data[offset + 4..offset + 8];
      if length > |data| - offset - 12 {
        return true;
      }
      if data[offset + 4..offset + 8] == ACTL {
        return true;
      }
      assert rest[length + 12..] == data[offset + (length + 12)..];
      offset := offset + (length + 12);
    }
    animated := false;
  }

  method ScanWebp(data: seq<byte>) returns (animated: bool)
    ensures animated <==> |data| >= 12 && AnimatedWebp(data[12..])
  {
    var offset := 12;
    while offset + 8 <= |data|
      invariant 12 <= offset
      invariant |data| >= 12 && AnimatedWebp(data[12..]) <==> offset <= |data| && AnimatedWebp(data[offset..])
    {
      ghost var rest := data[offset..];
      var length := LittleEndian(data[offset + 4..offset + 8]);
      assert rest[..4] == data[offset..offset + 4] && rest[4..8] == data[offset + 4..offset + 8];
      if length > |data| - offset - 8 {
        return true;
      }
      assert rest[8..8 + length] == data[offset + 8..offset + 8 + length];
      if Animates(data[offset..offset + 4], data[offset + 8..offset + 8 + length]) {
        return true;
      }
      var next := offset + (8 + length + length % 2);
      assert next <= |data| ==> rest[8 + length + length % 2..] == data[next..];
      offset := next;
    }
    animated := false;
  }

  // ---------------------------------------------------------------- orientation

  type Orientation = o: int | 1 <= o <= 8 witness 1

  predicate Swaps(o: Orientation) { o >= 5 }

  /** Where the pixel at (x, y) of a picture of this size goes. */
  function Target(o: Orientation, width: nat, height: nat, x: int, y: int): (int, int) {
    match o
    case 2 => (width - 1 - x, y)
    case 3 => (width - 1 - x, height - 1 - y)
    case 4 => (x, height - 1 - y)
    case 5 => (y, x)
    case 6 => (height - 1 - y, x)
    case 7 => (height - 1 - y, width - 1 - x)
    case 8 => (y, width - 1 - x)
    case _ => (x, y)
  }

  function Inverse(o: Orientation): Orientation { if o == 6 then 8 else if o == 8 then 6 else o }

  function OutWidth(o: Orientation, width: nat, height: nat): nat { if Swaps(o) then height else width }

  function OutHeight(o: Orientation, width: nat, height: nat): nat { if Swaps(o) then width else height }

  /** Each map is a bijection onto the output: it stays inside, and the inverse map undoes it. */
  lemma TargetIsBijective(o: Orientation, width: nat, height: nat, x: int, y: int)
    requires 0 <= x < width && 0 <= y < height
    ensures var (dx, dy) := Target(o, width, height, x, y); var (w, h) := (OutWidth(o, width, height), OutHeight(o, width, height));
      && 0 <= dx < w && 0 <= dy < h
      && Target(Inverse(o), w, h, dx, dy) == (x, y)
      && Inverse(Inverse(o)) == o && OutWidth(Inverse(o), w, h) == width && OutHeight(Inverse(o), w, h) == height
  {
  }

  datatype Edge = Top | Bottom | Left | Right

  /** The side of the shown picture along which the first stored row lies, by the numbering of the orientation tag. */
  function FirstRow(o: Orientation): Edge { if o <= 2 then Top else if o <= 4 then Bottom else if o == 5 || o == 8 then Left else Right }

  /** The side along which the first stored column lies. */
  function FirstColumn(o: Orientation): Edge {
    if o == 1 || o == 4 then Left else if o == 2 || o == 3 then Right else if o == 5 || o == 6 then Top else Bottom
  }

  /** How far a pixel is from a side of a picture of this size. */
  function From(side: Edge, width: nat, height: nat, x: int, y: int): int {
    match side
    case Top => y
    case Bottom => height - 1 - y
    case Left => x
    case Right => width - 1 - x
  }

  /** A stored pixel keeps its distance from the first row and the first column, wherever those are shown. */
  lemma EdgesArePlaced(o: Orientation, width: nat, height: nat, x: int, y: int)
    ensures var (dx, dy) := Target(o, width, height, x, y); var (w, h) := (OutWidth(o, width, height), OutHeight(o, width, height));
      From(FirstRow(o), w, h, dx, dy) == y && From(FirstColumn(o), w, h, dx, dy) == x
  {
  }

  /** Every output pixel is written, and by one source pixel alone: the one as far from the first stored row and column
      as it is from the sides where these are shown. */
  method Orient<P(0)>(source: array2<P>, o: Orientation) returns (output: array2<P>)
    ensures output.Length0 == OutWidth(o, source.Length0, source.Length1)
    ensures output.Length1 == OutHeight(o, source.Length0, source.Length1)
    ensures forall dx, dy :: 0 <= dx < output.Length0 && 0 <= dy < output.Length1 ==>
      var (x, y) := Target(Inverse(o), output.Length0, output.Length1, dx, dy);
      0 <= x < source.Length0 && 0 <= y < source.Length1 && output[dx, dy] == source[x, y]
    ensures forall dx, dy :: 0 <= dx < output.Length0 && 0 <= dy < output.Length1 ==>
      var x := From(FirstColumn(o), output.Length0, output.Length1, dx, dy);
      var y := From(FirstRow(o), output.Length0, output.Length1, dx, dy);
      0 <= x < source.Length0 && 0 <= y < source.Length1 && output[dx, dy] == source[x, y]
  {
    var width, height := source.Length0, source.Length1;
    output := new P[OutWidth(o, width, height), OutHeight(o, width, height)];
    for y := 0 to height
      invariant forall i, j :: 0 <= i < width && 0 <= j < y ==> Copied(source, output, o, i, j)
    {
      for x := 0 to width
        invariant forall i, j :: 0 <= i < width && 0 <= j < y ==> Copied(source, output, o, i, j)
        invariant forall i :: 0 <= i < x ==> Copied(source, output, o, i, y)
      {
        WritePixel(source, output, o, x, y);
      }
    }
    forall dx, dy | 0 <= dx < output.Length0 && 0 <= dy < output.Length1
      ensures var (x, y) := Target(Inverse(o), output.Length0, output.Length1, dx, dy);
        && 0 <= x < width && 0 <= y < height && output[dx, dy] == source[x, y]
        && x == From(FirstColumn(o), output.Length0, output.Length1, dx, dy) && y == From(FirstRow(o), output.Length0, output.Length1, dx, dy)
    {
      TargetIsBijective(Inverse(o), output.Length0, output.Length1, dx, dy);
      var (x, y) := Target(Inverse(o), output.Length0, output.Length1, dx, dy);
      EdgesArePlaced(o, width, height, x, y);
      assert Copied(source, output, o, x, y);
    }
  }

  method WritePixel<P(0)>(source: array2<P>, output: array2<P>, o: Orientation, x: int, y: int)
    requires source != output && 0 <= x < source.Length0 && 0 <= y < source.Length1
    requires output.Length0 == OutWidth(o, source.Length0, source.Length1)
    requires output.Length1 == OutHeight(o, source.Length0, source.Length1)
    modifies output
    ensures Copied(source, output, o, x, y)
    ensures forall i, j :: 0 <= i < source.Length0 && 0 <= j < source.Length1 && old(Copied(source, output, o, i, j)) ==>
      Copied(source, output, o, i, j)
  {
    TargetIsBijective(o, source.Length0, source.Length1, x, y);
    var (dx, dy) := Target(o, source.Length0, source.Length1, x, y);
    output[dx, dy] := source[x, y];
    forall i, j | 0 <= i < source.Length0 && 0 <= j < source.Length1 && old(Copied(source, output, o, i, j))
      ensures Copied(source, output, o, i, j)
    {
      TargetIsBijective(o, source.Length0, source.Length1, i, j);
      if Target(o, source.Length0, source.Length1, i, j) == (dx, dy) { assert (i, j) == (x, y); }
    }
  }

  ghost predicate Copied<P>(source: array2<P>, output: array2<P>, o: Orientation, x: int, y: int)
    reads source, output
    requires 0 <= x < source.Length0 && 0 <= y < source.Length1
    requires output.Length0 == OutWidth(o, source.Length0, source.Length1)
    requires output.Length1 == OutHeight(o, source.Length0, source.Length1)
  {
    var (dx, dy) := Target(o, source.Length0, source.Length1, x, y);
    output[dx, dy] == source[x, y]
  }
}
