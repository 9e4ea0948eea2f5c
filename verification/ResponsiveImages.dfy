/** Width candidates of a responsive image attribute: the parser, the preference order, and
    the round trip with section 4.8.4.2.1 of the WHATWG HTML Standard. Text is a byte string. */
module ResponsiveImages {
  import opened Common
  import opened Digits

  const MAXIMUM_CANDIDATES := 64
  const PREFERRED_WIDTH := 1600
  const MAXIMUM_INTEGER := 0x7FFF_FFFF_FFFF_FFFF

  datatype Source = Source(url: string, width: int)

  // ---------------------------------------------------------------- character classes

  predicate IsSpace(c: char) { c == ' ' || c == '\t' || c == '\n' || c == '\r' || c == '\U{000C}' }
  predicate IsJunk(c: char) { IsSpace(c) || c == ',' }
  predicate IsAddress(c: char) { !IsSpace(c) }
  predicate IsDescriptor(c: char) { !IsSpace(c) && c != ',' }
  predicate IsRemainder(c: char) { c != ',' }

  predicate All(s: string, p: char -> bool) { forall i :: 0 <= i < |s| ==> p(s[i]) }

  /** The length of the longest prefix of such characters. */
  function Span(t: string, p: char -> bool): (n: nat)
    ensures n <= |t|
  {
    if t == "" || !p(t[0]) then 0 else 1 + Span(t[1..], p)
  }

  lemma {:induction false} SpanIs(a: string, b: string, p: char -> bool)
    requires All(a, p) && (b == "" || !p(b[0]))
    ensures Span(a + b, p) == |a|
  {
    if a == "" {
      assert a + b == b;
    } else {
      SpanIs(a[1..], b, p);
      assert (a + b)[1..] == a[1..] + b;
    }
  }

  // ---------------------------------------------------------------- numbers

  /** A signed decimal that fits 64 bits. */
  function Atoi(text: string): Option<int> {
    var negative := text != "" && text[0] == '-';
    var digits := if text != "" && (text[0] == '-' || text[0] == '+') then text[1..] else text;
    if digits == "" || !AllDigits(digits) then None
    else
      var magnitude: int := Number(digits);
      var value := if negative then -magnitude else magnitude;
      if -MAXIMUM_INTEGER - 1 <= value <= MAXIMUM_INTEGER then Some(value) else None
  }

  lemma AtoiOfDecimal(n: nat)
    ensures Atoi(Decimal(n)) == if n <= MAXIMUM_INTEGER then Some(n) else None
  {
    NumberOfDecimal(n);
    assert IsDigit(Decimal(n)[0]);
  }

  // ---------------------------------------------------------------- one candidate

  function WidthOf(descriptor: string): Option<int> {
    if descriptor == "" || descriptor[|descriptor| - 1] != 'w' then None else Atoi(descriptor[..|descriptor| - 1])
  }

  function Kept(address: string, descriptor: string, validEnd: bool): Option<Source> {
    if !validEnd then None
    else
      match WidthOf(descriptor)
      case None => None
      case Some(width) => if width > 0 && address != "" then Some(Source(address, width)) else None
  }

  /** The text behind that prefix. */
  function Drop(t: string, p: char -> bool): string {
    if t == "" || !p(t[0]) then t else Drop(t[1..], p)
  }

  lemma {:induction false} DropSkips(t: string, p: char -> bool)
    ensures Drop(t, p) == t[Span(t, p)..]
  {
    if t != "" && p(t[0]) { DropSkips(t[1..], p); }
  }

  /** The candidate at the front of the text, if it is usable, and what follows it. */
  function Next(t: string): (Option<Source>, string) {
    var a := Drop(t, IsJunk);
    var b := Drop(Drop(a, IsAddress), IsSpace);
    var c := Drop(Drop(b, IsDescriptor), IsSpace);
    (Kept(a[..Span(a, IsAddress)], b[..Span(b, IsDescriptor)], c == "" || c[0] == ','), Drop(c, IsRemainder))
  }

  function Sources(t: string, room: nat): seq<Source>
    decreases room, t
  {
    if t == "" || room == 0 then []
    else
      var (found, rest) := Next(t);
      (if found.Some? then [found.value] else []) + Sources(rest, room - 1)
  }

  lemma SourcesStep(t: string, room: nat)
    requires t != "" && room > 0
    ensures Sources(t, room) == (if Next(t).0.Some? then [Next(t).0.value] else []) + Sources(Next(t).1, room - 1)
  {
  }

  /** Every candidate consumes at least one character. */
  lemma NextAdvances(t: string)
    requires t != ""
    ensures |Next(t).1| < |t|
  {
    var a := Drop(t, IsJunk);
    var b := Drop(Drop(a, IsAddress), IsSpace);
    var c := Drop(Drop(b, IsDescriptor), IsSpace);
    DropShrinks(t, IsJunk);
    DropShrinks(a, IsAddress);
    DropShrinks(Drop(a, IsAddress), IsSpace);
    DropShrinks(b, IsDescriptor);
    DropShrinks(Drop(b, IsDescriptor), IsSpace);
    DropShrinks(c, IsRemainder);
  }

  lemma {:induction false} DropShrinks(t: string, p: char -> bool)
    ensures |Drop(t, p)| <= |t| && (t != "" && p(t[0]) ==> |Drop(t, p)| < |t|)
    ensures Drop(t, p) != "" ==> !p(Drop(t, p)[0])
  {
    if t != "" && p(t[0]) { DropShrinks(t[1..], p); }
  }

  // ---------------------------------------------------------------- preference

  predicate Better(a: Source, b: Source) {
    if (a.width <= PREFERRED_WIDTH) != (b.width <= PREFERRED_WIDTH) then a.width <= PREFERRED_WIDTH
    else if a.width > PREFERRED_WIDTH then a.width < b.width
    else a.width > b.width
  }

  ghost predicate Sorted(s: seq<Source>) { forall i, j :: 0 <= i < j < |s| ==> !Better(s[j], s[i]) }

  /** The sources of one width, in order. */
  function OfWidth(s: seq<Source>, width: int): seq<Source> {
    if s == [] then []
    else OfWidth(s[..|s| - 1], width) + if s[|s| - 1].width == width then [s[|s| - 1]] else []
  }

  /** The same sources, and those of equal width in the same order. */
  ghost predicate StablyPermutes(s: seq<Source>, t: seq<Source>) {
    multiset(s) == multiset(t) && forall width :: OfWidth(s, width) == OfWidth(t, width)
  }

  function Place(s: seq<Source>, x: Source): seq<Source> {
    if s == [] || !Better(x, s[|s| - 1]) then s + [x] else Place(s[..|s| - 1], x) + [s[|s| - 1]]
  }

  function Preferred(s: seq<Source>): seq<Source> {
    if s == [] then [] else Place(Preferred(s[..|s| - 1]), s[|s| - 1])
  }

  lemma {:induction false} PlaceHolds(s: seq<Source>, x: Source)
    ensures multiset(Place(s, x)) == multiset(s) + multiset{x}
    ensures |Place(s, x)| == |s| + 1
  {
    if s != [] && Better(x, s[|s| - 1]) {
      var front, last := s[..|s| - 1], s[|s| - 1];
      PlaceHolds(front, x);
      assert s == front + [last];
    }
  }

  lemma {:induction false} PlaceKeepsSorted(s: seq<Source>, x: Source)
    requires Sorted(s)
    ensures Sorted(Place(s, x))
  {
    if s != [] && Better(x, s[|s| - 1]) {
      var front, last := s[..|s| - 1], s[|s| - 1];
      PlaceKeepsSorted(front, x);
      PlaceHolds(front, x);
      var r := Place(front, x);
      forall i | 0 <= i < |r| ensures !Better(last, r[i]) {
        assert r[i] in multiset(r);
        if r[i] != x { assert r[i] in front; }
      }
    }
  }

  lemma {:induction false} PlaceIsStable(s: seq<Source>, x: Source, width: int)
    requires Sorted(s)
    ensures OfWidth(Place(s, x), width) == OfWidth(s + [x], width)
  {
    assert (s + [x])[..|s|] == s;
    if s != [] && Better(x, s[|s| - 1]) {
      var front, last := s[..|s| - 1], s[|s| - 1];
      PlaceIsStable(front, x, width);
      var r := Place(front, x);
      assert (r + [last])[..|r|] == r;
      assert (front + [x])[..|front|] == front;
      assert last.width != x.width;
    }
  }

  lemma {:induction false} PreferredIsStableSort(s: seq<Source>)
    ensures Sorted(Preferred(s)) && StablyPermutes(s, Preferred(s))
  {
    if s != [] {
      var front, last := s[..|s| - 1], s[|s| - 1];
      PreferredIsStableSort(front);
      PlaceHolds(Preferred(front), last);
      PlaceKeepsSorted(Preferred(front), last);
      assert s == front + [last];
      forall width ensures OfWidth(s, width) == OfWidth(Preferred(s), width) {
        PlaceIsStable(Preferred(front), last, width);
        assert (Preferred(front) + [last])[..|Preferred(front)|] == Preferred(front);
      }
    }
  }

  function Urls(s: seq<Source>): seq<string> { seq(|s|, i requires 0 <= i < |s| => s[i].url) }

  // ---------------------------------------------------------------- printing

  /** A candidate as an author may write it: separators before it, then URL, spaces, width, spaces. */
  datatype Candidate = Candidate(before: string, url: string, gap: string, width: nat, after: string) {
    ghost predicate Valid() {
      && All(before, IsJunk)
      && url != "" && url[0] != ',' && All(url, IsAddress)
      && gap != "" && All(gap, IsSpace)
      && width > 0 && All(after, IsSpace)
    }

    function Text(): string { before + url + gap + (Decimal(width) + "w") + after }

    function Read(): Source { Source(url, width) }
  }

  function Print(cs: seq<Candidate>): string
    decreases |cs|, 1
  {
    if cs == [] then "" else cs[0].Text() + Tail(cs)
  }

  /** What follows the first candidate of a printed list. */
  function Tail(cs: seq<Candidate>): string
    requires cs != []
    decreases |cs|, 0
  {
    if |cs| == 1 then "" else "," + Print(cs[1..])
  }

  /** What the first `room` candidates mean to the parser: Go's integers bound the widths. */
  function Readable(cs: seq<Candidate>, room: nat): seq<Source> {
    if cs == [] || room == 0 then [] else ReadableOne(cs[0]) + Readable(cs[1..], room - 1)
  }

  function ReadableOne(c: Candidate): seq<Source> { if c.width <= MAXIMUM_INTEGER then [c.Read()] else [] }

  lemma DropIs(a: string, b: string, p: char -> bool)
    requires All(a, p) && (b == "" || !p(b[0]))
    ensures Span(a + b, p) == |a| && Drop(a + b, p) == b && (a + b)[..|a|] == a
  {
    SpanIs(a, b, p);
    DropSkips(a + b, p);
  }

  /** Reading one printed candidate, with more separators in front and the end or a comma behind. */
  lemma ReadsOne(junk: string, c: Candidate, rest: string)
    requires c.Valid() && All(junk, IsJunk) && (rest == "" || rest[0] == ',')
    ensures Next(junk + c.Text() + rest) == (if c.width <= MAXIMUM_INTEGER then Some(c.Read()) else None, rest)
  {
    var number := Decimal(c.width) + "w";
    Regroups(junk, c.before, c.url, c.gap, number, c.after, rest);
    ReadsDescriptor(c, rest);
    ReadsBoth(junk + c.Text() + rest, junk, c, number + (c.after + rest), number, rest);
    KeepsReadable(c);
  }

  lemma KeepsReadable(c: Candidate)
    requires c.Valid()
    ensures Kept(c.url, Decimal(c.width) + "w", true) == if c.width <= MAXIMUM_INTEGER then Some(c.Read()) else None
  {
    assert (Decimal(c.width) + "w")[..|Decimal(c.width)|] == Decimal(c.width);
    AtoiOfDecimal(c.width);
  }

  lemma ReadsBoth(t: string, junk: string, c: Candidate, d: string, number: string, rest: string)
    requires c.Valid() && All(junk, IsJunk) && d != "" && !IsSpace(d[0])
    requires t == junk + (c.before + (c.url + (c.gap + d)))
    requires d[..Span(d, IsDescriptor)] == number && Drop(Drop(d, IsDescriptor), IsSpace) == rest
    requires (rest == "" || rest[0] == ',') && Drop(rest, IsRemainder) == rest
    ensures Next(t) == (Kept(c.url, number, true), rest)
  {
    ReadsAddress(junk, c, d);
    NextOf(t, c.url, d, number, rest);
  }

  lemma NextOf(t: string, url: string, d: string, number: string, rest: string)
    requires var a := Drop(t, IsJunk); a[..Span(a, IsAddress)] == url && Drop(Drop(a, IsAddress), IsSpace) == d
    requires d[..Span(d, IsDescriptor)] == number && Drop(Drop(d, IsDescriptor), IsSpace) == rest
    requires (rest == "" || rest[0] == ',') && Drop(rest, IsRemainder) == rest
    ensures Next(t) == (Kept(url, number, true), rest)
  {
  }

  lemma Regroups(junk: string, before: string, url: string, gap: string, number: string, after: string, rest: string)
    ensures junk + (before + url + gap + number + after) + rest == junk + (before + (url + (gap + (number + (after + rest)))))
  {
  }

  lemma ReadsAddress(junk: string, c: Candidate, d: string)
    requires c.Valid() && All(junk, IsJunk) && d != "" && !IsSpace(d[0])
    ensures var a := Drop(junk + (c.before + (c.url + (c.gap + d))), IsJunk);
      a[..Span(a, IsAddress)] == c.url && Drop(Drop(a, IsAddress), IsSpace) == d
  {
    assert junk + (c.before + (c.url + (c.gap + d))) == (junk + c.before) + (c.url + (c.gap + d));
    DropIs(junk + c.before, c.url + (c.gap + d), IsJunk);
    DropIs(c.url, c.gap + d, IsAddress);
    DropIs(c.gap, d, IsSpace);
  }

  lemma ReadsDescriptor(c: Candidate, rest: string)
    requires c.Valid() && (rest == "" || rest[0] == ',')
    ensures var number := Decimal(c.width) + "w"; var d := number + (c.after + rest);
      && !IsSpace(d[0]) && d[..Span(d, IsDescriptor)] == number && Drop(Drop(d, IsDescriptor), IsSpace) == rest
      && Drop(rest, IsRemainder) == rest
      && WidthOf(number) == if c.width <= MAXIMUM_INTEGER then Some(c.width) else None
  {
    var number := Decimal(c.width) + "w";
    assert forall i :: 0 <= i < |Decimal(c.width)| ==> IsDigit(Decimal(c.width)[i]);
    DropIs(number, c.after + rest, IsDescriptor);
    DropIs(c.after, rest, IsSpace);
    assert "" + rest == rest;
    DropIs("", rest, IsRemainder);
    assert number[..|number| - 1] == Decimal(c.width);
    AtoiOfDecimal(c.width);
  }

  ghost predicate Reads(t: string, room: nat, s: seq<Source>) { Sources(t, room) == s }

  lemma ReadsFirst(t: string, junk: string, c: Candidate, rest: string, room: nat, s: seq<Source>)
    requires c.Valid() && All(junk, IsJunk) && (rest == "" || rest[0] == ',') && t == junk + c.Text() + rest && room > 0
    requires Reads(rest, room - 1, s)
    ensures Reads(t, room, ReadableOne(c) + s)
  {
    ReadsOne(junk, c, rest);
    SourcesStep(t, room);
  }

  lemma ReadsNothing(t: string, room: nat)
    requires t == "" || room == 0
    ensures Reads(t, room, [])
  {
  }

  lemma {:induction false} ReadsAll(t: string, junk: string, cs: seq<Candidate>, room: nat)
    requires cs != [] && (forall c :: c in cs ==> c.Valid()) && All(junk, IsJunk) && t == junk + cs[0].Text() + Tail(cs)
    ensures Reads(t, room, Readable(cs, room))
    decreases |cs|, 1
  {
    if room == 0 {
      ReadsNothing(t, room);
    } else {
      ReadsTail(cs, room - 1);
      TailStarts(cs);
      var rest, s := Tail(cs), Readable(cs[1..], room - 1);
      assert Reads(rest, room - 1, s);
      ReadsFirst(t, junk, cs[0], rest, room, s);
    }
  }

  lemma {:induction false} ReadsTail(cs: seq<Candidate>, room: nat)
    requires cs != [] && forall c :: c in cs ==> c.Valid()
    ensures Reads(Tail(cs), room, Readable(cs[1..], room))
    decreases |cs|, 0
  {
    if |cs| == 1 {
      ReadsNothing("", room);
    } else {
      var rest := cs[1..];
      assert forall c :: c in rest ==> c in cs;
      TailContinues(cs);
      ReadsAll(Tail(cs), ",", rest, room);
    }
  }

  lemma TailStarts(cs: seq<Candidate>)
    requires cs != []
    ensures Tail(cs) == "" || Tail(cs)[0] == ','
  {
  }

  lemma TailContinues(cs: seq<Candidate>)
    requires |cs| > 1
    ensures Tail(cs) == "," + cs[1..][0].Text() + Tail(cs[1..])
  {
    var rest := cs[1..];
    Associates(",", rest[0].Text(), Tail(rest));
  }

  lemma Associates(a: string, b: string, c: string)
    ensures a + (b + c) == a + b + c
  {
  }

  // ---------------------------------------------------------------- the parser as it runs

  method Skip(s: string, i: nat, p: char -> bool) returns (j: nat)
    requires i <= |s|
    ensures j == i + Span(s[i..], p)
    ensures i <= j <= |s| && s[j..] == Drop(s[i..], p) && s[i..j] == s[i..][..Span(s[i..], p)]
  {
    j := i;
    while j < |s| && p(s[j])
      invariant i <= j <= |s| && i + Span(s[i..], p) == j + Span(s[j..], p)
    {
      assert s[j..][1..] == s[j + 1..];
      j := j + 1;
    }
    DropSkips(s[i..], p);
  }

  method ReadCandidate(s: string, start: nat) returns (found: Option<Source>, i: nat)
    requires start < |s|
    ensures start < i <= |s| && (found, s[i..]) == Next(s[start..])
  {
    NextAdvances(s[start..]);
    i := Skip(s, start, IsJunk);
    var from := i;
    i := Skip(s, i, IsAddress);
    var address := s[from..i];
    i := Skip(s, i, IsSpace);
    from := i;
    i := Skip(s, i, IsDescriptor);
    var descriptor := s[from..i];
    i := Skip(s, i, IsSpace);
    var validEnd := i == |s| || s[i] == ',';
    i := Skip(s, i, IsRemainder);
    found := Kept(address, descriptor, validEnd);
  }

  lemma MovesOver(before: seq<Source>, found: Option<Source>, after: seq<Source>)
    ensures before + ((if found.Some? then [found.value] else []) + after) == (if found.Some? then before + [found.value] else before) + after
  {
  }

  /** What was collected, and what is still to come. */
  ghost function Sum(sources: seq<Source>, t: string, room: nat): seq<Source> { sources + Sources(t, room) }

  lemma AllRead(sources: seq<Source>, t: string, room: nat)
    ensures t == "" || room == 0 ==> Sum(sources, t, room) == sources
  {
  }

  method ReadAnother(s: string, start: nat, sources: seq<Source>, ghost room: nat) returns (more: seq<Source>, i: nat)
    requires start < |s| && room > 0
    ensures start < i <= |s| && Sum(more, s[i..], room - 1) == Sum(sources, s[start..], room)
  {
    SourcesStep(s[start..], room);
    var found;
    found, i := ReadCandidate(s, start);
    more := if found.Some? then sources + [found.value] else sources;
    MovesOver(sources, found, Sources(s[i..], room - 1));
  }

  // The loop over the attribute, which gives up after so many candidates.
  method ReadSources(srcset: string, limit: nat) returns (sources: seq<Source>)
    ensures sources == Sources(srcset, limit)
  {
    sources := [];
    var i, count := 0, 0;
    assert srcset[0..] == srcset;
    while i < |srcset| && count < limit
      invariant i <= |srcset| && count <= limit
      invariant Sum(sources, srcset[i..], limit - count) == Sources(srcset, limit)
    {
      sources, i := ReadAnother(srcset, i, sources, limit - count);
      count := count + 1;
    }
    AllRead(sources, srcset[i..], limit - count);
  }

  method WidthImageSources(srcset: string) returns (urls: seq<string>)
    ensures urls == Urls(Preferred(Sources(srcset, MAXIMUM_CANDIDATES)))
  {
    var sources := ReadSources(srcset, MAXIMUM_CANDIDATES);
    var ordered := SortStably(sources);
    urls := Urls(ordered);
  }

  method SortStably(sources: seq<Source>) returns (ordered: seq<Source>)
    ensures ordered == Preferred(sources)
  {
    ordered := [];
    for n := 0 to |sources|
      invariant ordered == Preferred(sources[..n])
    {
      assert sources[..n + 1][..n] == sources[..n];
      ordered := Place(ordered, sources[n]);
    }
    assert sources[..|sources|] == sources;
  }

  // ---------------------------------------------------------------- main result

  /** Printing and parsing: for every list of candidates the parser finds exactly the first sixty-four
      whose width fits an integer, and orders them as a stable permutation that puts the widest up to
      1600 first and then larger ones from the smallest up. */
  lemma RoundTrip(cs: seq<Candidate>)
    requires forall c :: c in cs ==> c.Valid()
    ensures var found := Sources(Print(cs), MAXIMUM_CANDIDATES);
      && found == Readable(cs, MAXIMUM_CANDIDATES)
      && Sorted(Preferred(found)) && StablyPermutes(found, Preferred(found))
  {
    if cs == [] {
      ReadsNothing("", MAXIMUM_CANDIDATES);
    } else {
      assert "" + cs[0].Text() == cs[0].Text();
      ReadsAll(Print(cs), "", cs, MAXIMUM_CANDIDATES);
    }
    PreferredIsStableSort(Sources(Print(cs), MAXIMUM_CANDIDATES));
  }

  /** Nothing is lost exactly when every width fits an integer. */
  lemma {:induction false} AllReadable(cs: seq<Candidate>, room: nat)
    requires |cs| <= room
    ensures |Readable(cs, room)| == |cs| <==> forall c :: c in cs ==> c.width <= MAXIMUM_INTEGER
    ensures |Readable(cs, room)| <= |cs|
    ensures |Readable(cs, room)| == |cs| ==> forall i :: 0 <= i < |cs| ==> Readable(cs, room)[i] == cs[i].Read()
  {
    if cs != [] {
      AllReadable(cs[1..], room - 1);
      assert cs == [cs[0]] + cs[1..];
    }
  }
}
