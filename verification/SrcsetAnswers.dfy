/** What the width parser makes of an attribute whatever its descriptors are, and in which order the widths are preferred. */
module SrcsetAnswers {
  import opened Common
  import opened Digits
  import opened ResponsiveImages

  // ---------------------------------------------------------------- descriptors

  /** A number of pixels, with or without a plus sign. */
  predicate Names(sign: string, digits: string, descriptor: string) {
    (sign == "" || sign == "+") && digits != "" && AllDigits(digits) && descriptor == sign + digits + "w"
  }

  ghost predicate NamesWidth(descriptor: string, n: nat) {
    exists sign, digits :: Names(sign, digits, descriptor) && Number(digits) == n
  }

  /** A descriptor is understood exactly when it names a positive width that a 64-bit integer holds. */
  lemma WidthsAreNamed(descriptor: string, n: int)
    requires n > 0
    ensures WidthOf(descriptor) == Some(n) <==> n <= 0x7FFF_FFFF_FFFF_FFFF && NamesWidth(descriptor, n)
  {
    if WidthOf(descriptor) == Some(n) { WidthIsNamed(descriptor, n); }
    if NamesWidth(descriptor, n) {
      var sign, digits :| Names(sign, digits, descriptor) && Number(digits) == n;
      NamedIsWidth(sign, digits, descriptor);
    }
  }

  lemma WidthIsNamed(descriptor: string, n: nat)
    requires WidthOf(descriptor) == Some(n) && n > 0
    ensures n <= 0x7FFF_FFFF_FFFF_FFFF && NamesWidth(descriptor, n)
  {
    var text := descriptor[..|descriptor| - 1];
    assert descriptor == text + "w";
    var sign, digits := PositiveIsSigned(text, n);
    assert Names(sign, digits, descriptor);
  }

  lemma PositiveIsSigned(text: string, n: nat) returns (sign: string, digits: string)
    requires Atoi(text) == Some(n) && n > 0
    ensures n <= 0x7FFF_FFFF_FFFF_FFFF && (sign == "" || sign == "+") && text == sign + digits
    ensures digits != "" && AllDigits(digits) && Number(digits) == n
  {
    if text[0] == '+' {
      sign, digits := "+", text[1..];
    } else {
      sign, digits := "", text;
    }
  }

  lemma NamedIsWidth(sign: string, digits: string, descriptor: string)
    requires Names(sign, digits, descriptor)
    ensures WidthOf(descriptor) == if Number(digits) <= 0x7FFF_FFFF_FFFF_FFFF then Some(Number(digits)) else None
  {
    var text := descriptor[..|descriptor| - 1];
    assert text == sign + digits;
    if sign == "" {
      assert text == digits && IsDigit(text[0]);
    } else {
      assert text[1..] == digits;
    }
  }

  // ---------------------------------------------------------------- entries

  /** An entry as an author may write it: separators, URL, spaces, a descriptor or none, spaces, and whatever else. */
  datatype Entry = Entry(before: string, url: string, gap: string, descriptor: string, after: string, extra: string) {
    ghost predicate Valid() {
      && All(before, IsJunk)
      && url != "" && url[0] != ',' && All(url, IsAddress)
      && gap != "" && All(gap, IsSpace)
      && All(descriptor, IsDescriptor) && All(after, IsSpace) && All(extra, IsRemainder)
      && (descriptor == "" ==> after == "" && extra == "") && (extra != "" ==> after != "" && !IsSpace(extra[0]))
    }

    function Text(): string { before + url + gap + descriptor + after + extra }
  }

  ghost predicate Offers(e: Entry, n: nat) { e.extra == "" && 0 < n <= 0x7FFF_FFFF_FFFF_FFFF && NamesWidth(e.descriptor, n) }

  function ReadEntry(e: Entry): Option<Source> { Kept(e.url, e.descriptor, e.extra == "") }

  /** An entry gives its URL with the width it names when nothing follows that, and else nothing. */
  lemma EntriesOfferWidths(e: Entry, source: Source)
    requires e.Valid()
    ensures ReadEntry(e) == Some(source) <==> source.url == e.url && source.width > 0 && Offers(e, source.width)
  {
    if source.width > 0 { WidthsAreNamed(e.descriptor, source.width); }
  }

  lemma EntryIsRead(junk: string, e: Entry, rest: string)
    requires e.Valid() && All(junk, IsJunk) && (rest == "" || rest[0] == ',')
    ensures Next(junk + e.Text() + rest) == (ReadEntry(e), rest)
  {
    var t, d := junk + e.Text() + rest, e.descriptor + (e.after + (e.extra + rest));
    EntryRegroups(junk, e, rest);
    AddressIsRead(junk, e, d);
    DescriptorIsRead(e, rest);
    NextIs(t, e.url, d, e.descriptor, e.extra + rest, rest);
    assert e.extra != "" ==> (e.extra + rest)[0] == e.extra[0];
    assert e.extra == "" ==> e.extra + rest == rest;
  }

  lemma EntryRegroups(junk: string, e: Entry, rest: string)
    ensures junk + e.Text() + rest == (junk + e.before) + (e.url + (e.gap + (e.descriptor + (e.after + (e.extra + rest)))))
  {
  }

  lemma AddressIsRead(junk: string, e: Entry, d: string)
    requires e.Valid() && All(junk, IsJunk) && (d == "" || !IsSpace(d[0]))
    ensures var a := Drop((junk + e.before) + (e.url + (e.gap + d)), IsJunk);
      a[..Span(a, IsAddress)] == e.url && Drop(Drop(a, IsAddress), IsSpace) == d
  {
    DropIs(junk + e.before, e.url + (e.gap + d), IsJunk);
    DropIs(e.url, e.gap + d, IsAddress);
    DropIs(e.gap, d, IsSpace);
  }

  lemma DescriptorIsRead(e: Entry, rest: string)
    requires e.Valid() && (rest == "" || rest[0] == ',')
    ensures var d := e.descriptor + (e.after + (e.extra + rest));
      && (d == "" || !IsSpace(d[0])) && d[..Span(d, IsDescriptor)] == e.descriptor
      && Drop(Drop(d, IsDescriptor), IsSpace) == e.extra + rest && Drop(e.extra + rest, IsRemainder) == rest
  {
    DropIs(e.descriptor, e.after + (e.extra + rest), IsDescriptor);
    DropIs(e.after, e.extra + rest, IsSpace);
    DropIs(e.extra, rest, IsRemainder);
  }

  lemma NextIs(t: string, url: string, d: string, descriptor: string, c: string, rest: string)
    requires var a := Drop(t, IsJunk); a[..Span(a, IsAddress)] == url && Drop(Drop(a, IsAddress), IsSpace) == d
    requires d[..Span(d, IsDescriptor)] == descriptor && Drop(Drop(d, IsDescriptor), IsSpace) == c && Drop(c, IsRemainder) == rest
    ensures Next(t) == (Kept(url, descriptor, c == "" || c[0] == ','), rest)
  {
  }

  // ---------------------------------------------------------------- whole attributes

  function Written(es: seq<Entry>): string
    decreases |es|, 1
  {
    if es == [] then "" else es[0].Text() + Following(es)
  }

  function Following(es: seq<Entry>): string
    requires es != []
    decreases |es|, 0
  {
    if |es| == 1 then "" else "," + Written(es[1..])
  }

  function Offered(es: seq<Entry>, room: nat): seq<Source> {
    if es == [] || room == 0 then []
    else (if ReadEntry(es[0]).Some? then [ReadEntry(es[0]).value] else []) + Offered(es[1..], room - 1)
  }

  /** Of the first sixty-four entries each is read by itself: whatever one of them is, the others are not disturbed. */
  lemma EntriesAreIndependent(es: seq<Entry>)
    requires forall e :: e in es ==> e.Valid()
    ensures Sources(Written(es), 64) == Offered(es, 64)
  {
    if es != [] {
      EntriesAreRead("", es, 64);
      assert "" + es[0].Text() == es[0].Text();
    }
  }

  lemma {:induction false} EntriesAreRead(junk: string, es: seq<Entry>, room: nat)
    requires es != [] && (forall e :: e in es ==> e.Valid()) && All(junk, IsJunk)
    ensures Sources(junk + es[0].Text() + Following(es), room) == Offered(es, room)
    decreases |es|
  {
    if room > 0 {
      EntryIsRead(junk, es[0], Following(es));
      assert junk + es[0].Text() + Following(es) != "" by { assert es[0].Valid() && es[0].Text() != ""; }
      SourcesStep(junk + es[0].Text() + Following(es), room);
      if |es| > 1 {
        var rest := es[1..];
        assert forall e :: e in rest ==> e in es;
        EntriesAreRead(",", rest, room - 1);
        Associates(",", rest[0].Text(), Following(rest));
      } else {
        assert Sources("", room - 1) == [];
      }
    }
  }

  // ---------------------------------------------------------------- preference

  /** Widths up to 1600 come first, the largest of them first; then the larger ones, the smallest of them first. */
  lemma PreferenceIsByWidth(s: seq<Source>, i: nat, j: nat)
    requires i < j < |Preferred(s)|
    ensures var a, b := Preferred(s)[i].width, Preferred(s)[j].width;
      if a <= 1600 then b > 1600 || b <= a else b >= a
  {
    PreferredIsStableSort(s);
  }
}
