/** What escaping does to a text, told from its parts: what stands outside of strings, quotes, and the letters, escape
    pairs and raw control characters inside. */
module JsonAnswers {
  import opened JsonControls

  datatype Part =
    | Outer(c: char)   // outside of strings
    | Opening          // a quote
    | Letter(c: char)  // an ordinary character of a string
    | Pair(c: char)    // a backslash and what it escapes
    | Raw(c: char)     // a control character in a string
    | Closing          // a quote
    | Dangling         // a backslash that ends the text

  /** The parts follow one another like this, beginning outside or inside a string. */
  predicate Formed(inside: bool, parts: seq<Part>)
    decreases |parts|
  {
    if parts == [] then true
    else
      match parts[0]
      case Outer(c) => !inside && c != '"' && Formed(false, parts[1..])
      case Opening => !inside && Formed(true, parts[1..])
      case Letter(c) => inside && c >= ' ' && c != '"' && c != '\\' && Formed(true, parts[1..])
      case Pair(_) => inside && Formed(true, parts[1..])
      case Raw(c) => inside && c < ' ' && Formed(true, parts[1..])
      case Closing => inside && Formed(false, parts[1..])
      case Dangling => inside && parts[1..] == []
  }

  const HEX := "0123456789abcdef"

  /** A part as it is written, or with control characters spelled out. */
  function Spelled(part: Part, escaped: bool): string {
    match part
    case Outer(c) => [c]
    case Opening => "\""
    case Letter(c) => [c]
    case Pair(c) => ['\\', c]
    case Raw(c) => if escaped && c < ' ' then "\\u00" + [HEX[c as int / 16], HEX[c as int % 16]] else [c]
    case Closing => "\""
    case Dangling => "\\"
  }

  function Text(parts: seq<Part>, escaped: bool): string {
    if parts == [] then "" else Spelled(parts[0], escaped) + Text(parts[1..], escaped)
  }

  lemma HexDigitIs(n: nat)
    requires n < 16
    ensures HexDigit(n) == HEX[n]
  {
  }

  /** Exactly the raw control characters inside of strings are spelled out, and nothing else is touched. */
  lemma {:induction false} RawCharactersAreSpelled(inside: bool, parts: seq<Part>)
    requires Formed(inside, parts)
    ensures Escape(Scanner(inside, false), Text(parts, false)) == Text(parts, true)
    decreases |parts|
  {
    if parts != [] {
      var part, rest := parts[0], parts[1..];
      var t, after := Text(rest, false), Text(rest, true);
      match part
      case Outer(c) => RawCharactersAreSpelled(false, rest); OneStays(inside, c, false, t, after);
      case Opening => RawCharactersAreSpelled(true, rest); OneStays(inside, '"', true, t, after);
      case Letter(c) => RawCharactersAreSpelled(true, rest); OneStays(inside, c, true, t, after);
      case Pair(c) => RawCharactersAreSpelled(true, rest); PairStays(c, t, after);
      case Raw(c) => RawCharactersAreSpelled(true, rest); RawIsSpelled(c, t, after);
      case Closing => RawCharactersAreSpelled(false, rest); OneStays(inside, '"', false, t, after);
      case Dangling => OneEnds();
    }
  }

  lemma OneStays(inside: bool, c: char, next: bool, t: string, after: string)
    requires !(inside && c < ' ') && JsonControls.After(Scanner(inside, false), c) == Scanner(next, false)
    requires Escape(Scanner(next, false), t) == after
    ensures Escape(Scanner(inside, false), [c] + t) == [c] + after
  {
    assert ([c] + t)[1..] == t;
  }

  lemma PairStays(c: char, t: string, after: string)
    requires Escape(Scanner(true, false), t) == after
    ensures Escape(Scanner(true, false), ['\\', c] + t) == ['\\', c] + after
  {
    assert (['\\', c] + t)[1..] == [c] + t && ([c] + t)[1..] == t;
    assert Escape(Scanner(true, true), [c] + t) == [c] + after;
  }

  lemma RawIsSpelled(c: char, t: string, after: string)
    requires c < ' ' && Escape(Scanner(true, false), t) == after
    ensures Escape(Scanner(true, false), [c] + t) == "\\u00" + [HEX[c as int / 16], HEX[c as int % 16]] + after
  {
    assert ([c] + t)[1..] == t;
    HexDigitIs(c as int / 16);
    HexDigitIs(c as int % 16);
  }

  lemma OneEnds()
    ensures Escape(Scanner(true, false), "\\" + "") == "\\" + ""
  {
  }

  /** Every text consists of such parts, so the law is about all of them. */
  lemma {:induction false} EveryTextHasParts(inside: bool, t: string) returns (parts: seq<Part>)
    ensures Formed(inside, parts) && Text(parts, false) == t
    decreases |t|
  {
    parts := [];
    if t != "" {
      var c, n := t[0], if inside && t[0] == '\\' && |t| > 1 then 2 else 1;
      var part :=
        if !inside then (if c == '"' then Opening else Outer(c))
        else if c == '"' then Closing
        else if c == '\\' then (if |t| > 1 then Pair(t[1]) else Dangling)
        else if c < ' ' then Raw(c) else Letter(c);
      var rest := EveryTextHasParts(if c == '"' then !inside else inside, t[n..]);
      parts := [part] + rest;
      assert parts[1..] == rest;
      assert t == t[..n] + t[n..];
      if part.Dangling? { assert rest == [] by { EmptyHasNoParts(rest); } }
    }
  }

  lemma EmptyHasNoParts(parts: seq<Part>)
    requires Text(parts, false) == ""
    ensures parts == []
  {
  }

  /** What comes out of any text. */
  lemma EscapeIsSpelling(t: string)
    ensures exists parts :: Formed(false, parts) && Text(parts, false) == t && Escape(Outside, t) == Text(parts, true)
  {
    var parts := EveryTextHasParts(false, t);
    RawCharactersAreSpelled(false, parts);
  }
}
