/** Escaping raw control characters inside the strings of an almost-JSON text, character by
    character (section 7 of RFC 8259 forbids them there). */
module JsonControls {

  datatype Scanner = Scanner(inside: bool, escaped: bool)

  const Outside := Scanner(false, false)

  function After(s: Scanner, c: char): Scanner {
    var inside := if c == '"' && !s.escaped then !s.inside else s.inside;
    Scanner(inside, inside && c == '\\' && !s.escaped)
  }

  function Scan(s: Scanner, t: string): Scanner
    decreases |t|
  {
    if t == "" then s else Scan(After(s, t[0]), t[1..])
  }

  predicate IsRaw(s: Scanner, c: char) { s.inside && !s.escaped && c < ' ' }

  function HexDigit(n: nat): (c: char)
    requires n < 16
    ensures c >= '0' && c != '\\'
  {
    if n < 10 then '0' + n as char else 'a' + (n - 10) as char
  }

  /** The six characters of an escape. */
  function Escaped(c: char): (e: string)
    requires c < ' '
    ensures |e| == 6
  {
    "\\u00" + [HexDigit(c as int / 16), HexDigit(c as int % 16)]
  }

  function Escape(s: Scanner, t: string): string
    decreases |t|
  {
    if t == "" then ""
    else (if IsRaw(s, t[0]) then Escaped(t[0]) else [t[0]]) + Escape(After(s, t[0]), t[1..])
  }

  /** No control character stands unescaped inside a string. */
  predicate Clean(s: Scanner, t: string)
    decreases |t|
  {
    t == "" || (!IsRaw(s, t[0]) && Clean(After(s, t[0]), t[1..]))
  }

  lemma {:induction false} ScanOfSum(s: Scanner, a: string, b: string)
    ensures Scan(s, a + b) == Scan(Scan(s, a), b)
    ensures Clean(s, a + b) <==> Clean(s, a) && Clean(Scan(s, a), b)
    decreases |a|
  {
    if a == "" {
      assert a + b == b;
    } else {
      ScanOfSum(After(s, a[0]), a[1..], b);
      assert (a + b)[1..] == a[1..] + b;
    }
  }

  /** Neither a control character, a quote nor a backslash. */
  predicate IsPlain(c: char) { c >= '0' && c != '\\' }

  lemma {:induction false} PlainScans(s: Scanner, t: string)
    requires !s.escaped && forall i :: 0 <= i < |t| ==> IsPlain(t[i])
    ensures Scan(s, t) == s && Clean(s, t)
  {
    if t != "" { PlainScans(s, t[1..]); }
  }

  /** An escape is clean and leaves the scanner where the raw character would. */
  lemma EscapedScans(s: Scanner, c: char)
    requires IsRaw(s, c)
    ensures Scan(s, Escaped(c)) == After(s, c) == s && Clean(s, Escaped(c))
  {
    var e := Escaped(c);
    PlainScans(s, e[2..]);
    assert e[1..][0] == 'u' && e[1..][1..] == e[2..];
    var a := After(s, e[0]);
    assert Scan(a, e[1..]) == s && Clean(a, e[1..]);
  }

  /** The output is clean and ends in the scanner state of the input. */
  lemma {:induction false} EscapeIsClean(s: Scanner, t: string)
    ensures Clean(s, Escape(s, t)) && Scan(s, Escape(s, t)) == Scan(s, t)
    decreases |t|
  {
    if t != "" {
      EscapeIsClean(After(s, t[0]), t[1..]);
      var head := if IsRaw(s, t[0]) then Escaped(t[0]) else [t[0]];
      if IsRaw(s, t[0]) { EscapedScans(s, t[0]); } else { assert [t[0]][1..] == ""; }
      ScanOfSum(s, head, Escape(After(s, t[0]), t[1..]));
    }
  }

  /** Exactly the clean texts come out as they went in. */
  lemma {:induction false} OnlyCleanIsUntouched(s: Scanner, t: string)
    ensures Escape(s, t) == t <==> Clean(s, t)
    ensures |Escape(s, t)| >= |t|
    decreases |t|
  {
    if t != "" {
      OnlyCleanIsUntouched(After(s, t[0]), t[1..]);
      var rest := Escape(After(s, t[0]), t[1..]);
      if IsRaw(s, t[0]) {
        assert |Escape(s, t)| > |t|;
      } else {
        assert t == [t[0]] + t[1..];
        assert ([t[0]] + rest)[1..] == rest;
      }
    }
  }

  lemma EscapeIsIdempotent(s: Scanner, t: string)
    ensures Escape(s, Escape(s, t)) == Escape(s, t)
  {
    EscapeIsClean(s, t);
    OnlyCleanIsUntouched(s, Escape(s, t));
  }

  // ---------------------------------------------------------------- meaning

  /** A character of the decoded text: a control character, however written, or itself. */
  datatype Token = Control(code: nat) | Plain(c: char)

  predicate IsHex(c: char) { '0' <= c <= '9' || 'a' <= c <= 'f' }

  function HexValue(c: char): (n: nat)
    requires IsHex(c)
    ensures n < 16
  {
    if c <= '9' then c as int - '0' as int else c as int - 'a' as int + 10
  }

  /** The text starts with the escape of a control character. */
  predicate StartsEscaped(t: string) {
    |t| >= 6 && t[0] == '\\' && t[1] == 'u' && t[2] == '0' && t[3] == '0' && (t[4] == '0' || t[4] == '1') && IsHex(t[5])
  }

  function Code(t: string): nat
    requires StartsEscaped(t)
  {
    16 * HexValue(t[4]) + HexValue(t[5])
  }

  /** What the text says once control characters are decoded. */
  function Meaning(s: Scanner, t: string): seq<Token>
    decreases |t|
  {
    if t == "" then []
    else if s.inside && !s.escaped && StartsEscaped(t) then [Control(Code(t))] + Meaning(s, t[6..])
    else [if IsRaw(s, t[0]) then Control(t[0] as int) else Plain(t[0])] + Meaning(After(s, t[0]), t[1..])
  }

  lemma EscapedMeans(c: char, rest: string)
    requires c < ' '
    ensures StartsEscaped(Escaped(c) + rest) && Code(Escaped(c) + rest) == c as int && (Escaped(c) + rest)[6..] == rest
  {
    var e := Escaped(c) + rest;
    assert e[4] == HexDigit(c as int / 16) && e[5] == HexDigit(c as int % 16);
    HexRoundTrip(c as int / 16);
    HexRoundTrip(c as int % 16);
  }

  lemma HexRoundTrip(n: nat)
    requires n < 16
    ensures IsHex(HexDigit(n)) && HexValue(HexDigit(n)) == n
  {
  }

  lemma EscapeSteps(s: Scanner, t: string)
    requires t != ""
    ensures Escape(s, t) == (if IsRaw(s, t[0]) then Escaped(t[0]) else [t[0]]) + Escape(After(s, t[0]), t[1..])
  {
  }

  lemma Regroups(t: string, n: nat, rest: string)
    requires 1 <= n <= |t|
    ensures [t[0]] + (t[1..][..n - 1] + rest) == t[..n] + rest && t[1..][n - 1..] == t[n..]
  {
    assert t[..n] == [t[0]] + t[1..][..n - 1];
  }

  lemma EscapeStarts(s: Scanner, t: string)
    requires t != ""
    ensures IsRaw(s, t[0]) ==> Escape(s, t)[0] == '\\'
    ensures !IsRaw(s, t[0]) ==> Escape(s, t)[0] == t[0] && Escape(s, t)[1..] == Escape(After(s, t[0]), t[1..])
  {
  }

  /** After a backslash, the output repeats the input for as long as it shows no other backslash. */
  lemma {:induction false} CopiesPlainly(s: Scanner, t: string, n: nat)
    requires n <= |Escape(s, t)| && forall i :: 0 <= i < n ==> Escape(s, t)[i] != '\\'
    ensures n <= |t| && forall i :: 0 <= i < n ==> Escape(s, t)[i] == t[i]
    decreases n
  {
    if n > 0 {
      EscapeStarts(s, t);
      var rest := Escape(After(s, t[0]), t[1..]);
      assert forall i :: 0 <= i < n - 1 ==> rest[i] == Escape(s, t)[i + 1];
      CopiesPlainly(After(s, t[0]), t[1..], n - 1);
      assert forall i :: 1 <= i < n ==> t[i] == t[1..][i - 1];
    }
  }

  /** An escape in the output that was not put there stood in the input. */
  lemma OldEscapeWasThere(s: Scanner, t: string)
    requires t != "" && !IsRaw(s, t[0]) && StartsEscaped(Escape(s, t))
    ensures StartsEscaped(t)
  {
    EscapeStarts(s, t);
    var rest := Escape(After(s, t[0]), t[1..]);
    assert forall i :: 0 <= i < 5 ==> rest[i] == Escape(s, t)[i + 1];
    CopiesPlainly(After(s, t[0]), t[1..], 5);
    assert forall i :: 1 <= i < 6 ==> t[i] == t[1..][i - 1];
  }

  /** Characters that are neither controls, quotes nor backslashes pass through. */
  lemma {:induction false} PassesPlainly(s: Scanner, t: string, n: nat)
    requires n <= |t| && forall i :: 0 <= i < n ==> IsPlain(t[i])
    ensures Escape(s, t) == t[..n] + Escape(if n == 0 then s else Scanner(s.inside, false), t[n..])
    decreases n
  {
    if n == 0 {
      assert t[0..] == t && t[..0] + Escape(s, t) == Escape(s, t);
    } else {
      var next := Scanner(s.inside, false);
      EscapeSteps(s, t);
      assert After(s, t[0]) == next;
      PassesPlainly(next, t[1..], n - 1);
      Regroups(t, n, Escape(next, t[n..]));
    }
  }

  lemma EscapePasses(s: Scanner, t: string)
    requires s == Scanner(true, false) && StartsEscaped(t)
    ensures Escape(s, t) == t[..6] + Escape(s, t[6..])
  {
    EscapeStarts(s, t);
    assert forall i :: 0 <= i < 5 ==> t[1..][i] == t[i + 1];
    PassesPlainly(Scanner(true, true), t[1..], 5);
    assert t[..6] == [t[0]] + t[1..][..5];
    assert t[1..][5..] == t[6..];
  }

  /** Escaping changes how a text is written, not what it says. */
  lemma {:induction false} EscapeKeepsMeaning(s: Scanner, t: string)
    ensures Meaning(s, Escape(s, t)) == Meaning(s, t)
    decreases |t|
  {
    if t != "" {
      if IsRaw(s, t[0]) {
        EscapeKeepsMeaning(s, t[1..]);
        EscapedMeans(t[0], Escape(s, t[1..]));
      } else if s.inside && !s.escaped && StartsEscaped(t) {
        EscapeKeepsMeaning(s, t[6..]);
        EscapePasses(s, t);
        var out := Escape(s, t);
        assert forall i :: 0 <= i < 6 ==> out[i] == t[i];
        assert out[6..] == Escape(s, t[6..]);
      } else {
        EscapeKeepsMeaning(After(s, t[0]), t[1..]);
        EscapeStarts(s, t);
        if s.inside && !s.escaped && StartsEscaped(Escape(s, t)) { OldEscapeWasThere(s, t); }
      }
    }
  }

  // ---------------------------------------------------------------- the loop

  lemma Associates(a: string, b: string, c: string)
    ensures a + (b + c) == a + b + c
  {
  }

  method EscapeControls(value: string) returns (result: string)
    ensures result == Escape(Outside, value)
  {
    result := "";
    var inside, escaped := false, false;
    for i := 0 to |value|
      invariant Escape(Outside, value) == result + Escape(Scanner(inside, escaped), value[i..])
    {
      var c := value[i];
      ghost var rest := Escape(After(Scanner(inside, escaped), c), value[i + 1..]);
      EscapeSteps(Scanner(inside, escaped), value[i..]);
      assert value[i..][1..] == value[i + 1..];
      if inside && !escaped && c < ' ' {
        Associates(result, Escaped(c), rest);
        result := result + Escaped(c);
      } else {
        Associates(result, [c], rest);
        result := result + [c];
      }
      assert Escape(Outside, value) == result + rest;
      if c == '"' && !escaped {
        inside := !inside;
      }
      escaped := inside && c == '\\' && !escaped;
    }
  }
}
