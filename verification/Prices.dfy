/** Exact prices: canonical decimal amounts, the choice of one price among several, and the
    prices a tree of offers declares. Amounts and currencies are text. */
module Prices {

  import opened Common
  import opened Digits

  // ---------------------------------------------------------------- amounts

  function TrimLeft(s: string): (t: string)
    ensures |t| <= |s|
  {
    if s != "" && s[0] == '0' then TrimLeft(s[1..]) else s
  }

  function TrimRight(s: string): (t: string)
    ensures |t| <= |s|
  {
    if s != "" && s[|s| - 1] == '0' then TrimRight(s[..|s| - 1]) else s
  }

  lemma {:induction false} TrimsLeft(s: string)
    ensures var t := TrimLeft(s); s == s[..|s| - |t|] + t && AllZeros(s[..|s| - |t|]) && (t == "" || t[0] != '0')
  {
    if s != "" && s[0] == '0' {
      TrimsLeft(s[1..]);
      var t := TrimLeft(s);
      assert s[..|s| - |t|] == [s[0]] + s[1..][..|s[1..]| - |t|];
    }
  }

  lemma {:induction false} TrimsRight(s: string)
    ensures var t := TrimRight(s); s == t + s[|t|..] && AllZeros(s[|t|..]) && (t == "" || t[|t| - 1] != '0')
  {
    if s != "" && s[|s| - 1] == '0' {
      TrimsRight(s[..|s| - 1]);
      var t := TrimRight(s);
      assert s[|t|..] == s[..|s| - 1][|t|..] + [s[|s| - 1]];
    }
  }

  /** The position of the first point, or the length. */
  function Cut(s: string): (n: nat)
    ensures n <= |s| && (n < |s| ==> s[n] == '.') && forall i :: 0 <= i < n ==> s[i] != '.'
  {
    if s == "" || s[0] == '.' then 0 else 1 + Cut(s[1..])
  }

  function Whole(s: string): string { s[..Cut(s)] }

  function Fraction(s: string): string { if Cut(s) == |s| then "" else s[Cut(s) + 1..] }

  predicate IsDecimal(s: string) { AllDigits(Whole(s)) && AllDigits(Fraction(s)) }

  function ParseAmount(s: string): Option<string> {
    if !IsDecimal(s) then None else Canonical(TrimLeft(Whole(s)), TrimRight(Fraction(s)))
  }

  function Canonical(whole: string, fraction: string): Option<string> {
    if |whole| > 8 || |fraction| > 2 || (whole == "" && fraction == "") then None
    else Some(WrittenWhole(whole) + WrittenFraction(fraction))
  }

  function WrittenWhole(whole: string): string { if whole == "" then "0" else whole }

  function WrittenFraction(fraction: string): string { if fraction == "" then "" else "." + fraction }

  // ---------------------------------------------------------------- what an amount is worth

  const MOST := 10_000_000_000

  /** Exactly `minor` hundredths: the digits of both parts, as one number, times a hundred. */
  ghost predicate Worth(whole: string, fraction: string, minor: nat)
    requires AllDigits(whole) && AllDigits(fraction)
  {
    100 * (Number(whole) * Power(|fraction|) + Number(fraction)) == minor * Power(|fraction|)
  }

  ghost predicate WorthOf(s: string, minor: nat) { IsDecimal(s) && Worth(Whole(s), Fraction(s), minor) }

  function ShowParts(whole: nat, cents: nat): string
    requires cents < 100
  {
    Decimal(whole) + ShowCents(cents)
  }

  /** The shortest way to write a number of hundredths. */
  function Show(minor: nat): string {
    ShowParts(minor / 100, minor % 100)
  }

  lemma WorthIsUnique(whole: string, fraction: string, a: nat, b: nat)
    requires AllDigits(whole) && AllDigits(fraction) && Worth(whole, fraction, a) && Worth(whole, fraction, b)
    ensures a == b
  {
    Cancels(a, b, Power(|fraction|));
  }

  lemma Cancels(a: nat, b: nat, p: nat)
    requires p >= 1 && a * p == b * p
    ensures a == b
  {
    if a < b { Multiplies(a, b, p); }
    if b < a { Multiplies(b, a, p); }
  }

  lemma Multiplies(a: nat, b: nat, p: nat)
    requires a < b && p >= 1
    ensures a * p < b * p
  {
  }

  lemma TrimLeftKeepsWorth(whole: string, fraction: string, minor: nat)
    requires AllDigits(whole) && AllDigits(fraction)
    ensures AllDigits(TrimLeft(whole)) && (Worth(whole, fraction, minor) <==> Worth(TrimLeft(whole), fraction, minor))
  {
    TrimsLeft(whole);
    var t := TrimLeft(whole);
    var zeros := whole[..|whole| - |t|];
    assert whole == zeros + t;
    ZerosAreNothing(zeros);
    NumberOfSum(zeros, t);
  }

  lemma TrimRightKeepsWorth(whole: string, fraction: string, minor: nat)
    requires AllDigits(whole) && AllDigits(fraction)
    ensures AllDigits(TrimRight(fraction)) && (Worth(whole, fraction, minor) <==> Worth(whole, TrimRight(fraction), minor))
  {
    TrimsRight(fraction);
    var t := TrimRight(fraction);
    var zeros := fraction[|t|..];
    assert fraction == t + zeros;
    ZerosAreNothing(zeros);
    NumberOfSum(t, zeros);
    PowersMultiply(|t|, |zeros|);
    Scales(Number(whole), Power(|t|), Number(t), minor, Power(|zeros|));
  }

  lemma {:induction false} PowersMultiply(m: nat, n: nat)
    ensures Power(m + n) == Power(m) * Power(n)
    decreases n
  {
    if n > 0 {
      PowersMultiply(m, n - 1);
      assert 10 * (Power(m) * Power(n - 1)) == Power(m) * (10 * Power(n - 1));
    }
  }

  lemma Scales(w: nat, p: nat, f: nat, minor: nat, q: nat)
    requires q >= 1
    ensures 100 * (w * (p * q) + f * q) == minor * (p * q) <==> 100 * (w * p + f) == minor * p
  {
    assert 100 * (w * (p * q) + f * q) == (100 * (w * p + f)) * q;
    assert minor * (p * q) == (minor * p) * q;
    if (100 * (w * p + f)) * q == (minor * p) * q { Cancels(100 * (w * p + f), minor * p, q); }
  }

  function Padded(fraction: string): nat
    requires |fraction| <= 2 && AllDigits(fraction)
  {
    if |fraction| == 0 then 0 else if |fraction| == 1 then 10 * Digit(fraction[0]) else 10 * Digit(fraction[0]) + Digit(fraction[1])
  }

  lemma NumberOfFew(fraction: string)
    requires |fraction| <= 2 && AllDigits(fraction)
    ensures 100 * Number(fraction) == Padded(fraction) * Power(|fraction|) && Padded(fraction) < 100
    ensures Power(0) == 1 && Power(1) == 10 && Power(2) == 100
  {
    if |fraction| == 1 {
      assert fraction[..0] == "";
    } else if |fraction| == 2 {
      assert fraction[..1][..0] == "";
      assert Number(fraction[..1]) == Digit(fraction[0]);
    }
  }

  lemma ShortIsWorth(whole: string, fraction: string)
    requires AllDigits(whole) && AllDigits(fraction) && |fraction| <= 2
    ensures Worth(whole, fraction, 100 * Number(whole) + Padded(fraction))
  {
    NumberOfFew(fraction);
  }

  /** Trimmed parts of at most two decimals are what their number of hundredths shows. */
  lemma ShowIsCanonical(whole: string, fraction: string)
    requires AllDigits(whole) && AllDigits(fraction) && |fraction| <= 2
    requires (whole == "" || whole[0] != '0') && (fraction == "" || fraction[|fraction| - 1] != '0')
    ensures Padded(fraction) < 100
    ensures ShowParts(Number(whole), Padded(fraction)) == WrittenWhole(whole) + WrittenFraction(fraction)
  {
    ShowsFraction(fraction);
    ShowsWhole(whole);
  }

  lemma ShowsParts(whole: nat, cents: nat)
    requires cents < 100
    ensures Show(100 * whole + cents) == ShowParts(whole, cents)
  {
    SplitsHundreds(whole, cents);
  }

  lemma ShowsWhole(whole: string)
    requires AllDigits(whole) && (whole == "" || whole[0] != '0')
    ensures Decimal(Number(whole)) == WrittenWhole(whole)
  {
    if whole == "" { assert Decimal(0) == [Shown(0)] == "0"; } else { DecimalOfNumber(whole); }
  }

  lemma SplitsHundreds(whole: nat, cents: nat)
    requires cents < 100
    ensures (100 * whole + cents) / 100 == whole && (100 * whole + cents) % 100 == cents
  {
  }

  function ShowCents(cents: nat): string
    requires cents < 100
  {
    if cents == 0 then "" else if cents % 10 == 0 then "." + [Shown(cents / 10)] else "." + [Shown(cents / 10), Shown(cents % 10)]
  }

  lemma ShowsFraction(fraction: string)
    requires |fraction| <= 2 && AllDigits(fraction) && (fraction == "" || fraction[|fraction| - 1] != '0')
    ensures Padded(fraction) < 100 && ShowCents(Padded(fraction)) == WrittenFraction(fraction)
  {
    if |fraction| == 1 {
      assert fraction == [fraction[0]];
      assert Shown(Digit(fraction[0])) == fraction[0];
    } else if |fraction| == 2 {
      assert fraction == [fraction[0], fraction[1]];
      assert Shown(Digit(fraction[0])) == fraction[0] && Shown(Digit(fraction[1])) == fraction[1];
    }
  }

  /** Three or more decimals that do not end in zero are no whole number of hundredths. */
  lemma LongIsNotWorth(whole: string, fraction: string, minor: nat)
    requires AllDigits(whole) && AllDigits(fraction) && |fraction| > 2 && fraction[|fraction| - 1] != '0'
    ensures !Worth(whole, fraction, minor)
  {
    if Worth(whole, fraction, minor) {
      var k := |fraction| - 2;
      PowersMultiply(k, 2);
      assert Power(2) == 100 by { assert Power(1) == 10; }
      assert Power(|fraction|) == 100 * Power(k) == 100 * (10 * Power(k - 1));
      var n := Number(whole) * Power(|fraction|) + Number(fraction);
      assert 100 * n == minor * (100 * Power(k));
      LeavesDigit(Number(whole), Power(k - 1), Number(fraction[..|fraction| - 1]), Digit(fraction[|fraction| - 1]), minor);
    }
  }

  lemma LeavesDigit(w: nat, p: nat, f: nat, d: nat, minor: nat)
    requires 0 < d < 10
    ensures 100 * (w * (1000 * p) + (10 * f + d)) != minor * (1000 * p)
  {
    assert w * (1000 * p) == 10 * (w * (100 * p));
    assert minor * (1000 * p) == 100 * (10 * (minor * p));
    assert 10 * (w * (100 * p)) + (10 * f + d) != 10 * (minor * p);
  }

  // ---------------------------------------------------------------- main results on amounts

  lemma TrimKeepsDigits(s: string)
    requires AllDigits(s)
    ensures AllDigits(TrimLeft(s)) && AllDigits(TrimRight(s))
    ensures TrimLeft(s) == "" || TrimLeft(s)[0] != '0'
    ensures TrimRight(s) == "" || TrimRight(s)[|TrimRight(s)| - 1] != '0'
  {
    TrimsLeft(s);
    TrimsRight(s);
    PartsAreDigits(s[..|s| - |TrimLeft(s)|], TrimLeft(s));
    PartsAreDigits(TrimRight(s), s[|TrimRight(s)|..]);
  }

  lemma PartsAreDigits(a: string, b: string)
    requires AllDigits(a + b)
    ensures AllDigits(a) && AllDigits(b)
  {
    assert forall i :: 0 <= i < |a| ==> a[i] == (a + b)[i];
    assert forall i :: 0 <= i < |b| ==> b[i] == (a + b)[|a| + i];
  }

  /** The hundredths of an accepted amount. */
  function Hundredths(s: string): nat
    requires ParseAmount(s).Some?
  {
    TrimKeepsDigits(Whole(s));
    TrimKeepsDigits(Fraction(s));
    100 * Number(TrimLeft(Whole(s))) + Padded(TrimRight(Fraction(s)))
  }

  /** Whatever is accepted keeps its exact value, which is not zero, and is shown the shortest way. */
  lemma ParsedIsShown(s: string)
    requires ParseAmount(s).Some?
    ensures 1 <= Hundredths(s) < MOST && WorthOf(s, Hundredths(s)) && ParseAmount(s) == Some(Show(Hundredths(s)))
  {
    HundredthsAreInRange(s);
    HundredthsAreWorth(s);
    ParseIsCanonical(s, Hundredths(s));
  }

  lemma HundredthsAreInRange(s: string)
    requires ParseAmount(s).Some?
    ensures 1 <= Hundredths(s) < MOST
  {
    TrimKeepsDigits(Whole(s));
    TrimKeepsDigits(Fraction(s));
    ShortIsInRange(TrimLeft(Whole(s)), TrimRight(Fraction(s)));
  }

  lemma HundredthsAreWorth(s: string)
    requires ParseAmount(s).Some?
    ensures WorthOf(s, Hundredths(s))
  {
    var whole, fraction := TrimLeft(Whole(s)), TrimRight(Fraction(s));
    TrimKeepsDigits(Whole(s));
    TrimKeepsDigits(Fraction(s));
    ShortIsWorth(whole, fraction);
    TrimRightKeepsWorth(whole, Fraction(s), Hundredths(s));
    TrimLeftKeepsWorth(Whole(s), Fraction(s), Hundredths(s));
  }

  lemma ShortIsInRange(whole: string, fraction: string)
    requires AllDigits(whole) && AllDigits(fraction) && |fraction| <= 2
    requires (whole == "" || whole[0] != '0') && (fraction == "" || fraction[|fraction| - 1] != '0')
    ensures |whole| <= 8 ==> 100 * Number(whole) + Padded(fraction) < MOST
    ensures |whole| > 8 ==> 100 * Number(whole) + Padded(fraction) >= MOST
    ensures whole != "" || fraction != "" ==> 100 * Number(whole) + Padded(fraction) >= 1
    ensures whole == "" && fraction == "" ==> Number(whole) == Padded(fraction) == 0
  {
    NumberIsBounded(whole);
    NumberOfFew(fraction);
    TenToTheEighth();
    if |whole| <= 8 { PowersGrow(|whole|, 8); } else { PowersGrow(8, |whole| - 1); }
    if whole != "" { PowersGrow(0, |whole| - 1); }
  }

  lemma TenToTheEighth()
    ensures Power(8) == 100_000_000
  {
    assert Power(2) == 100 by { assert Power(1) == 10; }
    assert Power(4) == 10_000 by { PowersMultiply(2, 2); }
    PowersMultiply(4, 4);
  }

  /** An amount is accepted exactly when it is a decimal of 1 to 9,999,999,999 hundredths, and
      then written in the one shortest way: equal values give equal strings. */
  lemma ParseIsCanonical(s: string, minor: nat)
    requires WorthOf(s, minor)
    ensures ParseAmount(s) == if 1 <= minor < MOST then Some(Show(minor)) else None
  {
    var whole, fraction := TrimLeft(Whole(s)), TrimRight(Fraction(s));
    TrimKeepsDigits(Whole(s));
    TrimKeepsDigits(Fraction(s));
    TrimLeftKeepsWorth(Whole(s), Fraction(s), minor);
    TrimRightKeepsWorth(whole, Fraction(s), minor);
    CanonicalIsShown(whole, fraction, minor);
  }

  lemma CanonicalIsShown(whole: string, fraction: string, minor: nat)
    requires AllDigits(whole) && AllDigits(fraction) && Worth(whole, fraction, minor)
    requires (whole == "" || whole[0] != '0') && (fraction == "" || fraction[|fraction| - 1] != '0')
    ensures Canonical(whole, fraction) == if 1 <= minor < MOST then Some(Show(minor)) else None
  {
    if |fraction| > 2 {
      LongIsNotWorth(whole, fraction, minor);
    } else {
      ShortIsWorth(whole, fraction);
      WorthIsUnique(whole, fraction, minor, 100 * Number(whole) + Padded(fraction));
      ShowIsCanonical(whole, fraction);
      ShowsParts(Number(whole), Padded(fraction));
      ShortIsInRange(whole, fraction);
    }
  }

  lemma {:induction false} CutIsWhole(whole: string, rest: string)
    requires AllDigits(whole) && (rest == "" || rest[0] == '.')
    ensures Cut(whole + rest) == |whole|
  {
    if whole == "" {
      assert whole + rest == rest;
    } else {
      CutIsWhole(whole[1..], rest);
      assert (whole + rest)[1..] == whole[1..] + rest;
    }
  }

  lemma ShowIsWorth(minor: nat)
    ensures WorthOf(Show(minor), minor)
    ensures Whole(Show(minor)) == Decimal(minor / 100) && |Fraction(Show(minor))| <= 2
    ensures AllDigits(Fraction(Show(minor))) && Padded(Fraction(Show(minor))) == minor % 100
  {
    var whole, cents := Decimal(minor / 100), minor % 100;
    CutIsWhole(whole, ShowCents(cents));
    NumberOfDecimal(minor / 100);
    var fraction := Fraction(Show(minor));
    assert Whole(Show(minor)) == whole;
    assert fraction == if cents == 0 then "" else if cents % 10 == 0 then [Shown(cents / 10)] else [Shown(cents / 10), Shown(cents % 10)];
    ShortIsWorth(whole, fraction);
    assert minor == 100 * (minor / 100) + cents;
  }

  lemma ParseIsIdempotent(s: string)
    requires ParseAmount(s).Some?
    ensures ParseAmount(ParseAmount(s).value) == ParseAmount(s)
  {
    ParsedIsShown(s);
    ShowIsWorth(Hundredths(s));
    ParseIsCanonical(Show(Hundredths(s)), Hundredths(s));
  }

  function Zeros(n: nat): string { if n == 0 then "" else "0" + Zeros(n - 1) }

  /** The hundredths of a canonical amount, read from its digits. */
  function MinorAmount(s: string): Option<nat> {
    if |Fraction(s)| > 2 then None
    else
      var digits := Whole(s) + Fraction(s) + Zeros(2 - |Fraction(s)|);
      if AllDigits(digits) then Some(Number(digits)) else None
  }

  lemma PaddingMultiplies(fraction: string)
    requires |fraction| <= 2 && AllDigits(fraction)
    ensures AllDigits(fraction + Zeros(2 - |fraction|)) && |fraction + Zeros(2 - |fraction|)| == 2
    ensures Number(fraction + Zeros(2 - |fraction|)) == Padded(fraction)
  {
    assert Zeros(0) == "" && Zeros(1) == "0" && Zeros(2) == "00";
    var padded := fraction + Zeros(2 - |fraction|);
    assert Padded(padded) == Padded(fraction);
    NumberOfFew(padded);
  }

  lemma PartsGiveMinor(whole: string, fraction: string)
    requires AllDigits(whole) && AllDigits(fraction) && |fraction| <= 2
    ensures var digits := whole + fraction + Zeros(2 - |fraction|);
      AllDigits(digits) && Number(digits) == 100 * Number(whole) + Padded(fraction)
  {
    PaddingMultiplies(fraction);
    var padded := fraction + Zeros(2 - |fraction|);
    NumberOfSum(whole, padded);
    assert whole + fraction + Zeros(2 - |fraction|) == whole + padded;
    assert Power(2) == 100 by { assert Power(1) == 10; }
  }

  lemma MinorOfShow(minor: nat)
    ensures MinorAmount(Show(minor)) == Some(minor)
  {
    ShowIsWorth(minor);
    PartsGiveMinor(Whole(Show(minor)), Fraction(Show(minor)));
    NumberOfDecimal(minor / 100);
  }

  /** Hundredths decide order exactly as the values of the parsed amounts do. */
  lemma MinorIsExact(s: string)
    requires ParseAmount(s).Some?
    ensures MinorAmount(ParseAmount(s).value).Some? && WorthOf(s, MinorAmount(ParseAmount(s).value).value)
  {
    ParsedIsShown(s);
    MinorOfShow(Hundredths(s));
  }

  /** Two accepted amounts are the same string exactly when they are worth the same. */
  lemma EqualExactlyWhenWorthTheSame(s: string, t: string, a: nat, b: nat)
    requires ParseAmount(s).Some? && ParseAmount(t).Some? && WorthOf(s, a) && WorthOf(t, b)
    ensures ParseAmount(s) == ParseAmount(t) <==> a == b
    ensures MinorAmount(ParseAmount(s).value) == Some(a)
  {
    ParseIsCanonical(s, a);
    ParseIsCanonical(t, b);
    MinorOfShow(a);
    MinorOfShow(b);
  }

  // ---------------------------------------------------------------- one price among several

  datatype Price = Price(amount: string, currency: string)

  const Poison := Price("", "")

  /** Currency codes compare without case. */
  predicate IsEuro(currency: string) {
    |currency| == 3 && currency[0] in "Ee" && currency[1] in "Uu" && currency[2] in "Rr"
  }

  predicate Unsupported(p: Price) { p.amount != "" && !IsEuro(p.currency) }

  /** The amounts found, None standing for all that cannot be read. */
  function Amounts(prices: seq<Price>): set<Option<string>> {
    set p | p in prices :: ParseAmount(p.amount)
  }

  predicate SomeUnsupported(prices: seq<Price>) { exists p :: p in prices && Unsupported(p) }

  /** The one readable amount every price agrees on, when all are in euros. */
  ghost predicate Agreed(prices: seq<Price>, amount: string) {
    && prices != [] && !SomeUnsupported(prices)
    && forall p :: p in prices ==> ParseAmount(p.amount) == Some(amount)
  }

  method ChoosePrice(prices: seq<Price>) returns (amount: Option<string>, unsupported: bool)
    ensures unsupported <==> SomeUnsupported(prices)
    ensures forall a :: amount == Some(a) <==> Agreed(prices, a)
  {
    var distinct: set<Option<string>> := {};
    unsupported := false;
    for i := 0 to |prices|
      invariant unsupported == SomeUnsupported(prices[..i]) && distinct == Amounts(prices[..i])
    {
      OnePriceMore(prices, i);
      if Unsupported(prices[i]) {
        unsupported := true;
      }
      distinct := distinct + {ParseAmount(prices[i].amount)};
    }
    assert prices[..|prices|] == prices;
    amount := None;
    if !unsupported && |distinct| == 1 {
      amount :| amount in distinct;
      OnlyMember(distinct, amount);
    }
    forall a ensures amount == Some(a) <==> Agreed(prices, a) {
      AgreedIsSingle(prices, a);
    }
  }

  lemma OnePriceMore(prices: seq<Price>, i: nat)
    requires i < |prices|
    ensures Amounts(prices[..i + 1]) == Amounts(prices[..i]) + {ParseAmount(prices[i].amount)}
    ensures SomeUnsupported(prices[..i + 1]) == (SomeUnsupported(prices[..i]) || Unsupported(prices[i]))
  {
    assert prices[..i + 1] == prices[..i] + [prices[i]];
  }

  lemma AgreedIsSingle(prices: seq<Price>, amount: string)
    ensures Agreed(prices, amount) <==> !SomeUnsupported(prices) && Amounts(prices) == {Some(amount)}
  {
    if Agreed(prices, amount) {
      assert prices[0] in prices;
      assert ParseAmount(prices[0].amount) in Amounts(prices);
    } else if Amounts(prices) == {Some(amount)} {
      forall p | p in prices ensures ParseAmount(p.amount) == Some(amount) {
        assert ParseAmount(p.amount) in Amounts(prices);
      }
    }
  }

  lemma OnlyMember<T>(s: set<T>, x: T)
    requires x in s && |s| == 1
    ensures s == {x}
  {
    assert |s - {x}| == 0;
  }

  /** The choice depends on the prices, not on their order or repetition. */
  lemma ChoiceIgnoresOrder(a: seq<Price>, b: seq<Price>, amount: string)
    requires forall p :: p in a <==> p in b
    ensures Agreed(a, amount) <==> Agreed(b, amount)
    ensures SomeUnsupported(a) <==> SomeUnsupported(b)
  {
    assert a != [] ==> a[0] in b;
    assert b != [] ==> b[0] in a;
  }

  // ---------------------------------------------------------------- the prices of an offer tree

  const MAXIMUM_DEPTH := 64
  const MAXIMUM_OFFERS := 256

  datatype Spec = Spec(struck: bool, amount: string, currency: string)

  datatype Offer = Offer(aggregate: bool, amount: string, currency: string, specs: seq<Spec>,
                         low: string, high: string, count: string, offers: seq<Offer>)

  /** The declared prices of the specifications that are not struck through. */
  function SpecPrices(specs: seq<Spec>, currency: string): seq<Price> {
    if specs == [] then []
    else
      var s := specs[|specs| - 1];
      SpecPrices(specs[..|specs| - 1], currency) +
      if s.struck || s.amount == "" then [] else [Price(s.amount, if s.currency == "" then currency else s.currency)]
  }

  /** A single offer's own prices; one without any contributes an unreadable one. */
  function LeafPrices(o: Offer): (r: seq<Price>)
    ensures r != []
  {
    if o.amount != "" then [Price(o.amount, o.currency)]
    else
      var found := SpecPrices(o.specs, o.currency);
      if found == [] then [Price("", o.currency)] else found
  }

  /** What an aggregate without children stands for. */
  function AggregatePrice(o: Offer): Price {
    if o.amount == "" && o.low != "" then
      var low, high := ParseAmount(o.low), ParseAmount(o.high);
      Price(if low.Some? && low == high then low.value else if o.count == "1" then o.low else "", o.currency)
    else Price(o.amount, o.currency)
  }

  predicate Excessive(offers: seq<Offer>, depth: nat) { depth > MAXIMUM_DEPTH || |offers| > MAXIMUM_OFFERS }

  function CollectOfferPrices(offers: seq<Offer>, depth: nat): (r: seq<Price>)
    ensures offers != [] ==> r != []
    decreases offers, 1, 0
  {
    if Excessive(offers, depth) then [Poison]
    else if Concrete(offers, depth, |offers|) != [] then Concrete(offers, depth, |offers|)
    else AggregatePrices(offers)
  }

  /** What the first offers contribute as concrete prices. */
  function Concrete(offers: seq<Offer>, depth: nat, n: nat): (r: seq<Price>)
    requires n <= |offers|
    ensures r == [] ==> forall i :: 0 <= i < n ==> offers[i].aggregate
    decreases offers, 0, n
  {
    if n == 0 then []
    else
      var o := offers[n - 1];
      Concrete(offers, depth, n - 1) + if o.aggregate then CollectOfferPrices(o.offers, depth + 1) else LeafPrices(o)
  }

  /** The aggregates' own prices count only where nothing is concrete. */
  function AggregatePrices(offers: seq<Offer>): (r: seq<Price>)
    ensures |r| == |offers|
  {
    seq(|offers|, i requires 0 <= i < |offers| => AggregatePrice(offers[i]))
  }

  method CollectPrices(offers: seq<Offer>, depth: nat) returns (prices: seq<Price>)
    ensures prices == CollectOfferPrices(offers, depth)
    decreases offers
  {
    if depth > MAXIMUM_DEPTH || |offers| > MAXIMUM_OFFERS {
      return [Poison];
    }
    var concrete, aggregate := [], [];
    for n := 0 to |offers|
      invariant concrete == Concrete(offers, depth, n)
      invariant concrete == [] ==> aggregate == AggregatePrices(offers)[..n]
    {
      var o := offers[n];
      if o.aggregate {
        var children := CollectPrices(o.offers, depth + 1);
        if |children| > 0 {
          concrete := concrete + children;
        } else {
          aggregate := aggregate + [AggregatePrice(o)];
        }
      } else {
        var own := OwnPrices(o);
        concrete := concrete + own;
      }
    }
    prices := if |concrete| > 0 then concrete else aggregate;
  }

  method OwnPrices(o: Offer) returns (prices: seq<Price>)
    ensures prices == LeafPrices(o)
  {
    if o.amount != "" {
      return [Price(o.amount, o.currency)];
    }
    prices := [];
    for n := 0 to |o.specs|
      invariant prices == SpecPrices(o.specs[..n], o.currency)
    {
      var s := o.specs[n];
      assert o.specs[..n + 1][..n] == o.specs[..n];
      if !s.struck && s.amount != "" {
        prices := prices + [Price(s.amount, if s.currency == "" then o.currency else s.currency)];
      }
    }
    assert o.specs[..|o.specs|] == o.specs;
    if prices == [] {
      prices := [Price("", o.currency)];
    }
  }

  // ---------------------------------------------------------------- what a chosen price means

  /** The offers that are not aggregates, as far as the tree is followed. */
  ghost function Leaves(offers: seq<Offer>, depth: nat): set<Offer>
    decreases offers, 1
  {
    if Excessive(offers, depth) then {} else set o, leaf | o in offers && leaf in LeavesOf(o, depth) :: leaf
  }

  ghost function LeavesOf(o: Offer, depth: nat): set<Offer>
    decreases o, 0
  {
    if o.aggregate then Leaves(o.offers, depth + 1) else {o}
  }

  /** Somewhere the tree is too deep or too wide. */
  ghost predicate Overflows(offers: seq<Offer>, depth: nat)
    decreases offers
  {
    Excessive(offers, depth) || exists i :: 0 <= i < |offers| && offers[i].aggregate && Overflows(offers[i].offers, depth + 1)
  }

  lemma {:induction false} ConcreteContains(offers: seq<Offer>, depth: nat, n: nat, i: nat, p: Price)
    requires i < n <= |offers|
    requires p in if offers[i].aggregate then CollectOfferPrices(offers[i].offers, depth + 1) else LeafPrices(offers[i])
    ensures p in Concrete(offers, depth, n)
    decreases n
  {
    if i < n - 1 { ConcreteContains(offers, depth, n - 1, i, p); }
  }

  lemma CollectContains(offers: seq<Offer>, depth: nat, i: nat, p: Price)
    requires i < |offers| && !Excessive(offers, depth)
    requires p in if offers[i].aggregate then CollectOfferPrices(offers[i].offers, depth + 1) else LeafPrices(offers[i])
    ensures p in CollectOfferPrices(offers, depth)
  {
    ConcreteContains(offers, depth, |offers|, i, p);
  }

  /** Every price of every single offer in the tree is among those collected. */
  lemma {:induction false} LeafPricesAreCollected(offers: seq<Offer>, depth: nat, leaf: Offer, p: Price)
    requires leaf in Leaves(offers, depth) && p in LeafPrices(leaf)
    ensures p in CollectOfferPrices(offers, depth)
    decreases offers
  {
    var o :| o in offers && leaf in LeavesOf(o, depth);
    var i :| 0 <= i < |offers| && offers[i] == o;
    if o.aggregate { LeafPricesAreCollected(o.offers, depth + 1, leaf, p); }
    CollectContains(offers, depth, i, p);
  }

  /** A tree that is cut off anywhere poisons the whole collection. */
  lemma {:induction false} OverflowPoisons(offers: seq<Offer>, depth: nat)
    requires Overflows(offers, depth)
    ensures Poison in CollectOfferPrices(offers, depth)
    decreases offers
  {
    if !Excessive(offers, depth) {
      var i :| 0 <= i < |offers| && offers[i].aggregate && Overflows(offers[i].offers, depth + 1);
      OverflowPoisons(offers[i].offers, depth + 1);
      CollectContains(offers, depth, i, Poison);
    }
  }

  /** A single offer declares the amount in euros, and nothing else. */
  ghost predicate DeclaresOnly(o: Offer, amount: string) {
    if o.amount != "" then ParseAmount(o.amount) == Some(amount) && IsEuro(o.currency)
    else
      && (exists s :: s in o.specs && !s.struck && s.amount != "")
      && forall s :: s in o.specs && !s.struck && s.amount != "" ==>
           ParseAmount(s.amount) == Some(amount) && IsEuro(if s.currency == "" then o.currency else s.currency)
  }

  lemma {:induction false} SpecPricesContain(specs: seq<Spec>, currency: string)
    ensures forall s :: s in specs && !s.struck && s.amount != "" ==>
              Price(s.amount, if s.currency == "" then currency else s.currency) in SpecPrices(specs, currency)
    ensures SpecPrices(specs, currency) != [] ==> exists s :: s in specs && !s.struck && s.amount != ""
  {
    if specs != [] {
      var front, last := specs[..|specs| - 1], specs[|specs| - 1];
      SpecPricesContain(front, currency);
      assert specs == front + [last];
      if SpecPrices(front, currency) != [] {
        var s :| s in front && !s.struck && s.amount != "";
        assert s in specs;
      }
    }
  }

  lemma EmptyIsUnreadable()
    ensures ParseAmount("") == None
  {
    assert Cut("") == 0;
    assert TrimLeft("") == "" && TrimRight("") == "";
  }

  lemma AgreedLeafDeclares(o: Offer, amount: string)
    requires forall p :: p in LeafPrices(o) ==> ParseAmount(p.amount) == Some(amount) && !Unsupported(p)
    ensures DeclaresOnly(o, amount)
  {
    EmptyIsUnreadable();
    SpecPricesContain(o.specs, o.currency);
    assert o.amount == "" && SpecPrices(o.specs, o.currency) == [] ==> Price("", o.currency) in LeafPrices(o);
    if o.amount == "" {
      forall s | s in o.specs && !s.struck && s.amount != ""
        ensures ParseAmount(s.amount) == Some(amount) && IsEuro(if s.currency == "" then o.currency else s.currency)
      {
        assert Price(s.amount, if s.currency == "" then o.currency else s.currency) in LeafPrices(o);
      }
    } else {
      assert Price(o.amount, o.currency) in LeafPrices(o);
    }
  }

  /** A price is chosen from an offer tree only when the tree was followed completely and every
      single offer in it declares exactly that amount, in euros. */
  lemma ChosenPriceIsEveryones(offers: seq<Offer>, amount: string, leaf: Offer)
    requires Agreed(CollectOfferPrices(offers, 0), amount)
    ensures !Overflows(offers, 0)
    ensures leaf in Leaves(offers, 0) ==> DeclaresOnly(leaf, amount)
  {
    EmptyIsUnreadable();
    var prices := CollectOfferPrices(offers, 0);
    if Overflows(offers, 0) { OverflowPoisons(offers, 0); }
    if leaf in Leaves(offers, 0) {
      forall p | p in LeafPrices(leaf) ensures ParseAmount(p.amount) == Some(amount) && !Unsupported(p) {
        LeafPricesAreCollected(offers, 0, leaf, p);
      }
      AgreedLeafDeclares(leaf, amount);
    }
  }
}
