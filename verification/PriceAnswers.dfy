/** Which price is chosen from an offer tree, told offer by offer: who has a say, and what each of them has to declare. */
module PriceAnswers {
  import opened Common
  import opened Prices

  // ---------------------------------------------------------------- who has a say

  predicate AllBare(offers: seq<Offer>) { forall o :: o in offers ==> o.aggregate && o.offers == [] }

  /** The aggregates that speak for themselves: they stand among nothing but aggregates without offers. */
  ghost function Bare(offers: seq<Offer>, depth: nat): set<Offer>
    decreases offers, 1
  {
    if Excessive(offers, depth) then {}
    else if depth < 64 && AllBare(offers) then set o | o in offers
    else set o, b | o in offers && b in BareBelow(o, depth) :: b
  }

  ghost function BareBelow(o: Offer, depth: nat): set<Offer>
    decreases o, 0
  {
    if o.aggregate then Bare(o.offers, depth + 1) else {}
  }

  ghost predicate LeafSays(offers: seq<Offer>, depth: nat, p: Price) { exists leaf :: leaf in Leaves(offers, depth) && p in LeafPrices(leaf) }

  ghost predicate BareSays(offers: seq<Offer>, depth: nat, p: Price) { exists o :: o in Bare(offers, depth) && p == AggregatePrice(o) }

  ghost predicate Said(offers: seq<Offer>, depth: nat, p: Price) {
    (p == Poison && Overflows(offers, depth)) || LeafSays(offers, depth, p) || BareSays(offers, depth, p)
  }

  /** What is collected is what the single offers and the aggregates without any beside them say, and nothing else. */
  lemma CollectedIsSaid(offers: seq<Offer>, depth: nat, p: Price)
    ensures p in CollectOfferPrices(offers, depth) <==> Said(offers, depth, p)
  {
    if p in CollectOfferPrices(offers, depth) { CollectedWasSaid(offers, depth, p); }
    if p == Poison && Overflows(offers, depth) { OverflowPoisons(offers, depth); }
    if LeafSays(offers, depth, p) {
      var leaf :| leaf in Leaves(offers, depth) && p in LeafPrices(leaf);
      LeafPricesAreCollected(offers, depth, leaf, p);
    }
    if BareSays(offers, depth, p) {
      var o :| o in Bare(offers, depth) && p == AggregatePrice(o);
      BareIsCollected(offers, depth, o);
    }
  }

  function Contributed(o: Offer, depth: nat): seq<Price> { if o.aggregate then CollectOfferPrices(o.offers, depth + 1) else LeafPrices(o) }

  lemma ConcreteGrows(offers: seq<Offer>, depth: nat, n: nat)
    requires 0 < n <= |offers|
    ensures Concrete(offers, depth, n) == Concrete(offers, depth, n - 1) + Contributed(offers[n - 1], depth)
  {
  }

  lemma {:induction false} ConcreteComesFrom(offers: seq<Offer>, depth: nat, n: nat, p: Price)
    requires n <= |offers| && p in Concrete(offers, depth, n)
    ensures exists o :: o in offers && p in Contributed(o, depth)
    decreases n
  {
    ConcreteGrows(offers, depth, n);
    if p in Contributed(offers[n - 1], depth) {
      assert offers[n - 1] in offers;
    } else {
      ConcreteComesFrom(offers, depth, n - 1, p);
    }
  }

  lemma BareContributesNothing(o: Offer, depth: nat)
    ensures Contributed(o, depth) == [] <==> o.aggregate && o.offers == [] && depth < 64
  {
  }

  lemma NothingConcrete(offers: seq<Offer>, depth: nat)
    requires offers != []
    ensures Concrete(offers, depth, |offers|) == [] <==> depth < 64 && AllBare(offers)
  {
    var concrete := Concrete(offers, depth, |offers|);
    if concrete == [] {
      forall i | 0 <= i < |offers| ensures offers[i].aggregate && offers[i].offers == [] && depth < 64 {
        BareContributesNothing(offers[i], depth);
        var c := Contributed(offers[i], depth);
        if c != [] { ConcreteContains(offers, depth, |offers|, i, c[0]); }
      }
      assert offers[0].aggregate;
    } else {
      ConcreteComesFrom(offers, depth, |offers|, concrete[0]);
      var o :| o in offers && concrete[0] in Contributed(o, depth);
      BareContributesNothing(o, depth);
    }
  }

  lemma {:induction false} CollectedWasSaid(offers: seq<Offer>, depth: nat, p: Price)
    requires p in CollectOfferPrices(offers, depth)
    ensures Said(offers, depth, p)
    decreases offers
  {
    if !Excessive(offers, depth) && offers != [] {
      NothingConcrete(offers, depth);
      if Concrete(offers, depth, |offers|) != [] {
        ConcreteComesFrom(offers, depth, |offers|, p);
        var o :| o in offers && p in Contributed(o, depth);
        if o.aggregate {
          CollectedWasSaid(o.offers, depth + 1, p);
          SayingGoesUp(offers, depth, o, p);
        } else {
          assert o in LeavesOf(o, depth);
        }
      } else {
        var i :| 0 <= i < |offers| && p == AggregatePrice(offers[i]);
        assert offers[i] in Bare(offers, depth);
      }
    }
  }

  lemma SayingGoesUp(offers: seq<Offer>, depth: nat, o: Offer, p: Price)
    requires !Excessive(offers, depth) && o in offers && o.aggregate && !(depth < 64 && AllBare(offers)) && Said(o.offers, depth + 1, p)
    ensures Said(offers, depth, p)
  {
    if LeafSays(o.offers, depth + 1, p) {
      var leaf :| leaf in Leaves(o.offers, depth + 1) && p in LeafPrices(leaf);
      assert leaf in LeavesOf(o, depth);
      assert leaf in Leaves(offers, depth);
    } else if BareSays(o.offers, depth + 1, p) {
      var b :| b in Bare(o.offers, depth + 1) && p == AggregatePrice(b);
      assert b in BareBelow(o, depth);
      assert b in Bare(offers, depth);
    }
  }

  lemma {:induction false} BareIsCollected(offers: seq<Offer>, depth: nat, b: Offer)
    requires b in Bare(offers, depth)
    ensures AggregatePrice(b) in CollectOfferPrices(offers, depth)
    decreases offers
  {
    assert offers != [];
    NothingConcrete(offers, depth);
    if depth < 64 && AllBare(offers) {
      var i :| 0 <= i < |offers| && offers[i] == b;
      assert AggregatePrices(offers)[i] == AggregatePrice(b);
    } else {
      var o :| o in offers && b in BareBelow(o, depth);
      var i :| 0 <= i < |offers| && offers[i] == o;
      BareIsCollected(o.offers, depth + 1, b);
      CollectContains(offers, depth, i, AggregatePrice(b));
    }
  }

  // ---------------------------------------------------------------- what they have to declare

  /** An aggregate declares the amount in euros: outright, or by its low price when the high one is worth the same or
      there is only one offer. */
  predicate Summarises(o: Offer, amount: string) {
    && IsEuro(o.currency)
    && if o.amount != "" then ParseAmount(o.amount) == Some(amount)
       else ParseAmount(o.low) == Some(amount) && (ParseAmount(o.high) == Some(amount) || o.count == "1")
  }

  predicate Reads(p: Price, amount: string) { ParseAmount(p.amount) == Some(amount) && !Unsupported(p) }

  lemma AggregateReads(o: Offer, amount: string)
    ensures Reads(AggregatePrice(o), amount) <==> Summarises(o, amount)
  {
    EmptyIsUnreadable();
    if ParseAmount(o.low).Some? { ParseIsIdempotent(o.low); }
  }

  lemma LeafReads(o: Offer, amount: string)
    ensures (forall p :: p in LeafPrices(o) ==> Reads(p, amount)) <==> DeclaresOnly(o, amount)
  {
    EmptyIsUnreadable();
    if forall p :: p in LeafPrices(o) ==> Reads(p, amount) {
      AgreedLeafDeclares(o, amount);
    } else if DeclaresOnly(o, amount) && o.amount == "" {
      forall p | p in LeafPrices(o) ensures Reads(p, amount) {
        SpecPricesContain(o.specs, o.currency);
        SpecPriceComesFrom(o.specs, o.currency, p);
      }
    }
  }

  lemma {:induction false} SpecPriceComesFrom(specs: seq<Spec>, currency: string, p: Price)
    requires p in SpecPrices(specs, currency)
    ensures exists s :: s in specs && !s.struck && s.amount != "" && p == Price(s.amount, if s.currency == "" then currency else s.currency)
  {
    if specs != [] {
      var front, last := specs[..|specs| - 1], specs[|specs| - 1];
      if p in SpecPrices(front, currency) { SpecPriceComesFrom(front, currency, p); }
      assert specs == front + [last];
    }
  }

  /** An amount is chosen exactly when there is an offer, the tree is followed completely, every single offer declares
      that amount and no other, and so does every aggregate that speaks for itself. */
  lemma ChosenExactly(offers: seq<Offer>, amount: string)
    ensures Agreed(CollectOfferPrices(offers, 0), amount) <==>
      && offers != [] && !Overflows(offers, 0)
      && (forall leaf :: leaf in Leaves(offers, 0) ==> DeclaresOnly(leaf, amount))
      && (forall o :: o in Bare(offers, 0) ==> Summarises(o, amount))
  {
    var prices := CollectOfferPrices(offers, 0);
    assert offers == [] ==> prices == [];
    assert Agreed(prices, amount) <==> prices != [] && forall p :: p in prices ==> Reads(p, amount);
    if offers != [] {
      forall p ensures p in prices <==> Said(offers, 0, p) { CollectedIsSaid(offers, 0, p); }
      forall o ensures Reads(AggregatePrice(o), amount) <==> Summarises(o, amount) { AggregateReads(o, amount); }
      forall o ensures (forall p :: p in LeafPrices(o) ==> Reads(p, amount)) <==> DeclaresOnly(o, amount) { LeafReads(o, amount); }
      EmptyIsUnreadable();
    }
  }

  /** A range of two different prices says nothing about more than one offer. */
  lemma RangesAreUnreadable(o: Offer, amount: string)
    requires o.amount == "" && ParseAmount(o.low) != ParseAmount(o.high) && o.count != "1"
    ensures ParseAmount(AggregatePrice(o).amount) == None && !Unsupported(AggregatePrice(o))
  {
    EmptyIsUnreadable();
  }

  // ---------------------------------------------------------------- other currencies

  /** A single offer states an amount in another currency. */
  predicate NamesForeign(o: Offer) {
    if o.amount != "" then !IsEuro(o.currency)
    else exists s :: s in o.specs && !s.struck && s.amount != "" && !IsEuro(if s.currency == "" then o.currency else s.currency)
  }

  /** An aggregate states one: outright, or by a range of one price or for one offer. */
  predicate SummarisesForeign(o: Offer) {
    && !IsEuro(o.currency)
    && (o.amount != "" || (o.low != "" && (o.count == "1" || (ParseAmount(o.low).Some? && ParseAmount(o.low) == ParseAmount(o.high)))))
  }

  lemma LeafNamesForeign(o: Offer)
    ensures (exists p :: p in LeafPrices(o) && Unsupported(p)) <==> NamesForeign(o)
  {
    SpecPricesContain(o.specs, o.currency);
    if o.amount != "" {
      assert Price(o.amount, o.currency) in LeafPrices(o);
    } else if NamesForeign(o) {
      var s :| s in o.specs && !s.struck && s.amount != "" && !IsEuro(if s.currency == "" then o.currency else s.currency);
      assert Price(s.amount, if s.currency == "" then o.currency else s.currency) in LeafPrices(o);
    } else {
      forall p | p in LeafPrices(o) && p.amount != "" ensures !Unsupported(p) { SpecPriceComesFrom(o.specs, o.currency, p); }
    }
  }

  lemma AggregateSummarisesForeign(o: Offer)
    ensures Unsupported(AggregatePrice(o)) <==> SummarisesForeign(o)
  {
    EmptyIsUnreadable();
    if ParseAmount(o.low).Some? { ParseIsIdempotent(o.low); }
  }

  /** Another currency is reported exactly when someone who has a say states an amount in one. */
  lemma UnsupportedExactly(offers: seq<Offer>)
    ensures SomeUnsupported(CollectOfferPrices(offers, 0)) <==>
      || (exists leaf :: leaf in Leaves(offers, 0) && NamesForeign(leaf))
      || (exists o :: o in Bare(offers, 0) && SummarisesForeign(o))
  {
    var prices := CollectOfferPrices(offers, 0);
    forall p ensures p in prices <==> Said(offers, 0, p) { CollectedIsSaid(offers, 0, p); }
    forall o ensures Unsupported(AggregatePrice(o)) <==> SummarisesForeign(o) { AggregateSummarisesForeign(o); }
    forall o ensures (exists p :: p in LeafPrices(o) && Unsupported(p)) <==> NamesForeign(o) { LeafNamesForeign(o); }
    if o :| o in Bare(offers, 0) && SummarisesForeign(o) {
      assert BareSays(offers, 0, AggregatePrice(o));
    }
    if leaf :| leaf in Leaves(offers, 0) && NamesForeign(leaf) {
      var p :| p in LeafPrices(leaf) && Unsupported(p);
      assert LeafSays(offers, 0, p);
    }
  }
}
