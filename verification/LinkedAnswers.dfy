/** What expanded products consist of, told from the documents: where definitions and products are found, and which
    values an expansion takes from which definition. */
module LinkedAnswers {
  import opened Common
  import opened LinkedData

  // ---------------------------------------------------------------- places in a document

  datatype Crumb = Item(i: nat) | Member(k: string)

  /** The way leads from the value to this part of it. */
  predicate Leads(value: Json, way: seq<Crumb>, part: Json) {
    if way == [] then value == part
    else if way[0].Item? then value.Arr? && way[0].i < |value.items| && Leads(value.items[way[0].i], way[1..], part)
    else value.Obj? && way[0].k in value.fields && Leads(value.fields[way[0].k], way[1..], part)
  }

  ghost predicate Occurs(value: Json, part: Json) { exists way :: Leads(value, way, part) }

  lemma GoesOn(value: Json, c: Crumb, way: seq<Crumb>, part: Json)
    ensures c.Item? && value.Arr? && c.i < |value.items| && Leads(value.items[c.i], way, part) ==> Leads(value, [c] + way, part)
    ensures c.Member? && value.Obj? && c.k in value.fields && Leads(value.fields[c.k], way, part) ==> Leads(value, [c] + way, part)
  {
    assert ([c] + way)[1..] == way;
  }

  /** Definitions are exactly the identified objects, anywhere in the documents, that say more than their name. */
  lemma {:induction false} DefinitionsAreEverywhere(resolve: Resolver, value: Json, d: Definition)
    ensures d in Definitions(resolve, value) <==>
      Occurs(value, Obj(d.fields)) && d.id != "" && d.id == Key(resolve, d.fields) && |d.fields| > 1
    decreases value
  {
    if d in Definitions(resolve, value) {
      DefinitionsOccur(resolve, value, d);
    } else if Occurs(value, Obj(d.fields)) && d.id != "" && d.id == Key(resolve, d.fields) && |d.fields| > 1 {
      var way :| Leads(value, way, Obj(d.fields));
      OccurringIsDefined(resolve, value, way, d);
    }
  }

  lemma {:induction false} DefinitionsOccur(resolve: Resolver, value: Json, d: Definition)
    requires d in Definitions(resolve, value)
    ensures Occurs(value, Obj(d.fields)) && d.id != "" && d.id == Key(resolve, d.fields) && |d.fields| > 1
    decreases value
  {
    match value
    case Arr(items) =>
      var i: nat :| i < |items| && d in Definitions(resolve, items[i]);
      DefinitionsOccur(resolve, items[i], d);
      var way :| Leads(items[i], way, Obj(d.fields));
      GoesOn(value, Item(i), way, Obj(d.fields));
    case Obj(fields) =>
      if d in Own(resolve, fields) {
        assert Leads(value, [], Obj(d.fields));
      } else {
        var k :| k in fields && d in Definitions(resolve, fields[k]);
        DefinitionsOccur(resolve, fields[k], d);
        var way :| Leads(fields[k], way, Obj(d.fields));
        GoesOn(value, Member(k), way, Obj(d.fields));
      }
    case _ =>
  }

  lemma {:induction false} OccurringIsDefined(resolve: Resolver, value: Json, way: seq<Crumb>, d: Definition)
    requires Leads(value, way, Obj(d.fields)) && d.id != "" && d.id == Key(resolve, d.fields) && |d.fields| > 1
    ensures d in Definitions(resolve, value)
    decreases |way|
  {
    if way == [] {
      assert d in Own(resolve, d.fields);
    } else {
      match way[0]
      case Item(i) => OccurringIsDefined(resolve, value.items[i], way[1..], d);
      case Member(k) => OccurringIsDefined(resolve, value.fields[k], way[1..], d);
    }
  }

  // ---------------------------------------------------------------- where products are looked for

  /** A way a search takes: through lists, and in objects that are not wanted themselves into their graph or main entity. */
  ghost predicate Searches(wanted: Fields -> bool, value: Json, way: seq<Crumb>, product: Fields) {
    if way == [] then value == Obj(product) && wanted(product)
    else if way[0].Item? then value.Arr? && way[0].i < |value.items| && Searches(wanted, value.items[way[0].i], way[1..], product)
    else
      && (way[0].k == "@graph" || way[0].k == "mainEntity") && value.Obj? && !wanted(value.fields) && way[0].k in value.fields
      && Searches(wanted, value.fields[way[0].k], way[1..], product)
  }

  predicate Earlier(a: Crumb, b: Crumb) {
    if a.Item? then b.Item? && a.i < b.i else b.Member? && a.k == "@graph" && b.k == "mainEntity"
  }

  /** Document order: earlier items first, and a graph before a main entity. */
  predicate Before(a: seq<Crumb>, b: seq<Crumb>) {
    a != [] && b != [] && (Earlier(a[0], b[0]) || (a[0] == b[0] && Before(a[1..], b[1..])))
  }

  predicate InOrder(ways: seq<seq<Crumb>>) { forall i, j :: 0 <= i < j < |ways| ==> Before(ways[i], ways[j]) }

  ghost predicate LeadTo(wanted: Fields -> bool, value: Json, room: int, products: seq<Fields>, ways: seq<seq<Crumb>>) {
    |ways| == |products| && forall i :: 0 <= i < |ways| ==> |ways[i]| <= room && Searches(wanted, value, ways[i], products[i])
  }

  /** The ways to the products, in document order, and no way of at most that many steps is missing. */
  ghost predicate AreAllWays(wanted: Fields -> bool, value: Json, room: int, products: seq<Fields>, ways: seq<seq<Crumb>>) {
    && LeadTo(wanted, value, room, products, ways) && InOrder(ways)
    && forall way, product :: |way| <= room && Searches(wanted, value, way, product) ==> way in ways
  }

  /** The same for the ways that begin with one of these steps. */
  ghost predicate AreWaysBy(wanted: Fields -> bool, value: Json, room: int, firsts: set<Crumb>, products: seq<Fields>, ways: seq<seq<Crumb>>) {
    LeadTo(wanted, value, room, products, ways) && InOrder(ways) && BeginBy(firsts, ways) && NoneMissing(wanted, value, room, firsts, ways)
  }

  predicate BeginBy(firsts: set<Crumb>, ways: seq<seq<Crumb>>) { forall i :: 0 <= i < |ways| ==> ways[i] != [] && ways[i][0] in firsts }

  ghost predicate NoneMissing(wanted: Fields -> bool, value: Json, room: int, firsts: set<Crumb>, ways: seq<seq<Crumb>>) {
    forall way, product :: 0 < |way| <= room && way[0] in firsts && Searches(wanted, value, way, product) ==> way in ways
  }

  /** The search finds, in document order and once for each way, exactly what it can reach in at most sixty-four steps. */
  lemma FoundOncePerWay(wanted: Fields -> bool, documents: seq<Json>)
    ensures exists ways :: AreAllWays(wanted, Arr(documents), 64, Found(wanted, Arr(documents), 0), ways)
  {
    var ways := WaysToFound(wanted, Arr(documents), 0);
  }

  lemma {:induction false} WaysToFound(wanted: Fields -> bool, value: Json, depth: nat) returns (ways: seq<seq<Crumb>>)
    ensures AreAllWays(wanted, value, 64 - depth, Found(wanted, value, depth), ways)
    decreases value, 1
  {
    ways := [];
    if depth <= 64 {
      match value
      case Arr(items) =>
        ways := WaysToItems(wanted, value, |items|, depth);
        ListsAreEntered(wanted, value, 64 - depth, Found(wanted, value, depth), ways);
      case Obj(fields) =>
        if wanted(fields) {
          ways := [[]];
        } else {
          ways := WaysToMembers(wanted, value, depth);
          NodesAreEntered(wanted, value, 64 - depth, Found(wanted, value, depth), ways);
        }
      case _ =>
    }
  }

  lemma ListsAreEntered(wanted: Fields -> bool, list: Json, room: int, products: seq<Fields>, ways: seq<seq<Crumb>>)
    requires list.Arr? && AreWaysBy(wanted, list, room, FirstItems(|list.items|), products, ways)
    ensures AreAllWays(wanted, list, room, products, ways)
  {
    forall way: seq<Crumb>, product | |way| <= room && Searches(wanted, list, way, product) ensures way in ways {
      assert way != [] && way[0] == Item(way[0].i);
    }
  }

  lemma NodesAreEntered(wanted: Fields -> bool, node: Json, room: int, products: seq<Fields>, ways: seq<seq<Crumb>>)
    requires node.Obj? && !wanted(node.fields) && AreWaysBy(wanted, node, room, {Member("@graph"), Member("mainEntity")}, products, ways)
    ensures AreAllWays(wanted, node, room, products, ways)
  {
    forall way: seq<Crumb>, product | |way| <= room && Searches(wanted, node, way, product) ensures way in ways {
      assert way != [] && way[0] == Member(way[0].k);
    }
  }

  function FirstItems(count: nat): set<Crumb> { set i: nat | i < count :: Item(i) }

  lemma {:induction false} WaysToItems(wanted: Fields -> bool, list: Json, count: nat, depth: nat) returns (ways: seq<seq<Crumb>>)
    requires list.Arr? && count <= |list.items|
    ensures AreWaysBy(wanted, list, 64 - depth, FirstItems(count), FoundAmong(wanted, list, count, depth + 1), ways)
    decreases list, 0, count
  {
    ways := [];
    if count > 0 {
      var preceding := WaysToItems(wanted, list, count - 1, depth);
      var last := WaysToFound(wanted, list.items[count - 1], depth + 1);
      ways := MoreWays(wanted, list, 64 - depth, FirstItems(count - 1), FoundAmong(wanted, list, count - 1, depth + 1), preceding,
        Item(count - 1), list.items[count - 1], Found(wanted, list.items[count - 1], depth + 1), last);
      assert FirstItems(count) == FirstItems(count - 1) + {Item(count - 1)};
    }
  }

  lemma {:induction false} WaysToMembers(wanted: Fields -> bool, node: Json, depth: nat) returns (ways: seq<seq<Crumb>>)
    requires node.Obj? && !wanted(node.fields) && depth <= 64
    ensures AreWaysBy(wanted, node, 64 - depth, {Member("@graph"), Member("mainEntity")}, Found(wanted, node, depth), ways)
    decreases node, 0, 1
  {
    var graph := WaysThrough(wanted, node, "@graph", depth, {}, [], []);
    var first := if "@graph" in node.fields then Found(wanted, node.fields["@graph"], depth + 1) else [];
    assert [] + first == first;
    ways := WaysThrough(wanted, node, "mainEntity", depth, {Member("@graph")}, first, graph);
  }

  lemma {:induction false} WaysThrough(wanted: Fields -> bool, node: Json, k: string, depth: nat,
                                       firsts: set<Crumb>, found: seq<Fields>, ways: seq<seq<Crumb>>) returns (r: seq<seq<Crumb>>)
    requires node.Obj? && !wanted(node.fields) && (k == "@graph" || k == "mainEntity")
    requires AreWaysBy(wanted, node, 64 - depth, firsts, found, ways) && forall a :: a in firsts ==> Earlier(a, Member(k))
    ensures AreWaysBy(wanted, node, 64 - depth, firsts + {Member(k)},
              found + if k in node.fields then Found(wanted, node.fields[k], depth + 1) else [], r)
    decreases node, 0, 0
  {
    r := ways;
    if k in node.fields {
      var below := WaysToFound(wanted, node.fields[k], depth + 1);
      r := MoreWays(wanted, node, 64 - depth, firsts, found, ways, Member(k), node.fields[k], Found(wanted, node.fields[k], depth + 1), below);
    } else {
      assert found + [] == found;
    }
  }

  predicate Enters(wanted: Fields -> bool, value: Json, c: Crumb, child: Json) {
    if c.Item? then value.Arr? && c.i < |value.items| && child == value.items[c.i]
    else (c.k == "@graph" || c.k == "mainEntity") && value.Obj? && !wanted(value.fields) && c.k in value.fields && child == value.fields[c.k]
  }

  lemma StepsIn(wanted: Fields -> bool, value: Json, c: Crumb, child: Json, way: seq<Crumb>, product: Fields)
    requires Enters(wanted, value, c, child)
    ensures Searches(wanted, value, [c] + way, product) == Searches(wanted, child, way, product)
  {
    assert ([c] + way)[1..] == way;
  }

  function Entered(c: Crumb, ways: seq<seq<Crumb>>): (r: seq<seq<Crumb>>)
    ensures |r| == |ways| && forall i :: 0 <= i < |r| ==> r[i] == [c] + ways[i] && r[i][1..] == ways[i]
  {
    seq(|ways|, i requires 0 <= i < |ways| => [c] + ways[i])
  }

  lemma MoreWays(wanted: Fields -> bool, value: Json, room: int, firsts: set<Crumb>, products: seq<Fields>, ways: seq<seq<Crumb>>,
                 c: Crumb, child: Json, below: seq<Fields>, waysBelow: seq<seq<Crumb>>) returns (r: seq<seq<Crumb>>)
    requires AreWaysBy(wanted, value, room, firsts, products, ways)
    requires Enters(wanted, value, c, child) && forall a :: a in firsts ==> Earlier(a, c)
    requires AreAllWays(wanted, child, room - 1, below, waysBelow)
    ensures AreWaysBy(wanted, value, room, firsts + {c}, products + below, r)
  {
    r := ways + Entered(c, waysBelow);
    EnteredLead(wanted, value, room, c, child, below, waysBelow);
    LeadOn(wanted, value, room, products, ways, below, Entered(c, waysBelow));
    EnteredFollow(ways, firsts, c, waysBelow);
    NoneIsMissing(wanted, value, room, firsts, ways, c, child, below, waysBelow);
  }

  lemma LeadOn(wanted: Fields -> bool, value: Json, room: int, products: seq<Fields>, ways: seq<seq<Crumb>>, more: seq<Fields>, moreWays: seq<seq<Crumb>>)
    requires LeadTo(wanted, value, room, products, ways) && LeadTo(wanted, value, room, more, moreWays)
    ensures LeadTo(wanted, value, room, products + more, ways + moreWays)
  {
  }

  lemma EnteredLead(wanted: Fields -> bool, value: Json, room: int, c: Crumb, child: Json, below: seq<Fields>, waysBelow: seq<seq<Crumb>>)
    requires Enters(wanted, value, c, child) && LeadTo(wanted, child, room - 1, below, waysBelow)
    ensures LeadTo(wanted, value, room, below, Entered(c, waysBelow))
  {
    forall i | 0 <= i < |waysBelow| ensures Searches(wanted, value, Entered(c, waysBelow)[i], below[i]) {
      StepsIn(wanted, value, c, child, waysBelow[i], below[i]);
    }
  }

  lemma EnteredFollow(ways: seq<seq<Crumb>>, firsts: set<Crumb>, c: Crumb, waysBelow: seq<seq<Crumb>>)
    requires InOrder(ways) && InOrder(waysBelow) && BeginBy(firsts, ways) && forall a :: a in firsts ==> Earlier(a, c)
    ensures InOrder(ways + Entered(c, waysBelow)) && BeginBy(firsts + {c}, ways + Entered(c, waysBelow))
  {
  }

  lemma NoneIsMissing(wanted: Fields -> bool, value: Json, room: int, firsts: set<Crumb>, ways: seq<seq<Crumb>>,
                      c: Crumb, child: Json, below: seq<Fields>, waysBelow: seq<seq<Crumb>>)
    requires NoneMissing(wanted, value, room, firsts, ways)
    requires Enters(wanted, value, c, child) && AreAllWays(wanted, child, room - 1, below, waysBelow)
    ensures NoneMissing(wanted, value, room, firsts + {c}, ways + Entered(c, waysBelow))
  {
    var entered := Entered(c, waysBelow);
    forall way, product | 0 < |way| <= room && way[0] in firsts + {c} && Searches(wanted, value, way, product) ensures way in ways + entered {
      if way[0] == c {
        assert way == [c] + way[1..];
        StepsIn(wanted, value, c, child, way[1..], product);
        var i :| 0 <= i < |waysBelow| && waysBelow[i] == way[1..];
        assert entered[i] == way;
      } else {
        assert way in ways;
      }
    }
  }

  // ---------------------------------------------------------------- what an expansion consists of

  /** Within some budget, the value expands to this. */
  ghost predicate ExpandsTo(resolve: Resolver, index: Index, value: Json, active: set<string>, depth: int, out: Json) {
    exists budget: nat :: Expands(Expand(resolve, index, value, active, depth, budget), out)
  }

  predicate Expands(r: Expansion, out: Json) { r.Expanded? && r.value == out }

  /** Plain values stay, lists expand item by item. */
  lemma ValuesExpandAlike(resolve: Resolver, index: Index, value: Json, active: set<string>, depth: int, out: Json)
    requires ExpandsTo(resolve, index, value, active, depth, out)
    ensures !value.Arr? && !value.Obj? ==> out == value
    ensures value.Arr? ==>
      && out.Arr? && |out.items| == |value.items|
      && forall i :: 0 <= i < |value.items| ==> ExpandsTo(resolve, index, value.items[i], active, depth + 1, out.items[i])
  {
    var budget: nat :| Expands(Expand(resolve, index, value, active, depth, budget), out);
    if value.Arr? { ItemsExpand(resolve, index, value.items, [], active, depth + 1, budget - 1); }
  }

  lemma {:induction false} ItemsExpand(resolve: Resolver, index: Index, items: seq<Json>, out: seq<Json>, active: set<string>, depth: int, remaining: nat)
    requires ExpandItems(resolve, index, items, out, active, depth, remaining).Expanded?
    ensures var r := ExpandItems(resolve, index, items, out, active, depth, remaining).value;
      && r.Arr? && |r.items| == |out| + |items| && r.items[..|out|] == out
      && forall i :: 0 <= i < |items| ==> ExpandsTo(resolve, index, items[i], active, depth, r.items[|out| + i])
    decreases |items|
  {
    if items != [] {
      var first := Expand(resolve, index, items[0], active, depth, remaining);
      assert Expands(first, first.value);
      ItemsExpand(resolve, index, items[1..], out + [first.value], active, depth, first.remaining);
      var r := ExpandItems(resolve, index, items, out, active, depth, remaining).value;
      forall i | 0 <= i < |items| ensures ExpandsTo(resolve, index, items[i], active, depth, r.items[|out| + i]) {
        if i == 0 { assert r.items[|out|] == r.items[..|out| + 1][|out|]; } else { assert items[i] == items[1..][i - 1]; }
      }
      assert r.items[..|out|] == r.items[..|out| + 1][..|out|];
    }
  }

  /** Every relation of an object comes out expanded. */
  lemma {:induction false} RelationsExpand(resolve: Resolver, index: Index, keys: seq<string>, out: Fields, active: set<string>, depth: int, remaining: nat)
    requires Distinct(keys) && ExpandFields(resolve, index, keys, out, active, depth, remaining).Expanded?
    ensures var r := ExpandFields(resolve, index, keys, out, active, depth, remaining).value.fields;
      forall k :: k in out && k in keys ==> k in r && ExpandsTo(resolve, index, out[k], active, depth, r[k])
    decreases |keys|
  {
    if keys != [] {
      var k, rest := keys[0], keys[1..];
      assert k !in rest;
      if k !in out {
        RelationsExpand(resolve, index, rest, out, active, depth, remaining);
        OtherMembersStay(resolve, index, rest, out, active, depth, remaining);
      } else {
        var first := Expand(resolve, index, out[k], active, depth, remaining);
        assert Expands(first, first.value);
        var more := out[k := first.value];
        RelationsExpand(resolve, index, rest, more, active, depth, first.remaining);
        OtherMembersStay(resolve, index, rest, more, active, depth, first.remaining);
      }
      assert forall x :: x in keys ==> x == k || x in rest;
    }
  }

  /** The definition an object takes members from: the undisputed one of its identifier, unless that is open. */
  predicate Consults(index: Index, id: string, active: set<string>) { id in index && index[id].Merged? && id !in active }

  /** Own members win over the definition's; relations come out expanded with the identifier open, all others as they are. */
  lemma ObjectsTakeTheirDefinition(resolve: Resolver, index: Index, fields: Fields, active: set<string>, depth: int, out: Json)
    requires ExpandsTo(resolve, index, Obj(fields), active, depth, out) && (Key(resolve, fields) == "" || Key(resolve, fields) !in active)
    ensures var id := Key(resolve, fields);
      && out.Obj?
      && (forall k :: k in out.fields <==> k in fields || (Consults(index, id, active) && k in index[id].fields))
      && (forall k :: k in fields && k !in RELATIONS ==> out.fields[k] == fields[k])
      && (forall k :: k in fields && k in RELATIONS ==> ExpandsTo(resolve, index, fields[k], Opened(active, id), depth + 1, out.fields[k]))
      && (Consults(index, id, active) ==>
            && (forall k :: k in index[id].fields && k !in fields && k !in RELATIONS ==> out.fields[k] == index[id].fields[k])
            && (forall k :: k in index[id].fields && k !in fields && k in RELATIONS ==>
                  ExpandsTo(resolve, index, index[id].fields[k], Opened(active, id), depth + 1, out.fields[k])))
  {
    var budget: nat :| Expands(Expand(resolve, index, Obj(fields), active, depth, budget), out);
    var id := Key(resolve, fields);
    var linked := Linked(index, id, active, fields);
    RelationsAreDistinct();
    OtherMembersStay(resolve, index, RELATIONS, linked, Opened(active, id), depth + 1, budget - 1);
    RelationsExpand(resolve, index, RELATIONS, linked, Opened(active, id), depth + 1, budget - 1);
  }

  /** An object whose identifier is open comes out as that identifier, in its own spelling, and nothing else. */
  lemma OpenObjectsAreNamed(resolve: Resolver, index: Index, fields: Fields, active: set<string>, depth: int, out: Json)
    requires ExpandsTo(resolve, index, Obj(fields), active, depth, out) && Key(resolve, fields) != "" && Key(resolve, fields) in active
    ensures out.Obj? && out.fields.Keys == {"@id"} && out.fields["@id"].Text? && "@id" in fields
    ensures fields["@id"] == out.fields["@id"] || fields["@id"] == Number(out.fields["@id"].text)
  {
  }

  // ---------------------------------------------------------------- what an expansion costs

  /** The parts an expansion passes through: the value itself, and on from lists into items and from objects into relations. */
  function Steps(value: Json): nat
    decreases value, 1
  {
    match value
    case Arr(items) => 1 + StepsInItems(value, 0)
    case Obj(fields) => 1 + StepsAlong(value, RELATIONS)
    case _ => 1
  }

  function StepsInItems(value: Json, from: nat): nat
    requires value.Arr? && from <= |value.items|
    decreases value, 0, |value.items| - from
  {
    if from == |value.items| then 0 else Steps(value.items[from]) + StepsInItems(value, from + 1)
  }

  function StepsAlong(value: Json, keys: seq<string>): nat
    requires value.Obj?
    decreases value, 0, |keys|
  {
    if keys == [] then 0
    else (if keys[0] in value.fields then Steps(value.fields[keys[0]]) else 0) + StepsAlong(value, keys[1..])
  }

  lemma {:induction false} EveryStepIsPaid(resolve: Resolver, index: Index, value: Json, active: set<string>, depth: int, budget: nat)
    requires Expand(resolve, index, value, active, depth, budget).Expanded?
    ensures var r := Expand(resolve, index, value, active, depth, budget); budget - r.remaining == Steps(r.value)
    decreases budget, 0
  {
    match value
    case Arr(items) => ItemsArePaid(resolve, index, items, [], active, depth + 1, budget - 1);
    case Obj(fields) =>
      var id := Key(resolve, fields);
      RelationsAreDistinct();
      if id == "" || id !in active {
        RelationsArePaid(resolve, index, RELATIONS, Linked(index, id, active, fields), Opened(active, id), depth + 1, budget - 1);
      } else {
        NothingAlong(Stub(fields), RELATIONS);
      }
    case _ =>
  }

  lemma {:induction false} NothingAlong(value: Json, keys: seq<string>)
    requires value.Obj? && forall k :: k in keys ==> k !in value.fields
    ensures StepsAlong(value, keys) == 0
  {
    if keys != [] { NothingAlong(value, keys[1..]); }
  }

  lemma {:induction false} ItemsArePaid(resolve: Resolver, index: Index, items: seq<Json>, out: seq<Json>, active: set<string>, depth: int, budget: nat)
    requires ExpandItems(resolve, index, items, out, active, depth, budget).Expanded?
    ensures var r := ExpandItems(resolve, index, items, out, active, depth, budget);
      r.value.Arr? && |out| <= |r.value.items| && budget - r.remaining == StepsInItems(r.value, |out|)
    decreases budget, 1 + |items|
  {
    if items != [] {
      var first := Expand(resolve, index, items[0], active, depth, budget);
      EveryStepIsPaid(resolve, index, items[0], active, depth, budget);
      ItemsArePaid(resolve, index, items[1..], out + [first.value], active, depth, first.remaining);
      ItemsExpand(resolve, index, items[1..], out + [first.value], active, depth, first.remaining);
      var r := ExpandItems(resolve, index, items, out, active, depth, budget).value;
      assert r.items[|out|] == r.items[..|out| + 1][|out|];
    }
  }

  lemma {:induction false} RelationsArePaid(resolve: Resolver, index: Index, keys: seq<string>, out: Fields, active: set<string>, depth: int, budget: nat)
    requires Distinct(keys) && ExpandFields(resolve, index, keys, out, active, depth, budget).Expanded?
    ensures var r := ExpandFields(resolve, index, keys, out, active, depth, budget);
      budget - r.remaining == StepsAlong(r.value, keys)
    decreases budget, 1 + |keys|
  {
    if keys != [] {
      var k, rest := keys[0], keys[1..];
      assert k !in rest;
      if k !in out {
        RelationsArePaid(resolve, index, rest, out, active, depth, budget);
        OtherMembersStay(resolve, index, rest, out, active, depth, budget);
      } else {
        var first := Expand(resolve, index, out[k], active, depth, budget);
        EveryStepIsPaid(resolve, index, out[k], active, depth, budget);
        RelationsArePaid(resolve, index, rest, out[k := first.value], active, depth, first.remaining);
        OtherMembersStay(resolve, index, rest, out[k := first.value], active, depth, first.remaining);
      }
    }
  }

  /** What a value expands to within some budget is what it expands to within any budget that pays for each of its parts,
      and no smaller budget will do. */
  lemma BudgetIsTheSteps(resolve: Resolver, index: Index, value: Json, active: set<string>, depth: int, out: Json, budget: nat)
    requires ExpandsTo(resolve, index, value, active, depth, out)
    ensures Expand(resolve, index, value, active, depth, budget) ==
      if Steps(out) <= budget then Expanded(out, budget - Steps(out)) else Exhausted
  {
    var enough: nat :| Expands(Expand(resolve, index, value, active, depth, enough), out);
    EveryStepIsPaid(resolve, index, value, active, depth, enough);
    if Steps(out) <= budget {
      MoreBudgetChangesNothing(resolve, index, value, active, depth, enough, budget - enough);
    } else if Expand(resolve, index, value, active, depth, budget).Expanded? {
      EveryStepIsPaid(resolve, index, value, active, depth, budget);
      MoreBudgetChangesNothing(resolve, index, value, active, depth, budget, enough);
      MoreBudgetChangesNothing(resolve, index, value, active, depth, enough, budget);
    }
  }

  // ---------------------------------------------------------------- the products of a page

  function AllSteps(values: seq<Json>): nat { if values == [] then 0 else Steps(values[0]) + AllSteps(values[1..]) }

  ghost predicate AllExpandTo(resolve: Resolver, index: Index, products: seq<Fields>, out: seq<Json>) {
    |out| == |products| && forall i :: 0 <= i < |products| ==> ExpandsTo(resolve, index, Obj(products[i]), {}, 0, out[i])
  }

  /** Products are answered exactly when they all expand and their parts together are within the budget. */
  lemma {:induction false} AnsweredWithinBudget(resolve: Resolver, index: Index, products: seq<Fields>, values: seq<Json>, out: seq<Json>, budget: nat)
    requires AllExpandTo(resolve, index, products, values)
    ensures ExpandAll(resolve, index, products, out, budget) == if AllSteps(values) <= budget then Some(out + values) else None
    decreases |products|
  {
    if products == [] {
      assert out + values == out;
    } else {
      BudgetIsTheSteps(resolve, index, Obj(products[0]), {}, 0, values[0], budget);
      if Steps(values[0]) <= budget {
        AnsweredWithinBudget(resolve, index, products[1..], values[1..], out + [values[0]], budget - Steps(values[0]));
        assert out + [values[0]] + values[1..] == out + values;
      }
    }
  }

  lemma {:induction false} EachProductExpands(resolve: Resolver, index: Index, products: seq<Fields>, out: seq<Json>, remaining: nat)
    requires ExpandAll(resolve, index, products, out, remaining).Some?
    ensures var r := ExpandAll(resolve, index, products, out, remaining).value;
      && |r| == |out| + |products| && r[..|out|] == out
      && forall i :: 0 <= i < |products| ==> ExpandsTo(resolve, index, Obj(products[i]), {}, 0, r[|out| + i])
    decreases |products|
  {
    if products != [] {
      var first := Expand(resolve, index, Obj(products[0]), {}, 0, remaining);
      assert Expands(first, first.value);
      EachProductExpands(resolve, index, products[1..], out + [first.value], first.remaining);
      var r := ExpandAll(resolve, index, products, out, remaining).value;
      forall i | 0 <= i < |products| ensures ExpandsTo(resolve, index, Obj(products[i]), {}, 0, r[|out| + i]) {
        if i == 0 { assert r[|out|] == r[..|out| + 1][|out|]; } else { assert products[i] == products[1..][i - 1]; }
      }
      assert r[..|out|] == r[..|out| + 1][..|out|];
    }
  }

  /** Some definition in the documents gives the member this value, and all definitions of the identifier agree. */
  ghost predicate Given(resolve: Resolver, documents: Json, id: string, k: string, value: Json) {
    && !Disputed(Definitions(resolve, documents), id)
    && exists d :: d in Definitions(resolve, documents) && d.id == id && k in d.fields && d.fields[k] == value
  }

  /** The members of a product that are no relations: its own, then whatever agreeing definitions anywhere give it. */
  lemma ProductsAreCompleted(resolve: Resolver, documents: Json, products: seq<Fields>, i: nat)
    requires i < |products| && ExpandAll(resolve, IndexOf(Definitions(resolve, documents)), products, [], NODE_BUDGET).Some?
    ensures var r := ExpandAll(resolve, IndexOf(Definitions(resolve, documents)), products, [], NODE_BUDGET).value;
      var p, id := products[i], Key(resolve, products[i]);
      && |r| == |products| && r[i].Obj?
      && (forall k :: k in p && k !in RELATIONS ==> k in r[i].fields && r[i].fields[k] == p[k])
      && (forall k :: k in r[i].fields && k !in RELATIONS && k !in p ==> Given(resolve, documents, id, k, r[i].fields[k]))
      && (forall k, value :: Given(resolve, documents, id, k, value) && k !in p ==>
            k in r[i].fields && (k !in RELATIONS ==> r[i].fields[k] == value))
  {
    var ds := Definitions(resolve, documents);
    var index := IndexOf(ds);
    var r := ExpandAll(resolve, index, products, [], NODE_BUDGET).value;
    var p, id := products[i], Key(resolve, products[i]);
    EachProductExpands(resolve, index, products, [], NODE_BUDGET);
    ObjectsTakeTheirDefinition(resolve, index, p, {}, 0, r[i]);
    IndexSummarises(ds);
    forall k | k in r[i].fields && k !in RELATIONS && k !in p ensures Given(resolve, documents, id, k, r[i].fields[k]) {
      MergedIsGiven(resolve, documents, id, k);
    }
    forall k, value | Given(resolve, documents, id, k, value) && k !in p
      ensures k in r[i].fields && (k !in RELATIONS ==> r[i].fields[k] == value)
    {
      GivenIsMerged(resolve, documents, id, k, value);
    }
  }

  lemma MergedIsGiven(resolve: Resolver, documents: Json, id: string, k: string)
    requires var index := IndexOf(Definitions(resolve, documents)); id in index && index[id].Merged? && k in index[id].fields
    ensures Given(resolve, documents, id, k, IndexOf(Definitions(resolve, documents))[id].fields[k])
  {
    var ds := Definitions(resolve, documents);
    IndexSummarises(ds);
    var u := IndexOf(ds)[id].fields;
    assert Says(ds, id, k);
    var fields: Fields :| Defines(ds, id, fields) && k in fields;
    assert Within(fields, u) && Definition(id, fields) in ds;
    forall a: Fields, b: Fields | Defines(ds, id, a) && Defines(ds, id, b) ensures Agree(a, b) {
      assert Within(a, u) && Within(b, u);
    }
  }

  lemma GivenIsMerged(resolve: Resolver, documents: Json, id: string, k: string, value: Json)
    requires Given(resolve, documents, id, k, value)
    ensures var index := IndexOf(Definitions(resolve, documents));
      id in index && index[id].Merged? && k in index[id].fields && index[id].fields[k] == value
  {
    var ds := Definitions(resolve, documents);
    IndexSummarises(ds);
    var d :| d in ds && d.id == id && k in d.fields && d.fields[k] == value;
    assert Defines(ds, id, d.fields) && IsSummary(ds, id, IndexOf(ds)[id]);
  }
}
