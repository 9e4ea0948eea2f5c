/** Resolving in-document schema references: an index of definitions by identifier, merged
    in whatever order the documents are walked, and an expansion that survives cycles. */
module LinkedData {
  import opened Common

  const NODE_BUDGET := 32768
  const MAXIMUM_DEPTH := 64

  /** Decoded JSON; an object's members have no order. */
  datatype Json =
    | Text(text: string)
    | Number(digits: string)
    | Flag(value: bool)
    | Null
    | Arr(items: seq<Json>)
    | Obj(fields: map<string, Json>)

  type Fields = map<string, Json>

  /** Makes an identifier absolute, or empty when it cannot be parsed. */
  type Resolver = string -> string

  function Scalar(fields: Fields, key: string): string {
    if key !in fields then ""
    else
      match fields[key]
      case Text(text) => text
      case Number(digits) => digits
      case _ => ""
  }

  function Key(resolve: Resolver, fields: Fields): string {
    var id := Scalar(fields, "@id");
    if id == "" then "" else resolve(id)
  }

  // ---------------------------------------------------------------- size and height

  /** Nodes and levels of a value. */
  datatype Extent = Extent(nodes: nat, levels: nat)

  function Beside(a: Extent, b: Extent): Extent { Extent(a.nodes + b.nodes, Max(a.levels, b.levels)) }

  function Above(children: Extent): Extent { Extent(1 + children.nodes, 1 + children.levels) }

  function InRow(row: seq<Extent>): Extent {
    if row == [] then Extent(0, 0) else Beside(InRow(row[..|row| - 1]), row[|row| - 1])
  }

  ghost function Together(parts: map<string, Extent>): Extent
    decreases |parts|
  {
    if parts == map[] then Extent(0, 0)
    else
      var k :| k in parts;
      Beside(Together(parts - {k}), parts[k])
  }

  lemma BesideSwaps(a: Extent, b: Extent, c: Extent)
    ensures Beside(Beside(a, b), c) == Beside(Beside(a, c), b)
  {
  }

  lemma {:induction false} TogetherWithout(parts: map<string, Extent>, k: string)
    requires k in parts
    ensures Together(parts) == Beside(Together(parts - {k}), parts[k])
    decreases |parts|
  {
    var c :| c in parts && Together(parts) == Beside(Together(parts - {c}), parts[c]);
    if c != k {
      TogetherWithout(parts - {c}, k);
      TogetherWithout(parts - {k}, c);
      assert parts - {c} - {k} == parts - {k} - {c};
      BesideSwaps(Together(parts - {c} - {k}), parts[k], parts[c]);
    }
  }

  lemma {:induction false} PrefixIsSmaller(row: seq<Extent>, n: nat)
    requires n <= |row|
    ensures InRow(row[..n]).nodes <= InRow(row).nodes && InRow(row[..n]).levels <= InRow(row).levels
    decreases |row| - n
  {
    if n < |row| {
      PrefixIsSmaller(row, n + 1);
      assert row[..n + 1][..n] == row[..n];
    } else {
      assert row[..n] == row;
    }
  }

  ghost function ExtentOf(value: Json): Extent
    decreases value, 1
  {
    match value
    case Arr(items) => Above(InRow(ItemExtents(value)))
    case Obj(fields) => Above(Together(FieldExtents(value)))
    case _ => Extent(1, 1)
  }

  ghost function ItemExtents(value: Json): (r: seq<Extent>)
    requires value.Arr?
    ensures |r| == |value.items|
    decreases value, 0
  {
    seq(|value.items|, i requires 0 <= i < |value.items| => ExtentOf(value.items[i]))
  }

  ghost function FieldExtents(value: Json): map<string, Extent>
    requires value.Obj?
    decreases value, 0
  {
    map k | k in value.fields :: ExtentOf(value.fields[k])
  }

  // ---------------------------------------------------------------- definitions and their merge

  datatype Definition = Definition(id: string, fields: Fields)

  /** What a document says about an identifier: every identified object that says more than its name. */
  ghost function Definitions(resolve: Resolver, value: Json): set<Definition>
    decreases value
  {
    match value
    case Arr(items) => set i, d | 0 <= i < |items| && d in Definitions(resolve, items[i]) :: d
    case Obj(fields) => Own(resolve, fields) + set k, d | k in fields && d in Definitions(resolve, fields[k]) :: d
    case _ => {}
  }

  function Own(resolve: Resolver, fields: Fields): set<Definition> {
    var id := Key(resolve, fields);
    if id != "" && |fields| > 1 then {Definition(id, fields)} else {}
  }

  datatype Entry = Conflict | Merged(fields: Fields)

  type Index = map<string, Entry>

  predicate Agree(a: Fields, b: Fields) { forall k :: k in a && k in b ==> a[k] == b[k] }

  function Added(index: Index, d: Definition): Index {
    if d.id !in index then index[d.id := Merged(d.fields)]
    else
      match index[d.id]
      case Conflict => index
      case Merged(fields) => index[d.id := if Agree(fields, d.fields) then Merged(fields + d.fields) else Conflict]
  }

  ghost predicate Within(part: Fields, whole: Fields) { forall k :: k in part ==> k in whole && whole[k] == part[k] }

  ghost predicate Defines(ds: set<Definition>, id: string, fields: Fields) { Definition(id, fields) in ds }

  ghost predicate Disputed(ds: set<Definition>, id: string) {
    exists a: Fields, b: Fields :: Defines(ds, id, a) && Defines(ds, id, b) && !Agree(a, b)
  }

  ghost predicate Says(ds: set<Definition>, id: string, k: string) {
    exists fields: Fields :: Defines(ds, id, fields) && k in fields
  }

  /** The union of all definitions of an identifier when they agree, and a conflict otherwise. */
  ghost predicate IsSummary(ds: set<Definition>, id: string, e: Entry) {
    match e
    case Conflict => Disputed(ds, id)
    case Merged(u) =>
      && (forall fields: Fields :: Defines(ds, id, fields) ==> Within(fields, u))
      && (forall k :: k in u ==> Says(ds, id, k))
  }

  ghost predicate Summarises(index: Index, ds: set<Definition>) {
    && (forall d :: d in ds ==> d.id in index)
    && (forall id :: id in index ==> (exists fields: Fields :: Defines(ds, id, fields)) && IsSummary(ds, id, index[id]))
  }

  lemma AddSummarises(index: Index, ds: set<Definition>, d: Definition)
    requires Summarises(index, ds)
    ensures Summarises(Added(index, d), ds + {d})
  {
    var r, es := Added(index, d), ds + {d};
    forall id | id in r ensures (exists fields: Fields :: Defines(es, id, fields)) && IsSummary(es, id, r[id]) {
      if id == d.id {
        assert Defines(es, id, d.fields);
        AddedIsSummary(index, ds, d);
      } else {
        var fields: Fields :| Defines(ds, id, fields);
        assert Defines(es, id, fields);
        OthersKeepSummary(ds, d, id, index[id]);
      }
    }
  }

  lemma OthersKeepSummary(ds: set<Definition>, d: Definition, id: string, e: Entry)
    requires IsSummary(ds, id, e) && id != d.id
    ensures IsSummary(ds + {d}, id, e)
  {
    forall fields: Fields ensures Defines(ds + {d}, id, fields) == Defines(ds, id, fields) { }
    match e
    case Conflict =>
      var a: Fields, b: Fields :| Defines(ds, id, a) && Defines(ds, id, b) && !Agree(a, b);
      assert Defines(ds + {d}, id, a) && Defines(ds + {d}, id, b);
    case Merged(u) =>
      forall k | k in u ensures Says(ds + {d}, id, k) {
        var fields: Fields :| Defines(ds, id, fields) && k in fields;
        assert Defines(ds + {d}, id, fields);
      }
  }

  lemma AddedIsSummary(index: Index, ds: set<Definition>, d: Definition)
    requires Summarises(index, ds)
    ensures IsSummary(ds + {d}, d.id, Added(index, d)[d.id])
  {
    var es := ds + {d};
    assert Defines(es, d.id, d.fields);
    if d.id !in index {
      FirstIsSummary(ds, d);
    } else if index[d.id].Conflict? {
      ConflictStays(ds, d);
    } else if Agree(index[d.id].fields, d.fields) {
      UnionIsSummary(ds, d, index[d.id].fields);
    } else {
      DisagreementIsDispute(ds, d, index[d.id].fields);
    }
  }

  lemma FirstIsSummary(ds: set<Definition>, d: Definition)
    requires forall e :: e in ds ==> e.id != d.id
    ensures IsSummary(ds + {d}, d.id, Merged(d.fields))
  {
    var es := ds + {d};
    forall fields: Fields | Defines(es, d.id, fields) ensures fields == d.fields { }
    forall k | k in d.fields ensures Says(es, d.id, k) { assert Defines(es, d.id, d.fields); }
  }

  lemma ConflictStays(ds: set<Definition>, d: Definition)
    requires Disputed(ds, d.id)
    ensures Disputed(ds + {d}, d.id)
  {
    var a: Fields, b: Fields :| Defines(ds, d.id, a) && Defines(ds, d.id, b) && !Agree(a, b);
    assert Defines(ds + {d}, d.id, a) && Defines(ds + {d}, d.id, b);
  }

  lemma UnionIsSummary(ds: set<Definition>, d: Definition, u: Fields)
    requires IsSummary(ds, d.id, Merged(u)) && Agree(u, d.fields)
    ensures IsSummary(ds + {d}, d.id, Merged(u + d.fields))
  {
    var es := ds + {d};
    forall fields: Fields | Defines(es, d.id, fields) ensures Within(fields, u + d.fields) {
      if fields != d.fields { assert Defines(ds, d.id, fields); }
    }
    forall k | k in u + d.fields ensures Says(es, d.id, k) {
      if k in d.fields {
        assert Defines(es, d.id, d.fields);
      } else {
        assert Says(ds, d.id, k);
        var fields: Fields :| Defines(ds, d.id, fields) && k in fields;
        assert Defines(es, d.id, fields);
      }
    }
  }

  lemma DisagreementIsDispute(ds: set<Definition>, d: Definition, u: Fields)
    requires IsSummary(ds, d.id, Merged(u)) && !Agree(u, d.fields)
    ensures Disputed(ds + {d}, d.id)
  {
    var k :| k in u && k in d.fields && u[k] != d.fields[k];
    assert Says(ds, d.id, k);
    var fields: Fields :| Defines(ds, d.id, fields) && k in fields;
    assert Within(fields, u);
    assert Defines(ds + {d}, d.id, fields) && Defines(ds + {d}, d.id, d.fields) && !Agree(fields, d.fields);
  }

  lemma SummaryIsUnique(ds: set<Definition>, id: string, a: Entry, b: Entry)
    requires IsSummary(ds, id, a) && IsSummary(ds, id, b)
    ensures a == b
  {
    if a.Merged? && b.Merged? {
      SummariesContain(ds, id, a.fields, b.fields);
      SummariesContain(ds, id, b.fields, a.fields);
      assert a.fields == b.fields;
    } else if a.Merged? {
      SummaryPrecludesDispute(ds, id, a.fields);
    } else if b.Merged? {
      SummaryPrecludesDispute(ds, id, b.fields);
    }
  }

  lemma SummariesContain(ds: set<Definition>, id: string, u: Fields, w: Fields)
    requires IsSummary(ds, id, Merged(u)) && IsSummary(ds, id, Merged(w))
    ensures Within(u, w)
  {
    forall k | k in u ensures k in w && w[k] == u[k] {
      assert Says(ds, id, k);
      var fields: Fields :| Defines(ds, id, fields) && k in fields;
      assert Within(fields, u) && Within(fields, w);
    }
  }

  lemma SummaryPrecludesDispute(ds: set<Definition>, id: string, u: Fields)
    requires IsSummary(ds, id, Merged(u))
    ensures !Disputed(ds, id)
  {
    forall a: Fields, b: Fields | Defines(ds, id, a) && Defines(ds, id, b) ensures Agree(a, b) {
      assert Within(a, u) && Within(b, u);
    }
  }

  /** The index depends on the set of definitions alone, never on the order they were met in. */
  lemma IndexIsDetermined(a: Index, b: Index, ds: set<Definition>)
    requires Summarises(a, ds) && Summarises(b, ds)
    ensures a == b
  {
    forall id | id in a || id in b ensures id in a && id in b && a[id] == b[id] {
      var fields: Fields :| Defines(ds, id, fields);
      assert Definition(id, fields) in ds;
      SummaryIsUnique(ds, id, a[id], b[id]);
    }
  }

  /** What a set of definitions amounts to. */
  ghost function IndexOf(ds: set<Definition>): Index
    decreases |ds|
  {
    if ds == {} then map[]
    else
      var d :| d in ds;
      Added(IndexOf(ds - {d}), d)
  }

  lemma {:induction false} IndexSummarises(ds: set<Definition>)
    ensures Summarises(IndexOf(ds), ds)
    decreases |ds|
  {
    if ds != {} {
      var d :| d in ds && IndexOf(ds) == Added(IndexOf(ds - {d}), d);
      IndexSummarises(ds - {d});
      AddSummarises(IndexOf(ds - {d}), ds - {d}, d);
      assert ds - {d} + {d} == ds;
    }
  }

  lemma IndexAdds(ds: set<Definition>, d: Definition)
    ensures IndexOf(ds + {d}) == Added(IndexOf(ds), d)
  {
    IndexSummarises(ds);
    AddSummarises(IndexOf(ds), ds, d);
    IndexSummarises(ds + {d});
    IndexIsDetermined(IndexOf(ds + {d}), Added(IndexOf(ds), d), ds + {d});
  }

  // ---------------------------------------------------------------- the indexing walk

  ghost function ItemDefinitions(resolve: Resolver, items: seq<Json>, n: nat): set<Definition>
    requires n <= |items|
  {
    set i, d | 0 <= i < n && d in Definitions(resolve, items[i]) :: d
  }

  lemma MoreItems(resolve: Resolver, items: seq<Json>, n: nat)
    requires n < |items|
    ensures ItemDefinitions(resolve, items, n + 1) == ItemDefinitions(resolve, items, n) + Definitions(resolve, items[n])
  {
  }

  ghost function MemberDefinitions(resolve: Resolver, fields: Fields): set<Definition> {
    set k, d | k in fields && d in Definitions(resolve, fields[k]) :: d
  }

  /** One member fewer: its extent and its definitions separate from those of the others. */
  lemma TakeMember(resolve: Resolver, left: Fields, k: string, done: Extent)
    requires k in left
    ensures Beside(done, Together(FieldExtents(Obj(left)))) ==
            Beside(Beside(done, ExtentOf(left[k])), Together(FieldExtents(Obj(left - {k}))))
    ensures MemberDefinitions(resolve, left) == Definitions(resolve, left[k]) + MemberDefinitions(resolve, left - {k})
  {
    var parts := FieldExtents(Obj(left));
    TogetherWithout(parts, k);
    assert parts - {k} == FieldExtents(Obj(left - {k}));
    BesideRegroups(done, Together(parts - {k}), parts[k]);
    var rest := MemberDefinitions(resolve, left - {k});
    forall d ensures d in MemberDefinitions(resolve, left) <==> d in Definitions(resolve, left[k]) || d in rest {
      if d in MemberDefinitions(resolve, left) {
        var j :| j in left && d in Definitions(resolve, left[j]);
        if j != k { assert j in left - {k}; }
      }
    }
  }

  lemma BesideRegroups(a: Extent, b: Extent, c: Extent)
    ensures Beside(a, Beside(b, c)) == Beside(Beside(a, c), b)
  {
  }

  lemma NothingLeft(resolve: Resolver)
    ensures Together(FieldExtents(Obj(map[]))) == Extent(0, 0) && MemberDefinitions(resolve, map[]) == {}
  {
    assert FieldExtents(Obj(map[])) == map[];
  }

  /** `taken` and `left` together are the members of `fields`, and `existing` agrees with those taken. */
  ghost predicate Merging(existing: Fields, taken: Fields, left: Fields, fields: Fields) {
    && (forall k :: k in fields <==> k in taken || k in left)
    && Within(taken, fields) && Within(left, fields) && Agree(existing, taken)
  }

  lemma MergeOne(existing: Fields, taken: Fields, left: Fields, fields: Fields, k: string)
    requires Merging(existing, taken, left, fields) && k in left && (k in existing ==> existing[k] == left[k])
    ensures Merging(existing, taken[k := left[k]], left - {k}, fields)
    ensures existing + taken[k := left[k]] == (existing + taken)[k := left[k]]
  {
  }

  lemma MergeEnds(existing: Fields, taken: Fields, fields: Fields)
    requires Merging(existing, taken, map[], fields)
    ensures taken == fields && Agree(existing, fields)
  {
  }

  lemma MergeClashes(existing: Fields, taken: Fields, left: Fields, fields: Fields, k: string)
    requires Merging(existing, taken, left, fields) && k in left && k in existing + taken && (existing + taken)[k] != left[k]
    ensures !Agree(existing, fields)
  {
  }

  lemma RowGrows(value: Json, i: nat)
    requires value.Arr? && i < |value.items|
    ensures var row := ItemExtents(value);
      && InRow(row[..i + 1]) == Beside(InRow(row[..i]), ExtentOf(value.items[i]))
      && InRow(row[..i + 1]).nodes <= InRow(row).nodes && InRow(row[..i + 1]).levels <= InRow(row).levels
  {
    var row := ItemExtents(value);
    PrefixIsSmaller(row, i + 1);
    assert row[..i + 1][..i] == row[..i];
  }

  class Walker {
    const resolve: Resolver
    var remaining: int
    var index: Index
    ghost var seen: set<Definition>

    constructor (resolve: Resolver)
      ensures this.resolve == resolve && remaining == NODE_BUDGET && index == map[] && seen == {} && index == IndexOf(seen)
    {
      this.resolve := resolve;
      remaining, index, seen := NODE_BUDGET, map[], {};
    }

    /** The budget counts nodes and the depth counts levels, this value's own included. */
    method Visit(value: Json, depth: int) returns (ok: bool)
      requires remaining >= 0 && depth <= MAXIMUM_DEPTH + 1 && index == IndexOf(seen)
      modifies `remaining, `index, `seen
      ensures index == IndexOf(seen)
      ensures ok <==> ExtentOf(value).nodes <= old(remaining) && depth + ExtentOf(value).levels <= MAXIMUM_DEPTH + 1
      ensures ok ==> remaining == old(remaining) - ExtentOf(value).nodes && seen == old(seen) + Definitions(resolve, value)
      decreases value, 3
    {
      remaining := remaining - 1;
      if remaining < 0 || depth > MAXIMUM_DEPTH {
        return false;
      }
      match value
      case Arr(items) => ok := VisitItems(value, depth + 1);
      case Obj(fields) => ok := VisitObject(value, depth + 1);
      case _ => ok := true;
    }

    method VisitItems(value: Json, depth: int) returns (ok: bool)
      requires value.Arr? && remaining >= 0 && depth <= MAXIMUM_DEPTH + 1 && index == IndexOf(seen)
      modifies `remaining, `index, `seen
      ensures index == IndexOf(seen)
      ensures ok <==> InRow(ItemExtents(value)).nodes <= old(remaining) && depth + InRow(ItemExtents(value)).levels <= MAXIMUM_DEPTH + 1
      ensures ok ==> remaining == old(remaining) - InRow(ItemExtents(value)).nodes
      ensures ok ==> seen == old(seen) + ItemDefinitions(resolve, value.items, |value.items|)
      decreases value, 0
    {
      var items := value.items;
      ghost var row := ItemExtents(value);
      for i := 0 to |items|
        invariant index == IndexOf(seen) && remaining == old(remaining) - InRow(row[..i]).nodes >= 0
        invariant depth + InRow(row[..i]).levels <= MAXIMUM_DEPTH + 1
        invariant seen == old(seen) + ItemDefinitions(resolve, items, i)
      {
        MoreItems(resolve, items, i);
        RowGrows(value, i);
        ok := Visit(items[i], depth);
        if !ok {
          return;
        }
      }
      assert row[..|items|] == row;
      ok := true;
    }

    method VisitObject(value: Json, depth: int) returns (ok: bool)
      requires value.Obj? && remaining >= 0 && depth <= MAXIMUM_DEPTH + 1 && index == IndexOf(seen)
      modifies `remaining, `index, `seen
      ensures index == IndexOf(seen)
      ensures ok <==> Together(FieldExtents(value)).nodes <= old(remaining) && depth + Together(FieldExtents(value)).levels <= MAXIMUM_DEPTH + 1
      ensures ok ==> remaining == old(remaining) - Together(FieldExtents(value)).nodes && seen == old(seen) + Definitions(resolve, value)
      decreases value, 2
    {
      Define(value.fields);
      ok := VisitMembers(value, depth);
    }

    method Define(fields: Fields)
      requires index == IndexOf(seen)
      modifies `index, `seen
      ensures index == IndexOf(seen) && seen == old(seen) + Own(resolve, fields)
    {
      var id := Key(resolve, fields);
      if id != "" && |fields| > 1 {
        IndexAdds(seen, Definition(id, fields));
        if id !in index {
          index := index[id := Merged(fields)];
        } else if index[id].Merged? {
          var merged := Merge(index[id].fields, fields);
          index := index[id := merged];
        }
        seen := seen + {Definition(id, fields)};
      }
    }

    // Adds one member at a time, and gives up for good on the first disagreement.
    method Merge(existing: Fields, fields: Fields) returns (entry: Entry)
      ensures entry == if Agree(existing, fields) then Merged(existing + fields) else Conflict
    {
      var merged, left := existing, fields;
      ghost var taken: Fields := map[];
      assert existing + taken == existing;
      while left != map[]
        invariant Merging(existing, taken, left, fields) && merged == existing + taken
        decreases |left|
      {
        var k :| k in left;
        if k in merged && merged[k] != left[k] {
          MergeClashes(existing, taken, left, fields, k);
          return Conflict;
        }
        MergeOne(existing, taken, left, fields, k);
        merged := merged[k := left[k]];
        taken := taken[k := left[k]];
        left := left - {k};
      }
      MergeEnds(existing, taken, fields);
      entry := Merged(merged);
    }

    // Members are visited in any order: the choice below is as free as Go's map iteration.
    method VisitMembers(value: Json, depth: int) returns (ok: bool)
      requires value.Obj? && remaining >= 0 && depth <= MAXIMUM_DEPTH + 1 && index == IndexOf(seen)
      modifies `remaining, `index, `seen
      ensures index == IndexOf(seen)
      ensures ok <==> Together(FieldExtents(value)).nodes <= old(remaining) && depth + Together(FieldExtents(value)).levels <= MAXIMUM_DEPTH + 1
      ensures ok ==> remaining == old(remaining) - Together(FieldExtents(value)).nodes
      ensures ok ==> seen == old(seen) + MemberDefinitions(resolve, value.fields)
      decreases value, 1
    {
      var left := value.fields;
      ghost var whole, done := Together(FieldExtents(value)), Extent(0, 0);
      ghost var budget, target := remaining, seen + MemberDefinitions(resolve, left);
      while left != map[]
        invariant index == IndexOf(seen) && Within(left, value.fields)
        invariant Progress(whole, done, left, budget, remaining, depth)
        invariant seen + MemberDefinitions(resolve, left) == target
        decreases |left|
      {
        var k :| k in left;
        ok := VisitMember(value, left, k, depth, whole, done, budget);
        if !ok {
          return;
        }
        done := Beside(done, ExtentOf(left[k]));
        left := left - {k};
      }
      NothingLeft(resolve);
      ok := true;
    }

    method VisitMember(value: Json, left: Fields, k: string, depth: int, ghost whole: Extent, ghost done: Extent, ghost budget: int) returns (ok: bool)
      requires value.Obj? && Within(left, value.fields) && k in left && index == IndexOf(seen)
      requires Progress(whole, done, left, budget, remaining, depth)
      modifies `remaining, `index, `seen
      ensures index == IndexOf(seen)
      ensures ok ==> Progress(whole, Beside(done, ExtentOf(left[k])), left - {k}, budget, remaining, depth)
      ensures ok ==> seen + MemberDefinitions(resolve, left - {k}) == old(seen) + MemberDefinitions(resolve, left)
      ensures !ok ==> whole.nodes > budget || depth + whole.levels > MAXIMUM_DEPTH + 1
      decreases value, 0
    {
      TakeMember(resolve, left, k, done);
      ok := Visit(value.fields[k], depth);
    }
  }

  /** Of a whole, `done` has been paid for and `left` is still to be visited. */
  ghost predicate Progress(whole: Extent, done: Extent, left: Fields, budget: int, remaining: int, depth: int) {
    && whole == Beside(done, Together(FieldExtents(Obj(left))))
    && remaining == budget - done.nodes >= 0 && depth + done.levels <= MAXIMUM_DEPTH + 1
  }

  // ---------------------------------------------------------------- expansion

  const RELATIONS := ["offers", "image", "hasVariant", "mainEntity", "priceSpecification", "itemOffered"]

  datatype Expansion = Exhausted | Expanded(value: Json, remaining: nat)

  function Stub(fields: Fields): Json { Obj(map["@id" := Text(Scalar(fields, "@id"))]) }

  /** An object with the definition its identifier refers to; its own members win. */
  function Linked(index: Index, id: string, active: set<string>, fields: Fields): Fields {
    if id in index && index[id].Merged? && id !in active then index[id].fields + fields else fields
  }

  /** The identifiers being expanded on the way to this value; anonymous objects are not tracked. */
  function Opened(active: set<string>, id: string): set<string> { if id == "" then active else active + {id} }

  function Expand(resolve: Resolver, index: Index, value: Json, active: set<string>, depth: int, remaining: nat): (r: Expansion)
    ensures r.Expanded? ==> r.remaining < remaining
    decreases remaining, 0
  {
    if remaining == 0 || depth > MAXIMUM_DEPTH then Exhausted
    else
      match value
      case Arr(items) => ExpandItems(resolve, index, items, [], active, depth + 1, remaining - 1)
      case Obj(fields) =>
        var id := Key(resolve, fields);
        if id != "" && id in active then Expanded(Stub(fields), remaining - 1)
        else ExpandFields(resolve, index, RELATIONS, Linked(index, id, active, fields), Opened(active, id), depth + 1, remaining - 1)
      case _ => Expanded(value, remaining - 1)
  }

  function ExpandItems(resolve: Resolver, index: Index, items: seq<Json>, out: seq<Json>, active: set<string>, depth: int, remaining: nat): (r: Expansion)
    ensures r.Expanded? ==> r.remaining <= remaining && r.value.Arr?
    decreases remaining, 1 + |items|
  {
    if items == [] then Expanded(Arr(out), remaining)
    else
      match Expand(resolve, index, items[0], active, depth, remaining)
      case Exhausted => Exhausted
      case Expanded(child, left) => ExpandItems(resolve, index, items[1..], out + [child], active, depth, left)
  }

  function ExpandFields(resolve: Resolver, index: Index, keys: seq<string>, out: Fields, active: set<string>, depth: int, remaining: nat): (r: Expansion)
    ensures r.Expanded? ==> r.remaining <= remaining && r.value.Obj?
    decreases remaining, 1 + |keys|
  {
    if keys == [] then Expanded(Obj(out), remaining)
    else if keys[0] !in out then ExpandFields(resolve, index, keys[1..], out, active, depth, remaining)
    else
      match Expand(resolve, index, out[keys[0]], active, depth, remaining)
      case Exhausted => Exhausted
      case Expanded(child, left) => ExpandFields(resolve, index, keys[1..], out[keys[0] := child], active, depth, left)
  }

  /** The budget only guards: whatever expands within one budget expands alike within any larger one, and within any
      smaller one that lacks no more than was left over. */
  lemma {:induction false} MoreBudgetChangesNothing(resolve: Resolver, index: Index, value: Json, active: set<string>, depth: int, remaining: nat, extra: int)
    requires Expand(resolve, index, value, active, depth, remaining).Expanded?
    requires Expand(resolve, index, value, active, depth, remaining).remaining + extra >= 0
    ensures var r := Expand(resolve, index, value, active, depth, remaining);
      Expand(resolve, index, value, active, depth, remaining + extra) == Expanded(r.value, r.remaining + extra)
    decreases remaining, 0
  {
    match value
    case Arr(items) => MoreBudgetForItems(resolve, index, items, [], active, depth + 1, remaining - 1, extra);
    case Obj(fields) =>
      var id := Key(resolve, fields);
      if id == "" || id !in active {
        MoreBudgetForFields(resolve, index, RELATIONS, Linked(index, id, active, fields), Opened(active, id), depth + 1, remaining - 1, extra);
      }
    case _ =>
  }

  lemma {:induction false} MoreBudgetForItems(resolve: Resolver, index: Index, items: seq<Json>, out: seq<Json>, active: set<string>, depth: int, remaining: nat, extra: int)
    requires ExpandItems(resolve, index, items, out, active, depth, remaining).Expanded?
    requires ExpandItems(resolve, index, items, out, active, depth, remaining).remaining + extra >= 0
    ensures var r := ExpandItems(resolve, index, items, out, active, depth, remaining);
      ExpandItems(resolve, index, items, out, active, depth, remaining + extra) == Expanded(r.value, r.remaining + extra)
    decreases remaining, 1 + |items|
  {
    if items != [] {
      var first := Expand(resolve, index, items[0], active, depth, remaining);
      MoreBudgetChangesNothing(resolve, index, items[0], active, depth, remaining, extra);
      MoreBudgetForItems(resolve, index, items[1..], out + [first.value], active, depth, first.remaining, extra);
    }
  }

  lemma {:induction false} MoreBudgetForFields(resolve: Resolver, index: Index, keys: seq<string>, out: Fields, active: set<string>, depth: int, remaining: nat, extra: int)
    requires ExpandFields(resolve, index, keys, out, active, depth, remaining).Expanded?
    requires ExpandFields(resolve, index, keys, out, active, depth, remaining).remaining + extra >= 0
    ensures var r := ExpandFields(resolve, index, keys, out, active, depth, remaining);
      ExpandFields(resolve, index, keys, out, active, depth, remaining + extra) == Expanded(r.value, r.remaining + extra)
    decreases remaining, 1 + |keys|
  {
    if keys != [] {
      if keys[0] !in out {
        MoreBudgetForFields(resolve, index, keys[1..], out, active, depth, remaining, extra);
      } else {
        var first := Expand(resolve, index, out[keys[0]], active, depth, remaining);
        MoreBudgetChangesNothing(resolve, index, out[keys[0]], active, depth, remaining, extra);
        MoreBudgetForFields(resolve, index, keys[1..], out[keys[0] := first.value], active, depth, first.remaining, extra);
      }
    }
  }

  /** Expansion touches only the relations: the members stay the same, and all others keep their values. */
  lemma {:induction false} OtherMembersStay(resolve: Resolver, index: Index, keys: seq<string>, out: Fields, active: set<string>, depth: int, remaining: nat)
    requires ExpandFields(resolve, index, keys, out, active, depth, remaining).Expanded?
    ensures var r := ExpandFields(resolve, index, keys, out, active, depth, remaining).value.fields;
      r.Keys == out.Keys && forall k :: k in out && k !in keys ==> r[k] == out[k]
    decreases |keys|
  {
    if keys != [] {
      if keys[0] !in out {
        OtherMembersStay(resolve, index, keys[1..], out, active, depth, remaining);
      } else {
        var first := Expand(resolve, index, out[keys[0]], active, depth, remaining);
        OtherMembersStay(resolve, index, keys[1..], out[keys[0] := first.value], active, depth, first.remaining);
        assert out[keys[0] := first.value].Keys == out.Keys;
      }
    }
  }

  /** An expanded object has its own members and those of its definition, its own taking precedence. */
  lemma ExpandedObjectIsMerged(resolve: Resolver, index: Index, fields: Fields, active: set<string>, depth: int, remaining: nat)
    requires Expand(resolve, index, Obj(fields), active, depth, remaining).Expanded?
    requires Key(resolve, fields) == "" || Key(resolve, fields) !in active
    ensures var r := Expand(resolve, index, Obj(fields), active, depth, remaining).value; var id := Key(resolve, fields);
      && r.Obj?
      && (forall k :: k in fields && k !in RELATIONS ==> k in r.fields && r.fields[k] == fields[k])
      && (forall k :: k in r.fields <==> k in fields || (id in index && index[id].Merged? && id !in active && k in index[id].fields))
  {
    var id := Key(resolve, fields);
    OtherMembersStay(resolve, index, RELATIONS, Linked(index, id, active, fields), Opened(active, id), depth + 1, remaining - 1);
  }

  /** No object in the value can be referred to. */
  ghost predicate Anonymous(resolve: Resolver, value: Json)
    decreases value
  {
    match value
    case Arr(items) => forall i :: 0 <= i < |items| ==> Anonymous(resolve, items[i])
    case Obj(fields) => Key(resolve, fields) == "" && forall k :: k in fields ==> Anonymous(resolve, fields[k])
    case _ => true
  }

  /** Documents without references come out as they went in. */
  lemma {:induction false} AnonymousExpandsToItself(resolve: Resolver, index: Index, value: Json, active: set<string>, depth: int, remaining: nat)
    requires Anonymous(resolve, value) && "" !in index
    requires Expand(resolve, index, value, active, depth, remaining).Expanded?
    ensures Expand(resolve, index, value, active, depth, remaining).value == value
    decreases remaining, 0
  {
    match value
    case Arr(items) =>
      AnonymousItems(resolve, index, items, [], active, depth + 1, remaining - 1);
      assert [] + items == items;
    case Obj(fields) => AnonymousFields(resolve, index, RELATIONS, fields, active, depth + 1, remaining - 1);
    case _ =>
  }

  lemma {:induction false} AnonymousItems(resolve: Resolver, index: Index, items: seq<Json>, out: seq<Json>, active: set<string>, depth: int, remaining: nat)
    requires "" !in index && forall i :: 0 <= i < |items| ==> Anonymous(resolve, items[i])
    requires ExpandItems(resolve, index, items, out, active, depth, remaining).Expanded?
    ensures ExpandItems(resolve, index, items, out, active, depth, remaining).value == Arr(out + items)
    decreases remaining, 1 + |items|
  {
    if items != [] {
      var first := Expand(resolve, index, items[0], active, depth, remaining);
      AnonymousExpandsToItself(resolve, index, items[0], active, depth, remaining);
      AnonymousItems(resolve, index, items[1..], out + [first.value], active, depth, first.remaining);
      assert out + [items[0]] + items[1..] == out + items;
    } else {
      assert out + items == out;
    }
  }

  lemma {:induction false} AnonymousFields(resolve: Resolver, index: Index, keys: seq<string>, out: Fields, active: set<string>, depth: int, remaining: nat)
    requires "" !in index && forall k :: k in out ==> Anonymous(resolve, out[k])
    requires ExpandFields(resolve, index, keys, out, active, depth, remaining).Expanded?
    ensures ExpandFields(resolve, index, keys, out, active, depth, remaining).value == Obj(out)
    decreases remaining, 1 + |keys|
  {
    if keys != [] {
      if keys[0] !in out {
        AnonymousFields(resolve, index, keys[1..], out, active, depth, remaining);
      } else {
        var first := Expand(resolve, index, out[keys[0]], active, depth, remaining);
        AnonymousExpandsToItself(resolve, index, out[keys[0]], active, depth, remaining);
        assert out[keys[0] := first.value] == out;
        AnonymousFields(resolve, index, keys[1..], out, active, depth, first.remaining);
      }
    }
  }

  /** Along the relations, an object whose identifier is already open on the way to it is only that identifier. */
  ghost predicate OpenIsStubbed(resolve: Resolver, value: Json, open: set<string>)
    decreases value
  {
    match value
    case Arr(items) => forall i :: 0 <= i < |items| ==> OpenIsStubbed(resolve, items[i], open)
    case Obj(fields) =>
      var id := Key(resolve, fields);
      if id != "" && id in open then value == Stub(fields)
      else forall k :: k in fields && k in RELATIONS ==> OpenIsStubbed(resolve, fields[k], Opened(open, id))
    case _ => true
  }

  predicate Distinct(keys: seq<string>) { forall i, j :: 0 <= i < j < |keys| ==> keys[i] != keys[j] }

  lemma RelationsAreDistinct()
    ensures Distinct(RELATIONS) && "@id" !in RELATIONS
  {
  }

  /** An identifier is expanded at most once on any way down, however the references go in circles. */
  lemma {:induction false} CyclesAreCut(resolve: Resolver, index: Index, value: Json, active: set<string>, depth: int, remaining: nat)
    requires "" !in index && Expand(resolve, index, value, active, depth, remaining).Expanded?
    ensures OpenIsStubbed(resolve, Expand(resolve, index, value, active, depth, remaining).value, active)
    decreases remaining, 0
  {
    match value
    case Arr(items) => CyclesAreCutInItems(resolve, index, items, [], active, depth + 1, remaining - 1);
    case Obj(fields) =>
      var id := Key(resolve, fields);
      RelationsAreDistinct();
      if id == "" || id !in active {
        var linked := Linked(index, id, active, fields);
        CyclesAreCutInFields(resolve, index, RELATIONS, linked, Opened(active, id), depth + 1, remaining - 1);
        OtherMembersStay(resolve, index, RELATIONS, linked, Opened(active, id), depth + 1, remaining - 1);
        var r := Expand(resolve, index, value, active, depth, remaining).value;
        assert Scalar(r.fields, "@id") == Scalar(fields, "@id");
      }
    case _ =>
  }

  lemma {:induction false} CyclesAreCutInItems(resolve: Resolver, index: Index, items: seq<Json>, out: seq<Json>, active: set<string>, depth: int, remaining: nat)
    requires "" !in index && forall i :: 0 <= i < |out| ==> OpenIsStubbed(resolve, out[i], active)
    requires ExpandItems(resolve, index, items, out, active, depth, remaining).Expanded?
    ensures OpenIsStubbed(resolve, ExpandItems(resolve, index, items, out, active, depth, remaining).value, active)
    decreases remaining, 1 + |items|
  {
    if items != [] {
      var first := Expand(resolve, index, items[0], active, depth, remaining);
      CyclesAreCut(resolve, index, items[0], active, depth, remaining);
      CyclesAreCutInItems(resolve, index, items[1..], out + [first.value], active, depth, first.remaining);
    }
  }

  lemma {:induction false} CyclesAreCutInFields(resolve: Resolver, index: Index, keys: seq<string>, out: Fields, active: set<string>, depth: int, remaining: nat)
    requires "" !in index && Distinct(keys)
    requires ExpandFields(resolve, index, keys, out, active, depth, remaining).Expanded?
    ensures var r := ExpandFields(resolve, index, keys, out, active, depth, remaining).value.fields;
      forall k :: k in r && k in keys ==> OpenIsStubbed(resolve, r[k], active)
    decreases remaining, 1 + |keys|
  {
    if keys != [] {
      var k, rest := keys[0], keys[1..];
      assert k !in rest;
      if k !in out {
        CyclesAreCutInFields(resolve, index, rest, out, active, depth, remaining);
        OtherMembersStay(resolve, index, rest, out, active, depth, remaining);
      } else {
        var first := Expand(resolve, index, out[k], active, depth, remaining);
        CyclesAreCut(resolve, index, out[k], active, depth, remaining);
        CyclesAreCutInFields(resolve, index, rest, out[k := first.value], active, depth, first.remaining);
        OtherMembersStay(resolve, index, rest, out[k := first.value], active, depth, first.remaining);
      }
      assert forall x :: x in keys ==> x == k || x in rest;
    }
  }

  // ---------------------------------------------------------------- the closures as they run

  const MAXIMUM_PRODUCTS := 256

  lemma DefinitionsAreNamed(resolve: Resolver, value: Json)
    ensures forall d :: d in Definitions(resolve, value) ==> d.id != ""
    decreases value
  {
    match value
    case Arr(items) =>
      forall i, d | 0 <= i < |items| && d in Definitions(resolve, items[i]) ensures d.id != "" {
        DefinitionsAreNamed(resolve, items[i]);
      }
    case Obj(fields) =>
      forall k, d | k in fields && d in Definitions(resolve, fields[k]) ensures d.id != "" {
        DefinitionsAreNamed(resolve, fields[k]);
      }
    case _ =>
  }

  lemma IndexIsNamed(resolve: Resolver, value: Json)
    ensures "" !in IndexOf(Definitions(resolve, value))
  {
    var ds := Definitions(resolve, value);
    DefinitionsAreNamed(resolve, value);
    IndexSummarises(ds);
    forall id | id in IndexOf(ds) ensures id != "" {
      var fields: Fields :| Defines(ds, id, fields);
    }
  }

  /** What the products expand to, one after the other within one budget. */
  function ExpandAll(resolve: Resolver, index: Index, products: seq<Fields>, out: seq<Json>, remaining: nat): Option<seq<Json>> {
    if products == [] then Some(out)
    else
      match Expand(resolve, index, Obj(products[0]), {}, 0, remaining)
      case Exhausted => None
      case Expanded(value, left) => ExpandAll(resolve, index, products[1..], out + [value], left)
  }

  class Expander {
    const resolve: Resolver
    const index: Index
    var remaining: nat
    var active: set<string>

    constructor (resolve: Resolver, index: Index)
      ensures this.resolve == resolve && this.index == index && remaining == NODE_BUDGET && active == {}
    {
      this.resolve, this.index := resolve, index;
      remaining, active := NODE_BUDGET, {};
    }

    /** A result within the budget, and the same identifiers open afterwards as before. */
    ghost predicate Gives(r: Option<Json>, e: Expansion, before: set<string>)
      reads this
    {
      && active - {""} == before - {""}
      && match e
         case Exhausted => r == None
         case Expanded(value, left) => r == Some(value) && remaining == left
    }

    method ExpandValue(value: Json, depth: int) returns (r: Option<Json>)
      requires "" !in index
      modifies this
      ensures Gives(r, Expand(resolve, index, value, old(active) - {""}, depth, old(remaining)), old(active))
      decreases remaining, 0
    {
      if remaining == 0 || depth > MAXIMUM_DEPTH {
        return None;
      }
      remaining := remaining - 1;
      match value
      case Arr(items) => r := ExpandArray(items, depth + 1);
      case Obj(fields) => r := ExpandObject(fields, depth + 1);
      case _ => r := Some(value);
    }

    method ExpandProduct(product: Fields) returns (r: Option<Json>)
      requires "" !in index
      modifies this
      ensures match Expand(resolve, index, Obj(product), {}, 0, old(remaining))
              case Exhausted => r == None
              case Expanded(value, left) => r == Some(value) && remaining == left
    {
      active := {};
      assert active - {""} == {};
      r := ExpandValue(Obj(product), 0);
    }

    method ExpandArray(items: seq<Json>, depth: int) returns (r: Option<Json>)
      requires "" !in index
      modifies this
      ensures Gives(r, ExpandItems(resolve, index, items, [], old(active) - {""}, depth, old(remaining)), old(active))
      decreases remaining, 2
    {
      var out := [];
      ghost var result := ExpandItems(resolve, index, items, [], active - {""}, depth, remaining);
      for i := 0 to |items|
        invariant remaining <= old(remaining) && active - {""} == old(active) - {""}
        invariant result == ExpandItems(resolve, index, items[i..], out, old(active) - {""}, depth, remaining)
      {
        assert items[i..][0] == items[i] && items[i..][1..] == items[i + 1..];
        var child := ExpandValue(items[i], depth);
        if child == None {
          return None;
        }
        out := out + [child.value];
      }
      r := Some(Arr(out));
    }

    // The identifier is opened, its relations are expanded, and it is closed whatever happens.
    method ExpandObject(fields: Fields, depth: int) returns (r: Option<Json>)
      requires "" !in index
      modifies this
      ensures var id := Key(resolve, fields); var open := old(active) - {""};
        Gives(r, if id != "" && id in open then Expanded(Stub(fields), old(remaining))
                 else ExpandFields(resolve, index, RELATIONS, Linked(index, id, open, fields), Opened(open, id), depth, old(remaining)), old(active))
      decreases remaining, 3
    {
      var id := Key(resolve, fields);
      var out := fields;
      if id in index && index[id].Merged? && id !in active {
        out := index[id].fields + fields;
      }
      if id != "" && id in active {
        return Some(Stub(fields));
      }
      active := active + {id};
      assert active - {""} == Opened(old(active) - {""}, id);
      r := ExpandRelations(out, depth);
      active := active - {id};
    }

    method ExpandRelations(fields: Fields, depth: int) returns (r: Option<Json>)
      requires "" !in index
      modifies this
      ensures Gives(r, ExpandFields(resolve, index, RELATIONS, fields, old(active) - {""}, depth, old(remaining)), old(active))
      decreases remaining, 2
    {
      var out := fields;
      ghost var result := ExpandFields(resolve, index, RELATIONS, fields, active - {""}, depth, remaining);
      for i := 0 to |RELATIONS|
        invariant remaining <= old(remaining) && active - {""} == old(active) - {""}
        invariant result == ExpandFields(resolve, index, RELATIONS[i..], out, old(active) - {""}, depth, remaining)
      {
        var k := RELATIONS[i];
        assert RELATIONS[i..][0] == k && RELATIONS[i..][1..] == RELATIONS[i + 1..];
        if k in out {
          var child := ExpandValue(out[k], depth);
          if child == None {
            return None;
          }
          out := out[k := child.value];
        }
      }
      r := Some(Obj(out));
    }
  }

  // ---------------------------------------------------------------- the products of a page

  /** Every wanted object a search of the value meets; it does not look inside one, and elsewhere
      follows lists, graphs and main entities. */
  function Found(wanted: Fields -> bool, value: Json, depth: int): seq<Fields>
    decreases value, 0
  {
    if depth > MAXIMUM_DEPTH then []
    else
      match value
      case Arr(items) => FoundAmong(wanted, value, |items|, depth + 1)
      case Obj(fields) =>
        if wanted(fields) then [fields]
        else
          (if "@graph" in fields then Found(wanted, fields["@graph"], depth + 1) else []) +
          (if "mainEntity" in fields then Found(wanted, fields["mainEntity"], depth + 1) else [])
      case _ => []
  }

  function FoundAmong(wanted: Fields -> bool, list: Json, count: nat, depth: int): seq<Fields>
    requires list.Arr? && count <= |list.items|
    decreases list, 0, count
  {
    if count == 0 then [] else FoundAmong(wanted, list, count - 1, depth) + Found(wanted, list.items[count - 1], depth)
  }

  /** The whole, or something over the limit when the whole is. */
  predicate Covers(found: seq<Fields>, whole: seq<Fields>) {
    found == whole || (|found| > MAXIMUM_PRODUCTS && |whole| > MAXIMUM_PRODUCTS)
  }

  lemma {:induction false} FoundGrows(wanted: Fields -> bool, list: Json, fewer: nat, more: nat, depth: int)
    requires list.Arr? && fewer <= more <= |list.items|
    ensures |FoundAmong(wanted, list, fewer, depth)| <= |FoundAmong(wanted, list, more, depth)|
  {
    if fewer < more { FoundGrows(wanted, list, fewer, more - 1, depth); }
  }

  // The search gives up on a list once it has passed the limit.
  method FindProducts(wanted: Fields -> bool, value: Json, depth: int) returns (products: seq<Fields>)
    ensures Covers(products, Found(wanted, value, depth))
    decreases value, 1
  {
    if depth > MAXIMUM_DEPTH {
      return [];
    }
    match value
    case Arr(items) =>
      products := FindAmong(wanted, value, depth + 1);
    case Obj(fields) =>
      if wanted(fields) {
        return [fields];
      }
      var graph, main := [], [];
      if "@graph" in fields {
        graph := FindProducts(wanted, fields["@graph"], depth + 1);
      }
      if "mainEntity" in fields {
        main := FindProducts(wanted, fields["mainEntity"], depth + 1);
      }
      products := graph + main;
    case _ =>
      products := [];
  }

  method FindAmong(wanted: Fields -> bool, list: Json, depth: int) returns (products: seq<Fields>)
    requires list.Arr?
    ensures Covers(products, FoundAmong(wanted, list, |list.items|, depth))
    decreases list, 0
  {
    products := [];
    for i := 0 to |list.items|
      invariant |products| <= MAXIMUM_PRODUCTS && products == FoundAmong(wanted, list, i, depth)
    {
      var found := FindProducts(wanted, list.items[i], depth);
      products := products + found;
      if |products| > MAXIMUM_PRODUCTS {
        FoundGrows(wanted, list, i + 1, |list.items|, depth);
        return products[..MAXIMUM_PRODUCTS + 1];
      }
    }
  }

  /** The products of the documents, resolved: a function of the documents alone. */
  method LinkedProducts(resolve: Resolver, wanted: Fields -> bool, documents: seq<Json>) returns (r: Option<seq<Json>>)
    ensures var whole := ExtentOf(Arr(documents)); var index := IndexOf(Definitions(resolve, Arr(documents)));
      var products := FoundAmong(wanted, Arr(documents), |documents|, 0);
      r == if whole.nodes <= NODE_BUDGET && whole.levels <= MAXIMUM_DEPTH + 1 && |products| <= MAXIMUM_PRODUCTS
           then ExpandAll(resolve, index, products, [], NODE_BUDGET) else None
  {
    var walker := new Walker(resolve);
    var ok := walker.Visit(Arr(documents), 0);
    if !ok {
      return None;
    }
    var products := FindAmong(wanted, Arr(documents), 0);
    if |products| > MAXIMUM_PRODUCTS {
      return None;
    }
    IndexIsNamed(resolve, Arr(documents));
    assert {} + Definitions(resolve, Arr(documents)) == Definitions(resolve, Arr(documents));
    r := ExpandProducts(resolve, walker.index, products);
  }

  method ExpandProducts(resolve: Resolver, index: Index, products: seq<Fields>) returns (r: Option<seq<Json>>)
    requires "" !in index
    ensures r == ExpandAll(resolve, index, products, [], NODE_BUDGET)
  {
    var expander := new Expander(resolve, index);
    var values := [];
    ghost var result := ExpandAll(resolve, index, products, [], NODE_BUDGET);
    for i := 0 to |products|
      invariant fresh(expander) && expander.resolve == resolve && expander.index == index
      invariant result == ExpandAll(resolve, index, products[i..], values, expander.remaining)
    {
      assert products[i..][0] == products[i] && products[i..][1..] == products[i + 1..];
      var value := expander.ExpandProduct(products[i]);
      if value == None {
        return None;
      }
      values := values + [value.value];
    }
    r := Some(values);
  }
}
