/** How many nodes `CleanSchema` visits, and how many nodes a cleaned schema has. */
module SchemaVisits {
  import opened Schemas
  import opened SchemaForms

  const MAX_NODES: nat := 4096

  // ---- Sums over maps ----------------------------------------------------------------------

  ghost function Sum(m: map<string, nat>): nat
    decreases |m|
  {
    if m == map[] then 0 else var k :| k in m; m[k] + Sum(m - {k})
  }

  lemma {:induction false} SumRemoves(m: map<string, nat>, k: string)
    requires k in m
    ensures Sum(m) == m[k] + Sum(m - {k})
    decreases |m|
  {
    var first :| first in m && Sum(m) == m[first] + Sum(m - {first});
    if first != k {
      SumRemoves(m - {first}, k);
      SumRemoves(m - {k}, first);
      assert m - {first} - {k} == m - {k} - {first};
    }
  }

  lemma SumAdds(m: map<string, nat>, k: string, n: nat)
    requires k !in m
    ensures Sum(m[k := n]) == n + Sum(m)
  {
    SumRemoves(m[k := n], k);
    assert m[k := n] - {k} == m;
  }

  lemma RemovingCounts(m: map<string, nat>, k: string)
    requires k in m
    ensures |m| == |m - {k}| + 1
  {
    assert m.Keys == (m - {k}).Keys + {k};
    assert |m.Keys| == |m| && |(m - {k}).Keys| == |m - {k}|;
  }

  lemma {:induction false} SumOfEquals(m: map<string, nat>, n: nat)
    requires n <= 2 && forall k <- m :: m[k] == n
    ensures Sum(m) == if n == 0 then 0 else if n == 1 then |m| else 2 * |m|
    decreases |m|
  {
    if k :| k in m {
      SumRemoves(m, k);
      RemovingCounts(m, k);
      SumOfEquals(m - {k}, n);
    } else {
      assert m == map[];
    }
  }

  lemma SumOfOne(m: map<string, nat>, k: string)
    requires k in m && forall other <- m :: other == k || m[other] == 0
    ensures Sum(m) == m[k]
  {
    SumRemoves(m, k);
    SumOfEquals(m - {k}, 0);
  }

  /** The part of a sum that is done. */
  ghost function SumOver(costs: map<string, nat>, done: set<string>): nat {
    Sum(Part(costs, done))
  }

  function Part(costs: map<string, nat>, done: set<string>): map<string, nat> {
    map k | k in costs && k in done :: costs[k]
  }

  lemma SumOverAdds(costs: map<string, nat>, done: set<string>, k: string)
    requires k in costs && k !in done
    ensures SumOver(costs, done + {k}) == SumOver(costs, done) + costs[k]
  {
    assert Part(costs, done + {k}) == Part(costs, done)[k := costs[k]];
    SumAdds(Part(costs, done), k, costs[k]);
  }

  lemma SumOverEnds(costs: map<string, nat>)
    ensures SumOver(costs, {}) == 0 && SumOver(costs, costs.Keys) == Sum(costs)
  {
    assert Part(costs, costs.Keys) == costs && Part(costs, {}) == map[];
  }

  // ---- Visits --------------------------------------------------------------------------------

  ghost function RefVisits(ctx: Context, m: Fields, visiting: set<string>, depth: nat): nat
    requires depth <= MAX_DEPTH
    decreases Left(depth), 1, 0
  {
    var ref := Get(m, "$ref").AsString();
    if ref != "" && Followed(ref, visiting) && Target(ctx, ref).Obj? then
      Visits(ctx, Target(ctx, ref).fields, visiting + {ref}, depth + 1)
    else 0
  }

  ghost function OptionVisits(ctx: Context, options: seq<Json>, visiting: set<string>, depth: nat): nat
    requires depth <= MAX_DEPTH
    decreases Left(depth), 1, |options|
  {
    if options == [] then 0
    else
      var n := |options| - 1;
      OptionVisits(ctx, options[..n], visiting, depth)
      + if options[n].Obj? && !IsNullType(options[n]) then Visits(ctx, options[n].fields, visiting, depth + 1) else 0
  }

  ghost function UnionVisits(ctx: Context, m: Fields, key: string, visiting: set<string>, depth: nat): nat
    requires depth <= MAX_DEPTH
    decreases Left(depth), 2, 0
  {
    OptionVisits(ctx, Get(m, key).AsSlice(), visiting, depth)
  }

  ghost function MemberVisits(ctx: Context, all: seq<Json>, visiting: set<string>, depth: nat): nat
    requires depth <= MAX_DEPTH
    decreases Left(depth), 1, |all|
  {
    if all == [] then 0
    else
      var n := |all| - 1;
      MemberVisits(ctx, all[..n], visiting, depth)
      + if all[n].Obj? then Visits(ctx, all[n].fields, visiting, depth + 1) else 0
  }

  ghost function AllOfVisits(ctx: Context, m: Fields, visiting: set<string>, depth: nat): nat
    requires depth <= MAX_DEPTH
    decreases Left(depth), 2, 0
  {
    MemberVisits(ctx, Get(m, "allOf").AsSlice(), visiting, depth)
  }

  /** The nodes visited to work in references, unions and conjunctions. */
  ghost function VisitsBefore(ctx: Context, m: Fields, visiting: set<string>, depth: nat): nat
    requires depth <= MAX_DEPTH
    decreases Left(depth), 3, 0
  {
    var referred := WithRef(ctx, m, visiting, depth);
    var some := WithUnion(ctx, referred, "anyOf", visiting, depth);
    var united := WithUnion(ctx, some, "oneOf", visiting, depth);
    RefVisits(ctx, m, visiting, depth)
    + UnionVisits(ctx, referred, "anyOf", visiting, depth)
    + UnionVisits(ctx, some, "oneOf", visiting, depth)
    + AllOfVisits(ctx, WithTypeList(united), visiting, depth)
  }

  ghost function PropertyVisits(ctx: Context, properties: Fields, visiting: set<string>, depth: nat): nat
    requires depth <= MAX_DEPTH
    decreases Left(depth), 1, 0
  {
    Sum(PropertyCosts(ctx, properties, visiting, depth))
  }

  ghost function PropertyCosts(ctx: Context, properties: Fields, visiting: set<string>, depth: nat): map<string, nat>
    requires depth <= MAX_DEPTH
    decreases Left(depth), 0, 0
  {
    map name | name in properties ::
      if properties[name].Obj? then Visits(ctx, properties[name].fields, visiting, depth + 1) else 0
  }

  ghost function KeyVisits(ctx: Context, k: string, v: Json, visiting: set<string>, depth: nat): nat
    requires depth <= MAX_DEPTH
    decreases Left(depth), 2, 0
  {
    if k == "properties" then PropertyVisits(ctx, v.AsFields(), visiting, depth)
    else if k == "items" && v.Obj? then Visits(ctx, v.fields, visiting, depth + 1)
    else 0
  }

  /** The nodes visited below a node that is worked out. */
  ghost function VisitsBelow(ctx: Context, m: Fields, visiting: set<string>, depth: nat): nat
    requires depth <= MAX_DEPTH
    decreases Left(depth), 3, 0
  {
    Sum(KeyCosts(ctx, m, visiting, depth))
  }

  ghost function KeyCosts(ctx: Context, m: Fields, visiting: set<string>, depth: nat): map<string, nat>
    requires depth <= MAX_DEPTH
    decreases Left(depth), 2, 1
  {
    map k | k in m :: KeyVisits(ctx, k, m[k], visiting, depth)
  }

  /** How often `clean` is entered for a node, if no node is left out because of their number. */
  ghost function Visits(ctx: Context, m: Fields, visiting: set<string>, depth: nat): nat
    decreases Left(depth), 6, 0
  {
    if depth > MAX_DEPTH then 1
    else
      1 + VisitsBefore(ctx, m, visiting, depth)
      + VisitsBelow(ctx, Resolved(ctx, m, visiting, depth), visiting, depth)
  }

  /** How many nodes the whole call visits when it leaves none out. */
  ghost function VisitsOf(schema: Json, marshal: Json -> string): nat {
    if schema.Obj? then Visits(Context(schema, marshal), schema.fields, {}, 0) else 0
  }

  // ---- Nodes of a cleaned schema -----------------------------------------------------------

  /**
   The nodes of a schema reached through `properties` and `items` down to depth 25: every one,
   or only those above depth 25 that are not the replacement for what is too deep or too much.
   */
  ghost function Count(j: Json, depth: nat, every: bool): nat
    decreases Left(depth), 2, 0
  {
    if depth > MAX_DEPTH || (!every && j == Obj(Fallback())) then (if every then 1 else 0)
    else 1 + CountBelow(j.AsFields(), depth, every)
  }

  ghost function CountBelow(f: Fields, depth: nat, every: bool): nat
    requires depth <= MAX_DEPTH
    decreases Left(depth), 1
  {
    Sum(KeyCounts(f, depth, every))
  }

  ghost function KeyCounts(f: Fields, depth: nat, every: bool): map<string, nat>
    requires depth <= MAX_DEPTH
    decreases Left(depth), 0, 2
  {
    map k | k in f :: CountKey(k, f[k], depth, every)
  }

  ghost function CountKey(k: string, v: Json, depth: nat, every: bool): nat
    requires depth <= MAX_DEPTH
    decreases Left(depth), 0, 1
  {
    if k == "properties" then CountProperties(v.AsFields(), depth + 1, every)
    else if k == "items" then Count(v, depth + 1, every)
    else 0
  }

  ghost function CountProperties(properties: Fields, depth: nat, every: bool): nat
    decreases Left(depth), 3
  {
    Sum(PropertyCounts(properties, depth, every))
  }

  ghost function PropertyCounts(properties: Fields, depth: nat, every: bool): map<string, nat>
    decreases Left(depth), 2, 1
  {
    map name | name in properties :: Count(properties[name], depth, every)
  }

  // ---- Cleaning a cleaned schema visits its nodes --------------------------------------------

  /** Without references, unions, conjunctions and lists of types there is nothing to visit before the children. */
  lemma PlainNeedsNoVisits(ctx: Context, m: Fields, visiting: set<string>, depth: nat)
    requires m.Keys !! {"$ref", "anyOf", "oneOf", "allOf"} && Get(m, "type").AsSlice() == [] && depth <= MAX_DEPTH
    ensures VisitsBefore(ctx, m, visiting, depth) == 0
  {
    hide Clean, CleanOptions, MergeAll, Visits;
    assert forall key | key in {"$ref", "anyOf", "oneOf", "allOf"} :: key !in m && Get(m, key) == Null;
    assert WithRef(ctx, m, visiting, depth) == m && WithTypeList(m) == m;
    assert WithUnion(ctx, m, "anyOf", visiting, depth) == m && WithUnion(ctx, m, "oneOf", visiting, depth) == m;
    assert RefVisits(ctx, m, visiting, depth) == 0;
    assert UnionVisits(ctx, m, "anyOf", visiting, depth) == 0 && UnionVisits(ctx, m, "oneOf", visiting, depth) == 0;
    assert AllOfVisits(ctx, m, visiting, depth) == 0;
  }

  lemma ShapedNeedsNoVisits(ctx: Context, f: Fields, visiting: set<string>, depth: nat)
    requires Shaped(f) && depth <= MAX_DEPTH
    ensures VisitsBefore(ctx, f, visiting, depth) == 0
  {
    hide VisitsBefore;
    ConstraintsAreNotAllowed(f);
    PlainNeedsNoVisits(ctx, f, visiting, depth);
  }

  lemma {:induction false} FormVisits(ctx: Context, j: Json, visiting: set<string>, depth: nat)
    requires Form(j)
    ensures Visits(ctx, j.fields, visiting, depth) == Count(j, depth, true)
    decreases Left(depth), 2
  {
    FormParts(j);
    if depth <= MAX_DEPTH {
      hide Form, FormAll, Shaped, Resolved, VisitsBefore, CountBelow, VisitsBelow;
      ShapedNeedsNoVisits(ctx, j.fields, visiting, depth);
      ShapedIsResolved(ctx, j.fields, visiting, depth);
      BelowVisits(ctx, j.fields, visiting, depth);
    }
  }

  lemma {:induction false} BelowVisits(ctx: Context, f: Fields, visiting: set<string>, depth: nat)
    requires Form(Obj(f)) && depth <= MAX_DEPTH
    ensures VisitsBelow(ctx, f, visiting, depth) == CountBelow(f, depth, true)
    decreases Left(depth), 1
  {
    hide Form, FormAll, Shaped, Visits, Count;
    FormParts(Obj(f));
    forall k <- f
      ensures KeyVisits(ctx, k, f[k], visiting, depth) == CountKey(k, f[k], depth, true)
    {
      if k == "properties" {
        PropertiesVisits(ctx, f[k], visiting, depth);
      } else if k == "items" {
        FormIsObject(f[k]);
        FormVisits(ctx, f[k], visiting, depth + 1);
      }
    }
    assert KeyCosts(ctx, f, visiting, depth) == KeyCounts(f, depth, true);
  }

  lemma {:induction false} PropertiesVisits(ctx: Context, properties: Json, visiting: set<string>, depth: nat)
    requires FormAll(properties) && depth <= MAX_DEPTH
    ensures PropertyVisits(ctx, properties.AsFields(), visiting, depth)
      == CountProperties(properties.AsFields(), depth + 1, true)
    decreases Left(depth), 0
  {
    hide Form, Visits, Count;
    FormAllAreObjects(properties);
    var props := properties.fields;
    forall name <- props
      ensures Visits(ctx, props[name].fields, visiting, depth + 1) == Count(props[name], depth + 1, true)
    {
      FormVisits(ctx, props[name], visiting, depth + 1);
    }
    assert PropertyCosts(ctx, props, visiting, depth) == PropertyCounts(props, depth + 1, true);
  }

  /** Cleaning a schema of the form: its nodes are what is visited, and it is fixed when it bottoms out. */
  lemma FormIsVisited(j: Json, marshal: Json -> string)
    requires Form(j)
    ensures j.Obj? && VisitsOf(j, marshal) == Count(j, 0, true)
    ensures CleanSchema(j, marshal) == j.fields <==> BottomsOut(j, 0)
  {
    hide Form, Clean, Visits, Count, BottomsOut;
    FormIsObject(j);
    FormVisits(Context(j, marshal), j, {}, 0);
    FormIsFixedIff(Context(j, marshal), j, {}, 0);
  }

  // ---- The counter ---------------------------------------------------------------------------

  /** What visiting `visits` nodes does to the counter: past the limit it only stays past it. */
  predicate Spent(before: nat, after: nat, visits: nat) {
    if before + visits <= MAX_NODES then after == before + visits else after > MAX_NODES
  }

  lemma SpentTwice(a: nat, b: nat, c: nat, x: nat, y: nat)
    requires Spent(a, b, x) && b <= c && (b <= MAX_NODES ==> Spent(b, c, y))
    ensures Spent(a, c, x + y)
  {
  }

  /** All of `others` nodes were visited, and within the limit. */
  predicate Room(before: nat, after: nat, others: nat) {
    before + others <= after && (others > 0 ==> before + others <= MAX_NODES)
  }

  // ---- Loops over the children of a cleaned node ---------------------------------------------

  /**
   Of the children `done`, `g` has the new ones and `f` the old: if they are the same, they are
   all among `fixed`, and there was room for them.
   */
  ghost predicate SameSoFar(f: Fields, g: Fields, fixed: set<string>, costs: map<string, nat>, done: set<string>,
                            before: nat, after: nat) {
    (forall k <- done :: k in f && k in g && g[k] == f[k]) ==>
      done <= fixed && Room(before, after, SumOver(costs, done))
  }

  lemma OneMoreChild(f: Fields, g: Fields, fixed: set<string>, costs: map<string, nat>, done: set<string>,
                     k: string, v: Json, a: nat, b: nat, c: nat)
    requires SameSoFar(f, g, fixed, costs, done, a, b) && k !in done && k in costs && k in f
    requires v == f[k] ==> k in fixed && Room(b, c, costs[k])
    ensures SameSoFar(f, g[k := v], fixed, costs, done + {k}, a, c)
  {
    hide SumOver;
    SumOverAdds(costs, done, k);
    if forall i <- done + {k} :: i in f && i in g[k := v] && g[k := v][i] == f[i] {
      assert k in done + {k};
      forall i <- done
        ensures i in f && i in g && g[i] == f[i]
      {
        assert i in done + {k};
      }
    }
  }

  lemma NoChild(f: Fields, fixed: set<string>, costs: map<string, nat>, before: nat)
    ensures SameSoFar(f, map[], fixed, costs, {}, before, before)
  {
    SumOverEnds(costs);
  }

  /** A child that is reached through `properties` or `items` bottoms out. */
  ghost predicate KeyBottomsOut(k: string, v: Json, depth: nat) {
    (k == "properties" ==> BottomsOutAll(v, depth + 1)) && (k == "items" ==> BottomsOut(v, depth + 1))
  }

  ghost function FixedKeys(f: Fields, depth: nat): set<string> {
    set k | k in f && KeyBottomsOut(k, f[k], depth)
  }

  ghost function FixedProperties(properties: Fields, depth: nat): set<string> {
    set name | name in properties && BottomsOut(properties[name], depth)
  }

  /** A cleaned node whose children are kept as they are: it bottoms out, and there was room for its nodes. */
  lemma NodeIsKept(f: Fields, depth: nat, before: nat, after: nat)
    requires depth <= MAX_DEPTH && before < MAX_NODES && before < after
    requires f.Keys <= FixedKeys(f, depth) && Room(before + 1, after, CountBelow(f, depth, false))
    ensures BottomsOut(Obj(f), depth) && Room(before, after, Count(Obj(f), depth, false))
  {
    hide BottomsOut, BottomsOutAll, CountBelow;
    BottomsOutParts(Obj(f), depth);
  }
}
