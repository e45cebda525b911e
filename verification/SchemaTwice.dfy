/** `CleanSchema` on what `CleanSchema` returned, with the count of visited nodes. */
module SchemaTwice {
  import opened Text
  import opened Schemas
  import opened SchemaForms
  import opened SchemaVisits
  import opened SchemaCleaners
  import opened SchemaLaws

  /**
   Idempotence. The second pass stays within the node limit exactly when the cleaned schema has
   at most 4096 nodes, and then gives it back exactly when every node of it at depth 25 is the
   replacement. Whenever it gives it back, all of that holds and at most 4096 of its nodes are
   not the replacement; so without replaced nodes the condition is exact for every schema.
   */
  method CleanTwice(schema: Json, marshal: Json -> string, again: Json -> string)
    returns (once: Fields, twice: Fields, visited: nat)
    ensures Form(Obj(once)) && (VisitsOf(schema, marshal) <= MAX_NODES ==> once == CleanSchema(schema, marshal))
    ensures visited <= MAX_NODES <==> Count(Obj(once), 0, true) <= MAX_NODES
    ensures visited <= MAX_NODES ==>
      visited == Count(Obj(once), 0, true) && (twice == once <==> BottomsOut(Obj(once), 0))
    ensures twice == once ==> BottomsOut(Obj(once), 0) && Count(Obj(once), 0, false) <= MAX_NODES
    ensures Count(Obj(once), 0, false) == Count(Obj(once), 0, true) ==>
      (twice == once <==> BottomsOut(Obj(once), 0) && Count(Obj(once), 0, true) <= MAX_NODES)
  {
    hide Form, CleanSchema, VisitsOf, Count, BottomsOut;
    var first;
    once, first := CleanWhole(schema, marshal);
    twice, visited := CleanWhole(Obj(once), again);
    FormIsVisited(Obj(once), again);
  }

  // ---- A wide schema -------------------------------------------------------------------------

  function Name(i: nat): string {
    seq(i, _ => 'p')
  }

  /** `n` different names. */
  function Names(n: nat): set<string> {
    if n == 0 then {} else Names(n - 1) + {Name(n)}
  }

  lemma {:induction false} NamesAreShort(n: nat, name: string)
    requires name in Names(n)
    ensures |name| <= n
  {
    if name != Name(n) {
      NamesAreShort(n - 1, name);
    }
  }

  lemma {:induction false} NamesDiffer(n: nat)
    ensures |Names(n)| == n
  {
    if n > 0 {
      NamesDiffer(n - 1);
      if Name(n) in Names(n - 1) {
        NamesAreShort(n - 1, Name(n));
      }
    }
  }

  function Every(n: nat, j: Json): Fields {
    map name | name in Names(n) :: j
  }

  /** An object of `n` properties, all of them arrays. */
  function Wide(n: nat): Json {
    Obj(map["type" := Str("object"), "properties" := Obj(Every(n, Nested(0)))])
  }

  function WideClean(n: nat): Json {
    Obj(map["type" := Str("OBJECT"), "properties" := Obj(Every(n, NestedClean(0)))])
  }

  lemma {:induction false} SumOfEvery(costs: map<string, nat>, n: nat, cost: nat)
    requires costs.Keys == Names(n) && cost <= 2 && forall name <- costs :: costs[name] == cost
    ensures Sum(costs) == if cost == 0 then 0 else if cost == 1 then n else 2 * n
  {
    hide Sum;
    SumOfEquals(costs, cost);
    NamesDiffer(n);
    assert |costs.Keys| == |costs|;
  }

  lemma ArrayVisits(ctx: Context, visiting: set<string>, depth: nat)
    requires depth <= MAX_DEPTH
    ensures Visits(ctx, Nested(0).fields, visiting, depth) == 1
  {
    hide Resolved, VisitsBefore;
    var m := Nested(0).fields;
    BareResolves(ctx, m, visiting, depth);
    PlainNeedsNoVisits(ctx, m, visiting, depth);
    assert m.Keys == {"type"} && KeyVisits(ctx, "type", m["type"], visiting, depth) == 0;
    SumOfEquals(KeyCosts(ctx, m, visiting, depth), 0);
  }

  lemma WideVisits(n: nat, marshal: Json -> string)
    ensures VisitsOf(Wide(n), marshal) == n + 1
  {
    hide Resolved, VisitsBefore, Visits, Nested;
    var ctx, m := Context(Wide(n), marshal), Wide(n).fields;
    BareResolves(ctx, m, {}, 0);
    PlainNeedsNoVisits(ctx, m, {}, 0);
    ArrayVisits(ctx, {}, 1);
    ArrayIsObject();
    SumOfEvery(PropertyCosts(ctx, Every(n, Nested(0)), {}, 0), n, 1);
    SumOfOne(KeyCosts(ctx, m, {}, 0), "properties");
    VisitsAreSplit(ctx, m, {}, 0);
  }

  lemma ArrayIsObject()
    ensures Nested(0).Obj? && NestedClean(0).Obj?
  {
  }

  lemma CleanArrayCounts(depth: nat, every: bool)
    requires depth + 1 <= MAX_DEPTH
    ensures Count(NestedClean(0), depth, every) == 2
  {
    var inner, f := DefaultItems().fields, NestedClean(0).fields;
    assert "description" in Fallback() && "description" !in inner && "description" !in f;
    assert inner.Keys == {"type"} && CountKey("type", inner["type"], depth + 1, every) == 0;
    SumOfEquals(KeyCounts(inner, depth + 1, every), 0);
    assert Count(DefaultItems(), depth + 1, every) == 1;
    assert f.Keys == {"type", "items"} && CountKey("type", f["type"], depth, every) == 0;
    SumOfOne(KeyCounts(f, depth, every), "items");
    assert f["items"] == DefaultItems() && CountKey("items", f["items"], depth, every) == 1;
  }

  lemma WideCounts(n: nat, every: bool)
    ensures Count(WideClean(n), 0, every) == 2 * n + 1
  {
    hide NestedClean;
    var f := WideClean(n).fields;
    assert "description" in Fallback() && "description" !in f;
    CleanArrayCounts(1, every);
    SumOfEvery(PropertyCounts(Every(n, NestedClean(0)), 1, every), n, 2);
    SumOfOne(KeyCounts(f, 0, every), "properties");
  }

  lemma WideCleans(n: nat, marshal: Json -> string)
    ensures Obj(CleanSchema(Wide(n), marshal)) == WideClean(n)
  {
    hide Resolved, Closed, Clean, Kept, Nested, NestedClean;
    var ctx, m := Context(Wide(n), marshal), Wide(n).fields;
    BareResolves(ctx, m, {}, 0);
    NestedCleans(ctx, 0, {}, 1);
    ArrayIsObject();
    assert CleanProperties(ctx, Every(n, Nested(0)), {}, 0) == Every(n, NestedClean(0));
    WideIsKept(ctx, n);
    WideIsClosed(n);
    CleanIsClosed(ctx, m, {}, 0);
  }

  lemma WideIsKept(ctx: Context, n: nat)
    requires CleanProperties(ctx, Every(n, Nested(0)), {}, 0) == Every(n, NestedClean(0))
    ensures Kept(ctx, Wide(n).fields, {}, 0) == WideClean(n).fields
  {
    hide Clean, CleanProperties, Every, Nested, NestedClean;
    assert ToUpper("object") == "OBJECT";
  }

  lemma WideIsClosed(n: nat)
    ensures Closed(WideClean(n).fields) == WideClean(n).fields
  {
  }

  lemma WideBottomsOut(n: nat)
    ensures BottomsOut(WideClean(n), 0)
  {
  }

  /**
   Three thousand arrays: the first pass is within the limit and gives every array its default
   items, without visiting them; the second would visit 6001 nodes, and changes the schema.
   */
  method CleanWideTwice(marshal: Json -> string, again: Json -> string) returns (once: Fields, twice: Fields)
    ensures VisitsOf(Wide(3000), marshal) == 3001 && Obj(once) == WideClean(3000)
    ensures VisitsOf(WideClean(3000), again) == 6001 && BottomsOut(WideClean(3000), 0)
    ensures twice != once
  {
    hide Form, CleanSchema, VisitsOf, Count, BottomsOut, Wide, WideClean;
    var visited;
    once, twice, visited := CleanTwice(Wide(3000), marshal, again);
    WideVisits(3000, marshal);
    WideCleans(3000, marshal);
    WideCounts(3000, true);
    WideCounts(3000, false);
    WideBottomsOut(3000);
    FormIsVisited(WideClean(3000), again);
  }
}
