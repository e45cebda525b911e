/** `CleanSchema` in place: the recursion with its count of visited nodes, and its loops over Go maps in any order. */
module SchemaCleaners {
  import opened Text
  import opened Schemas
  import opened SchemaForms
  import opened SchemaVisits

  // ---- Merging keys ----------------------------------------------------------------------

  method AddMissing(m: Fields, add: Fields) returns (r: Fields)
    ensures r == MergeMissing(m, add)
  {
    var keys := add.Keys;
    r := m;
    while keys != {}
      invariant keys <= add.Keys && r == MergeMissing(m, add - keys)
      decreases |keys|
    {
      var k :| k in keys;
      if k !in r {
        r := r[k := add[k]];
      }
      keys := keys - {k};
    }
    assert add - {} == add;
  }

  method TakeOver(m: Fields, add: Fields) returns (r: Fields)
    ensures r == MergeNull(m, add)
  {
    var keys := add.Keys;
    r := m;
    while keys != {}
      invariant keys <= add.Keys && r == MergeNull(m, add - keys)
      decreases |keys|
    {
      var k :| k in keys;
      if Get(r, k).Null? {
        r := r[k := add[k]];
      }
      keys := keys - {k};
    }
    assert add - {} == add;
  }

  method AddMemberKey(m: Fields, k: string, v: Json) returns (r: Fields)
    ensures r == m[k := MemberValue(m, k, v)]
  {
    r := m;
    if k == "properties" {
      r := r[k := Obj(Get(r, k).AsFields() + v.AsFields())];
    } else if k == "required" {
      r := r[k := Arr(Get(r, k).AsSlice() + v.AsSlice())];
    } else if Get(r, k).Null? {
      r := r[k := v];
    }
  }

  method AddMember(m: Fields, add: Fields) returns (r: Fields)
    ensures r == MergeAllOf(m, add)
  {
    hide MergeAllOf, MemberValue;
    var keys := add.Keys;
    r := m;
    NothingToAdd(m, add);
    while keys != {}
      invariant keys <= add.Keys && r == MergeAllOf(m, add - keys)
      decreases |keys|
    {
      var k :| k in keys;
      OneMoreMember(m, add - keys, k, add[k]);
      assert add - (keys - {k}) == (add - keys)[k := add[k]];
      r := AddMemberKey(r, k, add[k]);
      keys := keys - {k};
    }
    assert add - {} == add;
  }

  lemma NothingToAdd(m: Fields, add: Fields)
    ensures MergeAllOf(m, add - add.Keys) == m
  {
    assert MergeAllOf(m, add - add.Keys).Keys == m.Keys;
  }

  lemma OneMoreMember(m: Fields, add: Fields, k: string, v: Json)
    requires k !in add
    ensures var r := MergeAllOf(m, add); MergeAllOf(m, add[k := v]) == r[k := MemberValue(r, k, v)]
  {
    var r := MergeAllOf(m, add);
    OnlyThisKeyMatters(m, r, k, v);
    hide MemberValue;
    assert MergeAllOf(m, add[k := v]).Keys == r[k := MemberValue(r, k, v)].Keys;
  }

  lemma OnlyThisKeyMatters(m: Fields, n: Fields, k: string, v: Json)
    requires Get(m, k) == Get(n, k)
    ensures MemberValue(m, k, v) == MemberValue(n, k, v)
  {
  }

  // ---- Steps that visit no other node --------------------------------------------------------

  method MergeActual(m: Fields, actual: seq<Fields>) returns (r: Fields)
    ensures r == MergeBranches(m, actual)
  {
    hide Score;
    if |actual| == 0 {
      return m;
    }
    if |actual| == 1 {
      r := AddMissing(m, actual[0]);
      return;
    }
    var best, score: int := actual[0], -1;
    var types := "";
    for i := 0 to |actual|
      invariant i == 0 ==> best == actual[0] && score == -1
      invariant i > 0 ==> best == Best(actual[..i]) && score == Score(best) && types == TypesOf(actual[..i])
    {
      OneMoreBranch(actual, i);
      var n := Score(actual[i]);
      if n > score {
        score := n;
        best := actual[i];
      }
      types := if i == 0 then Get(actual[i], "type").AsString() else types + " | " + Get(actual[i], "type").AsString();
    }
    assert actual[..|actual|] == actual;
    r := TakeOver(m, best);
    r := Describe(r, " [Accepts: " + types + "]");
  }

  lemma OneMoreBranch(branches: seq<Fields>, i: nat)
    requires i < |branches|
    ensures Best(branches[..i + 1])
      == if i == 0 || Score(branches[i]) > Score(Best(branches[..i])) then branches[i] else Best(branches[..i])
    ensures var type_ := Get(branches[i], "type").AsString();
      TypesOf(branches[..i + 1]) == if i == 0 then type_ else TypesOf(branches[..i]) + " | " + type_
  {
    hide Score;
    assert branches[..i + 1][..i] == branches[..i];
  }

  /** A node without a type, given the types of a list. */
  function Typed(rest: Fields, types: seq<Json>): Fields {
    (if exists t <- types :: t.AsString() == "null" then rest["nullable" := Bool(true)] else rest) + FirstType(types)
  }

  lemma TypedIsWithTypeList(m: Fields)
    ensures var types := Get(m, "type").AsSlice();
      types != [] ==> WithTypeList(m) == Typed(m - {"type"}, types)
    ensures Typed(m - {"type"}, []) == m - {"type"}
  {
  }

  lemma TypedByOneMore(rest: Fields, types: seq<Json>, i: nat)
    requires i < |types| && "type" !in rest
    ensures var before := Typed(rest, types[..i]);
      Typed(rest, types[..i + 1])
        == if types[i].AsString() == "null" then before["nullable" := Bool(true)]
           else if Get(before, "type").Null? then before["type" := Str(types[i].AsString())]
           else before
  {
    hide FirstType;
    OneMoreType(types, i);
  }

  method ChooseType(m: Fields) returns (r: Fields)
    ensures r == WithTypeList(m)
  {
    hide Typed;
    var types := Get(m, "type").AsSlice();
    if |types| == 0 {
      return m;
    }
    r := m - {"type"};
    ghost var rest := r;
    TypedIsWithTypeList(m);
    for i := 0 to |types|
      invariant r == Typed(rest, types[..i])
    {
      TypedByOneMore(rest, types, i);
      var s := types[i].AsString();
      if s == "null" {
        r := r["nullable" := Bool(true)];
      } else if Get(r, "type").Null? {
        r := r["type" := Str(s)];
      }
    }
    assert types[..|types|] == types;
  }

  lemma {:induction false} FirstTypeAppends(types: seq<Json>, t: Json)
    ensures FirstType(types + [t])
      == if FirstType(types) != map[] then FirstType(types)
         else if t.AsString() == "null" then map[] else map["type" := Str(t.AsString())]
    ensures FirstType(types) == map[] || (FirstType(types).Keys == {"type"} && FirstType(types)["type"].Str?)
    decreases types
  {
    if types == [] {
      assert types + [t] == [t] && [t][1..] == [];
    } else {
      assert (types + [t])[1..] == types[1..] + [t];
      FirstTypeAppends(types[1..], t);
      assert map["type" := Str(types[0].AsString())] != map[] by {
        assert "type" in map["type" := Str(types[0].AsString())];
      }
    }
  }

  lemma OneMoreType(types: seq<Json>, i: nat)
    requires i < |types|
    ensures (exists t <- types[..i + 1] :: t.AsString() == "null") <==>
      types[i].AsString() == "null" || exists t <- types[..i] :: t.AsString() == "null"
    ensures FirstType(types[..i + 1])
      == if FirstType(types[..i]) != map[] then FirstType(types[..i])
         else if types[i].AsString() == "null" then map[] else map["type" := Str(types[i].AsString())]
    ensures FirstType(types[..i]) == map[]
      || (FirstType(types[..i]).Keys == {"type"} && FirstType(types[..i])["type"].Str?)
  {
    assert types[..i + 1] == types[..i] + [types[i]];
    FirstTypeAppends(types[..i], types[i]);
    assert types[i] in types[..i + 1];
  }

  method Constrain(ctx: Context, m: Fields) returns (r: Fields)
    ensures r == Constrained(ctx, m, CONSTRAINTS)
  {
    r := m;
    for i := 0 to |CONSTRAINTS|
      invariant Constrained(ctx, m, CONSTRAINTS) == Constrained(ctx, r, CONSTRAINTS[i..])
    {
      var key := CONSTRAINTS[i];
      assert CONSTRAINTS[i..][0] == key && CONSTRAINTS[i..][1..] == CONSTRAINTS[i + 1..];
      if key in r {
        r := Describe(r, " [Constraint: " + key + "=" + ctx.marshal(r[key]) + "]");
      }
    }
  }

  method RestrictEnum(ctx: Context, m: Fields) returns (r: Fields)
    ensures r == WithEnum(ctx, m)
  {
    r := m;
    var values := Get(m, "enum").AsSlice();
    if |values| > 0 {
      var allStrings := true;
      for i := 0 to |values|
        invariant allStrings <==> forall v <- values[..i] :: v.Str?
      {
        assert values[..i + 1] == values[..i] + [values[i]];
        if !values[i].Str? {
          allStrings := false;
        }
      }
      assert values[..|values|] == values;
      if !allStrings {
        r := Describe(r, " [Allowed values: " + ctx.marshal(Arr(values)) + "]");
        r := r - {"enum"};
      }
    }
  }

  method Close(m: Fields) returns (out: Fields)
    ensures out == Closed(m)
  {
    out := m;
    if Get(out, "type").Null? && !Get(out, "properties").Null? {
      out := out["type" := Str("OBJECT")];
    }
    if Get(out, "type").Null? && !Get(out, "items").Null? {
      out := out["type" := Str("ARRAY")];
    }
    assert out == WithType(m);
    if Get(out, "type") == Str("ARRAY") && Get(out, "items").Null? {
      out := out["items" := DefaultItems()];
    }
    if Get(out, "type") == Str("OBJECT") {
      out := out - {"items"};
      if Get(out, "properties").Null? {
        out := out["properties" := Obj(map[])];
      }
    }
    assert out == WithParts(WithType(m));
    out := FilterRequired(out);
  }

  method FilterRequired(m: Fields) returns (out: Fields)
    ensures out == WithRequired(m)
  {
    out := m;
    var required := Get(out, "required").AsSlice();
    if |required| > 0 {
      var valid: seq<string> := [];
      var props := Get(out, "properties").AsFields();
      var seen: set<string> := {};
      for i := 0 to |required|
        invariant valid == ValidRequired(required[..i], props) && seen == set k | k in valid
      {
        assert required[..i + 1][..i] == required[..i];
        var k := required[i].AsString();
        if !Get(props, k).Null? && k !in seen {
          valid := valid + [k];
          seen := seen + {k};
        }
      }
      assert required[..|required|] == required;
      if |valid| == 0 {
        out := out - {"required"};
      } else {
        out := out["required" := Arr(Strings(valid))];
      }
    }
  }

  // ---- What cleaning a node, its properties and its keys comes to -------------------------------

  /**
   A call of `clean` on one node: its result is always of the form, and is `Clean` if the node
   limit is not passed. What it does to the counter depends on the input alone, up to the limit.
   A node of the form that it gives back unchanged bottoms out, and was within the limit with
   everything that is not already the replacement.
   */
  ghost predicate NodeDone(ctx: Context, input: Fields, out: Fields, visiting: set<string>, depth: nat, before: nat,
                           after: nat) {
    && before < after && Form(Obj(out))
    && (after <= MAX_NODES ==> out == Clean(ctx, input, visiting, depth))
    && Spent(before, after, Visits(ctx, input, visiting, depth))
    && (Form(Obj(input)) && out == input ==>
          BottomsOut(Obj(input), depth) && Room(before, after, Count(Obj(input), depth, false)))
  }

  lemma NodeFacts(ctx: Context, input: Fields, out: Fields, visiting: set<string>, depth: nat, before: nat, after: nat)
    requires NodeDone(ctx, input, out, visiting, depth, before, after)
    ensures before < after && Spent(before, after, Visits(ctx, input, visiting, depth))
    ensures after <= MAX_NODES ==> out == Clean(ctx, input, visiting, depth)
  {
    hide Form, Clean, Visits, BottomsOut, Count;
  }

  /** The loop over the properties, after the names `done`. */
  ghost predicate PropertiesDone(ctx: Context, properties: Fields, p: Fields, done: set<string>, visiting: set<string>,
                                 depth: nat, before: nat, after: nat)
    requires depth <= MAX_DEPTH
  {
    && before <= after && p.Keys <= done && FormAll(Obj(p))
    && (after <= MAX_NODES ==> p == CleanProperties(ctx, properties - (properties.Keys - done), visiting, depth))
    && Spent(before, after, SumOver(PropertyCosts(ctx, properties, visiting, depth), done))
    && (FormAll(Obj(properties)) ==>
          && p.Keys == done
          && SameSoFar(properties, p, FixedProperties(properties, depth + 1),
               PropertyCounts(properties, depth + 1, false), done, before, after))
  }

  lemma NoPropertyDone(ctx: Context, properties: Fields, visiting: set<string>, depth: nat, now: nat)
    requires depth <= MAX_DEPTH
    ensures PropertiesDone(ctx, properties, map[], {}, visiting, depth, now, now)
  {
    hide Form, Clean, Visits, SumOver, SameSoFar, FixedProperties;
    SumOverEnds(PropertyCosts(ctx, properties, visiting, depth));
    NoChild(properties, FixedProperties(properties, depth + 1), PropertyCounts(properties, depth + 1, false), now);
    EmptyFormAll();
    assert CleanProperties(ctx, properties - properties.Keys, visiting, depth) == map[];
  }

  lemma OneMoreProperty(ctx: Context, properties: Fields, p: Fields, done: set<string>, name: string, cleaned: Fields,
                        visiting: set<string>, depth: nat, a: nat, b: nat, c: nat)
    requires depth <= MAX_DEPTH && done <= properties.Keys && name in properties && name !in done
    requires properties[name].Obj?
    requires PropertiesDone(ctx, properties, p, done, visiting, depth, a, b)
    requires NodeDone(ctx, properties[name].fields, cleaned, visiting, depth + 1, b, c)
    ensures PropertiesDone(ctx, properties, p[name := Obj(cleaned)], done + {name}, visiting, depth, a, c)
  {
    hide Form, Clean, CleanProperties, Visits, SumOver, SameSoFar, Count, BottomsOut, Spent;
    var costs := PropertyCosts(ctx, properties, visiting, depth);
    SumOverAdds(costs, done, name);
    SpentTwice(a, b, c, SumOver(costs, done), costs[name]);
    if FormAll(Obj(properties)) {
      OneMoreChild(properties, p, FixedProperties(properties, depth + 1), PropertyCounts(properties, depth + 1, false),
        done, name, Obj(cleaned), a, b, c);
    }
    CleanOneMore(ctx, properties, done, name, visiting, depth);
  }

  lemma CleanOneMore(ctx: Context, properties: Fields, done: set<string>, name: string, visiting: set<string>,
                     depth: nat)
    requires depth <= MAX_DEPTH && name in properties && name !in done
    ensures CleanProperties(ctx, properties - (properties.Keys - (done + {name})), visiting, depth)
      == var before := CleanProperties(ctx, properties - (properties.Keys - done), visiting, depth);
         if properties[name].Obj? then before[name := Obj(Clean(ctx, properties[name].fields, visiting, depth + 1))]
         else before
  {
    hide Clean;
  }

  lemma PropertyIsSkipped(ctx: Context, properties: Fields, p: Fields, done: set<string>, name: string,
                          visiting: set<string>, depth: nat, a: nat, b: nat)
    requires depth <= MAX_DEPTH && done <= properties.Keys && name in properties && name !in done
    requires !properties[name].Obj?
    requires PropertiesDone(ctx, properties, p, done, visiting, depth, a, b)
    ensures PropertiesDone(ctx, properties, p, done + {name}, visiting, depth, a, b)
  {
    hide Form, Clean, CleanProperties, Visits, SumOver, SameSoFar;
    SumOverAdds(PropertyCosts(ctx, properties, visiting, depth), done, name);
    CleanOneMore(ctx, properties, done, name, visiting, depth);
    if FormAll(Obj(properties)) {
      FormAllAreObjects(Obj(properties));
    }
  }

  /** One key of a worked-out node. */
  ghost predicate KeyDone(ctx: Context, m: Fields, k: string, keep: bool, value: Json, visiting: set<string>,
                          depth: nat, before: nat, after: nat)
    requires k in m && depth <= MAX_DEPTH
  {
    && before <= after && (keep ==> KeyShaped(k, value))
    && (after <= MAX_NODES ==>
          var kept := Kept(ctx, m, visiting, depth); (keep <==> k in kept) && (keep ==> value == kept[k]))
    && Spent(before, after, KeyVisits(ctx, k, m[k], visiting, depth))
    && (Form(Obj(m)) ==>
          && keep && Alike(k, m[k], value)
          && (value == m[k] ==> KeyBottomsOut(k, m[k], depth) && Room(before, after, CountKey(k, m[k], depth, false))))
  }

  lemma OtherKeyIsDone(ctx: Context, m: Fields, k: string, visiting: set<string>, depth: nat, now: nat)
    requires k in m && depth <= MAX_DEPTH && k != "properties" && k != "items"
    requires forall v <- Get(m, "enum").AsSlice() :: v.Str?
    ensures var value := if k == "type" then Str(ToUpper(m[k].AsString())) else m[k];
      KeyDone(ctx, m, k, k in ALLOWED, value, visiting, depth, now, now)
  {
    hide Clean, CleanProperties, Visits, FormAll;
    if k == "type" {
      ToUpperIdempotent(m[k].AsString());
    }
  }

  lemma PropertiesKeyIsDone(ctx: Context, m: Fields, p: Fields, visiting: set<string>, depth: nat, before: nat,
                            after: nat)
    requires "properties" in m && depth <= MAX_DEPTH
    requires var properties := m["properties"].AsFields();
      PropertiesDone(ctx, properties, p, properties.Keys, visiting, depth, before, after)
    ensures KeyDone(ctx, m, "properties", true, Obj(p), visiting, depth, before, after)
  {
    hide Form, Clean, CleanProperties, Visits, Count, BottomsOut, SumOver;
    var properties := m["properties"].AsFields();
    assert properties - (properties.Keys - properties.Keys) == properties;
    assert PropertyCosts(ctx, properties, visiting, depth).Keys == properties.Keys
      == PropertyCounts(properties, depth + 1, false).Keys;
    SumOverEnds(PropertyCosts(ctx, properties, visiting, depth));
    SumOverEnds(PropertyCounts(properties, depth + 1, false));
    FormAllAreObjects(Obj(p));
    assert KeyShaped("properties", Obj(p));
    assert "properties" in Kept(ctx, m, visiting, depth);
    assert after <= MAX_NODES ==> Obj(p) == Kept(ctx, m, visiting, depth)["properties"];
    assert Spent(before, after, KeyVisits(ctx, "properties", m["properties"], visiting, depth));
    if Form(Obj(m)) {
      FormParts(Obj(m));
      FormAllAreObjects(m["properties"]);
      assert m["properties"] == Obj(properties) && Alike("properties", m["properties"], Obj(p));
      if p == properties {
        assert forall name <- properties.Keys :: name in properties && name in p && p[name] == properties[name];
        assert KeyBottomsOut("properties", m["properties"], depth);
        assert Room(before, after, CountProperties(properties, depth + 1, false));
      }
    }
  }

  lemma ItemsKeyIsDone(ctx: Context, m: Fields, cleaned: Fields, visiting: set<string>, depth: nat, before: nat,
                       after: nat)
    requires "items" in m && m["items"].Obj? && depth <= MAX_DEPTH
    requires NodeDone(ctx, m["items"].fields, cleaned, visiting, depth + 1, before, after)
    ensures KeyDone(ctx, m, "items", true, Obj(cleaned), visiting, depth, before, after)
  {
    hide Form, FormAll, Clean, CleanProperties, Visits, Count, BottomsOut, Spent;
    if Form(Obj(m)) {
      FormParts(Obj(m));
    }
  }

  lemma NoItemsKeyIsDone(ctx: Context, m: Fields, visiting: set<string>, depth: nat, now: nat)
    requires "items" in m && !m["items"].Obj? && depth <= MAX_DEPTH
    ensures KeyDone(ctx, m, "items", false, m["items"], visiting, depth, now, now)
  {
    hide Form, FormAll, Clean, CleanProperties, Visits;
    ItemsAreAnObject(m);
  }

  lemma ItemsAreAnObject(m: Fields)
    ensures Form(Obj(m)) && "items" in m ==> m["items"].Obj?
  {
  }

  /** The loop over the keys, after the keys `done`. */
  ghost predicate KeysDone(ctx: Context, m: Fields, out: Fields, done: set<string>, visiting: set<string>, depth: nat,
                           before: nat, after: nat)
    requires depth <= MAX_DEPTH
  {
    && before <= after && out.Keys <= done && (forall k <- out :: KeyShaped(k, out[k]))
    && (after <= MAX_NODES ==> out == Kept(ctx, m, visiting, depth) - (m.Keys - done))
    && Spent(before, after, SumOver(KeyCosts(ctx, m, visiting, depth), done))
    && (Form(Obj(m)) ==>
          && out.Keys == done && (forall k <- done :: k in m && Alike(k, m[k], out[k]))
          && SameSoFar(m, out, FixedKeys(m, depth), KeyCounts(m, depth, false), done, before, after))
  }

  lemma NoKeyDone(ctx: Context, m: Fields, visiting: set<string>, depth: nat, now: nat)
    requires depth <= MAX_DEPTH
    ensures KeysDone(ctx, m, map[], {}, visiting, depth, now, now)
  {
    hide Form, Clean, CleanProperties, KeyVisits, SumOver, SameSoFar, FixedKeys, KeyShaped, Alike;
    SumOverEnds(KeyCosts(ctx, m, visiting, depth));
    NoChild(m, FixedKeys(m, depth), KeyCounts(m, depth, false), now);
    assert Kept(ctx, m, visiting, depth) - m.Keys == map[];
  }

  lemma OneMoreKey(ctx: Context, m: Fields, out: Fields, done: set<string>, k: string, keep: bool, value: Json,
                   visiting: set<string>, depth: nat, a: nat, b: nat, c: nat)
    requires depth <= MAX_DEPTH && done <= m.Keys && k in m && k !in done
    requires KeysDone(ctx, m, out, done, visiting, depth, a, b)
    requires KeyDone(ctx, m, k, keep, value, visiting, depth, b, c)
    ensures KeysDone(ctx, m, if keep then out[k := value] else out, done + {k}, visiting, depth, a, c)
  {
    hide Form, Kept, KeyVisits, SumOver, SameSoFar, CountKey, KeyBottomsOut, KeyShaped, Alike, Spent;
    var costs := KeyCosts(ctx, m, visiting, depth);
    SumOverAdds(costs, done, k);
    SpentTwice(a, b, c, SumOver(costs, done), costs[k]);
    if Form(Obj(m)) {
      OneMoreChild(m, out, FixedKeys(m, depth), KeyCounts(m, depth, false), done, k, value, a, b, c);
    }
    KeptHasFewKeys(ctx, m, visiting, depth);
  }

  lemma KeptHasFewKeys(ctx: Context, m: Fields, visiting: set<string>, depth: nat)
    requires depth <= MAX_DEPTH
    ensures Kept(ctx, m, visiting, depth).Keys <= m.Keys
  {
    hide Clean, CleanProperties;
  }

  lemma KeysMakeAForm(ctx: Context, m: Fields, kept: Fields, visiting: set<string>, depth: nat, before: nat, after: nat)
    requires depth <= MAX_DEPTH && KeysDone(ctx, m, kept, m.Keys, visiting, depth, before, after)
    ensures AlmostShaped(kept) && Form(Obj(Closed(kept)))
  {
    hide Form, Kept, KeyVisits, SumOver, SameSoFar, KeyShaped, Alike, Spent, Closed;
    KeysShaped(kept);
    ClosingHasForm(kept);
  }

  lemma LimitIsReached(ctx: Context, input: Fields, visiting: set<string>, depth: nat, before: nat)
    requires depth > MAX_DEPTH || before + 1 > MAX_NODES
    ensures NodeDone(ctx, input, Fallback(), visiting, depth, before, before + 1)
  {
    hide Form, Resolved, VisitsBefore, VisitsBelow, CountBelow, BottomsOutAll;
    DefaultsHaveForm();
    if depth > MAX_DEPTH {
      CleanAtTheLimit(ctx, input, visiting, depth);
    }
  }

  /** The node itself, from its steps: worked out up to `b`, its keys up to `c`. */
  lemma NodeIsDone(ctx: Context, input: Fields, m: Fields, kept: Fields, visiting: set<string>, depth: nat, a: nat,
                   b: nat, c: nat)
    requires depth <= MAX_DEPTH && a < MAX_NODES && a < b && Form(Obj(Closed(kept)))
    requires Spent(a + 1, b, VisitsBefore(ctx, input, visiting, depth))
    requires b <= MAX_NODES ==> m == Resolved(ctx, input, visiting, depth)
    requires KeysDone(ctx, m, kept, m.Keys, visiting, depth, b, c)
    ensures NodeDone(ctx, input, Closed(kept), visiting, depth, a, c)
  {
    hide Form, Closed, Kept, Clean, BottomsOut, Count, Visits, VisitsBefore, VisitsBelow, KeyShaped, Alike, SameSoFar,
      SumOver, Spent, Resolved;
    AllKeysFacts(ctx, m, kept, visiting, depth, b, c);
    VisitsInSteps(ctx, input, m, visiting, depth, a, b, c);
    if c <= MAX_NODES {
      CleanIsClosed(ctx, input, visiting, depth);
    }
    if Form(Obj(input)) && Closed(kept) == input {
      UnchangedIsFixed(ctx, input, m, kept, visiting, depth, a, b, c);
    }
  }

  lemma AllKeysFacts(ctx: Context, m: Fields, kept: Fields, visiting: set<string>, depth: nat, b: nat, c: nat)
    requires depth <= MAX_DEPTH && KeysDone(ctx, m, kept, m.Keys, visiting, depth, b, c)
    ensures b <= c && Spent(b, c, VisitsBelow(ctx, m, visiting, depth))
    ensures c <= MAX_NODES ==> kept == Kept(ctx, m, visiting, depth)
    ensures Form(Obj(m)) ==> AllAlike(m, kept)
    ensures Form(Obj(m)) && kept == m ==> m.Keys <= FixedKeys(m, depth) && Room(b, c, CountBelow(m, depth, false))
  {
    hide Form, Kept, KeyVisits, CountKey, KeyShaped, Alike, FixedKeys, SumOver, Spent;
    assert Kept(ctx, m, visiting, depth) - (m.Keys - m.Keys) == Kept(ctx, m, visiting, depth);
    assert KeyCosts(ctx, m, visiting, depth).Keys == m.Keys == KeyCounts(m, depth, false).Keys;
    SumOverEnds(KeyCosts(ctx, m, visiting, depth));
    SumOverEnds(KeyCounts(m, depth, false));
  }

  lemma VisitsInSteps(ctx: Context, input: Fields, m: Fields, visiting: set<string>, depth: nat, a: nat, b: nat, c: nat)
    requires depth <= MAX_DEPTH && a < b <= c && a < MAX_NODES
    requires Spent(a + 1, b, VisitsBefore(ctx, input, visiting, depth))
    requires b <= MAX_NODES ==> m == Resolved(ctx, input, visiting, depth)
    requires Spent(b, c, VisitsBelow(ctx, m, visiting, depth))
    ensures Spent(a, c, Visits(ctx, input, visiting, depth))
  {
    hide VisitsBefore, VisitsBelow, Resolved;
    var x, y := VisitsBefore(ctx, input, visiting, depth),
      VisitsBelow(ctx, Resolved(ctx, input, visiting, depth), visiting, depth);
    SpentTwice(a + 1, b, c, x, y);
    assert Visits(ctx, input, visiting, depth) == 1 + x + y;
  }

  /** A node of the form needs no working out, so only its children can change. */
  lemma UnchangedIsFixed(ctx: Context, input: Fields, m: Fields, kept: Fields, visiting: set<string>, depth: nat,
                         a: nat, b: nat, c: nat)
    requires depth <= MAX_DEPTH && a < MAX_NODES && Form(Obj(input)) && Closed(kept) == input
    requires Spent(a + 1, b, VisitsBefore(ctx, input, visiting, depth))
    requires b <= MAX_NODES ==> m == Resolved(ctx, input, visiting, depth)
    requires b <= c && (Form(Obj(m)) ==> AllAlike(m, kept))
    requires Form(Obj(m)) && kept == m ==> m.Keys <= FixedKeys(m, depth) && Room(b, c, CountBelow(m, depth, false))
    ensures BottomsOut(Obj(input), depth) && Room(a, c, Count(Obj(input), depth, false))
  {
    hide Form, Shaped, Closed, BottomsOut, Count, CountBelow, FixedKeys, VisitsBefore, Resolved, AllAlike;
    FormParts(Obj(input));
    ShapedNeedsNoVisits(ctx, input, visiting, depth);
    ShapedIsResolved(ctx, input, visiting, depth);
    assert b == a + 1 && m == input;
    AlikeIsShaped(input, kept);
    ShapedIsClosed(kept);
    NodeIsKept(input, depth, a, c);
  }

  // ---- The recursion -----------------------------------------------------------------------

  class SchemaCleaner {
    const ctx: Context
    var nodes: nat

    constructor (root: Json, marshal: Json -> string)
      ensures nodes == 0 && ctx == Context(root, marshal)
    {
      ctx, nodes := Context(root, marshal), 0;
    }

    /** The recursive `clean`. */
    method CleanNode(input: Fields, visiting: set<string>, depth: nat) returns (out: Fields)
      modifies this
      ensures NodeDone(ctx, input, out, visiting, depth, old(nodes), nodes)
      decreases Left(depth), 4
    {
      hide NodeDone, Form, Closed, AlmostShaped, KeysDone;
      nodes := nodes + 1;
      if depth > MAX_DEPTH || nodes > MAX_NODES {
        LimitIsReached(ctx, input, visiting, depth, old(nodes));
        return Fallback();
      }
      var m := Resolve(input, visiting, depth);
      ghost var resolved := nodes;
      var kept := KeepAllowed(m, visiting, depth);
      KeysMakeAForm(ctx, m, kept, visiting, depth, resolved, nodes);
      out := Close(kept);
      NodeIsDone(ctx, input, m, kept, visiting, depth, old(nodes), resolved, nodes);
    }

    method Resolve(input: Fields, visiting: set<string>, depth: nat) returns (m: Fields)
      requires depth <= MAX_DEPTH
      modifies this
      ensures nodes >= old(nodes) && forall v <- Get(m, "enum").AsSlice() :: v.Str?
      ensures nodes <= MAX_NODES ==> m == Resolved(ctx, input, visiting, depth)
      ensures Spent(old(nodes), nodes, VisitsBefore(ctx, input, visiting, depth))
      decreases Left(depth), 2
    {
      hide WithRef, WithUnion, WithTypeList, WithAllOf, WithEnum, Constrained, RefVisits, UnionVisits, AllOfVisits,
        Spent, Resolved;
      ghost var n0 := nodes;
      m := FollowReference(input, visiting, depth);
      ghost var n1, referred := nodes, WithRef(ctx, input, visiting, depth);
      m := MergeUnion(m, "anyOf", visiting, depth);
      ghost var n2, some := nodes, WithUnion(ctx, referred, "anyOf", visiting, depth);
      m := MergeUnion(m, "oneOf", visiting, depth);
      ghost var n3, united := nodes, WithUnion(ctx, some, "oneOf", visiting, depth);
      m := ChooseType(m);
      m := MergeMembers(m, visiting, depth);
      SpentTwice(n0, n1, n2, RefVisits(ctx, input, visiting, depth),
        UnionVisits(ctx, referred, "anyOf", visiting, depth));
      SpentTwice(n0, n2, n3,
        RefVisits(ctx, input, visiting, depth) + UnionVisits(ctx, referred, "anyOf", visiting, depth),
        UnionVisits(ctx, some, "oneOf", visiting, depth));
      SpentTwice(n0, n3, nodes,
        RefVisits(ctx, input, visiting, depth) + UnionVisits(ctx, referred, "anyOf", visiting, depth)
        + UnionVisits(ctx, some, "oneOf", visiting, depth),
        AllOfVisits(ctx, WithTypeList(united), visiting, depth));
      if nodes <= MAX_NODES {
        ResolvedInSteps(ctx, input, visiting, depth);
      }
      m := Restrict(m);
    }

    /** A constant is an enumeration of one; constraints are described, and enumerations are of strings. */
    method Restrict(input: Fields) returns (m: Fields)
      ensures m == WithEnum(ctx, Constrained(ctx, WithConst(input), CONSTRAINTS))
      ensures forall v <- Get(m, "enum").AsSlice() :: v.Str?
    {
      hide WithEnum, Constrained;
      m := input;
      if "const" in m {
        m := m["enum" := Arr([m["const"]])];
        m := m - {"const"};
      }
      m := Constrain(ctx, m);
      EnumIsStrings(ctx, m);
      m := RestrictEnum(ctx, m);
    }

    method FollowReference(input: Fields, visiting: set<string>, depth: nat) returns (m: Fields)
      requires depth <= MAX_DEPTH
      modifies this
      ensures nodes >= old(nodes)
      ensures nodes <= MAX_NODES ==> m == WithRef(ctx, input, visiting, depth)
      ensures Spent(old(nodes), nodes, RefVisits(ctx, input, visiting, depth))
      decreases Left(depth), 1
    {
      hide NodeDone, Clean, MergeMissing, Target, Visits;
      m := input;
      var ref := Get(m, "$ref").AsString();
      if ref != "" {
        m := m - {"$ref"};
        if Followed(ref, visiting) {
          var target := Target(ctx, ref);
          if target.Obj? {
            var resolved := CleanNode(target.fields, visiting + {ref}, depth + 1);
            NodeFacts(ctx, target.fields, resolved, visiting + {ref}, depth + 1, old(nodes), nodes);
            m := AddMissing(m, resolved);
          } else {
            m := m["type" := Str("STRING")];
          }
        } else {
          m := m["type" := Str("STRING")];
        }
      }
    }

    method MergeUnion(input: Fields, key: string, visiting: set<string>, depth: nat) returns (m: Fields)
      requires depth <= MAX_DEPTH
      modifies this
      ensures nodes >= old(nodes)
      ensures nodes <= MAX_NODES ==> m == WithUnion(ctx, input, key, visiting, depth)
      ensures Spent(old(nodes), nodes, UnionVisits(ctx, input, key, visiting, depth))
      decreases Left(depth), 1
    {
      hide NodeDone, Clean, Visits, MergeBranches, IsNullType;
      m := input;
      var options := Get(m, key).AsSlice();
      if |options| > 0 {
        m := m - {key};
        var actual: seq<Fields> := [];
        var nullable := false;
        for i := 0 to |options|
          invariant nodes >= old(nodes)
          invariant nullable <==> exists o <- options[..i] :: IsNullType(o)
          invariant nodes <= MAX_NODES ==> actual == CleanOptions(ctx, options[..i], visiting, depth)
          invariant Spent(old(nodes), nodes, OptionVisits(ctx, options[..i], visiting, depth))
        {
          assert options[..i + 1][..i] == options[..i];
          OneMoreOption(options, i);
          ghost var before := nodes;
          if IsNullType(options[i]) {
            nullable := true;
          } else if options[i].Obj? {
            var cleaned := CleanNode(options[i].fields, visiting, depth + 1);
            NodeFacts(ctx, options[i].fields, cleaned, visiting, depth + 1, before, nodes);
            actual := actual + [cleaned];
          }
        }
        assert options[..|options|] == options;
        if nullable {
          m := m["nullable" := Bool(true)];
        }
        m := MergeActual(m, actual);
      }
    }

    method MergeMembers(input: Fields, visiting: set<string>, depth: nat) returns (m: Fields)
      requires depth <= MAX_DEPTH
      modifies this
      ensures nodes >= old(nodes)
      ensures nodes <= MAX_NODES ==> m == WithAllOf(ctx, input, visiting, depth)
      ensures Spent(old(nodes), nodes, AllOfVisits(ctx, input, visiting, depth))
      decreases Left(depth), 1
    {
      hide NodeDone, Clean, MergeAllOf, Visits;
      m := input;
      var all := Get(m, "allOf").AsSlice();
      if |all| > 0 {
        m := m - {"allOf"};
        ghost var rest := m;
        for i := 0 to |all|
          invariant nodes >= old(nodes)
          invariant nodes <= MAX_NODES ==> m == MergeAll(ctx, rest, all[..i], visiting, depth)
          invariant Spent(old(nodes), nodes, MemberVisits(ctx, all[..i], visiting, depth))
        {
          assert all[..i + 1][..i] == all[..i];
          ghost var before := nodes;
          if all[i].Obj? {
            var cleaned := CleanNode(all[i].fields, visiting, depth + 1);
            NodeFacts(ctx, all[i].fields, cleaned, visiting, depth + 1, before, nodes);
            m := AddMember(m, cleaned);
          }
        }
        assert all[..|all|] == all;
      }
    }

    method CleanPropertyMap(properties: Fields, visiting: set<string>, depth: nat) returns (p: Fields)
      requires depth <= MAX_DEPTH
      modifies this
      ensures PropertiesDone(ctx, properties, p, properties.Keys, visiting, depth, old(nodes), nodes)
      decreases Left(depth), 1
    {
      hide NodeDone, PropertiesDone;
      var names := properties.Keys;
      p := map[];
      NoPropertyDone(ctx, properties, visiting, depth, nodes);
      assert properties.Keys - names == {};
      while names != {}
        invariant names <= properties.Keys
        invariant PropertiesDone(ctx, properties, p, properties.Keys - names, visiting, depth, old(nodes), nodes)
        decreases |names|
      {
        var name :| name in names;
        ghost var done, before := properties.Keys - names, nodes;
        if properties[name].Obj? {
          var cleaned := CleanNode(properties[name].fields, visiting, depth + 1);
          OneMoreProperty(ctx, properties, p, done, name, cleaned, visiting, depth, old(nodes), before, nodes);
          p := p[name := Obj(cleaned)];
        } else {
          PropertyIsSkipped(ctx, properties, p, done, name, visiting, depth, old(nodes), nodes);
        }
        names := names - {name};
        assert properties.Keys - names == done + {name};
      }
      assert properties.Keys - {} == properties.Keys;
    }

    method KeepAllowed(m: Fields, visiting: set<string>, depth: nat) returns (out: Fields)
      requires depth <= MAX_DEPTH && forall v <- Get(m, "enum").AsSlice() :: v.Str?
      modifies this
      ensures KeysDone(ctx, m, out, m.Keys, visiting, depth, old(nodes), nodes)
      decreases Left(depth), 3
    {
      hide KeyDone, KeysDone;
      var keys := m.Keys;
      out := map[];
      NoKeyDone(ctx, m, visiting, depth, nodes);
      assert m.Keys - keys == {};
      while keys != {}
        invariant keys <= m.Keys && KeysDone(ctx, m, out, m.Keys - keys, visiting, depth, old(nodes), nodes)
        decreases |keys|
      {
        var k :| k in keys;
        ghost var done, before := m.Keys - keys, nodes;
        var keep, value := KeepKey(m, k, visiting, depth);
        OneMoreKey(ctx, m, out, done, k, keep, value, visiting, depth, old(nodes), before, nodes);
        if keep {
          out := out[k := value];
        }
        keys := keys - {k};
        assert m.Keys - keys == done + {k};
      }
      assert m.Keys - {} == m.Keys;
    }

    /** One key of the range over `m`; `keep` is false where the loop goes on to the next key. */
    method KeepKey(m: Fields, k: string, visiting: set<string>, depth: nat) returns (keep: bool, value: Json)
      requires k in m && depth <= MAX_DEPTH && forall v <- Get(m, "enum").AsSlice() :: v.Str?
      modifies this
      ensures KeyDone(ctx, m, k, keep, value, visiting, depth, old(nodes), nodes)
      decreases Left(depth), 2
    {
      hide NodeDone, PropertiesDone, KeyDone;
      keep, value := true, m[k];
      if k !in ALLOWED {
        keep := false;
        OtherKeyIsDone(ctx, m, k, visiting, depth, nodes);
        return;
      }
      if k == "type" {
        value := Str(ToUpper(m[k].AsString()));
        OtherKeyIsDone(ctx, m, k, visiting, depth, nodes);
      } else if k == "properties" {
        var p := CleanPropertyMap(m[k].AsFields(), visiting, depth);
        value := Obj(p);
        PropertiesKeyIsDone(ctx, m, p, visiting, depth, old(nodes), nodes);
      } else if k == "items" {
        if m[k].Obj? {
          var cleaned := CleanNode(m[k].fields, visiting, depth + 1);
          value := Obj(cleaned);
          ItemsKeyIsDone(ctx, m, cleaned, visiting, depth, old(nodes), nodes);
        } else {
          keep := false;
          NoItemsKeyIsDone(ctx, m, visiting, depth, nodes);
        }
      } else {
        OtherKeyIsDone(ctx, m, k, visiting, depth, nodes);
      }
    }
  }

  /** What `AlmostShaped` asks of one key. */
  ghost predicate KeyShaped(k: string, v: Json) {
    && k in ALLOWED
    && (k == "type" ==> v.Str? && ToUpper(v.s) == v.s)
    && (k == "properties" ==> FormAll(v))
    && (k == "items" ==> Form(v))
    && (k == "enum" ==> forall e <- v.AsSlice() :: e.Str?)
  }

  lemma KeysShaped(f: Fields)
    requires forall k <- f :: KeyShaped(k, f[k])
    ensures AlmostShaped(f)
  {
    hide Form, FormAll;
  }

  lemma ResolvedInSteps(ctx: Context, m: Fields, visiting: set<string>, depth: nat)
    requires depth <= MAX_DEPTH
    ensures var some := WithUnion(ctx, WithRef(ctx, m, visiting, depth), "anyOf", visiting, depth);
      var united := WithUnion(ctx, some, "oneOf", visiting, depth);
      var merged := WithAllOf(ctx, WithTypeList(united), visiting, depth);
      Resolved(ctx, m, visiting, depth) == WithEnum(ctx, Constrained(ctx, WithConst(merged), CONSTRAINTS))
  {
    hide WithRef, WithUnion, WithTypeList, WithAllOf, WithEnum, Constrained;
    var referred := WithRef(ctx, m, visiting, depth);
    var united := WithUnion(ctx, WithUnion(ctx, referred, "anyOf", visiting, depth), "oneOf", visiting, depth);
    var merged := WithAllOf(ctx, WithTypeList(united), visiting, depth);
    assert AfterAllOf(ctx, merged) == AfterUnions(ctx, united, visiting, depth)
      == AfterRef(ctx, referred, visiting, depth);
  }

  lemma OneMoreOption(options: seq<Json>, i: nat)
    requires i < |options|
    ensures (exists o <- options[..i + 1] :: IsNullType(o)) <==>
      IsNullType(options[i]) || exists o <- options[..i] :: IsNullType(o)
  {
    hide IsNullType;
    assert options[..i + 1] == options[..i] + [options[i]];
    assert options[i] in options[..i + 1];
  }

  /** The call; `nodes` is the number of nodes visited. */
  method CleanWhole(schema: Json, marshal: Json -> string) returns (out: Fields, nodes: nat)
    ensures Form(Obj(out))
    ensures nodes <= MAX_NODES <==> VisitsOf(schema, marshal) <= MAX_NODES
    ensures nodes <= MAX_NODES ==> nodes == VisitsOf(schema, marshal) && out == CleanSchema(schema, marshal)
    ensures Form(schema) && out == schema.fields ==> BottomsOut(schema, 0) && Room(0, nodes, Count(schema, 0, false))
  {
    hide Form, Clean, Visits, BottomsOut, Count;
    if !schema.Obj? {
      SchemaHasForm(schema, marshal);
      NoObjectNoForm(schema);
      return map["type" := Str("OBJECT"), "properties" := Obj(map[])], 0;
    }
    var cleaner := new SchemaCleaner(schema, marshal);
    out := cleaner.CleanNode(schema.fields, {}, 0);
    nodes := cleaner.nodes;
  }

  lemma NoObjectNoForm(j: Json)
    requires !j.Obj?
    ensures !Form(j)
  {
  }
}
