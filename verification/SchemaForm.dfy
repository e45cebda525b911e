/** The form that every cleaned schema has, and when cleaning it again changes nothing. */
module SchemaForms {
  import opened Text
  import opened Schemas

  /** The keys of one node, its children left aside. */
  predicate Shaped(f: Fields) {
    && f.Keys <= ALLOWED
    && ("type" in f ==> f["type"].Str? && ToUpper(f["type"].s) == f["type"].s)
    && ("type" !in f ==> "properties" !in f && "items" !in f)
    && ("properties" in f ==> f["properties"].Obj? && forall name <- f["properties"].fields ::
         f["properties"].fields[name].Obj?)
    && ("items" in f ==> f["items"].Obj?)
    && (Get(f, "type") == Str("OBJECT") ==> "properties" in f && "items" !in f)
    && (Get(f, "type") == Str("ARRAY") ==> "items" in f)
    && RequiredIsDeclared(Get(f, "required").AsSlice(), Get(f, "properties").AsFields())
    && (forall v <- Get(f, "enum").AsSlice() :: v.Str?)
  }

  /** A nonempty `required` list holds strings, no two alike, each the name of a property. */
  predicate RequiredIsDeclared(required: seq<Json>, props: Fields) {
    && (forall i | 0 <= i < |required| :: required[i].Str? && required[i].s in props)
    && (forall i, j | 0 <= i < j < |required| :: required[i] != required[j])
  }

  /** Gemini's schema grammar: this node and every node reached through `properties` and `items`. */
  ghost predicate Form(j: Json) {
    && j.Obj? && Shaped(j.fields)
    && ("properties" in j.fields ==> FormAll(j.fields["properties"]))
    && ("items" in j.fields ==> Form(j.fields["items"]))
  }

  ghost predicate FormAll(properties: Json) {
    properties.Obj? && forall name <- properties.fields :: Form(properties.fields[name])
  }

  // ---- Every output has the form -----------------------------------------------------------

  /** A node whose children are cleaned, before its defaults are filled in. */
  ghost predicate AlmostShaped(f: Fields) {
    && f.Keys <= ALLOWED
    && ("type" in f ==> f["type"].Str? && ToUpper(f["type"].s) == f["type"].s)
    && ("properties" in f ==> FormAll(f["properties"]))
    && ("items" in f ==> Form(f["items"]))
    && (forall v <- Get(f, "enum").AsSlice() :: v.Str?)
  }

  lemma FormIsObject(j: Json)
    requires Form(j)
    ensures j.Obj?
  {
  }

  lemma FormAllAreObjects(properties: Json)
    requires FormAll(properties)
    ensures properties.Obj? && forall name <- properties.fields :: properties.fields[name].Obj?
  {
  }

  lemma DefaultsHaveForm()
    ensures Form(DefaultItems()) && Form(Obj(Fallback()))
  {
    assert ToUpper("STRING") == "STRING";
  }

  /** Declared names, no two alike. */
  predicate Declared(names: seq<string>, props: Fields) {
    && (forall i | 0 <= i < |names| :: names[i] in props)
    && (forall i, j | 0 <= i < j < |names| :: names[i] != names[j])
  }

  lemma OneMoreDeclared(names: seq<string>, name: string, props: Fields)
    requires Declared(names, props) && name in props && name !in names
    ensures Declared(names + [name], props)
  {
  }

  lemma NothingDeclared(props: Fields)
    ensures Declared([], props)
  {
  }

  lemma {:induction false} ValidRequiredIsDeclared(required: seq<Json>, props: Fields)
    ensures Declared(ValidRequired(required, props), props)
  {
    hide Declared;
    if required == [] {
      NothingDeclared(props);
    }
    if required != [] {
      var n := |required| - 1;
      ValidRequiredIsDeclared(required[..n], props);
      var before, name := ValidRequired(required[..n], props), required[n].AsString();
      if !Get(props, name).Null? && name !in before {
        OneMoreDeclared(before, name, props);
      }
    }
  }

  lemma TypeIsFilledIn(out: Fields)
    requires AlmostShaped(out)
    ensures var f := WithParts(WithType(out));
      AlmostShaped(f)
      && ("type" !in f ==> "properties" !in f && "items" !in f)
      && (Get(f, "type") == Str("OBJECT") ==> "properties" in f && "items" !in f)
      && (Get(f, "type") == Str("ARRAY") ==> "items" in f)
  {
    hide Form, FormAll;
    DefaultsHaveForm();
    EmptyFormAll();
    if "properties" in out {
      FormAllAreObjects(out["properties"]);
    }
    if "items" in out {
      FormIsObject(out["items"]);
    }
    assert ToUpper("OBJECT") == "OBJECT" && ToUpper("ARRAY") == "ARRAY";
  }

  lemma EmptyFormAll()
    ensures FormAll(Obj(map[]))
  {
  }

  lemma RequiredIsFiltered(f: Fields)
    ensures var g := WithRequired(f);
      && g.Keys <= f.Keys
      && (forall k <- g :: k != "required" ==> g[k] == f[k]) && (forall k <- f :: k != "required" ==> k in g)
      && RequiredIsDeclared(Get(g, "required").AsSlice(), Get(g, "properties").AsFields())
  {
    var required, props := Get(f, "required").AsSlice(), Get(f, "properties").AsFields();
    ValidRequiredIsDeclared(required, props);
    var valid := ValidRequired(required, props);
    assert Get(WithRequired(f), "properties") == Get(f, "properties");
    StringsAreDeclared(valid, props);
  }

  lemma StringsAreDeclared(valid: seq<string>, props: Fields)
    requires Declared(valid, props)
    ensures RequiredIsDeclared(Strings(valid), props)
  {
  }

  lemma ClosingHasForm(out: Fields)
    requires AlmostShaped(out)
    ensures Form(Obj(Closed(out)))
  {
    hide Form, FormAll, WithRequired, WithParts, WithType, RequiredIsDeclared;
    TypeIsFilledIn(out);
    var f := WithParts(WithType(out));
    RequiredIsFiltered(f);
    var g := WithRequired(f);
    if "properties" in g {
      FormAllAreObjects(g["properties"]);
    }
    if "items" in g {
      FormIsObject(g["items"]);
    }
    assert Shaped(g);
    FormFromParts(g);
  }

  lemma FormFromParts(g: Fields)
    requires Shaped(g) && ("properties" in g ==> FormAll(g["properties"])) && ("items" in g ==> Form(g["items"]))
    ensures Form(Obj(g))
  {
  }

  lemma EnumIsStrings(ctx: Context, m: Fields)
    ensures forall v <- Get(WithEnum(ctx, m), "enum").AsSlice() :: v.Str?
  {
  }

  lemma KeptIsAlmostShaped(ctx: Context, m: Fields, visiting: set<string>, depth: nat)
    requires depth <= MAX_DEPTH
    requires forall v <- Get(m, "enum").AsSlice() :: v.Str?
    requires "properties" in m ==> FormAll(Obj(CleanProperties(ctx, m["properties"].AsFields(), visiting, depth)))
    requires "items" in m ==> Form(Obj(Clean(ctx, m["items"].AsFields(), visiting, depth + 1)))
    ensures AlmostShaped(Kept(ctx, m, visiting, depth))
  {
    hide Form, FormAll, Clean, CleanProperties;
    if "type" in m {
      ToUpperIdempotent(m["type"].AsString());
    }
  }

  /** Every output has the form, whatever the input: cyclic references, unions and the depth limit included. */
  lemma {:induction false} CleanHasForm(ctx: Context, m: Fields, visiting: set<string>, depth: nat)
    ensures Form(Obj(Clean(ctx, m, visiting, depth)))
    decreases Left(depth)
  {
    hide Form, FormAll, Closed, Kept, Resolved, AlmostShaped;
    if depth > MAX_DEPTH {
      DefaultsHaveForm();
    } else {
      var r := Resolved(ctx, m, visiting, depth);
      ResolvedEnumIsStrings(ctx, m, visiting, depth);
      if "properties" in r {
        PropertiesHaveForm(ctx, r["properties"].AsFields(), visiting, depth);
      }
      if "items" in r {
        CleanHasForm(ctx, r["items"].AsFields(), visiting, depth + 1);
      }
      KeptIsAlmostShaped(ctx, r, visiting, depth);
      ClosingHasForm(Kept(ctx, r, visiting, depth));
    }
  }

  lemma ResolvedEnumIsStrings(ctx: Context, m: Fields, visiting: set<string>, depth: nat)
    requires depth <= MAX_DEPTH
    ensures forall v <- Get(Resolved(ctx, m, visiting, depth), "enum").AsSlice() :: v.Str?
  {
    hide WithEnum, Constrained, WithAllOf, WithUnion, WithRef;
    var referred := WithRef(ctx, m, visiting, depth);
    var united := WithUnion(ctx, WithUnion(ctx, referred, "anyOf", visiting, depth), "oneOf", visiting, depth);
    var merged := WithAllOf(ctx, WithTypeList(united), visiting, depth);
    EnumIsStrings(ctx, Constrained(ctx, WithConst(merged), CONSTRAINTS));
    assert AfterAllOf(ctx, merged) == AfterUnions(ctx, united, visiting, depth)
      == AfterRef(ctx, referred, visiting, depth);
  }

  lemma {:induction false} PropertiesHaveForm(ctx: Context, properties: Fields, visiting: set<string>, depth: nat)
    requires depth <= MAX_DEPTH
    ensures FormAll(Obj(CleanProperties(ctx, properties, visiting, depth)))
    decreases Left(depth), 0
  {
    hide Form, Clean;
    forall name | name in properties && properties[name].Obj?
      ensures Form(Obj(Clean(ctx, properties[name].fields, visiting, depth + 1)))
    {
      CleanHasForm(ctx, properties[name].fields, visiting, depth + 1);
    }
  }

  /** The target grammar, for every input of `CleanSchema`. */
  lemma SchemaHasForm(schema: Json, marshal: Json -> string)
    ensures Form(Obj(CleanSchema(schema, marshal)))
  {
    if schema.Obj? {
      CleanHasForm(Context(schema, marshal), schema.fields, {}, 0);
    } else {
      assert ToUpper("OBJECT") == "OBJECT";
    }
  }

  /** No declared name is lost from `required`, and none is made up. */
  lemma {:induction false} RequiredKeepsDeclared(required: seq<Json>, props: Fields, name: string)
    ensures name in ValidRequired(required, props) <==>
      !Get(props, name).Null? && exists i | 0 <= i < |required| :: required[i].AsString() == name
  {
    if required != [] {
      var n := |required| - 1;
      RequiredKeepsDeclared(required[..n], props, name);
      if i :| 0 <= i < |required| && required[i].AsString() == name {
        assert i < n ==> required[..n][i].AsString() == name;
      }
    }
  }

  // ---- Cleaning what is clean ----------------------------------------------------------------

  lemma {:induction false} NoConstraints(ctx: Context, m: Fields, keys: seq<string>)
    requires forall i | 0 <= i < |keys| :: keys[i] !in m
    ensures Constrained(ctx, m, keys) == m
    decreases keys
  {
    if keys != [] {
      assert keys[0] !in m;
      NoConstraints(ctx, m, keys[1..]);
    }
  }

  lemma ConstraintsAreNotAllowed(f: Fields)
    requires f.Keys <= ALLOWED
    ensures forall i | 0 <= i < |CONSTRAINTS| :: CONSTRAINTS[i] !in f
    ensures "$ref" !in f && "anyOf" !in f && "oneOf" !in f && "allOf" !in f && "const" !in f
  {
  }

  /** No step before the children changes a shaped node. */
  lemma ShapedIsResolved(ctx: Context, f: Fields, visiting: set<string>, depth: nat)
    requires Shaped(f) && depth <= MAX_DEPTH
    ensures Resolved(ctx, f, visiting, depth) == f && AfterRef(ctx, f, visiting, depth) == f
    ensures AfterUnions(ctx, f, visiting, depth) == f && AfterAllOf(ctx, f) == f
    ensures WithUnion(ctx, f, "oneOf", visiting, depth) == f
  {
    hide Clean, CleanOptions, MergeAll, Constrained, RequiredIsDeclared;
    ConstraintsAreNotAllowed(f);
    NoConstraints(ctx, f, CONSTRAINTS);
    assert WithRef(ctx, f, visiting, depth) == f;
    assert WithUnion(ctx, f, "anyOf", visiting, depth) == f && WithUnion(ctx, f, "oneOf", visiting, depth) == f;
    assert WithTypeList(f) == f;
    assert WithAllOf(ctx, f, visiting, depth) == f;
    assert WithConst(f) == f;
    assert WithEnum(ctx, f) == f;
    assert AfterAllOf(ctx, f) == f;
    assert AfterUnions(ctx, f, visiting, depth) == f;
    assert AfterRef(ctx, f, visiting, depth) == f;
  }

  lemma {:induction false} DeclaredStaysRequired(required: seq<Json>, props: Fields)
    requires RequiredIsDeclared(required, props) && forall name <- props :: props[name].Obj?
    ensures Strings(ValidRequired(required, props)) == required
  {
    if required == [] {
      assert Strings([]) == [];
    } else {
      var n := |required| - 1;
      DeclaredStaysRequired(required[..n], props);
      var before, name := ValidRequired(required[..n], props), required[n].AsString();
      assert required == required[..n] + [required[n]];
      assert required[n].s in props;
      forall i | 0 <= i < |before|
        ensures before[i] != name
      {
        assert Strings(before)[i] == required[..n][i] == required[i];
      }
      assert Strings(before + [name]) == Strings(before) + [Str(name)];
    }
  }

  lemma ShapedIsClosed(f: Fields)
    requires Shaped(f)
    ensures Closed(f) == f
  {
    assert WithType(f) == f;
    assert WithParts(f) == f;
    var required, props := Get(f, "required").AsSlice(), Get(f, "properties").AsFields();
    DeclaredStaysRequired(required, props);
    if required != [] {
      assert Strings(ValidRequired(required, props)) == required;
      assert ValidRequired(required, props) != [];
      assert f["required"] == Arr(required);
    }
  }

  lemma CleanedNames(ctx: Context, props: Fields, visiting: set<string>, depth: nat)
    requires depth <= MAX_DEPTH && forall name <- props :: props[name].Obj?
    ensures var cleaned := CleanProperties(ctx, props, visiting, depth);
      cleaned.Keys == props.Keys
      && forall name <- props :: cleaned[name] == Obj(Clean(ctx, props[name].fields, visiting, depth + 1))
  {
    hide Clean;
  }

  /** `b` may replace `a` under the key of a shaped node. */
  predicate Alike(k: string, a: Json, b: Json) {
    if k == "properties" then
      && a.Obj? && b.Obj? && a.fields.Keys == b.fields.Keys
      && forall name <- b.fields :: b.fields[name].Obj?
    else if k == "items" then b.Obj?
    else a == b
  }

  predicate AllAlike(f: Fields, g: Fields) {
    g.Keys == f.Keys && forall k <- f :: Alike(k, f[k], g[k])
  }

  lemma AlikeIsShaped(f: Fields, g: Fields)
    requires Shaped(f) && AllAlike(f, g)
    ensures Shaped(g)
  {
    hide RequiredIsDeclared;
    assert Get(g, "enum") == Get(f, "enum") && Get(g, "required") == Get(f, "required")
      && Get(g, "type") == Get(f, "type");
    SameNamesDeclared(Get(f, "required").AsSlice(), Get(f, "properties").AsFields(), Get(g, "properties").AsFields());
  }

  /** Cleaning the properties and the items of a shaped node leaves it shaped. */
  lemma KeptIsShaped(ctx: Context, f: Fields, visiting: set<string>, depth: nat)
    requires Shaped(f) && depth <= MAX_DEPTH
    ensures Shaped(Kept(ctx, f, visiting, depth))
  {
    hide Clean, CleanProperties, RequiredIsDeclared;
    var g := Kept(ctx, f, visiting, depth);
    assert g.Keys == f.Keys;
    if "properties" in f {
      CleanedNames(ctx, f["properties"].fields, visiting, depth);
    }
    if "type" in f {
      assert g["type"] == f["type"];
    }
    AlikeIsShaped(f, g);
  }

  lemma SameNamesDeclared(required: seq<Json>, props: Fields, others: Fields)
    requires props.Keys == others.Keys && RequiredIsDeclared(required, props)
    ensures RequiredIsDeclared(required, others)
  {
  }

  /** Cleaning a shaped node only cleans its children. */
  lemma ShapedIsKept(ctx: Context, f: Fields, visiting: set<string>, depth: nat)
    requires Shaped(f) && depth <= MAX_DEPTH
    ensures Clean(ctx, f, visiting, depth) == Kept(ctx, f, visiting, depth)
  {
    hide Shaped, Resolved, Kept, Closed;
    ShapedIsResolved(ctx, f, visiting, depth);
    KeptIsShaped(ctx, f, visiting, depth);
    ShapedIsClosed(Kept(ctx, f, visiting, depth));
  }

  lemma KeptIsSameIff(ctx: Context, f: Fields, visiting: set<string>, depth: nat)
    requires Shaped(f) && depth <= MAX_DEPTH
    ensures Kept(ctx, f, visiting, depth) == f <==>
      && ("properties" in f ==>
            CleanProperties(ctx, f["properties"].AsFields(), visiting, depth) == f["properties"].AsFields())
      && ("items" in f ==> Clean(ctx, f["items"].AsFields(), visiting, depth + 1) == f["items"].AsFields())
  {
    hide Clean, CleanProperties, RequiredIsDeclared;
    var g := Kept(ctx, f, visiting, depth);
    assert g.Keys == f.Keys;
    assert forall k <- f | k != "properties" && k != "items" :: g[k] == f[k];
    assert g == f <==> forall k <- f :: g[k] == f[k];
  }

  /** The nodes that cleaning would reach at depth 25 are what it would put there. */
  ghost predicate BottomsOut(j: Json, depth: nat)
    decreases j, 1
  {
    if depth > MAX_DEPTH then j == Obj(Fallback())
    else
      j.Obj?
      && ("properties" in j.fields ==> BottomsOutAll(j.fields["properties"], depth + 1))
      && ("items" in j.fields ==> BottomsOut(j.fields["items"], depth + 1))
  }

  ghost predicate BottomsOutAll(properties: Json, depth: nat)
    decreases properties, 0
  {
    properties.Obj? && forall name <- properties.fields :: BottomsOut(properties.fields[name], depth)
  }

  /** Cleaning a node of the form again changes nothing exactly when it bottoms out. */
  lemma {:induction false} FormIsFixedIff(ctx: Context, j: Json, visiting: set<string>, depth: nat)
    requires Form(j)
    ensures Clean(ctx, j.fields, visiting, depth) == j.fields <==> BottomsOut(j, depth)
    decreases Left(depth), 1
  {
    hide Form, FormAll, Shaped, Kept, Clean, CleanProperties, BottomsOut, BottomsOutAll;
    FormParts(j);
    BottomsOutParts(j, depth);
    if depth > MAX_DEPTH {
      CleanAtTheLimit(ctx, j.fields, visiting, depth);
    } else {
      var f := j.fields;
      ShapedIsKept(ctx, f, visiting, depth);
      KeptIsSameIff(ctx, f, visiting, depth);
      if "properties" in f {
        PropertiesAreFixedIff(ctx, f["properties"], visiting, depth);
      }
      if "items" in f {
        FormIsObject(f["items"]);
        FormIsFixedIff(ctx, f["items"], visiting, depth + 1);
      }
    }
  }

  lemma CleanAtTheLimit(ctx: Context, m: Fields, visiting: set<string>, depth: nat)
    requires depth > MAX_DEPTH
    ensures Clean(ctx, m, visiting, depth) == Fallback()
  {
  }

  lemma CleanIsClosed(ctx: Context, m: Fields, visiting: set<string>, depth: nat)
    requires depth <= MAX_DEPTH
    ensures Clean(ctx, m, visiting, depth) == Closed(Kept(ctx, Resolved(ctx, m, visiting, depth), visiting, depth))
  {
    hide Closed, Kept, Resolved;
  }

  lemma FormParts(j: Json)
    requires Form(j)
    ensures j.Obj? && Shaped(j.fields)
    ensures "properties" in j.fields ==> FormAll(j.fields["properties"])
    ensures "items" in j.fields ==> Form(j.fields["items"])
  {
    hide Shaped;
  }

  lemma BottomsOutParts(j: Json, depth: nat)
    requires j.Obj?
    ensures depth > MAX_DEPTH ==> (BottomsOut(j, depth) <==> j == Obj(Fallback()))
    ensures depth <= MAX_DEPTH ==> (BottomsOut(j, depth) <==>
      && ("properties" in j.fields ==> BottomsOutAll(j.fields["properties"], depth + 1))
      && ("items" in j.fields ==> BottomsOut(j.fields["items"], depth + 1)))
  {
  }

  lemma {:induction false} PropertiesAreFixedIff(ctx: Context, properties: Json, visiting: set<string>, depth: nat)
    requires FormAll(properties) && depth <= MAX_DEPTH
    ensures CleanProperties(ctx, properties.AsFields(), visiting, depth) == properties.AsFields() <==>
      BottomsOutAll(properties, depth + 1)
    decreases Left(depth), 0
  {
    hide Form, Clean, CleanProperties, BottomsOut;
    var props := properties.fields;
    FormAllAreObjects(properties);
    var cleaned := CleanProperties(ctx, props, visiting, depth);
    CleanedNames(ctx, props, visiting, depth);
    forall name <- props
      ensures cleaned[name] == props[name] <==> BottomsOut(props[name], depth + 1)
    {
      FormIsFixedIff(ctx, props[name], visiting, depth + 1);
    }
    assert cleaned == props <==> forall name <- props :: cleaned[name] == props[name];
  }

  /**
   Idempotence without the limit on nodes: cleaning a cleaned schema gives it back if and only if every node of
   it at depth 25 is the depth limit's own replacement.
   */
  lemma CleaningTwiceIsOnceIff(schema: Json, marshal: Json -> string, again: Json -> string)
    ensures var once := Obj(CleanSchema(schema, marshal));
      Obj(CleanSchema(once, again)) == once <==> BottomsOut(once, 0)
  {
    hide Form, Clean, BottomsOut;
    var once := Obj(CleanSchema(schema, marshal));
    SchemaHasForm(schema, marshal);
    FormIsFixedIff(Context(once, again), once, {}, 0);
  }
}
