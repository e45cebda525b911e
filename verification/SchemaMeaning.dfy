/**
 What `CleanSchema` gives, key by key, for conjunctions, type lists, unions, constants, constraints and
 references. A name, a type or a note is followed from the input to the output.
 */
module SchemaMeanings {
  import opened Text
  import opened Schemas
  import opened SchemaForms
  import opened SchemaLaws

  // ---- From the resolved node to the output ----------------------------------------------

  function Props(f: Fields): Fields {
    Get(f, "properties").AsFields()
  }

  /** The list holds the name. */
  predicate Lists(list: Json, name: string) {
    list.Arr? && exists i | 0 <= i < |list.items| :: list.items[i].AsString() == name
  }

  /** The type of a node: its own in upper case, else what its other keys suggest. */
  function TypeFrom(r: Fields): Json {
    if "type" in r then Str(ToUpper(r["type"].AsString()))
    else if "properties" in r then Str("OBJECT")
    else if "items" in r && r["items"].Obj? then Str("ARRAY")
    else Null
  }

  lemma KeptByFields(ctx: Context, r: Fields, visiting: set<string>, depth: nat)
    requires depth <= MAX_DEPTH
    ensures var kept := Kept(ctx, r, visiting, depth);
      && (forall k | k in {"description", "enum", "nullable", "propertyOrdering", "required"} ::
            Get(kept, k) == Get(r, k))
      && ("type" in kept <==> "type" in r) && ("type" in r ==> kept["type"] == Str(ToUpper(r["type"].AsString())))
      && ("properties" in kept <==> "properties" in r)
      && ("properties" in r ==> kept["properties"] == Obj(CleanProperties(ctx, Props(r), visiting, depth)))
      && ("items" in kept <==> "items" in r && r["items"].Obj?)
      && ("items" in kept ==> kept["items"] == Obj(Clean(ctx, r["items"].fields, visiting, depth + 1)))
      && kept.Keys <= {"type", "description", "properties", "required", "items", "enum", "nullable", "propertyOrdering"}
  {
    hide Clean, CleanProperties, ToUpper;
  }

  /** Before `required` is looked at. */
  lemma PartsByFields(kept: Fields)
    requires "type" in kept ==> kept["type"].Str?
    requires "properties" in kept ==> kept["properties"].Obj?
    requires "items" in kept ==> kept["items"].Obj?
    ensures var f := WithParts(WithType(kept));
      && (forall k | k in {"description", "enum", "nullable", "propertyOrdering", "required"} ::
            Get(f, k) == Get(kept, k))
      && Get(f, "type") == (if "type" in kept then kept["type"] else if "properties" in kept then Str("OBJECT")
                            else if "items" in kept then Str("ARRAY") else Null)
      && Get(f, "properties") == (if "properties" in kept then kept["properties"]
                                  else if Get(f, "type") == Str("OBJECT") then Obj(map[]) else Null)
      && Get(f, "items") == (if Get(f, "type") == Str("OBJECT") then Null
                             else if "items" in kept then kept["items"]
                             else if Get(f, "type") == Str("ARRAY") then Obj(map["type" := Str("STRING")]) else Null)
      && f.Keys <= kept.Keys + {"type", "properties", "items"}
  {
  }

  lemma RequiredByFields(f: Fields)
    ensures var g := WithRequired(f);
      && (forall k | k != "required" :: Get(g, k) == Get(f, k)) && g.Keys <= f.Keys
      && (forall name: string :: Lists(Get(g, "required"), name) <==>
            Lists(Get(f, "required"), name) && !Get(Props(f), name).Null?)
  {
    var required, props := Get(f, "required").AsSlice(), Props(f);
    var valid := ValidRequired(required, props);
    forall name: string
      ensures name in valid <==> !Get(props, name).Null? && exists i | 0 <= i < |required| ::
        required[i].AsString() == name
    {
      RequiredKeepsDeclared(required, props, name);
    }
    forall name: string
      ensures Lists(Arr(Strings(valid)), name) <==> name in valid
    {
      if name in valid {
        var i :| 0 <= i < |valid| && valid[i] == name;
        assert Strings(valid)[i].AsString() == name;
      }
    }
  }

  /** What an output has under each key, given the node with its references, unions and conjunctions worked in. */
  ghost predicate Finishes(ctx: Context, r: Fields, out: Fields, visiting: set<string>, depth: nat) {
    && Get(out, "type") == TypeFrom(r)
    && (forall k | k in {"description", "enum", "nullable", "propertyOrdering"} :: Get(out, k) == Get(r, k))
    && (forall name: string ::
          if name in Props(r) && Props(r)[name].Obj? then
            name in Props(out) && Props(out)[name] == Obj(Clean(ctx, Props(r)[name].fields, visiting, depth + 1))
          else name !in Props(out))
    && Get(out, "items") ==
         (if TypeFrom(r) == Str("OBJECT") then Null
          else if "items" in r && r["items"].Obj? then Obj(Clean(ctx, r["items"].fields, visiting, depth + 1))
          else if TypeFrom(r) == Str("ARRAY") then Obj(map["type" := Str("STRING")])
          else Null)
    && (forall name: string :: Lists(Get(out, "required"), name) <==>
          Lists(Get(r, "required"), name) && name in Props(out))
    && out.Keys <= {"type", "description", "properties", "required", "items", "enum", "nullable", "propertyOrdering"}
  }

  lemma ResolvedFinishes(ctx: Context, r: Fields, visiting: set<string>, depth: nat)
    requires depth <= MAX_DEPTH
    ensures Finishes(ctx, r, Closed(Kept(ctx, r, visiting, depth)), visiting, depth)
  {
    hide Clean, ToUpper, Kept, WithParts, WithType, WithRequired, Lists;
    var kept := Kept(ctx, r, visiting, depth);
    KeptByFields(ctx, r, visiting, depth);
    PartsByFields(kept);
    var f := WithParts(WithType(kept));
    RequiredByFields(f);
    var out := WithRequired(f);
    assert Props(out) == Props(f);
    forall name: string
      ensures Get(Props(f), name).Null? <==> name !in Props(f)
    {
    }
  }

  lemma OutputFinishes(ctx: Context, m: Fields, visiting: set<string>, depth: nat)
    requires depth <= MAX_DEPTH
    ensures Finishes(ctx, Resolved(ctx, m, visiting, depth), Clean(ctx, m, visiting, depth), visiting, depth)
  {
    hide Finishes, Resolved, Kept, Closed;
    ResolvedFinishes(ctx, Resolved(ctx, m, visiting, depth), visiting, depth);
  }

  // ---- Constants, enumerations and notes ---------------------------------------------------

  const NOTED: seq<string> :=
    ["minimum", "maximum", "minItems", "maxItems", "minLength", "maxLength", "pattern", "format", "multipleOf",
     "exclusiveMinimum", "exclusiveMaximum"]

  /** A note for each of the keys that the node has, in the order of the keys. */
  function Notes(ctx: Context, m: Fields, keys: seq<string>): string
    decreases keys
  {
    if keys == [] then ""
    else
      (if keys[0] in m then " [Constraint: " + keys[0] + "=" + ctx.marshal(m[keys[0]]) + "]" else "")
      + Notes(ctx, m, keys[1..])
  }

  /** What the node enumerates: its constant, else its list. */
  function Values(m: Fields): Json {
    if "const" in m then Arr([m["const"]]) else Get(m, "enum")
  }

  /** The list has a value that is no string. */
  predicate Mixed(values: Json) {
    values.Arr? && exists v <- values.items :: !v.Str?
  }

  function AllowedNote(ctx: Context, m: Fields): string {
    if Mixed(Values(m)) then " [Allowed values: " + ctx.marshal(Values(m)) + "]" else ""
  }

  /** The description with notes behind it; without any it stays as it is. */
  function Noted(description: Json, notes: string): Json {
    if notes == "" then description else Str(TrimSpace(description.AsString() + notes))
  }

  predicate EndsInBracket(s: string) {
    s != "" && s[|s| - 1] == ']'
  }

  lemma BracketEndsTrimmed(s: string)
    requires EndsInBracket(s)
    ensures TrimSpace(s) == TrimLeft(s) && EndsInBracket(TrimSpace(s)) && !IsBlank(s)
  {
    var lead := TrimLeftSplits(s);
    assert s[|s| - 1] in s;
    BlankIffTrimLeftEmpties(s);
  }

  /** Trimming between two notes changes nothing. */
  lemma NotesAdd(x: string, y: string)
    requires EndsInBracket(x) && EndsInBracket(y)
    ensures TrimSpace(TrimSpace(x) + y) == TrimSpace(x + y)
  {
    BracketEndsTrimmed(x);
    BracketEndsTrimmed(x + y);
    BracketEndsTrimmed(TrimSpace(x) + y);
    TrimLeftKeepsRest(x, y);
    var lead := TrimLeftSplits(x);
    assert TrimLeft(TrimLeft(x) + y) == TrimLeft(x) + y;
  }

  lemma {:induction false} NotesEndInBracket(ctx: Context, m: Fields, keys: seq<string>)
    ensures Notes(ctx, m, keys) == "" || EndsInBracket(Notes(ctx, m, keys))
    decreases keys
  {
    if keys != [] {
      NotesEndInBracket(ctx, m, keys[1..]);
    }
  }

  lemma {:induction false} SameNotes(ctx: Context, m: Fields, other: Fields, keys: seq<string>)
    requires forall i | 0 <= i < |keys| :: keys[i] in m <==> keys[i] in other
    requires forall i | 0 <= i < |keys| && keys[i] in m :: m[keys[i]] == other[keys[i]]
    ensures Notes(ctx, m, keys) == Notes(ctx, other, keys)
    decreases keys
  {
    if keys != [] {
      SameNotes(ctx, m, other, keys[1..]);
    }
  }

  lemma NotedTwice(description: Json, first: string, more: string)
    requires EndsInBracket(first) && (more == "" || EndsInBracket(more))
    ensures Noted(Noted(description, first), more) == Noted(description, first + more)
  {
    var d := description.AsString();
    if more == "" {
      assert first + more == first;
    } else {
      NotesAdd(d + first, more);
      assert (d + first) + more == d + (first + more);
    }
  }

  lemma {:induction false} ConstrainedByNotes(ctx: Context, m: Fields, keys: seq<string>)
    requires "description" !in keys
    ensures var r := Constrained(ctx, m, keys);
      && Get(r, "description") == Noted(Get(m, "description"), Notes(ctx, m, keys))
      && (forall k: string | k != "description" :: (k in r <==> k in m) && Get(r, k) == Get(m, k))
    decreases keys
  {
    hide TrimSpace, EndsInBracket;
    if keys != [] {
      var key := keys[0];
      if key in m {
        var note := " [Constraint: " + key + "=" + ctx.marshal(m[key]) + "]";
        var noted := Describe(m, note);
        assert key in keys;
        ConstrainedByNotes(ctx, noted, keys[1..]);
        SameNotes(ctx, noted, m, keys[1..]);
        NotesEndInBracket(ctx, m, keys[1..]);
        NoteEndsInBracket(" [Constraint: " + key + "=" + ctx.marshal(m[key]));
        NotedTwice(Get(m, "description"), note, Notes(ctx, m, keys[1..]));
      } else {
        ConstrainedByNotes(ctx, m, keys[1..]);
        assert "" + Notes(ctx, m, keys[1..]) == Notes(ctx, m, keys[1..]);
      }
    }
  }

  lemma NoteEndsInBracket(s: string)
    ensures EndsInBracket(s + "]")
  {
  }

  /** The steps after conjunctions: constants, constraints and enumerations. */
  ghost predicate LastSteps(ctx: Context, j: Fields, r: Fields) {
    && (forall k | k in {"type", "properties", "items", "required", "nullable", "propertyOrdering"} ::
          (k in r <==> k in j) && Get(r, k) == Get(j, k))
    && Get(r, "enum") == (if Mixed(Values(j)) then Null else Values(j))
    && Get(r, "description") == Noted(Get(j, "description"), Notes(ctx, j, NOTED) + AllowedNote(ctx, j))
  }

  lemma LastStepsByFields(ctx: Context, j: Fields)
    ensures LastSteps(ctx, j, AfterAllOf(ctx, j))
  {
    hide TrimSpace, EndsInBracket, Constrained, Notes, Noted, WithConst, WithEnum, Values, Mixed, CONSTRAINTS, NOTED;
    NotedAreConstraints();
    var c := WithConst(j);
    ConstIsEnumerated(j);
    ConstrainedByNotes(ctx, c, CONSTRAINTS);
    SameNotes(ctx, c, j, NOTED);
    EnumIsNoted(ctx, Constrained(ctx, c, CONSTRAINTS));
    NotesEndInBracket(ctx, j, NOTED);
    if Mixed(Values(j)) {
      NoteEndsInBracket(" [Allowed values: " + ctx.marshal(Values(j)));
      NotedAgain(Get(j, "description"), Notes(ctx, j, NOTED), AllowedNote(ctx, j));
    } else {
      assert Notes(ctx, j, NOTED) + "" == Notes(ctx, j, NOTED);
      NotedNothing(Get(c, "description"));
      NotedNothing(Noted(Get(j, "description"), Notes(ctx, j, NOTED)));
    }
  }

  lemma NotedNothing(description: Json)
    ensures Noted(description, "") == description
  {
  }

  lemma NotedAreConstraints()
    ensures CONSTRAINTS == NOTED && "description" !in NOTED
    ensures forall i | 0 <= i < |NOTED| :: NOTED[i] != "const" && NOTED[i] != "enum"
  {
  }

  lemma ConstIsEnumerated(j: Fields)
    ensures var c := WithConst(j);
      && Get(c, "enum") == Values(j)
      && (forall k | k != "const" && k != "enum" :: (k in c <==> k in j) && Get(c, k) == Get(j, k))
      && (forall k | k != "const" && k != "enum" && k in j :: c[k] == j[k])
  {
  }

  lemma NotedAgain(description: Json, first: string, more: string)
    requires (first == "" || EndsInBracket(first)) && EndsInBracket(more)
    ensures Noted(Noted(description, first), more) == Noted(description, first + more)
  {
    if first == "" {
      assert first + more == more;
    } else {
      NotedTwice(description, first, more);
    }
  }

  lemma EnumIsNoted(ctx: Context, d: Fields)
    ensures var r := WithEnum(ctx, d);
      && Get(r, "enum") == (if Mixed(Get(d, "enum")) then Null else Get(d, "enum"))
      && Get(r, "description") == Noted(Get(d, "description"),
           if Mixed(Get(d, "enum")) then " [Allowed values: " + ctx.marshal(Get(d, "enum")) + "]" else "")
      && (forall k | k in {"type", "properties", "items", "required", "nullable", "propertyOrdering"} ::
            (k in r <==> k in d) && Get(r, k) == Get(d, k))
  {
    hide TrimSpace;
  }

  // ---- Nodes without references and unions -------------------------------------------------

  predicate Direct(m: Fields) {
    Get(m, "$ref").AsString() == "" && Get(m, "anyOf").AsSlice() == [] && Get(m, "oneOf").AsSlice() == []
  }

  lemma DirectResolves(ctx: Context, m: Fields, visiting: set<string>, depth: nat)
    requires depth <= MAX_DEPTH && Direct(m)
    ensures Resolved(ctx, m, visiting, depth)
      == AfterAllOf(ctx, WithAllOf(ctx, WithTypeList(m), visiting, depth))
  {
    hide AfterAllOf, WithAllOf, WithTypeList, Clean, CleanOptions;
    assert WithRef(ctx, m, visiting, depth) == m;
    assert WithUnion(ctx, m, "anyOf", visiting, depth) == m && WithUnion(ctx, m, "oneOf", visiting, depth) == m;
    assert AfterUnions(ctx, m, visiting, depth) == AfterRef(ctx, m, visiting, depth);
  }

  /**
   What an output has under each key, given a node `j` whose references, unions, type lists and
   conjunctions are worked in: nothing but the eight keys, the type in upper case or guessed, constants
   as enumerations, notes in the description, and the children cleaned.
   */
  ghost predicate Outputs(ctx: Context, j: Fields, out: Fields, visiting: set<string>, depth: nat) {
    && Get(out, "type") == TypeFrom(j)
    && (forall k | k in {"nullable", "propertyOrdering"} :: Get(out, k) == Get(j, k))
    && Get(out, "enum") == (if Mixed(Values(j)) then Null else Values(j))
    && Get(out, "description") == Noted(Get(j, "description"), Notes(ctx, j, NOTED) + AllowedNote(ctx, j))
    && (forall name: string ::
          if name in Props(j) && Props(j)[name].Obj? then
            name in Props(out) && Props(out)[name] == Obj(Clean(ctx, Props(j)[name].fields, visiting, depth + 1))
          else name !in Props(out))
    && Get(out, "items") ==
         (if TypeFrom(j) == Str("OBJECT") then Null
          else if "items" in j && j["items"].Obj? then Obj(Clean(ctx, j["items"].fields, visiting, depth + 1))
          else if TypeFrom(j) == Str("ARRAY") then Obj(map["type" := Str("STRING")])
          else Null)
    && (forall name: string :: Lists(Get(out, "required"), name) <==>
          Lists(Get(j, "required"), name) && name in Props(out))
    && out.Keys <= {"type", "description", "properties", "required", "items", "enum", "nullable", "propertyOrdering"}
  }

  lemma StepsThenOutput(ctx: Context, j: Fields, r: Fields, out: Fields, visiting: set<string>, depth: nat)
    requires LastSteps(ctx, j, r) && Finishes(ctx, r, out, visiting, depth)
    ensures Outputs(ctx, j, out, visiting, depth)
  {
    hide Clean, Lists, Noted, Notes, AllowedNote, Values, Mixed, ToUpper;
    assert "type" in j ==> Get(r, "type") == j["type"];
    assert "items" in j ==> Get(r, "items") == j["items"];
    assert TypeFrom(r) == TypeFrom(j) && Props(r) == Props(j);
  }

  /** The node before constants, once it has no reference and no union. */
  function JoinedUp(ctx: Context, m: Fields, visiting: set<string>, depth: nat): Fields
    requires depth <= MAX_DEPTH
  {
    WithAllOf(ctx, WithTypeList(m), visiting, depth)
  }

  lemma DirectOutputs(ctx: Context, m: Fields, visiting: set<string>, depth: nat)
    requires depth <= MAX_DEPTH && Direct(m)
    ensures Outputs(ctx, JoinedUp(ctx, m, visiting, depth), Clean(ctx, m, visiting, depth), visiting, depth)
  {
    hide LastSteps, Finishes, Outputs, Resolved, AfterAllOf, WithAllOf, WithTypeList, Clean;
    var j := JoinedUp(ctx, m, visiting, depth);
    DirectResolves(ctx, m, visiting, depth);
    LastStepsByFields(ctx, j);
    OutputFinishes(ctx, m, visiting, depth);
    StepsThenOutput(ctx, j, AfterAllOf(ctx, j), Clean(ctx, m, visiting, depth), visiting, depth);
  }

  /** A node with no reference, union, conjunction or type list: its own keys say everything. */
  lemma PlainNodeMeans(ctx: Context, m: Fields, visiting: set<string>, depth: nat)
    requires depth <= 24 && Direct(m) && Get(m, "allOf").AsSlice() == [] && Get(m, "type").AsSlice() == []
    ensures Outputs(ctx, m, Clean(ctx, m, visiting, depth), visiting, depth)
  {
    hide Outputs, Clean;
    DirectOutputs(ctx, m, visiting, depth);
  }

  /** Beyond 24 levels a node is replaced. */
  lemma TooDeepMeans(ctx: Context, m: Fields, visiting: set<string>, depth: nat)
    requires depth > 24
    ensures Clean(ctx, m, visiting, depth)
      == map["type" := Str("STRING"), "description" := Str("Recursive value encoded as JSON")]
  {
  }

  // ---- Type lists ----------------------------------------------------------------------------

  lemma {:induction false} FirstTypeIsFirst(types: seq<Json>)
    ensures (forall t <- types :: t.AsString() == "null") ==> FirstType(types) == map[]
    ensures forall i | 0 <= i < |types| && types[i].AsString() != "null"
      && (forall j | 0 <= j < i :: types[j].AsString() == "null") ::
      FirstType(types) == map["type" := Str(types[i].AsString())]
  {
    if types != [] {
      FirstTypeIsFirst(types[1..]);
      assert forall t <- types[1..] :: t in types;
      forall i | 0 <= i < |types| && types[i].AsString() != "null"
        && (forall j | 0 <= j < i :: types[j].AsString() == "null")
        ensures FirstType(types) == map["type" := Str(types[i].AsString())]
      {
        if i > 0 {
          assert types[0].AsString() == "null";
          assert types[1..][i - 1] == types[i];
          assert forall j | 0 <= j < i - 1 :: types[1..][j] == types[j + 1];
        }
      }
    }
  }

  lemma TypeListByFields(m: Fields)
    requires Get(m, "type").AsSlice() != []
    ensures var types, t := Get(m, "type").AsSlice(), WithTypeList(m);
      && Get(t, "nullable") == (if exists x <- types :: x.AsString() == "null" then Bool(true) else Get(m, "nullable"))
      && (forall k | k != "type" && k != "nullable" :: (k in t <==> k in m) && Get(t, k) == Get(m, k))
      && ((forall x <- types :: x.AsString() == "null") ==> "type" !in t)
      && forall i | 0 <= i < |types| && types[i].AsString() != "null"
           && (forall j | 0 <= j < i :: types[j].AsString() == "null") ::
           "type" in t && t["type"] == Str(types[i].AsString())
  {
    FirstTypeIsFirst(Get(m, "type").AsSlice());
    var types := Get(m, "type").AsSlice();
    assert FirstType(types).Keys <= {"type"} by {
      FirstTypeHasType(types);
    }
  }

  lemma {:induction false} FirstTypeHasType(types: seq<Json>)
    ensures FirstType(types).Keys <= {"type"}
  {
    if types != [] {
      FirstTypeHasType(types[1..]);
    }
  }

  /** A list of types becomes the first that is not "null", and "null" in it makes the node nullable. */
  lemma TypeListMeans(ctx: Context, m: Fields, i: nat, visiting: set<string>, depth: nat)
    requires depth <= 24 && Direct(m) && Get(m, "allOf").AsSlice() == []
    requires i < |Get(m, "type").AsSlice()| && Get(m, "type").AsSlice()[i].AsString() != "null"
    requires forall j | 0 <= j < i :: Get(m, "type").AsSlice()[j].AsString() == "null"
    ensures var types, out := Get(m, "type").AsSlice(), Clean(ctx, m, visiting, depth);
      && Get(out, "type") == Str(ToUpper(types[i].AsString()))
      && Get(out, "nullable") == if exists t <- types :: t.AsString() == "null" then Bool(true) else Get(m, "nullable")
  {
    hide Outputs, Clean, ToUpper, WithTypeList, WithAllOf;
    DirectOutputs(ctx, m, visiting, depth);
    TypeListByFields(m);
    NoConjunctionJoins(ctx, m, visiting, depth);
    TypeOutput(ctx, WithTypeList(m), Clean(ctx, m, visiting, depth), visiting, depth);
  }

  lemma NoConjunctionJoins(ctx: Context, m: Fields, visiting: set<string>, depth: nat)
    requires depth <= MAX_DEPTH && Get(m, "allOf").AsSlice() == [] && Get(m, "type").AsSlice() != []
    ensures JoinedUp(ctx, m, visiting, depth) == WithTypeList(m)
  {
    hide Clean, MergeAll, WithTypeList;
    TypeListByFields(m);
  }

  lemma TypeOutput(ctx: Context, j: Fields, out: Fields, visiting: set<string>, depth: nat)
    requires Outputs(ctx, j, out, visiting, depth)
    ensures Get(out, "type") == TypeFrom(j) && Get(out, "nullable") == Get(j, "nullable")
    ensures Get(out, "propertyOrdering") == Get(j, "propertyOrdering")
  {
    hide Clean, Lists, TypeFrom, Noted, Notes, AllowedNote, Values, Mixed;
  }

  /** A list of nothing but "null" makes the node nullable and leaves the type to its other keys. */
  lemma OnlyNullMeans(ctx: Context, m: Fields, visiting: set<string>, depth: nat)
    requires depth <= 24 && Direct(m) && Get(m, "allOf").AsSlice() == []
    requires Get(m, "type").AsSlice() != [] && forall t <- Get(m, "type").AsSlice() :: t.AsString() == "null"
    ensures var out := Clean(ctx, m, visiting, depth);
      && Get(out, "nullable") == Bool(true)
      && Get(out, "type") == (if "properties" in m then Str("OBJECT")
                              else if "items" in m && m["items"].Obj? then Str("ARRAY") else Null)
  {
    hide Outputs, Clean, ToUpper, WithTypeList, WithAllOf;
    DirectOutputs(ctx, m, visiting, depth);
    TypeListByFields(m);
    NoConjunctionJoins(ctx, m, visiting, depth);
    TypeOutput(ctx, WithTypeList(m), Clean(ctx, m, visiting, depth), visiting, depth);
    var types := Get(m, "type").AsSlice();
    assert types[0] in types;
    assert "items" in m ==> Get(WithTypeList(m), "items") == m["items"];
  }

  // ---- Conjunctions --------------------------------------------------------------------------

  /** What member `i` of a conjunction is cleaned to; a member that is no object says nothing. */
  function Member(ctx: Context, all: seq<Json>, i: nat, visiting: set<string>, depth: nat): Fields
    requires i < |all| && depth <= MAX_DEPTH
  {
    if all[i].Obj? then Clean(ctx, all[i].fields, visiting, depth + 1) else map[]
  }

  lemma MergeOneMore(ctx: Context, m: Fields, all: seq<Json>, visiting: set<string>, depth: nat)
    requires depth <= MAX_DEPTH && all != []
    ensures var n := |all| - 1;
      MergeAll(ctx, m, all, visiting, depth)
        == MergeAllOf(MergeAll(ctx, m, all[..n], visiting, depth), Member(ctx, all, n, visiting, depth))
  {
    hide Clean, MemberValue;
    var n := |all| - 1;
    if !all[n].Obj? {
      var before := MergeAll(ctx, m, all[..n], visiting, depth);
      assert MergeAllOf(before, map[]) == before;
    }
  }

  /** A form's properties are objects under a `properties` key. */
  lemma MemberHasForm(ctx: Context, all: seq<Json>, i: nat, visiting: set<string>, depth: nat)
    requires i < |all| && depth <= MAX_DEPTH
    ensures var c := Member(ctx, all, i, visiting, depth);
      && c.Keys <= ALLOWED && ("properties" in c ==> c["properties"].Obj?)
      && (forall name <- Props(c) :: Props(c)[name].Obj?)
      && ("type" in c ==> c["type"].Str? && ToUpper(c["type"].s) == c["type"].s)
  {
    hide Form, FormAll, Clean, RequiredIsDeclared, ToUpper;
    if all[i].Obj? {
      CleanHasForm(ctx, all[i].fields, visiting, depth + 1);
      FormParts(Obj(Clean(ctx, all[i].fields, visiting, depth + 1)));
    }
  }

  lemma MergedOnce(m: Fields, add: Fields)
    requires "properties" in add ==> add["properties"].Obj?
    ensures var j := MergeAllOf(m, add);
      && (forall name: string ::
            if name in Props(add) then name in Props(j) && Props(j)[name] == Props(add)[name]
            else (name in Props(j) <==> name in Props(m)) && (name in Props(j) ==> Props(j)[name] == Props(m)[name]))
      && (forall name: string ::
            Lists(Get(j, "required"), name) <==> Lists(Get(m, "required"), name) || Lists(Get(add, "required"), name))
      && (forall k | k != "properties" && k != "required" ::
            Get(j, k) == if Get(m, k).Null? then Get(add, k) else Get(m, k))
      && (forall k | k != "properties" && k != "required" && k in m && !m[k].Null? :: k in j)
      && (forall k :: k in j <==> k in m || k in add)
  {
    var j := MergeAllOf(m, add);
    ListsOfBoth(Get(m, "required"), Get(add, "required"));
    assert Get(j, "required") == if "required" in add then Arr(Get(m, "required").AsSlice() + add["required"].AsSlice())
                                 else Get(m, "required");
  }

  lemma ListsOfBoth(a: Json, b: Json)
    ensures forall name: string ::
      Lists(Arr(a.AsSlice() + b.AsSlice()), name) <==> Lists(a, name) || Lists(b, name)
  {
    var both := a.AsSlice() + b.AsSlice();
    forall name: string
      ensures Lists(Arr(both), name) <==> Lists(a, name) || Lists(b, name)
    {
      if Lists(a, name) {
        var i :| 0 <= i < |a.items| && a.items[i].AsString() == name;
        assert both[i].AsString() == name;
      }
      if Lists(b, name) {
        var i :| 0 <= i < |b.items| && b.items[i].AsString() == name;
        assert both[|a.AsSlice()| + i].AsString() == name;
      }
    }
  }

  /** Some member of the conjunction declares the property. */
  ghost predicate MemberDeclares(ctx: Context, all: seq<Json>, i: nat, name: string, visiting: set<string>, depth: nat)
    requires depth <= MAX_DEPTH
  {
    i < |all| && name in Props(Member(ctx, all, i, visiting, depth))
  }

  ghost predicate MemberRequires(ctx: Context, all: seq<Json>, i: nat, name: string, visiting: set<string>, depth: nat)
    requires depth <= MAX_DEPTH
  {
    i < |all| && Lists(Get(Member(ctx, all, i, visiting, depth), "required"), name)
  }

  lemma SameMember(ctx: Context, all: seq<Json>, n: nat, i: nat, visiting: set<string>, depth: nat)
    requires i < n <= |all| && depth <= MAX_DEPTH
    ensures Member(ctx, all[..n], i, visiting, depth) == Member(ctx, all, i, visiting, depth)
  {
    hide Clean;
  }

  /** Member `i` declares the property, and none after it does. */
  ghost predicate DeclaresLast(ctx: Context, all: seq<Json>, i: nat, name: string, visiting: set<string>, depth: nat)
    requires depth <= MAX_DEPTH
  {
    && MemberDeclares(ctx, all, i, name, visiting, depth)
    && forall l: nat | i < l :: !MemberDeclares(ctx, all, l, name, visiting, depth)
  }

  ghost predicate NoneDeclares(ctx: Context, all: seq<Json>, name: string, visiting: set<string>, depth: nat)
    requires depth <= MAX_DEPTH
  {
    forall i: nat :: !MemberDeclares(ctx, all, i, name, visiting, depth)
  }

  lemma DeclaresBefore(ctx: Context, all: seq<Json>, n: nat, i: nat, name: string, visiting: set<string>, depth: nat)
    requires n <= |all| && depth <= MAX_DEPTH
    ensures MemberDeclares(ctx, all[..n], i, name, visiting, depth)
      <==> i < n && MemberDeclares(ctx, all, i, name, visiting, depth)
  {
    hide Member;
    if i < n {
      SameMember(ctx, all, n, i, visiting, depth);
    }
  }

  lemma OneMoreMember(ctx: Context, m: Fields, all: seq<Json>, name: string, visiting: set<string>, depth: nat)
    requires depth <= MAX_DEPTH && all != []
    ensures var n := |all| - 1;
      var c, before := Member(ctx, all, n, visiting, depth), MergeAll(ctx, m, all[..n], visiting, depth);
      var j := MergeAll(ctx, m, all, visiting, depth);
      if name in Props(c) then name in Props(j) && Props(j)[name] == Props(c)[name]
      else (name in Props(j) <==> name in Props(before)) && (name in Props(j) ==> Props(j)[name] == Props(before)[name])
  {
    hide MergeAll, MergeAllOf, Member;
    var n := |all| - 1;
    MergeOneMore(ctx, m, all, visiting, depth);
    MemberHasForm(ctx, all, n, visiting, depth);
    MergedOnce(MergeAll(ctx, m, all[..n], visiting, depth), Member(ctx, all, n, visiting, depth));
  }

  /** The last member that declares a property has it. */
  lemma {:induction false} MergedLast(ctx: Context, m: Fields, all: seq<Json>, i: nat, name: string,
                                      visiting: set<string>, depth: nat)
    requires depth <= MAX_DEPTH && DeclaresLast(ctx, all, i, name, visiting, depth)
    ensures var j := MergeAll(ctx, m, all, visiting, depth);
      name in Props(j) && Props(j)[name] == Props(Member(ctx, all, i, visiting, depth))[name]
  {
    hide MergeAll, Member, Props;
    var n := |all| - 1;
    OneMoreMember(ctx, m, all, name, visiting, depth);
    if i < n {
      assert !MemberDeclares(ctx, all, n, name, visiting, depth);
      forall l: nat
        ensures MemberDeclares(ctx, all[..n], l, name, visiting, depth)
          <==> l < n && MemberDeclares(ctx, all, l, name, visiting, depth)
      {
        DeclaresBefore(ctx, all, n, l, name, visiting, depth);
      }
      SameMember(ctx, all, n, i, visiting, depth);
      MergedLast(ctx, m, all[..n], i, name, visiting, depth);
    }
  }

  /** A property that no member declares is the node's own. */
  lemma {:induction false} MergedOwn(ctx: Context, m: Fields, all: seq<Json>, name: string, visiting: set<string>,
                                     depth: nat)
    requires depth <= MAX_DEPTH && NoneDeclares(ctx, all, name, visiting, depth)
    ensures var j := MergeAll(ctx, m, all, visiting, depth);
      (name in Props(j) <==> name in Props(m)) && (name in Props(j) ==> Props(j)[name] == Props(m)[name])
  {
    hide MergeAll, Member, Props;
    if all == [] {
      MergeNothing(ctx, m, visiting, depth);
    } else {
      var n := |all| - 1;
      OneMoreMember(ctx, m, all, name, visiting, depth);
      assert !MemberDeclares(ctx, all, n, name, visiting, depth);
      forall l: nat
        ensures !MemberDeclares(ctx, all[..n], l, name, visiting, depth)
      {
        DeclaresBefore(ctx, all, n, l, name, visiting, depth);
      }
      MergedOwn(ctx, m, all[..n], name, visiting, depth);
    }
  }

  lemma MergeNothing(ctx: Context, m: Fields, visiting: set<string>, depth: nat)
    requires depth <= MAX_DEPTH
    ensures MergeAll(ctx, m, [], visiting, depth) == m
  {
  }

  lemma {:induction false} MergedRequired(ctx: Context, m: Fields, all: seq<Json>, name: string, visiting: set<string>,
                                          depth: nat)
    requires depth <= MAX_DEPTH
    ensures Lists(Get(MergeAll(ctx, m, all, visiting, depth), "required"), name) <==>
      Lists(Get(m, "required"), name) || exists i: nat :: MemberRequires(ctx, all, i, name, visiting, depth)
  {
    hide Clean, MergeAll, MergeAllOf, Member, Lists;
    if all == [] {
      MergeNothing(ctx, m, visiting, depth);
    } else {
      var n := |all| - 1;
      MergedRequired(ctx, m, all[..n], name, visiting, depth);
      MergeOneMore(ctx, m, all, visiting, depth);
      MemberHasForm(ctx, all, n, visiting, depth);
      MergedOnce(MergeAll(ctx, m, all[..n], visiting, depth), Member(ctx, all, n, visiting, depth));
      forall i: nat
        ensures MemberRequires(ctx, all[..n], i, name, visiting, depth)
          <==> i < n && MemberRequires(ctx, all, i, name, visiting, depth)
      {
        if i < n {
          SameMember(ctx, all, n, i, visiting, depth);
        }
      }
      assert MemberRequires(ctx, all, n, name, visiting, depth) <==>
        Lists(Get(Member(ctx, all, n, visiting, depth), "required"), name);
      assert forall i: nat :: MemberRequires(ctx, all, i, name, visiting, depth) ==> i <= n;
    }
  }

  /** What the node says under a key, else what the first member that says anything does. */
  function FirstSaid(ctx: Context, m: Fields, all: seq<Json>, n: nat, k: string, visiting: set<string>,
                     depth: nat): Json
    requires n <= |all| && depth <= MAX_DEPTH
  {
    if n == 0 then Get(m, k)
    else
      var before := FirstSaid(ctx, m, all, n - 1, k, visiting, depth);
      if !before.Null? then before else Get(Member(ctx, all, n - 1, visiting, depth), k)
  }

  lemma {:induction false} SameFirstSaid(ctx: Context, m: Fields, all: seq<Json>, n: nat, l: nat, k: string,
                                         visiting: set<string>, depth: nat)
    requires l <= n <= |all| && depth <= MAX_DEPTH
    ensures FirstSaid(ctx, m, all[..n], l, k, visiting, depth) == FirstSaid(ctx, m, all, l, k, visiting, depth)
  {
    hide Clean, Member;
    if l > 0 {
      SameFirstSaid(ctx, m, all, n, l - 1, k, visiting, depth);
      SameMember(ctx, all, n, l - 1, visiting, depth);
    }
  }

  lemma {:induction false} MergedOther(ctx: Context, m: Fields, all: seq<Json>, k: string, visiting: set<string>,
                                       depth: nat)
    requires depth <= MAX_DEPTH && k != "properties" && k != "required"
    ensures var j := MergeAll(ctx, m, all, visiting, depth);
      && Get(j, k) == FirstSaid(ctx, m, all, |all|, k, visiting, depth)
      && (k in m ==> k in j) && (k in j && k !in m ==> k in ALLOWED)
  {
    hide Clean, MergeAll, MergeAllOf, Member;
    if all == [] {
      MergeNothing(ctx, m, visiting, depth);
    } else {
      var n := |all| - 1;
      MergedOther(ctx, m, all[..n], k, visiting, depth);
      MergeOneMore(ctx, m, all, visiting, depth);
      MemberHasForm(ctx, all, n, visiting, depth);
      MergedOnce(MergeAll(ctx, m, all[..n], visiting, depth), Member(ctx, all, n, visiting, depth));
      SameFirstSaid(ctx, m, all, n, n, k, visiting, depth);
    }
  }

  /** A conjunction to be followed: a direct node with a nonempty `allOf` and no list of types. */
  predicate IsConjunction(m: Fields) {
    Direct(m) && Get(m, "allOf").AsSlice() != [] && Get(m, "type").AsSlice() == []
  }

  lemma ConjunctionJoins(ctx: Context, m: Fields, visiting: set<string>, depth: nat)
    requires depth <= MAX_DEPTH && IsConjunction(m)
    ensures JoinedUp(ctx, m, visiting, depth)
      == MergeAll(ctx, m - {"allOf"}, Get(m, "allOf").AsSlice(), visiting, depth)
  {
    hide Clean, MergeAll;
  }

  /** A property of a cleaned member is not changed by being cleaned again in the conjunction. */
  lemma MemberPropertyIsFixed(ctx: Context, all: seq<Json>, i: nat, name: string, visiting: set<string>, depth: nat)
    requires depth <= MAX_DEPTH && MemberDeclares(ctx, all, i, name, visiting, depth)
    ensures var p := Props(Member(ctx, all, i, visiting, depth))[name];
      p.Obj? && Clean(ctx, p.fields, visiting, depth + 1) == p.fields
  {
    hide Form, FormAll, Clean, Shaped, Ends, EndsAll, BottomsOut;
    var c := Clean(ctx, all[i].fields, visiting, depth + 1);
    if depth == MAX_DEPTH {
      TooDeepMeans(ctx, all[i].fields, visiting, depth + 1);
    } else {
      CleanHasForm(ctx, all[i].fields, visiting, depth + 1);
      CleanEnds(ctx, all[i].fields, visiting, depth + 1);
      PropertyOfForm(c, name, depth + 1);
      var p := Props(c)[name];
      NearerBottomsOut(p, depth + 1);
      FormIsObject(p);
      FormIsFixedIff(ctx, p, visiting, depth + 1);
    }
  }

  lemma PropertyOfForm(c: Fields, name: string, depth: nat)
    requires Form(Obj(c)) && Ends(Obj(c), depth) && depth <= MAX_DEPTH && name in Props(c)
    ensures Form(Props(c)[name]) && Ends(Props(c)[name], depth + 1)
  {
    hide Shaped;
  }

  lemma PropertyOutput(ctx: Context, j: Fields, out: Fields, name: string, visiting: set<string>, depth: nat)
    requires Outputs(ctx, j, out, visiting, depth)
    ensures if name in Props(j) && Props(j)[name].Obj? then
              name in Props(out) && Props(out)[name] == Obj(Clean(ctx, Props(j)[name].fields, visiting, depth + 1))
            else name !in Props(out)
  {
    hide Clean, Lists, TypeFrom, Noted, Notes, AllowedNote, Values, Mixed;
  }

  /** A property of a conjunction is what the last member that declares it says, as the member was cleaned. */
  lemma AllOfProperty(ctx: Context, m: Fields, i: nat, name: string, visiting: set<string>, depth: nat)
    requires depth <= 24 && IsConjunction(m)
    requires DeclaresLast(ctx, Get(m, "allOf").AsSlice(), i, name, visiting, depth)
    ensures var all, out := Get(m, "allOf").AsSlice(), Clean(ctx, m, visiting, depth);
      name in Props(out) && Props(out)[name] == Props(Member(ctx, all, i, visiting, depth))[name]
  {
    hide Outputs, Clean, MergeAll, Member, JoinedUp, Props;
    var all, j, out := Get(m, "allOf").AsSlice(), JoinedUp(ctx, m, visiting, depth), Clean(ctx, m, visiting, depth);
    DirectOutputs(ctx, m, visiting, depth);
    ConjunctionJoins(ctx, m, visiting, depth);
    MergedLast(ctx, m - {"allOf"}, all, i, name, visiting, depth);
    MemberPropertyIsFixed(ctx, all, i, name, visiting, depth);
    PropertyOutput(ctx, j, out, name, visiting, depth);
  }

  /** A property that no member declares is what the node itself says. */
  lemma AllOfOwnProperty(ctx: Context, m: Fields, name: string, visiting: set<string>, depth: nat)
    requires depth <= 24 && IsConjunction(m)
    requires NoneDeclares(ctx, Get(m, "allOf").AsSlice(), name, visiting, depth)
    ensures var out := Clean(ctx, m, visiting, depth);
      if name in Props(m) && Props(m)[name].Obj? then
        name in Props(out) && Props(out)[name] == Obj(Clean(ctx, Props(m)[name].fields, visiting, depth + 1))
      else name !in Props(out)
  {
    hide Outputs, Clean, MergeAll, Member, JoinedUp;
    var all, j, out := Get(m, "allOf").AsSlice(), JoinedUp(ctx, m, visiting, depth), Clean(ctx, m, visiting, depth);
    DirectOutputs(ctx, m, visiting, depth);
    ConjunctionJoins(ctx, m, visiting, depth);
    MergedOwn(ctx, m - {"allOf"}, all, name, visiting, depth);
    assert Props(m - {"allOf"}) == Props(m);
    PropertyOutput(ctx, j, out, name, visiting, depth);
  }

  /** A conjunction requires what it or any member requires, as far as it is declared. */
  lemma AllOfRequired(ctx: Context, m: Fields, name: string, visiting: set<string>, depth: nat)
    requires depth <= 24 && IsConjunction(m)
    ensures var all, out := Get(m, "allOf").AsSlice(), Clean(ctx, m, visiting, depth);
      Lists(Get(out, "required"), name) <==>
        && name in Props(out)
        && (Lists(Get(m, "required"), name) || exists i: nat :: MemberRequires(ctx, all, i, name, visiting, depth))
  {
    hide Clean, MergeAll, Member, JoinedUp, Lists, TypeFrom, Noted, Notes, AllowedNote, Values, Mixed;
    var all := Get(m, "allOf").AsSlice();
    DirectOutputs(ctx, m, visiting, depth);
    ConjunctionJoins(ctx, m, visiting, depth);
    MergedRequired(ctx, m - {"allOf"}, all, name, visiting, depth);
    assert Get(m - {"allOf"}, "required") == Get(m, "required");
  }

  /** Everything else is what the node says, or else the first member that says anything. */
  lemma AllOfOthers(ctx: Context, m: Fields, visiting: set<string>, depth: nat)
    requires depth <= 24 && IsConjunction(m)
    ensures var all, out := Get(m, "allOf").AsSlice(), Clean(ctx, m, visiting, depth);
      && (forall k | k in {"nullable", "propertyOrdering"} ::
            Get(out, k) == FirstSaid(ctx, m, all, |all|, k, visiting, depth))
      && (!FirstSaid(ctx, m, all, |all|, "type", visiting, depth).Null? ==>
            Get(out, "type") == Str(ToUpper(FirstSaid(ctx, m, all, |all|, "type", visiting, depth).AsString())))
  {
    hide Clean, MergeAll, Member, JoinedUp, Lists, Noted, Notes, AllowedNote, Values, Mixed, ToUpper, FirstSaid;
    var all, rest := Get(m, "allOf").AsSlice(), m - {"allOf"};
    DirectOutputs(ctx, m, visiting, depth);
    ConjunctionJoins(ctx, m, visiting, depth);
    forall k | k in {"nullable", "propertyOrdering", "type"}
      ensures Get(JoinedUp(ctx, m, visiting, depth), k) == FirstSaid(ctx, m, all, |all|, k, visiting, depth)
    {
      MergedOther(ctx, rest, all, k, visiting, depth);
      SameStart(ctx, rest, m, all, |all|, k, visiting, depth);
    }
  }

  lemma {:induction false} SameStart(ctx: Context, a: Fields, b: Fields, all: seq<Json>, n: nat, k: string,
                                     visiting: set<string>, depth: nat)
    requires n <= |all| && depth <= MAX_DEPTH && Get(a, k) == Get(b, k)
    ensures FirstSaid(ctx, a, all, n, k, visiting, depth) == FirstSaid(ctx, b, all, n, k, visiting, depth)
  {
    hide Clean, Member;
    if n > 0 {
      SameStart(ctx, a, b, all, n - 1, k, visiting, depth);
    }
  }

  // ---- References and unions, by what stands in their place ----------------------------------

  /** A node whose reference is followed is cleaned like one that has, for its missing keys, those of the target. */
  lemma ReferenceFills(ctx: Context, m: Fields, visiting: set<string>, depth: nat)
    requires depth <= 24
    requires var ref := Get(m, "$ref").AsString(); ref != "" && "#/" <= ref && ref !in visiting && Target(ctx, ref).Obj?
    ensures var ref := Get(m, "$ref").AsString();
      Clean(ctx, m, visiting, depth)
        == Clean(ctx, Clean(ctx, Target(ctx, ref).fields, visiting + {ref}, depth + 1) + (m - {"$ref"}), visiting,
          depth)
  {
    hide Form, FormAll, Shaped, Clean, AfterRef, Kept, Closed, Target;
    var ref := Get(m, "$ref").AsString();
    var c := Clean(ctx, Target(ctx, ref).fields, visiting + {ref}, depth + 1);
    CleanKeysAreAllowed(ctx, Target(ctx, ref).fields, visiting + {ref}, depth + 1);
    var filled := c + (m - {"$ref"});
    assert "$ref" !in filled;
    assert WithRef(ctx, m, visiting, depth) == filled && WithRef(ctx, filled, visiting, depth) == filled;
    SameResolved(ctx, m, filled, visiting, depth);
  }

  /** Any other reference makes the node a string, whatever its type was. */
  lemma OtherReferenceFills(ctx: Context, m: Fields, visiting: set<string>, depth: nat)
    requires depth <= 24
    requires var ref := Get(m, "$ref").AsString();
      ref != "" && !("#/" <= ref && ref !in visiting && Target(ctx, ref).Obj?)
    ensures Clean(ctx, m, visiting, depth)
      == Clean(ctx, (m - {"$ref"})["type" := Str("STRING")], visiting, depth)
  {
    hide Clean, AfterRef, Kept, Closed, Target;
    var filled := (m - {"$ref"})["type" := Str("STRING")];
    assert "$ref" !in filled;
    assert WithRef(ctx, m, visiting, depth) == filled && WithRef(ctx, filled, visiting, depth) == filled;
    SameResolved(ctx, m, filled, visiting, depth);
  }

  lemma SameResolved(ctx: Context, a: Fields, b: Fields, visiting: set<string>, depth: nat)
    requires depth <= MAX_DEPTH
    requires WithRef(ctx, a, visiting, depth) == WithRef(ctx, b, visiting, depth)
      || Resolved(ctx, a, visiting, depth) == Resolved(ctx, b, visiting, depth)
    ensures Clean(ctx, a, visiting, depth) == Clean(ctx, b, visiting, depth)
  {
    hide AfterRef, WithRef, Kept, Closed;
  }

  lemma CleanKeysAreAllowed(ctx: Context, m: Fields, visiting: set<string>, depth: nat)
    ensures Clean(ctx, m, visiting, depth).Keys <= ALLOWED
    ensures Get(Clean(ctx, m, visiting, depth), "nullable") == Null || "nullable" in Clean(ctx, m, visiting, depth)
  {
    hide Form, FormAll, Clean, RequiredIsDeclared, ToUpper;
    CleanHasForm(ctx, m, visiting, depth);
    FormParts(Obj(Clean(ctx, m, visiting, depth)));
  }

  /** An option that names the type "null". */
  predicate SaysNull(option: Json) {
    option.Obj? && "type" in option.fields && option.fields["type"].AsString() == "null"
  }

  /** The other options that are objects, cleaned. */
  function Branches(ctx: Context, options: seq<Json>, visiting: set<string>, depth: nat): seq<Fields>
    requires depth <= MAX_DEPTH
  {
    if options == [] then []
    else
      var n := |options| - 1;
      Branches(ctx, options[..n], visiting, depth)
      + if options[n].Obj? && !SaysNull(options[n]) then [Clean(ctx, options[n].fields, visiting, depth + 1)] else []
  }

  lemma {:induction false} OptionsAreBranches(ctx: Context, options: seq<Json>, visiting: set<string>, depth: nat)
    requires depth <= MAX_DEPTH
    ensures CleanOptions(ctx, options, visiting, depth) == Branches(ctx, options, visiting, depth)
  {
    hide Clean;
    if options != [] {
      var n := |options| - 1;
      OptionsAreBranches(ctx, options[..n], visiting, depth);
      assert IsNullType(options[n]) <==> SaysNull(options[n]);
      assert Branches(ctx, options[..n], visiting, depth) + [] == Branches(ctx, options[..n], visiting, depth);
    }
  }

  lemma {:induction false} BranchesAreAllowed(ctx: Context, options: seq<Json>, visiting: set<string>, depth: nat)
    requires depth <= MAX_DEPTH
    ensures forall b <- Branches(ctx, options, visiting, depth) :: b.Keys <= ALLOWED
  {
    hide Clean;
    if options != [] {
      var n := |options| - 1;
      BranchesAreAllowed(ctx, options[..n], visiting, depth);
      if options[n].Obj? {
        CleanKeysAreAllowed(ctx, options[n].fields, visiting, depth + 1);
      }
    }
  }

  /** A node with options under one of the two union keys, none under the other, and no reference. */
  predicate IsUnion(m: Fields, key: string) {
    && Get(m, "$ref").AsString() == "" && Get(m, key).AsSlice() != []
    && ((key == "anyOf" && Get(m, "oneOf").AsSlice() == []) || (key == "oneOf" && Get(m, "anyOf").AsSlice() == []))
  }

  /** The node without its union, nullable if an option says so. */
  function Own(m: Fields, key: string): Fields {
    if exists o <- Get(m, key).AsSlice() :: SaysNull(o) then (m - {key})["nullable" := Bool(true)] else m - {key}
  }

  /** The node that takes the place of a union. */
  function Merged(ctx: Context, m: Fields, key: string, visiting: set<string>, depth: nat): Fields
    requires depth <= MAX_DEPTH
  {
    MergeBranches(Own(m, key), Branches(ctx, Get(m, key).AsSlice(), visiting, depth))
  }

  lemma MergingIsDirect(own: Fields, branches: seq<Fields>)
    requires Direct(own) && forall b <- branches :: "$ref" !in b && "anyOf" !in b && "oneOf" !in b
    ensures Direct(MergeBranches(own, branches))
  {
    hide Best, TypesOf, TrimSpace;
    if |branches| > 1 {
      var i := BestIsFirstHighest(branches);
      assert branches[i] in branches;
      var merged := MergeNull(own, branches[i]);
      assert Get(merged, "$ref") == Get(own, "$ref") && Get(merged, "anyOf") == Get(own, "anyOf")
        && Get(merged, "oneOf") == Get(own, "oneOf");
    } else if |branches| == 1 {
      assert branches[0] in branches;
    }
  }

  lemma OwnIsDirect(m: Fields, key: string)
    requires IsUnion(m, key)
    ensures Direct(Own(m, key))
  {
    hide SaysNull;
  }

  lemma MergedIsDirect(ctx: Context, m: Fields, key: string, visiting: set<string>, depth: nat)
    requires depth <= MAX_DEPTH && IsUnion(m, key)
    ensures Direct(Merged(ctx, m, key, visiting, depth))
  {
    hide Clean, Branches, MergeBranches, Direct, Own, IsUnion, ALLOWED;
    BranchesAreAllowed(ctx, Get(m, key).AsSlice(), visiting, depth);
    UnionKeysAreNotAllowed();
    OwnIsDirect(m, key);
    MergingIsDirect(Own(m, key), Branches(ctx, Get(m, key).AsSlice(), visiting, depth));
  }

  lemma UnionKeysAreNotAllowed()
    ensures "$ref" !in ALLOWED && "anyOf" !in ALLOWED && "oneOf" !in ALLOWED
  {
  }

  lemma UnionIsMerged(ctx: Context, m: Fields, key: string, visiting: set<string>, depth: nat)
    requires depth <= MAX_DEPTH && IsUnion(m, key)
    ensures Clean(ctx, m, visiting, depth) == Clean(ctx, Merged(ctx, m, key, visiting, depth), visiting, depth)
  {
    hide Clean, Branches, CleanOptions, MergeBranches, AfterUnions, Resolved;
    var u := Merged(ctx, m, key, visiting, depth);
    var options := Get(m, key).AsSlice();
    OptionsAreBranches(ctx, options, visiting, depth);
    assert forall o: Json :: IsNullType(o) <==> SaysNull(o);
    assert WithUnion(ctx, m, key, visiting, depth) == u;
    MergedIsDirect(ctx, m, key, visiting, depth);
    UnionsResolve(ctx, m, key, visiting, depth);
    UnionsResolveDirect(ctx, u, visiting, depth);
    SameResolved(ctx, m, u, visiting, depth);
  }

  lemma UnionsResolve(ctx: Context, m: Fields, key: string, visiting: set<string>, depth: nat)
    requires depth <= MAX_DEPTH && IsUnion(m, key) && Direct(WithUnion(ctx, m, key, visiting, depth))
    ensures Resolved(ctx, m, visiting, depth)
      == AfterUnions(ctx, WithUnion(ctx, m, key, visiting, depth), visiting, depth)
  {
    hide Clean, CleanOptions, MergeBranches, AfterUnions;
    var u := WithUnion(ctx, m, key, visiting, depth);
    assert WithRef(ctx, m, visiting, depth) == m;
    if key == "anyOf" {
      assert WithUnion(ctx, u, "oneOf", visiting, depth) == u;
    } else {
      assert WithUnion(ctx, m, "anyOf", visiting, depth) == m;
    }
  }

  lemma UnionsResolveDirect(ctx: Context, u: Fields, visiting: set<string>, depth: nat)
    requires depth <= MAX_DEPTH && Direct(u)
    ensures Resolved(ctx, u, visiting, depth) == AfterUnions(ctx, u, visiting, depth)
  {
    hide Clean, CleanOptions, MergeBranches, AfterUnions;
    assert WithRef(ctx, u, visiting, depth) == u;
    assert WithUnion(ctx, u, "anyOf", visiting, depth) == u && WithUnion(ctx, u, "oneOf", visiting, depth) == u;
  }

  /** A union of nothing but "null" is the node itself, nullable. */
  lemma NullUnionMeans(ctx: Context, m: Fields, key: string, visiting: set<string>, depth: nat)
    requires depth <= 24 && IsUnion(m, key) && Branches(ctx, Get(m, key).AsSlice(), visiting, depth) == []
    ensures Clean(ctx, m, visiting, depth) == Clean(ctx, Own(m, key), visiting, depth)
  {
    hide Clean, Branches;
    UnionIsMerged(ctx, m, key, visiting, depth);
  }

  /** A union of one option, with or without "null", gives the node the keys of the option that it lacks. */
  lemma OneOptionMeans(ctx: Context, m: Fields, key: string, b: Fields, visiting: set<string>, depth: nat)
    requires depth <= 24 && IsUnion(m, key) && Branches(ctx, Get(m, key).AsSlice(), visiting, depth) == [b]
    ensures Clean(ctx, m, visiting, depth) == Clean(ctx, b + Own(m, key), visiting, depth)
  {
    hide Clean, Branches;
    UnionIsMerged(ctx, m, key, visiting, depth);
  }

  /** How much of a branch can be merged. */
  function Weight(b: Fields): nat {
    10 * |Props(b)| + if "items" in b && b["items"] != Null then 5 else 0
  }

  /** The types of the branches, from left to right. */
  function Accepted(branches: seq<Fields>): string
    requires branches != []
    decreases branches
  {
    if |branches| == 1 then Get(branches[0], "type").AsString()
    else Get(branches[0], "type").AsString() + " | " + Accepted(branches[1..])
  }

  lemma {:induction false} AcceptedOneMore(branches: seq<Fields>, b: Fields)
    requires branches != []
    ensures Accepted(branches + [b]) == Accepted(branches) + " | " + Get(b, "type").AsString()
    decreases branches
  {
    var more := branches + [b];
    assert more[1..] == branches[1..] + [b];
    if |branches| > 1 {
      AcceptedOneMore(branches[1..], b);
    } else {
      assert more[1..] == [b];
    }
  }

  lemma {:induction false} TypesAreAccepted(branches: seq<Fields>)
    requires branches != []
    ensures TypesOf(branches) == Accepted(branches)
  {
    var n := |branches| - 1;
    if n > 0 {
      TypesAreAccepted(branches[..n]);
      AcceptedOneMore(branches[..n], branches[n]);
      assert branches[..n] + [branches[n]] == branches;
    }
  }

  /** Branch `i` weighs most, and more than those before it. */
  predicate IsBest(branches: seq<Fields>, i: nat) {
    && i < |branches|
    && (forall l | 0 <= l < |branches| :: Weight(branches[l]) <= Weight(branches[i]))
    && (forall l | 0 <= l < i :: Weight(branches[l]) < Weight(branches[i]))
  }

  lemma {:induction false} BestWeighsMost(branches: seq<Fields>, i: nat)
    requires IsBest(branches, i)
    ensures Best(branches) == branches[i]
  {
    var n := |branches| - 1;
    assert forall b: Fields :: Weight(b) == Score(b);
    hide Weight, Score;
    if n > 0 {
      if i < n {
        BestWeighsMost(branches[..n], i);
      } else {
        var l := BestIsFirstHighest(branches[..n]);
      }
    }
  }

  /**
   A union of several options gives the node the keys of the weightiest branch that it lacks or has as null,
   and a note of the types of all of them in its description.
   */
  lemma ManyOptionsMean(ctx: Context, m: Fields, key: string, i: nat, visiting: set<string>, depth: nat)
    requires depth <= 24 && IsUnion(m, key)
    requires |Branches(ctx, Get(m, key).AsSlice(), visiting, depth)| > 1
    requires IsBest(Branches(ctx, Get(m, key).AsSlice(), visiting, depth), i)
    ensures var branches, own := Branches(ctx, Get(m, key).AsSlice(), visiting, depth), Own(m, key);
      var best := branches[i];
      var filled: Fields := map k | k in own.Keys + best.Keys ::
        if k in own && (own[k] != Null || k !in best) then own[k] else best[k];
      var note := Str(TrimSpace(Get(filled, "description").AsString() + " [Accepts: " + Accepted(branches) + "]"));
      Clean(ctx, m, visiting, depth) == Clean(ctx, filled["description" := note], visiting, depth)
  {
    hide Clean, Branches, TrimSpace, IsBest, Own;
    var branches, own := Branches(ctx, Get(m, key).AsSlice(), visiting, depth), Own(m, key);
    UnionIsMerged(ctx, m, key, visiting, depth);
    BestIsThere(branches, i);
    BestWeighsMost(branches, i);
    TypesAreAccepted(branches);
    var best := branches[i];
    var filled: Fields := map k | k in own.Keys + best.Keys ::
      if k in own && (own[k] != Null || k !in best) then own[k] else best[k];
    assert MergeNull(own, best) == filled;
    NoteIsJoined(Get(filled, "description").AsString(), Accepted(branches));
  }

  lemma NoteIsJoined(description: string, types: string)
    ensures description + (" [Accepts: " + types + "]") == description + " [Accepts: " + types + "]"
  {
  }

  lemma BestIsThere(branches: seq<Fields>, i: nat)
    requires IsBest(branches, i)
    ensures i < |branches|
  {
  }

  // ---- Constants and constraints of any node -----------------------------------------------

  /** The node before constants, whatever it refers to, unites and joins. */
  function Assembled(ctx: Context, m: Fields, visiting: set<string>, depth: nat): Fields
    requires depth <= MAX_DEPTH
  {
    var united := WithUnion(ctx, WithUnion(ctx, WithRef(ctx, m, visiting, depth), "anyOf", visiting, depth), "oneOf",
      visiting, depth);
    WithAllOf(ctx, WithTypeList(united), visiting, depth)
  }

  lemma AssembledOutputs(ctx: Context, m: Fields, visiting: set<string>, depth: nat)
    requires depth <= MAX_DEPTH
    ensures Outputs(ctx, Assembled(ctx, m, visiting, depth), Clean(ctx, m, visiting, depth), visiting, depth)
  {
    hide LastSteps, Finishes, Outputs, AfterAllOf, WithAllOf, WithTypeList, WithUnion, WithRef, Clean;
    var j := Assembled(ctx, m, visiting, depth);
    var referred := WithRef(ctx, m, visiting, depth);
    var united := WithUnion(ctx, WithUnion(ctx, referred, "anyOf", visiting, depth), "oneOf", visiting, depth);
    assert AfterAllOf(ctx, j) == AfterUnions(ctx, united, visiting, depth) == AfterRef(ctx, referred, visiting, depth);
    LastStepsByFields(ctx, j);
    OutputFinishes(ctx, m, visiting, depth);
    StepsThenOutput(ctx, j, AfterAllOf(ctx, j), Clean(ctx, m, visiting, depth), visiting, depth);
  }

  /** The key is there in both nodes with the same value, or in neither. */
  predicate SameAt(a: Fields, b: Fields, k: string) {
    (k in a <==> k in b) && (k in a ==> a[k] == b[k])
  }

  lemma SurvivesReference(ctx: Context, m: Fields, k: string, visiting: set<string>, depth: nat)
    requires depth <= MAX_DEPTH && k !in ALLOWED && k != "$ref"
    ensures SameAt(WithRef(ctx, m, visiting, depth), m, k)
  {
    hide Clean, Target, ALLOWED;
    AllowedNames();
    var ref := Get(m, "$ref").AsString();
    if Target(ctx, ref).Obj? {
      CleanKeysAreAllowed(ctx, Target(ctx, ref).fields, visiting + {ref}, depth + 1);
    }
  }

  lemma AllowedNames()
    ensures "type" in ALLOWED && "nullable" in ALLOWED && "description" in ALLOWED && "enum" in ALLOWED
  {
  }

  lemma SurvivesMerging(m: Fields, branches: seq<Fields>, k: string)
    requires k !in ALLOWED && forall b <- branches :: b.Keys <= ALLOWED
    ensures SameAt(MergeBranches(m, branches), m, k)
  {
    hide Best, TypesOf, TrimSpace, ALLOWED;
    AllowedNames();
    if |branches| > 1 {
      var i := BestIsFirstHighest(branches);
      assert branches[i] in branches;
      assert k !in branches[i];
    } else if |branches| == 1 {
      assert branches[0] in branches;
    }
  }

  lemma SurvivesUnion(ctx: Context, m: Fields, key: string, k: string, visiting: set<string>, depth: nat)
    requires depth <= MAX_DEPTH && k !in ALLOWED && k != key
    ensures SameAt(WithUnion(ctx, m, key, visiting, depth), m, k)
  {
    hide Clean, CleanOptions, MergeBranches, Branches, ALLOWED;
    AllowedNames();
    var options := Get(m, key).AsSlice();
    OptionsAreBranches(ctx, options, visiting, depth);
    BranchesAreAllowed(ctx, options, visiting, depth);
    var rest := m - {key};
    SurvivesMerging(rest, CleanOptions(ctx, options, visiting, depth), k);
    SurvivesMerging(rest["nullable" := Bool(true)], CleanOptions(ctx, options, visiting, depth), k);
  }

  lemma SurvivesTypeList(m: Fields, k: string)
    requires k != "type" && k != "nullable"
    ensures SameAt(WithTypeList(m), m, k)
  {
    FirstTypeHasType(Get(m, "type").AsSlice());
  }

  lemma {:induction false} SurvivesMembers(ctx: Context, m: Fields, all: seq<Json>, k: string, visiting: set<string>,
                                           depth: nat)
    requires depth <= MAX_DEPTH && k !in ALLOWED
    ensures SameAt(MergeAll(ctx, m, all, visiting, depth), m, k)
  {
    hide Clean, MemberValue, ALLOWED, MergeAllOf;
    if all == [] {
      MergeNothing(ctx, m, visiting, depth);
    } else {
      var n := |all| - 1;
      SurvivesMembers(ctx, m, all[..n], k, visiting, depth);
      if all[n].Obj? {
        CleanKeysAreAllowed(ctx, all[n].fields, visiting, depth + 1);
        SurvivesMember(MergeAll(ctx, m, all[..n], visiting, depth), Clean(ctx, all[n].fields, visiting, depth + 1), k);
      }
    }
  }

  lemma SurvivesMember(m: Fields, add: Fields, k: string)
    requires k !in add
    ensures SameAt(MergeAllOf(m, add), m, k)
  {
  }

  /** No step before constants touches a key that is neither one of the eight nor worked in. */
  lemma OtherKeysSurvive(ctx: Context, m: Fields, k: string, visiting: set<string>, depth: nat)
    requires depth <= MAX_DEPTH && k !in ALLOWED && k !in {"$ref", "anyOf", "oneOf", "allOf"}
    ensures SameAt(Assembled(ctx, m, visiting, depth), m, k)
  {
    hide Clean, WithRef, WithUnion, WithTypeList, MergeAll, ALLOWED;
    AllowedNames();
    var a := WithRef(ctx, m, visiting, depth);
    var b := WithUnion(ctx, a, "anyOf", visiting, depth);
    var c := WithUnion(ctx, b, "oneOf", visiting, depth);
    var d := WithTypeList(c);
    SurvivesReference(ctx, m, k, visiting, depth);
    SurvivesUnion(ctx, a, "anyOf", k, visiting, depth);
    SurvivesUnion(ctx, b, "oneOf", k, visiting, depth);
    SurvivesTypeList(c, k);
    SurvivesMembers(ctx, d - {"allOf"}, Get(d, "allOf").AsSlice(), k, visiting, depth);
  }

  /** A constant becomes the only value of the enumeration if it is a string; otherwise there is none. */
  lemma ConstMeans(ctx: Context, m: Fields, visiting: set<string>, depth: nat)
    requires depth <= 24 && "const" in m
    ensures Get(Clean(ctx, m, visiting, depth), "enum") == if m["const"].Str? then Arr([m["const"]]) else Null
  {
    hide Clean, Assembled, TypeFrom, Lists, Noted, Notes, AllowedNote;
    AssembledOutputs(ctx, m, visiting, depth);
    OtherKeysSurvive(ctx, m, "const", visiting, depth);
    var j := Assembled(ctx, m, visiting, depth);
    assert Values(j) == Arr([m["const"]]) && m["const"] in [m["const"]];
  }

  /** Every constraint that a node has is noted in its description, whatever else the node is. */
  lemma ConstraintsAreNoted(ctx: Context, m: Fields, visiting: set<string>, depth: nat)
    requires depth <= 24
    ensures exists d: Json, allowed: string ::
      Get(Clean(ctx, m, visiting, depth), "description") == Noted(d, Notes(ctx, m, NOTED) + allowed)
  {
    hide Outputs, Clean, Assembled, Noted, Notes, AllowedNote, NOTED, ALLOWED;
    AssembledOutputs(ctx, m, visiting, depth);
    var j := Assembled(ctx, m, visiting, depth);
    NotedKeysAreOthers();
    forall i | 0 <= i < |NOTED|
      ensures SameAt(j, m, NOTED[i])
    {
      OtherKeysSurvive(ctx, m, NOTED[i], visiting, depth);
    }
    SameNotes(ctx, j, m, NOTED);
    DescriptionOutput(ctx, j, Clean(ctx, m, visiting, depth), visiting, depth);
  }

  lemma DescriptionOutput(ctx: Context, j: Fields, out: Fields, visiting: set<string>, depth: nat)
    requires Outputs(ctx, j, out, visiting, depth)
    ensures Get(out, "description") == Noted(Get(j, "description"), Notes(ctx, j, NOTED) + AllowedNote(ctx, j))
  {
    hide Clean, Lists, TypeFrom, Noted, Notes, AllowedNote, Values, Mixed;
  }

  lemma NotedKeysAreOthers()
    ensures forall i | 0 <= i < |NOTED| :: NOTED[i] !in ALLOWED && NOTED[i] !in {"$ref", "anyOf", "oneOf", "allOf"}
  {
  }

  /** A schema that is no object becomes an object without properties. */
  lemma NoSchemaMeans(schema: Json, marshal: Json -> string)
    requires !schema.Obj?
    ensures CleanSchema(schema, marshal) == map["type" := Str("OBJECT"), "properties" := Obj(map[])]
  {
  }
}
