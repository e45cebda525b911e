/**
 `CleanSchema`: JSON Schema rewritten into Gemini's schema subset, as a function of the input.

 The functions leave out the limit on visited nodes; `SchemaVisits` counts them and `SchemaCleaner` has the limit.
 */
module Schemas {
  import opened Text

  /** `exact`: the number is held as its literal (`json.Number`), which `AsString` gives back. */
  datatype Json =
    | Null
    | Bool(b: bool)
    | Num(literal: string, exact: bool)
    | Str(s: string)
    | Arr(items: seq<Json>)
    | Obj(fields: map<string, Json>)
  {
    function AsString(): string {
      match this
      case Str(s) => s
      case Num(literal, true) => literal
      case _ => ""
    }

    function AsSlice(): seq<Json> {
      if Arr? then items else []
    }

    /** A nil map reads as an empty one. */
    function AsFields(): map<string, Json> {
      if Obj? then fields else map[]
    }
  }

  type Fields = map<string, Json>

  const MAX_DEPTH: nat := 24

  const ALLOWED: set<string> :=
    {"type", "description", "properties", "required", "items", "enum", "nullable", "propertyOrdering"}

  const CONSTRAINTS: seq<string> :=
    ["minimum", "maximum", "minItems", "maxItems", "minLength", "maxLength", "pattern", "format",
     "multipleOf", "exclusiveMinimum", "exclusiveMaximum"]

  /** The schema that pointers refer to, and the JSON text of a value. */
  datatype Context = Context(root: Json, marshal: Json -> string)

  function Get(m: Fields, key: string): Json {
    if key in m then m[key] else Null
  }

  function Fallback(): Fields {
    map["type" := Str("STRING"), "description" := Str("Recursive value encoded as JSON")]
  }

  function DefaultItems(): Json {
    Obj(map["type" := Str("STRING")])
  }

  // ---- JSON pointers -------------------------------------------------------------------

  function Split(s: string, at: char): (r: seq<string>)
    ensures r != []
  {
    if s == "" then [""]
    else
      var rest := Split(s[1..], at);
      if s[0] == at then [""] + rest else [[s[0]] + rest[0]] + rest[1..]
  }

  /** `strings.ReplaceAll` of a two-character text by one character. */
  function ReplacePair(s: string, a: char, b: char, with: char): string {
    if |s| < 2 then s
    else if s[0] == a && s[1] == b then [with] + ReplacePair(s[2..], a, b, with)
    else [s[0]] + ReplacePair(s[1..], a, b, with)
  }

  function Unescape(token: string): string {
    ReplacePair(ReplacePair(token, '~', '1', '/'), '~', '0', '~')
  }

  function Lookup(target: Json, tokens: seq<string>): Json
    decreases tokens
  {
    if tokens == [] then target else Lookup(Get(target.AsFields(), Unescape(tokens[0])), tokens[1..])
  }

  function Target(ctx: Context, ref: string): Json {
    Lookup(ctx.root, Split(TrimPrefix(ref, "#/"), '/'))
  }

  predicate Followed(ref: string, visiting: set<string>) {
    "#/" <= ref && ref !in visiting
  }

  // ---- Steps on the keys of one node -----------------------------------------------------

  /** Keys of `add` that `m` lacks are added. */
  function MergeMissing(m: Fields, add: Fields): Fields {
    add + m
  }

  /** Keys of `add` that `m` lacks, or has as null, are taken over. */
  function MergeNull(m: Fields, add: Fields): Fields {
    map k | k in m.Keys + add.Keys :: if k in add && Get(m, k).Null? then add[k] else m[k]
  }

  function Describe(m: Fields, note: string): Fields {
    m["description" := Str(TrimSpace(Get(m, "description").AsString() + note))]
  }

  function Score(branch: Fields): nat {
    |Get(branch, "properties").AsFields()| * 10 + if Get(branch, "items").Null? then 0 else 5
  }

  /** The first branch with the highest score. */
  function Best(branches: seq<Fields>): (best: Fields)
    requires branches != []
  {
    var n := |branches| - 1;
    if n == 0 then branches[0]
    else
      var before := Best(branches[..n]);
      if Score(branches[n]) > Score(before) then branches[n] else before
  }

  function TypesOf(branches: seq<Fields>): string
    requires branches != []
  {
    var n := |branches| - 1;
    var last := Get(branches[n], "type").AsString();
    if n == 0 then last else TypesOf(branches[..n]) + " | " + last
  }

  function MergeBranches(m: Fields, branches: seq<Fields>): Fields {
    if branches == [] then m
    else if |branches| == 1 then MergeMissing(m, branches[0])
    else Describe(MergeNull(m, Best(branches)), " [Accepts: " + TypesOf(branches) + "]")
  }

  predicate IsNullType(option: Json) {
    Get(option.AsFields(), "type").AsString() == "null"
  }

  function FirstType(types: seq<Json>): Fields {
    if types == [] then map[]
    else if types[0].AsString() == "null" then FirstType(types[1..])
    else map["type" := Str(types[0].AsString())]
  }

  /** A list of types becomes its first type other than "null", and "null" makes it nullable. */
  function WithTypeList(m: Fields): Fields {
    var types := Get(m, "type").AsSlice();
    if types == [] then m
    else
      var nullable := exists t <- types :: t.AsString() == "null";
      var rest := m - {"type"};
      (if nullable then rest["nullable" := Bool(true)] else rest) + FirstType(types)
  }

  function MemberValue(m: Fields, k: string, v: Json): Json {
    if k == "properties" then Obj(Get(m, k).AsFields() + v.AsFields())
    else if k == "required" then Arr(Get(m, k).AsSlice() + v.AsSlice())
    else if Get(m, k).Null? then v
    else Get(m, k)
  }

  /** One cleaned `allOf` member merged in: properties override, required lists append, other keys fill gaps. */
  function MergeAllOf(m: Fields, add: Fields): Fields {
    map k | k in m.Keys + add.Keys :: if k in add then MemberValue(m, k, add[k]) else m[k]
  }

  function WithConst(m: Fields): Fields {
    if "const" in m then m["enum" := Arr([m["const"]])] - {"const"} else m
  }

  function Constrained(ctx: Context, m: Fields, keys: seq<string>): Fields
    decreases keys
  {
    if keys == [] then m
    else
      var key := keys[0];
      var noted := if key in m then Describe(m, " [Constraint: " + key + "=" + ctx.marshal(m[key]) + "]") else m;
      Constrained(ctx, noted, keys[1..])
  }

  function WithEnum(ctx: Context, m: Fields): Fields {
    var values := Get(m, "enum").AsSlice();
    if values == [] || (forall v <- values :: v.Str?) then m
    else Describe(m, " [Allowed values: " + ctx.marshal(Arr(values)) + "]") - {"enum"}
  }

  /** The required names that are declared, each once. */
  function ValidRequired(required: seq<Json>, props: Fields): (valid: seq<string>) {
    if required == [] then []
    else
      var n := |required| - 1;
      var before := ValidRequired(required[..n], props);
      var name := required[n].AsString();
      if !Get(props, name).Null? && name !in before then before + [name] else before
  }

  function Strings(names: seq<string>): seq<Json> {
    seq(|names|, i requires 0 <= i < |names| => Str(names[i]))
  }

  function WithType(out: Fields): Fields {
    if !Get(out, "type").Null? then out
    else if !Get(out, "properties").Null? then out["type" := Str("OBJECT")]
    else if !Get(out, "items").Null? then out["type" := Str("ARRAY")]
    else out
  }

  function WithParts(out: Fields): Fields {
    if Get(out, "type") == Str("ARRAY") && Get(out, "items").Null? then out["items" := DefaultItems()]
    else if Get(out, "type") == Str("OBJECT") then
      (if Get(out, "properties").Null? then out["properties" := Obj(map[])] else out) - {"items"}
    else out
  }

  function WithRequired(out: Fields): Fields {
    var required := Get(out, "required").AsSlice();
    if required == [] then out
    else
      var valid := ValidRequired(required, Get(out, "properties").AsFields());
      if valid == [] then out - {"required"} else out["required" := Arr(Strings(valid))]
  }

  function Closed(out: Fields): Fields {
    WithRequired(WithParts(WithType(out)))
  }

  // ---- The recursion ---------------------------------------------------------------------

  function Left(depth: nat): nat {
    if depth <= MAX_DEPTH then MAX_DEPTH + 1 - depth else 0
  }

  function WithRef(ctx: Context, m: Fields, visiting: set<string>, depth: nat): Fields
    requires depth <= MAX_DEPTH
    decreases Left(depth), 1, 0
  {
    var ref := Get(m, "$ref").AsString();
    if ref == "" then m
    else
      var rest := m - {"$ref"};
      if Followed(ref, visiting) && Target(ctx, ref).Obj? then
        MergeMissing(rest, Clean(ctx, Target(ctx, ref).fields, visiting + {ref}, depth + 1))
      else rest["type" := Str("STRING")]
  }

  /** The cleaned options that are objects and not of type "null". */
  function CleanOptions(ctx: Context, options: seq<Json>, visiting: set<string>, depth: nat): seq<Fields>
    requires depth <= MAX_DEPTH
    decreases Left(depth), 1, |options|
  {
    if options == [] then []
    else
      var n := |options| - 1;
      var before := CleanOptions(ctx, options[..n], visiting, depth);
      if options[n].Obj? && !IsNullType(options[n]) then before + [Clean(ctx, options[n].fields, visiting, depth + 1)]
      else before
  }

  function WithUnion(ctx: Context, m: Fields, key: string, visiting: set<string>, depth: nat): Fields
    requires depth <= MAX_DEPTH
    decreases Left(depth), 2, 0
  {
    var options := Get(m, key).AsSlice();
    if options == [] then m
    else
      var rest := m - {key};
      MergeBranches(if exists o <- options :: IsNullType(o) then rest["nullable" := Bool(true)] else rest,
                    CleanOptions(ctx, options, visiting, depth))
  }

  function MergeAll(ctx: Context, m: Fields, all: seq<Json>, visiting: set<string>, depth: nat): Fields
    requires depth <= MAX_DEPTH
    decreases Left(depth), 1, |all|
  {
    if all == [] then m
    else
      var n := |all| - 1;
      var before := MergeAll(ctx, m, all[..n], visiting, depth);
      if all[n].Obj? then MergeAllOf(before, Clean(ctx, all[n].fields, visiting, depth + 1)) else before
  }

  function WithAllOf(ctx: Context, m: Fields, visiting: set<string>, depth: nat): Fields
    requires depth <= MAX_DEPTH
    decreases Left(depth), 2, 0
  {
    var all := Get(m, "allOf").AsSlice();
    if all == [] then m else MergeAll(ctx, m - {"allOf"}, all, visiting, depth)
  }

  function CleanProperties(ctx: Context, properties: Fields, visiting: set<string>, depth: nat): Fields
    requires depth <= MAX_DEPTH
    decreases Left(depth), 1, 0
  {
    map name | name in properties && properties[name].Obj? ::
      Obj(Clean(ctx, properties[name].fields, visiting, depth + 1))
  }

  /** The allowed keys, with the type in upper case and the children cleaned. */
  function Kept(ctx: Context, m: Fields, visiting: set<string>, depth: nat): Fields
    requires depth <= MAX_DEPTH
    decreases Left(depth), 2, 0
  {
    map k | k in m && k in ALLOWED && (k == "items" ==> m[k].Obj?) ::
      if k == "type" then Str(ToUpper(m[k].AsString()))
      else if k == "properties" then Obj(CleanProperties(ctx, m[k].AsFields(), visiting, depth))
      else if k == "items" then Obj(Clean(ctx, m[k].AsFields(), visiting, depth + 1))
      else m[k]
  }

  function AfterAllOf(ctx: Context, m: Fields): Fields {
    WithEnum(ctx, Constrained(ctx, WithConst(m), CONSTRAINTS))
  }

  function AfterUnions(ctx: Context, m: Fields, visiting: set<string>, depth: nat): Fields
    requires depth <= MAX_DEPTH
    decreases Left(depth), 3, 0
  {
    AfterAllOf(ctx, WithAllOf(ctx, WithTypeList(m), visiting, depth))
  }

  function AfterRef(ctx: Context, m: Fields, visiting: set<string>, depth: nat): Fields
    requires depth <= MAX_DEPTH
    decreases Left(depth), 4, 0
  {
    var united := WithUnion(ctx, WithUnion(ctx, m, "anyOf", visiting, depth), "oneOf", visiting, depth);
    AfterUnions(ctx, united, visiting, depth)
  }

  /** A node with its references, unions, types, conjunctions and constraints worked in. */
  function Resolved(ctx: Context, m: Fields, visiting: set<string>, depth: nat): Fields
    requires depth <= MAX_DEPTH
    decreases Left(depth), 5, 0
  {
    AfterRef(ctx, WithRef(ctx, m, visiting, depth), visiting, depth)
  }

  /** The recursive `clean`. */
  function Clean(ctx: Context, m: Fields, visiting: set<string>, depth: nat): Fields
    decreases Left(depth), 6, 0
  {
    if depth > MAX_DEPTH then Fallback()
    else Closed(Kept(ctx, Resolved(ctx, m, visiting, depth), visiting, depth))
  }

  function CleanSchema(schema: Json, marshal: Json -> string): Fields {
    if schema.Obj? then Clean(Context(schema, marshal), schema.fields, {}, 0)
    else map["type" := Str("OBJECT"), "properties" := Obj(map[])]
  }
}
