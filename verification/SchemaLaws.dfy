/** What `CleanSchema` makes of references, wrappers and deep schemas. */
module SchemaLaws {
  import opened Text
  import opened Schemas
  import opened SchemaForms
  import opened SchemaVisits

  // ---- JSON pointers (section 4 of RFC 6901) ---------------------------------------------

  function Escape(token: string): string {
    if token == "" then ""
    else (if token[0] == '~' then "~0" else if token[0] == '/' then "~1" else [token[0]]) + Escape(token[1..])
  }

  /** The token with only its tildes escaped. */
  function EscapeTildes(token: string): string {
    if token == "" then "" else (if token[0] == '~' then "~0" else [token[0]]) + EscapeTildes(token[1..])
  }

  lemma PairIsReplaced(rest: string, a: char, b: char, with: char)
    ensures ReplacePair([a, b] + rest, a, b, with) == [with] + ReplacePair(rest, a, b, with)
  {
    assert ([a, b] + rest)[2..] == rest;
  }

  lemma OtherIsKept(c: char, rest: string, a: char, b: char, with: char)
    requires c != a || rest == "" || rest[0] != b
    ensures ReplacePair([c] + rest, a, b, with) == [c] + ReplacePair(rest, a, b, with)
  {
    assert ([c] + rest)[1..] == rest;
  }

  lemma {:induction false} SlashesAreUnescaped(token: string)
    ensures ReplacePair(Escape(token), '~', '1', '/') == EscapeTildes(token)
  {
    if token != "" {
      var rest := Escape(token[1..]);
      SlashesAreUnescaped(token[1..]);
      if token[0] == '~' {
        OtherIsKept('~', "0" + rest, '~', '1', '/');
        OtherIsKept('0', rest, '~', '1', '/');
        assert "~0" + rest == ['~'] + ("0" + rest);
        assert "~0" + EscapeTildes(token[1..]) == ['~'] + (['0'] + EscapeTildes(token[1..]));
      } else if token[0] == '/' {
        PairIsReplaced(rest, '~', '1', '/');
        assert "~1" + rest == ['~', '1'] + rest;
      } else {
        OtherIsKept(token[0], rest, '~', '1', '/');
      }
    }
  }

  lemma {:induction false} TildesAreUnescaped(token: string)
    ensures ReplacePair(EscapeTildes(token), '~', '0', '~') == token
  {
    if token != "" {
      var rest := EscapeTildes(token[1..]);
      TildesAreUnescaped(token[1..]);
      assert token == [token[0]] + token[1..];
      if token[0] == '~' {
        PairIsReplaced(rest, '~', '0', '~');
        assert "~0" + rest == ['~', '0'] + rest;
      } else {
        OtherIsKept(token[0], rest, '~', '0', '~');
      }
    }
  }

  lemma UnescapeInvertsEscape(token: string)
    ensures Unescape(Escape(token)) == token
  {
    SlashesAreUnescaped(token);
    TildesAreUnescaped(token);
  }

  lemma {:induction false} EscapedHasNoSlash(token: string)
    ensures '/' !in Escape(token)
  {
    if token != "" {
      EscapedHasNoSlash(token[1..]);
    }
  }

  /** Escaped tokens with '/' between them. */
  function Pointer(tokens: seq<string>): string
    requires tokens != []
  {
    if |tokens| == 1 then Escape(tokens[0]) else Escape(tokens[0]) + "/" + Pointer(tokens[1..])
  }

  lemma {:induction false} SplitAtFirst(head: string, tail: string, at: char)
    requires at !in head
    ensures Split(head, at) == [head]
    ensures Split(head + [at] + tail, at) == [head] + Split(tail, at)
  {
    if head == "" {
      assert head + [at] + tail == [at] + tail && ([at] + tail)[1..] == tail;
    } else {
      var rest := head[1..];
      assert head == [head[0]] + rest;
      SplitAtFirst(rest, tail, at);
      assert (head + [at] + tail)[1..] == rest + [at] + tail;
      assert [[head[0]] + rest] + Split(tail, at) == [head] + Split(tail, at);
      assert ([rest] + Split(tail, at))[1..] == Split(tail, at);
    }
  }

  /** The value that the tokens lead to through object members. */
  function Descend(target: Json, tokens: seq<string>): Json
    decreases tokens
  {
    if tokens == [] then target else Descend(Get(target.AsFields(), tokens[0]), tokens[1..])
  }

  /** A pointer written with escaped tokens finds the value those tokens lead to. */
  lemma {:induction false} PointerFinds(target: Json, tokens: seq<string>)
    requires tokens != []
    ensures Lookup(target, Split(Pointer(tokens), '/')) == Descend(target, tokens)
    decreases tokens
  {
    var head := Escape(tokens[0]);
    EscapedHasNoSlash(tokens[0]);
    UnescapeInvertsEscape(tokens[0]);
    if |tokens| == 1 {
      SplitAtFirst(head, "", '/');
      assert [head][1..] == [] && tokens[1..] == [];
    } else {
      var tail := Pointer(tokens[1..]);
      SplitAtFirst(head, tail, '/');
      assert ([head] + Split(tail, '/'))[1..] == Split(tail, '/');
      PointerFinds(Get(target.AsFields(), tokens[0]), tokens[1..]);
    }
  }

  // ---- How deep an output goes -------------------------------------------------------------

  /** At depth 25 an output has only the depth limit's replacement and default items. */
  ghost predicate Ends(j: Json, depth: nat)
    decreases j, 1
  {
    if depth > MAX_DEPTH then j == Obj(Fallback()) || j == DefaultItems()
    else
      j.Obj?
      && ("properties" in j.fields ==> EndsAll(j.fields["properties"], depth + 1))
      && ("items" in j.fields ==> Ends(j.fields["items"], depth + 1))
  }

  ghost predicate EndsAll(properties: Json, depth: nat)
    decreases properties, 0
  {
    properties.Obj? && forall name <- properties.fields :: Ends(properties.fields[name], depth)
  }

  lemma ClosingKeepsChildren(out: Fields)
    ensures var f := Closed(out);
      && ("properties" in f ==> f["properties"] == Get(out, "properties") || f["properties"] == Obj(map[]))
      && ("items" in f ==> f["items"] == Get(out, "items") || f["items"] == DefaultItems())
  {
    RequiredIsFiltered(WithParts(WithType(out)));
    hide WithRequired;
  }

  lemma LeavesEnd(depth: nat)
    ensures Ends(DefaultItems(), depth) && Ends(Obj(Fallback()), depth) && EndsAll(Obj(map[]), depth)
  {
  }

  lemma EndsFromParts(f: Fields, depth: nat)
    requires depth <= MAX_DEPTH
    requires "properties" in f ==> EndsAll(f["properties"], depth + 1)
    requires "items" in f ==> Ends(f["items"], depth + 1)
    ensures Ends(Obj(f), depth)
  {
  }

  lemma {:induction false} CleanEnds(ctx: Context, m: Fields, visiting: set<string>, depth: nat)
    ensures Ends(Obj(Clean(ctx, m, visiting, depth)), depth)
    decreases Left(depth), 1
  {
    hide Ends, EndsAll, Closed, Resolved;
    LeavesEnd(depth);
    LeavesEnd(depth + 1);
    if depth > MAX_DEPTH {
      CleanAtTheLimit(ctx, m, visiting, depth);
    } else {
      var r := Resolved(ctx, m, visiting, depth);
      var kept := Kept(ctx, r, visiting, depth);
      hide Clean, CleanProperties;
      if "properties" in kept {
        PropertiesEnd(ctx, r["properties"].AsFields(), visiting, depth);
      }
      if "items" in kept {
        CleanEnds(ctx, r["items"].AsFields(), visiting, depth + 1);
      }
      ClosingKeepsChildren(kept);
      CleanIsClosed(ctx, m, visiting, depth);
      ClosedKeys(kept);
      EndsFromParts(Closed(kept), depth);
    }
  }

  lemma ClosedKeys(out: Fields)
    ensures var f := Closed(out);
      && ("properties" in f && f["properties"] != Obj(map[]) && out.Keys <= ALLOWED ==>
           f["properties"] == Get(out, "properties"))
      && ("properties" in f && "properties" !in out ==> f["properties"] == Obj(map[]))
      && ("items" in f && "items" !in out ==> f["items"] == DefaultItems())
  {
    hide WithRequired;
    RequiredIsFiltered(WithParts(WithType(out)));
  }

  lemma {:induction false} PropertiesEnd(ctx: Context, properties: Fields, visiting: set<string>, depth: nat)
    requires depth <= MAX_DEPTH
    ensures EndsAll(Obj(CleanProperties(ctx, properties, visiting, depth)), depth + 1)
    decreases Left(depth), 0
  {
    hide Ends, Clean;
    forall name | name in properties && properties[name].Obj?
      ensures Ends(Obj(Clean(ctx, properties[name].fields, visiting, depth + 1)), depth + 1)
    {
      CleanEnds(ctx, properties[name].fields, visiting, depth + 1);
    }
  }

  /** What was cleaned one level further down has nothing left at the limit. */
  lemma {:induction false} NearerBottomsOut(j: Json, depth: nat)
    requires Form(j) && Ends(j, depth + 1) && depth <= MAX_DEPTH
    ensures BottomsOut(j, depth)
    decreases Left(depth), 1
  {
    hide Form, FormAll, Shaped, BottomsOut, BottomsOutAll;
    FormParts(j);
    BottomsOutParts(j, depth);
    if depth < MAX_DEPTH {
      if "properties" in j.fields {
        NearerAllBottomOut(j.fields["properties"], depth + 1);
      }
      if "items" in j.fields {
        NearerBottomsOut(j.fields["items"], depth + 1);
      }
    }
  }

  lemma {:induction false} NearerAllBottomOut(properties: Json, depth: nat)
    requires FormAll(properties) && EndsAll(properties, depth + 1) && depth <= MAX_DEPTH
    ensures BottomsOutAll(properties, depth)
    decreases Left(depth), 2
  {
    hide Form, Ends, BottomsOut;
    FormAllAreObjects(properties);
    forall name <- properties.fields
      ensures BottomsOut(properties.fields[name], depth)
    {
      NearerBottomsOut(properties.fields[name], depth);
    }
  }

  // ---- Wrappers are transparent ------------------------------------------------------------

  /** A cleaned node is not changed by being cleaned again one level nearer to the root. */
  lemma CleanedIsFixedNearer(ctx: Context, inner: Fields, within: set<string>, visiting: set<string>, depth: nat)
    requires depth <= MAX_DEPTH
    ensures var c := Clean(ctx, inner, within, depth + 1);
      Shaped(c) && Form(Obj(c)) && BottomsOut(Obj(c), depth) && Clean(ctx, c, visiting, depth) == c
  {
    hide Form, BottomsOut, Clean, Shaped, Ends;
    var c := Clean(ctx, inner, within, depth + 1);
    CleanHasForm(ctx, inner, within, depth + 1);
    FormParts(Obj(c));
    CleanEnds(ctx, inner, within, depth + 1);
    NearerBottomsOut(Obj(c), depth);
    FormIsFixedIff(ctx, Obj(c), visiting, depth);
  }

  /** A node that resolves to a shaped node cleans as that node does. */
  lemma ResolvesToShaped(ctx: Context, m: Fields, c: Fields, visiting: set<string>, depth: nat)
    requires depth <= MAX_DEPTH && Shaped(c) && Resolved(ctx, m, visiting, depth) == c
    ensures Clean(ctx, m, visiting, depth) == Clean(ctx, c, visiting, depth)
  {
    hide Shaped, Closed, Kept, Resolved;
    ShapedIsResolved(ctx, c, visiting, depth);
  }

  function Reference(ref: string): Fields {
    map["$ref" := Str(ref)]
  }

  /** A reference that is followed cleans to what its target cleans to. */
  lemma ReferenceIsTransparent(ctx: Context, ref: string, visiting: set<string>, depth: nat)
    requires depth <= MAX_DEPTH && Followed(ref, visiting) && Target(ctx, ref).Obj?
    ensures Clean(ctx, Reference(ref), visiting, depth)
      == Clean(ctx, Target(ctx, ref).fields, visiting + {ref}, depth + 1)
  {
    hide Shaped, Form, BottomsOut, Clean, AfterRef, Target;
    var c := Clean(ctx, Target(ctx, ref).fields, visiting + {ref}, depth + 1);
    CleanedIsFixedNearer(ctx, Target(ctx, ref).fields, visiting + {ref}, visiting, depth);
    assert Reference(ref) - {"$ref"} == map[];
    assert MergeMissing(map[], c) == c;
    ShapedIsResolved(ctx, c, visiting, depth);
    ResolvesToShaped(ctx, Reference(ref), c, visiting, depth);
  }

  /** Following a reference visits its target, and then the nodes of what the target was cleaned to. */
  lemma ReferenceVisits(ctx: Context, ref: string, visiting: set<string>, depth: nat)
    requires depth <= MAX_DEPTH && Followed(ref, visiting) && Target(ctx, ref).Obj?
    ensures Visits(ctx, Reference(ref), visiting, depth)
      == Visits(ctx, Target(ctx, ref).fields, visiting + {ref}, depth + 1)
         + Count(Obj(Clean(ctx, Target(ctx, ref).fields, visiting + {ref}, depth + 1)), depth, true)
  {
    hide Shaped, Form, BottomsOut, Clean, AfterRef, Target, Visits, VisitsBelow, Count, CountBelow, RefVisits,
      UnionVisits, AllOfVisits, WithUnion, WithTypeList;
    var c := Clean(ctx, Target(ctx, ref).fields, visiting + {ref}, depth + 1);
    CleanedIsFixedNearer(ctx, Target(ctx, ref).fields, visiting + {ref}, visiting, depth);
    assert Reference(ref) - {"$ref"} == map[];
    assert MergeMissing(map[], c) == c;
    ReferenceVisitsTarget(ctx, ref, visiting, depth);
    ShapedIsResolved(ctx, c, visiting, depth);
    WorkedOutVisits(ctx, Reference(ref), c, visiting, depth);
  }

  lemma ReferenceVisitsTarget(ctx: Context, ref: string, visiting: set<string>, depth: nat)
    requires depth <= MAX_DEPTH && Followed(ref, visiting) && Target(ctx, ref).Obj?
    ensures RefVisits(ctx, Reference(ref), visiting, depth)
      == Visits(ctx, Target(ctx, ref).fields, visiting + {ref}, depth + 1)
  {
    hide Visits, Target;
  }

  /** A node that works out to a shaped node through its reference visits the nodes of that one afterwards. */
  lemma WorkedOutVisits(ctx: Context, m: Fields, c: Fields, visiting: set<string>, depth: nat)
    requires depth <= MAX_DEPTH && Form(Obj(c)) && Resolved(ctx, m, visiting, depth) == c
    requires WithRef(ctx, m, visiting, depth) == c
    ensures Visits(ctx, m, visiting, depth) == RefVisits(ctx, m, visiting, depth) + Count(Obj(c), depth, true)
  {
    hide Shaped, Form, Resolved, WithRef, WithUnion, WithTypeList, RefVisits, UnionVisits, AllOfVisits, VisitsBelow,
      CountBelow;
    FormParts(Obj(c));
    ShapedNeedsNoVisits(ctx, c, visiting, depth);
    ShapedFollowsNothing(ctx, c, visiting, depth);
    BelowVisits(ctx, c, visiting, depth);
    CountOfAll(c, depth);
    VisitsAreSplit(ctx, m, visiting, depth);
  }

  lemma VisitsAreSplit(ctx: Context, m: Fields, visiting: set<string>, depth: nat)
    requires depth <= MAX_DEPTH
    ensures Visits(ctx, m, visiting, depth)
      == 1 + VisitsBefore(ctx, m, visiting, depth)
        + VisitsBelow(ctx, Resolved(ctx, m, visiting, depth), visiting, depth)
  {
    hide VisitsBefore, VisitsBelow, Resolved;
  }

  lemma CountOfAll(f: Fields, depth: nat)
    requires depth <= MAX_DEPTH
    ensures Count(Obj(f), depth, true) == 1 + CountBelow(f, depth, true)
  {
    hide CountBelow;
  }

  lemma ShapedFollowsNothing(ctx: Context, f: Fields, visiting: set<string>, depth: nat)
    requires Shaped(f) && depth <= MAX_DEPTH
    ensures WithRef(ctx, f, visiting, depth) == f
  {
    hide Clean, RequiredIsDeclared;
    ConstraintsAreNotAllowed(f);
  }

  /** A reference to a target being visited, to no object, or outside the schema becomes a plain string. */
  lemma OtherReferenceIsString(ctx: Context, ref: string, visiting: set<string>, depth: nat)
    requires depth <= MAX_DEPTH && ref != "" && !(Followed(ref, visiting) && Target(ctx, ref).Obj?)
    ensures Clean(ctx, Reference(ref), visiting, depth) == map["type" := Str("STRING")]
  {
    hide Clean, AfterRef, Target, Form, Shaped, BottomsOut, Followed;
    var c := map["type" := Str("STRING")];
    assert (Reference(ref) - {"$ref"})["type" := Str("STRING")] == c;
    StringIsFixed(ctx, visiting, depth);
    ShapedIsResolved(ctx, c, visiting, depth);
    ResolvesToShaped(ctx, Reference(ref), c, visiting, depth);
  }

  lemma StringIsFixed(ctx: Context, visiting: set<string>, depth: nat)
    requires depth <= MAX_DEPTH
    ensures var c := map["type" := Str("STRING")]; Shaped(c) && Clean(ctx, c, visiting, depth) == c
  {
    hide Clean, Form, Shaped, BottomsOut;
    DefaultsHaveForm();
    FormParts(DefaultItems());
    BottomsOutParts(DefaultItems(), depth);
    FormIsFixedIff(ctx, DefaultItems(), visiting, depth);
  }

  function Union(key: string, options: seq<Json>): Fields {
    map[key := Arr(options)]
  }

  lemma OneOption(ctx: Context, option: Json, visiting: set<string>, depth: nat)
    requires depth <= MAX_DEPTH && option.Obj? && !IsNullType(option)
    ensures CleanOptions(ctx, [option], visiting, depth) == [Clean(ctx, option.fields, visiting, depth + 1)]
    ensures !exists o <- [option] :: IsNullType(o)
  {
    hide Clean, IsNullType;
    assert [option][..0] == [];
  }

  lemma SingleUnionMerges(ctx: Context, key: string, option: Json, visiting: set<string>, depth: nat)
    requires depth <= MAX_DEPTH && option.Obj? && !IsNullType(option)
    ensures WithUnion(ctx, Union(key, [option]), key, visiting, depth) == Clean(ctx, option.fields, visiting, depth + 1)
  {
    hide Clean, IsNullType, CleanOptions;
    OneOption(ctx, option, visiting, depth);
    assert Union(key, [option]) - {key} == map[];
    assert MergeMissing(map[], Clean(ctx, option.fields, visiting, depth + 1))
      == Clean(ctx, option.fields, visiting, depth + 1);
  }

  lemma OtherKeysAreAbsent(ctx: Context, key: string, option: Json, visiting: set<string>, depth: nat)
    requires depth <= MAX_DEPTH && (key == "anyOf" || key == "oneOf")
    ensures WithRef(ctx, Union(key, [option]), visiting, depth) == Union(key, [option])
    ensures key == "oneOf" ==> WithUnion(ctx, Union(key, [option]), "anyOf", visiting, depth) == Union(key, [option])
  {
    hide Clean, CleanOptions;
  }

  /** A union of one option cleans to what the option cleans to. */
  lemma SingleUnionIsTransparent(ctx: Context, key: string, option: Json, visiting: set<string>, depth: nat)
    requires depth <= MAX_DEPTH && (key == "anyOf" || key == "oneOf") && option.Obj? && !IsNullType(option)
    ensures Clean(ctx, Union(key, [option]), visiting, depth) == Clean(ctx, option.fields, visiting, depth + 1)
  {
    hide Shaped, Form, BottomsOut, Clean, IsNullType, AfterUnions, WithUnion, WithRef, Union;
    var c := Clean(ctx, option.fields, visiting, depth + 1);
    CleanedIsFixedNearer(ctx, option.fields, visiting, visiting, depth);
    SingleUnionMerges(ctx, key, option, visiting, depth);
    OtherKeysAreAbsent(ctx, key, option, visiting, depth);
    ShapedIsResolved(ctx, c, visiting, depth);
    ResolvesToShaped(ctx, Union(key, [option]), c, visiting, depth);
  }

  lemma UnionVisitsItsOption(ctx: Context, key: string, option: Json, visiting: set<string>, depth: nat)
    requires depth <= MAX_DEPTH && (key == "anyOf" || key == "oneOf") && option.Obj? && !IsNullType(option)
    ensures RefVisits(ctx, Union(key, [option]), visiting, depth) == 0
    ensures UnionVisits(ctx, Union(key, [option]), key, visiting, depth)
      == Visits(ctx, option.fields, visiting, depth + 1)
    ensures key == "oneOf" ==> UnionVisits(ctx, Union(key, [option]), "anyOf", visiting, depth) == 0
  {
    hide Visits, IsNullType;
    assert [option][..0] == [];
    assert OptionVisits(ctx, [], visiting, depth) == 0;
  }

  lemma ShapedVisitsNothing(ctx: Context, f: Fields, visiting: set<string>, depth: nat)
    requires Shaped(f) && depth <= MAX_DEPTH
    ensures UnionVisits(ctx, f, "oneOf", visiting, depth) == 0
    ensures AllOfVisits(ctx, WithTypeList(f), visiting, depth) == 0
    ensures WithUnion(ctx, f, "oneOf", visiting, depth) == f
  {
    hide Visits, Clean, CleanOptions, RequiredIsDeclared;
    ConstraintsAreNotAllowed(f);
    assert WithTypeList(f) == f && Get(f, "oneOf") == Null && Get(f, "allOf") == Null;
    assert OptionVisits(ctx, [], visiting, depth) == 0 && MemberVisits(ctx, [], visiting, depth) == 0;
  }

  /** Merging a union of one option visits the option, and then the nodes of what it was cleaned to. */
  lemma SingleUnionVisits(ctx: Context, key: string, option: Json, visiting: set<string>, depth: nat)
    requires depth <= MAX_DEPTH && (key == "anyOf" || key == "oneOf") && option.Obj? && !IsNullType(option)
    ensures Visits(ctx, Union(key, [option]), visiting, depth)
      == Visits(ctx, option.fields, visiting, depth + 1)
        + Count(Obj(Clean(ctx, option.fields, visiting, depth + 1)), depth, true)
  {
    hide Shaped, Form, BottomsOut, Clean, IsNullType, AfterUnions, WithUnion, WithRef, Union, WithTypeList,
      Visits, VisitsBelow, Count, CountBelow, RefVisits, UnionVisits, AllOfVisits;
    var c := Clean(ctx, option.fields, visiting, depth + 1);
    CleanedIsFixedNearer(ctx, option.fields, visiting, visiting, depth);
    SingleUnionMerges(ctx, key, option, visiting, depth);
    OtherKeysAreAbsent(ctx, key, option, visiting, depth);
    UnionVisitsItsOption(ctx, key, option, visiting, depth);
    ShapedVisitsNothing(ctx, c, visiting, depth);
    ShapedIsResolved(ctx, c, visiting, depth);
    BelowVisits(ctx, c, visiting, depth);
    CountOfAll(c, depth);
    VisitsAreSplit(ctx, Union(key, [option]), visiting, depth);
  }

  /** Of several branches, the one kept is the first with the highest score. */
  lemma {:induction false} BestIsFirstHighest(branches: seq<Fields>) returns (i: nat)
    requires branches != []
    ensures i < |branches| && Best(branches) == branches[i]
    ensures forall j | 0 <= j < |branches| :: Score(branches[j]) <= Score(branches[i])
    ensures forall j | 0 <= j < i :: Score(branches[j]) < Score(branches[i])
  {
    hide Score;
    var n := |branches| - 1;
    if n == 0 {
      i := 0;
    } else {
      i := BestIsFirstHighest(branches[..n]);
      assert forall j | 0 <= j < n :: branches[..n][j] == branches[j];
      if Score(branches[n]) > Score(branches[i]) {
        i := n;
      }
    }
  }

  // ---- Where idempotence holds and fails ---------------------------------------------------

  /** No node at depth 25. */
  ghost predicate Shallow(j: Json, depth: nat)
    decreases j, 1
  {
    depth <= MAX_DEPTH && j.Obj?
    && ("properties" in j.fields ==> ShallowAll(j.fields["properties"], depth + 1))
    && ("items" in j.fields ==> Shallow(j.fields["items"], depth + 1))
  }

  ghost predicate ShallowAll(properties: Json, depth: nat)
    decreases properties, 0
  {
    properties.Obj? && forall name <- properties.fields :: Shallow(properties.fields[name], depth)
  }

  lemma {:induction false} ShallowBottomsOut(j: Json, depth: nat)
    requires Shallow(j, depth)
    ensures BottomsOut(j, depth)
    decreases Left(depth), 1
  {
    hide BottomsOut, BottomsOutAll;
    BottomsOutParts(j, depth);
    if "properties" in j.fields {
      ShallowAllBottomOut(j.fields["properties"], depth + 1);
    }
    if "items" in j.fields {
      ShallowIsWithin(j.fields["items"], depth + 1);
      ShallowBottomsOut(j.fields["items"], depth + 1);
    }
  }

  lemma ShallowIsWithin(j: Json, depth: nat)
    requires Shallow(j, depth)
    ensures depth <= MAX_DEPTH
  {
  }

  lemma {:induction false} ShallowAllBottomOut(properties: Json, depth: nat)
    requires ShallowAll(properties, depth)
    ensures BottomsOutAll(properties, depth)
    decreases Left(depth), 2
  {
    hide Shallow, BottomsOut;
    forall name <- properties.fields
      ensures BottomsOut(properties.fields[name], depth)
    {
      ShallowBottomsOut(properties.fields[name], depth);
    }
  }

  /**
   A cleaned schema that does not reach the depth limit, and has at most 4096 nodes, is fixed: all of
   it is visited.
   */
  lemma ShallowIsFixed(j: Json, marshal: Json -> string)
    requires Form(j) && Shallow(j, 0) && Count(j, 0, true) <= MAX_NODES
    ensures VisitsOf(j, marshal) <= MAX_NODES && j.Obj? && CleanSchema(j, marshal) == j.fields
  {
    hide Form, CleanSchema, Shallow, BottomsOut, Count, VisitsOf;
    ShallowBottomsOut(j, 0);
    FormIsVisited(j, marshal);
  }

  /** Arrays of arrays, n levels below the outermost. */
  function Nested(n: nat): Json {
    if n == 0 then Obj(map["type" := Str("array")]) else Obj(map["type" := Str("array"), "items" := Nested(n - 1)])
  }

  function NestedClean(n: nat): Json {
    Obj(map["type" := Str("ARRAY"), "items" := if n == 0 then DefaultItems() else NestedClean(n - 1)])
  }

  lemma BareResolves(ctx: Context, m: Fields, visiting: set<string>, depth: nat)
    requires depth <= MAX_DEPTH && m.Keys <= {"type", "items", "properties"} && Get(m, "type").Str?
    ensures Resolved(ctx, m, visiting, depth) == m
  {
    hide Clean, CleanOptions, MergeAll, Constrained;
    ConstraintsAreNotAllowed(m);
    NoConstraints(ctx, m, CONSTRAINTS);
    assert WithRef(ctx, m, visiting, depth) == m;
    assert WithUnion(ctx, m, "anyOf", visiting, depth) == m && WithUnion(ctx, m, "oneOf", visiting, depth) == m;
    assert WithTypeList(m) == m && WithAllOf(ctx, m, visiting, depth) == m && WithConst(m) == m
      && WithEnum(ctx, m) == m;
    assert AfterAllOf(ctx, m) == m;
    assert AfterUnions(ctx, m, visiting, depth) == m;
    assert AfterRef(ctx, m, visiting, depth) == m;
  }

  lemma ArrayIsClosed(out: Fields)
    requires out.Keys <= {"type", "items"} && Get(out, "type") == Str("ARRAY")
    ensures Closed(out) == if Get(out, "items").Null? then out["items" := DefaultItems()] else out
  {
    assert WithType(out) == out;
  }

  lemma NestedIsKept(ctx: Context, n: nat, visiting: set<string>, depth: nat)
    requires depth <= MAX_DEPTH
    requires n > 0 ==> Obj(Clean(ctx, Nested(n - 1).fields, visiting, depth + 1)) == NestedClean(n - 1)
    ensures Closed(Kept(ctx, Nested(n).fields, visiting, depth)) == NestedClean(n).fields
  {
    hide Closed, Clean, CleanProperties;
    assert ToUpper("array") == "ARRAY";
    var kept := Kept(ctx, Nested(n).fields, visiting, depth);
    assert kept == if n == 0 then map["type" := Str("ARRAY")]
      else map["type" := Str("ARRAY"), "items" := NestedClean(n - 1)];
    ArrayIsClosed(kept);
  }

  lemma {:induction false} NestedCleans(ctx: Context, n: nat, visiting: set<string>, depth: nat)
    requires depth + n <= MAX_DEPTH
    ensures Obj(Clean(ctx, Nested(n).fields, visiting, depth)) == NestedClean(n)
    decreases n
  {
    hide Resolved, Closed, Kept, Clean;
    var m := Nested(n).fields;
    BareResolves(ctx, m, visiting, depth);
    if n > 0 {
      NestedCleans(ctx, n - 1, visiting, depth + 1);
    }
    NestedIsKept(ctx, n, visiting, depth);
    CleanIsClosed(ctx, m, visiting, depth);
  }

  lemma {:induction false} NestedDoesNotBottomOut(n: nat, depth: nat)
    requires depth + n == MAX_DEPTH
    ensures !BottomsOut(NestedClean(n), depth)
    decreases n
  {
    if n > 0 {
      NestedDoesNotBottomOut(n - 1, depth + 1);
    } else {
      assert !BottomsOut(DefaultItems(), MAX_DEPTH + 1) by {
        assert "description" in Fallback() && "description" !in DefaultItems().fields;
      }
    }
  }

  /** Twenty-five nested arrays are not fixed: the innermost one's default items lie at the depth limit. */
  lemma NestedArraysAreNotFixed(marshal: Json -> string, again: Json -> string)
    ensures CleanSchema(Obj(CleanSchema(Nested(24), marshal)), again) != CleanSchema(Nested(24), marshal)
  {
    hide BottomsOut, NestedClean;
    NestedCleans(Context(Nested(24), marshal), 24, {}, 0);
    NestedDoesNotBottomOut(24, 0);
    CleaningTwiceIsOnceIff(Nested(24), marshal, again);
  }
}
