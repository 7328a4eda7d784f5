/**
 Rendering preserves meaning: a rendered schema accepts exactly the values its shape
 describes at that position. Values are JSON; what a reference's target accepts is a
 parameter, the same for shape and schema. Keywords are read as in sections 6 and 10
 of JSON Schema Core and Validation 2020-12.
 */
module ContractMeaning {
  import opened Wrappers
  import opened CanonicalJson
  import opened ContractSchemas
  import opened ContractShapes

  /** What the schema behind a reference accepts. */
  type Targets = (string, Json) -> bool

  ghost predicate HasKey(v: Json, key: string) {
    v.Obj? && exists i :: 0 <= i < |v.entries| && v.entries[i].0 == key
  }

  // ------------------------------------------------------------ what a schema accepts

  ghost predicate HasType(v: Json, name: string) {
    || (name == "object" && v.Obj?) || (name == "array" && v.Arr?) || (name == "string" && v.Text?)
    || (name == "null" && v.Null?) || (name == "boolean" && v.Bool?) || (name == "integer" && v.Int?)
    || (name == "number" && v.Int?)
  }

  const PROPERTIES := "properties/"

  predicate IsOption(keyword: string) {
    "anyOf" <= keyword
  }

  /** What a node says by itself, its sub-schemas aside. */
  ghost predicate OwnKeywords(targets: Targets, s: Schema, v: Json) {
    && (s.ref.Some? ==> targets(s.ref.value, v))
    && (s.typeName.Some? ==> HasType(v, s.typeName.value))
    && (s.constant.Some? ==> v == Text(s.constant.value))
    && (s.members.Some? ==> v.Text? && v.s in s.members.value)
    && (v.Text? ==> |v.s| >= s.minLength)
    && (v.Obj? ==> forall key :: key in s.required ==> HasKey(v, key))
    && (v.Arr? && s.minItems.Some? ==> |v.items| >= s.minItems.value)
    && (v.Arr? && s.maxItems.Some? ==> |v.items| <= s.maxItems.value)
    && (v.Obj? && s.additional.IsFalse? ==>
          forall i :: 0 <= i < |v.entries| ==> HasProperty(s, v.entries[i].0))
  }

  ghost predicate HasProperty(s: Schema, key: string) {
    exists k :: 0 <= k < |s.parts| && s.parts[k].0 == PROPERTIES + key
  }

  /** A sub-schema's demand on the value its node is asked about. */
  ghost predicate PartHolds(targets: Targets, s: Schema, k: nat, v: Json)
    requires k < |s.parts|
    decreases s, 0
  {
    var keyword, part := s.parts[k].0, s.parts[k].1;
    && (forall i :: v.Obj? && 0 <= i < |v.entries| && keyword == PROPERTIES + v.entries[i].0 ==>
          Validates(targets, part, v.entries[i].1))
    && (v.Arr? && keyword == "items" ==> forall i :: 0 <= i < |v.items| ==> Validates(targets, part, v.items[i]))
    && (keyword == "allOf" ==> Validates(targets, part, v))
    && (keyword == "then" ==>
          (forall i :: 0 <= i < |s.parts| && s.parts[i].0 == "if" ==> Validates(targets, s.parts[i].1, v)) ==>
          Validates(targets, part, v))
  }

  ghost predicate Validates(targets: Targets, s: Schema, v: Json)
    decreases s, 1
  {
    && OwnKeywords(targets, s, v)
    && (forall k :: 0 <= k < |s.parts| ==> PartHolds(targets, s, k, v))
    && ((exists k :: 0 <= k < |s.parts| && IsOption(s.parts[k].0)) ==>
          exists k :: 0 <= k < |s.parts| && IsOption(s.parts[k].0) && Validates(targets, s.parts[k].1, v))
  }

  // ------------------------------------------------------------- what a shape describes

  /** The value names this kind of record. */
  ghost predicate TaggedAs(v: Json, name: string) {
    HasKey(v, "record_schema") &&
    forall i :: 0 <= i < |v.entries| && v.entries[i].0 == "record_schema" ==> v.entries[i].1 == Text(name)
  }

  /** It names some kind of record. */
  ghost predicate IsTagged(v: Json) {
    HasKey(v, "record_schema") &&
    forall i :: 0 <= i < |v.entries| && v.entries[i].0 == "record_schema" ==>
      v.entries[i].1.Text? && v.entries[i].1.s != []
  }

  ghost predicate Declares(shape: Shape, key: string)
    requires shape.Object?
  {
    exists k :: 0 <= k < |shape.properties| && shape.properties[k].0 == key
  }

  /**
   What a shape describes. Input objects hold declared properties and no others; output
   objects may hold more. Output enums admit `other`. A tagged value of a kind the
   union does not list is accepted as it is. An `anyOf` with no options asks nothing.
   */
  ghost predicate Describes(targets: Targets, shape: Shape, position: Position, v: Json) {
    match shape
    case Object(properties, required) =>
      && v.Obj? && (forall key :: key in required ==> HasKey(v, key))
      && (forall i, k :: 0 <= i < |v.entries| && 0 <= k < |properties| && properties[k].0 == v.entries[i].0 ==>
            Describes(targets, properties[k].1, position, v.entries[i].1))
      && (position.Input? ==>
            forall i :: 0 <= i < |v.entries| ==>
              Declares(shape, v.entries[i].0))
    case Array(items, minItems, maxItems) =>
      && v.Arr? && (minItems.Some? ==> |v.items| >= minItems.value) && (maxItems.Some? ==> |v.items| <= maxItems.value)
      && forall i :: 0 <= i < |v.items| ==> Describes(targets, items, position, v.items[i])
    case Enum(values) => v.Text? && (v.s in values || (position.Output? && v.s == "other"))
    case FrozenEnum(values, _) => v.Text? && v.s in values
    case AnyOf(options) =>
      options == [] || exists k :: 0 <= k < |options| && Describes(targets, options[k], position, v)
    case Vocabulary(_) => v.Text? && v.s != []
    case Const(value) => v == Text(value)
    case Scalar(schema) => Validates(targets, schema, v)
    case Nullable(inner) => v == Null || Describes(targets, inner, position, v)
    case Ref(def) => targets(DefRef(position, def), v)
    case Record(name) => targets(RecordUrn(name), v)
    case TaggedUnion(names) => IsTagged(v) && forall n :: n in names && TaggedAs(v, n) ==> targets(RecordUrn(n), v)
    case AnyJson => true
  }

  // -------------------------------------------------------------------- the renderings

  lemma {:induction false} PropertiesRendered(shape: Shape, n: nat, position: Position)
    requires shape.Object? && n <= |shape.properties| && RenderProperties(shape, n, position).Ok?
    ensures var parts := RenderProperties(shape, n, position).value;
            |parts| == n && forall i :: 0 <= i < n ==>
              Render(shape.properties[i].1, position).Ok?
              && parts[i] == (PROPERTIES + shape.properties[i].0, Render(shape.properties[i].1, position).value)
  {
    if n > 0 { PropertiesRendered(shape, n - 1, position); }
  }

  lemma {:induction false} OptionsRendered(shape: Shape, n: nat, position: Position)
    requires shape.AnyOf? && n <= |shape.options| && RenderOptions(shape, n, position).Ok?
    ensures var parts := RenderOptions(shape, n, position).value;
            |parts| == n && forall i :: 0 <= i < n ==>
              Render(shape.options[i], position).Ok? && parts[i] == ("anyOf", Render(shape.options[i], position).value)
  {
    if n > 0 { OptionsRendered(shape, n - 1, position); }
  }

  lemma {:induction false} PropertyKeys(a: string, b: string)
    ensures PROPERTIES + a == PROPERTIES + b <==> a == b
    ensures PROPERTIES + a != "items" && PROPERTIES + a != "allOf" && PROPERTIES + a != "then"
    ensures PROPERTIES + a != "if" && !IsOption(PROPERTIES + a)
  {
    assert (PROPERTIES + a)[|PROPERTIES|..] == a && (PROPERTIES + b)[|PROPERTIES|..] == b;
    assert (PROPERTIES + a)[0] == 'p';
  }

  // ---------------------------------------------------------------------- case by case

  /** A node with only property sub-schemas. */
  lemma {:induction false} OnlyProperties(targets: Targets, s: Schema, v: Json)
    requires forall k :: 0 <= k < |s.parts| ==> exists name :: s.parts[k].0 == PROPERTIES + name
    ensures Validates(targets, s, v) <==>
            && OwnKeywords(targets, s, v)
            && forall i, k :: v.Obj? && 0 <= i < |v.entries| && 0 <= k < |s.parts|
                              && s.parts[k].0 == PROPERTIES + v.entries[i].0 ==>
                 Validates(targets, s.parts[k].1, v.entries[i].1)
  {
    forall k | 0 <= k < |s.parts|
      ensures !IsOption(s.parts[k].0)
      ensures PartHolds(targets, s, k, v) <==>
              forall i :: v.Obj? && 0 <= i < |v.entries| && s.parts[k].0 == PROPERTIES + v.entries[i].0 ==>
                Validates(targets, s.parts[k].1, v.entries[i].1)
    {
      var name :| s.parts[k].0 == PROPERTIES + name;
      PropertyKeys(name, name);
    }
  }

  lemma {:induction false} DeclaredIsRendered(shape: Shape, position: Position, key: string)
    requires shape.Object? && Render(shape, position).Ok?
    ensures Declares(shape, key) <==> HasProperty(Render(shape, position).value, key)
  {
    var parts := Render(shape, position).value.parts;
    PropertiesRendered(shape, |shape.properties|, position);
    if k :| 0 <= k < |shape.properties| && shape.properties[k].0 == key { assert parts[k].0 == PROPERTIES + key; }
    if k :| 0 <= k < |parts| && parts[k].0 == PROPERTIES + key { PropertyKeys(shape.properties[k].0, key); }
  }

  lemma {:induction false} ObjectType(v: Json)
    ensures HasType(v, "object") <==> v.Obj?
  {
    assert "object"[0] == 'o' && "string"[0] == 's' && "number"[0] == 'n';
  }

  /** What an object's own keywords ask, given what its sub-schemas are called. */
  lemma {:induction false} ObjectOwnMeans(targets: Targets, shape: Shape, position: Position, v: Json)
    requires shape.Object? && Render(shape, position).Ok?
    ensures OwnKeywords(targets, Render(shape, position).value, v) <==>
            && v.Obj? && (forall key :: key in shape.required ==> HasKey(v, key))
            && (position.Input? ==> forall i :: 0 <= i < |v.entries| ==> Declares(shape, v.entries[i].0))
  {
    ObjectType(v);
    if v.Obj? {
      forall i | 0 <= i < |v.entries|
        ensures Declares(shape, v.entries[i].0) <==> HasProperty(Render(shape, position).value, v.entries[i].0)
      {
        DeclaredIsRendered(shape, position, v.entries[i].0);
      }
    }
  }

  lemma {:induction false} ObjectMeans(targets: Targets, shape: Shape, position: Position, v: Json)
    requires shape.Object? && Render(shape, position).Ok?
    ensures Validates(targets, Render(shape, position).value, v) <==> Describes(targets, shape, position, v)
    decreases shape, 0
  {
    var s, properties := Render(shape, position).value, shape.properties;
    PropertiesRendered(shape, |properties|, position);
    OnlyProperties(targets, s, v);
    ObjectOwnMeans(targets, shape, position, v);
    forall k, name: string | 0 <= k < |properties|
      ensures s.parts[k].0 == PROPERTIES + name <==> properties[k].0 == name
    {
      PropertyKeys(properties[k].0, name);
    }
    forall i, k | v.Obj? && 0 <= i < |v.entries| && 0 <= k < |properties|
      ensures Validates(targets, s.parts[k].1, v.entries[i].1) <==>
              Describes(targets, properties[k].1, position, v.entries[i].1)
    {
      RenderingMeans(targets, properties[k].1, position, v.entries[i].1);
    }
  }

  lemma {:induction false} ArrayMeans(targets: Targets, shape: Shape, position: Position, v: Json)
    requires shape.Array? && Render(shape, position).Ok?
    ensures Validates(targets, Render(shape, position).value, v) <==> Describes(targets, shape, position, v)
    decreases shape, 0
  {
    var s := Render(shape, position).value;
    assert s.parts == [("items", Render(shape.items, position).value)];
    if v.Arr? {
      forall i | 0 <= i < |v.items|
        ensures Validates(targets, s.parts[0].1, v.items[i]) <==> Describes(targets, shape.items, position, v.items[i])
      {
        RenderingMeans(targets, shape.items, position, v.items[i]);
      }
      NoPropertyNamed("items");
      assert PartHolds(targets, s, 0, v) <==>
             forall i :: 0 <= i < |v.items| ==> Validates(targets, s.parts[0].1, v.items[i]);
    }
  }

  lemma {:induction false} NoPropertyNamed(keyword: string)
    requires keyword == [] || keyword[0] != 'p'
    ensures forall name :: keyword != PROPERTIES + name
  {
    forall name ensures keyword != PROPERTIES + name { assert (PROPERTIES + name)[0] == 'p'; }
  }

  /** A node that says nothing but its options: one of them accepts. */
  lemma {:induction false} OnlyOptions(targets: Targets, s: Schema, v: Json)
    requires s == BLANK.(parts := s.parts) && forall k :: 0 <= k < |s.parts| ==> IsOption(s.parts[k].0)
    ensures Validates(targets, s, v) <==>
            s.parts == [] || exists k :: 0 <= k < |s.parts| && Validates(targets, s.parts[k].1, v)
  {
    forall k | 0 <= k < |s.parts| ensures PartHolds(targets, s, k, v) {
      assert s.parts[k].0[0] == 'a' && s.parts[k].0[1] == 'n';
      NoPropertyNamed(s.parts[k].0);
    }
    if s.parts != [] { assert IsOption(s.parts[0].0); }
  }

  lemma {:induction false} AnyOfMeans(targets: Targets, shape: Shape, position: Position, v: Json)
    requires shape.AnyOf? && Render(shape, position).Ok?
    ensures Validates(targets, Render(shape, position).value, v) <==> Describes(targets, shape, position, v)
    decreases shape, 0
  {
    var s, options := Render(shape, position).value, shape.options;
    OptionsRendered(shape, |options|, position);
    OnlyOptions(targets, s, v);
    forall k | 0 <= k < |options|
      ensures Validates(targets, s.parts[k].1, v) <==> Describes(targets, options[k], position, v)
    {
      RenderingMeans(targets, options[k], position, v);
    }
  }

  lemma {:induction false} NullableMeans(targets: Targets, shape: Shape, position: Position, v: Json)
    requires shape.Nullable? && Render(shape, position).Ok?
    ensures Validates(targets, Render(shape, position).value, v) <==> Describes(targets, shape, position, v)
    decreases shape, 0
  {
    var s := Render(shape, position).value;
    var inner := Render(shape.inner, position).value;
    assert s.parts == [("anyOf/0", inner), ("anyOf/1", NULL_TYPE)];
    OnlyOptions(targets, s, v);
    RenderingMeans(targets, shape.inner, position, v);
    NullMeans(targets, v);
    EitherOf(targets, s, v);
  }

  lemma {:induction false} NullMeans(targets: Targets, v: Json)
    ensures Validates(targets, NULL_TYPE, v) <==> v == Null
  {
  }

  lemma {:induction false} EitherOf(targets: Targets, s: Schema, v: Json)
    requires |s.parts| == 2
    ensures (exists k :: 0 <= k < |s.parts| && Validates(targets, s.parts[k].1, v)) <==>
            Validates(targets, s.parts[0].1, v) || Validates(targets, s.parts[1].1, v)
  {
  }

  // -------------------------------------------------------------------- tagged unions

  lemma {:induction false} TagKeyword()
    ensures "properties/record_schema" == PROPERTIES + "record_schema"
    ensures !IsOption("properties/record_schema") && !IsOption("allOf")
  {
    PropertyKeys("record_schema", "record_schema");
    assert "allOf"[1] == 'l' && "anyOf"[1] == 'n';
  }

  lemma {:induction false} TagMeans(targets: Targets, v: Json)
    ensures Validates(targets, BLANK.(typeName := Some("string"), minLength := 1), v) <==> v.Text? && v.s != []
  {
  }

  lemma {:induction false} ConstMeans(targets: Targets, value: string, v: Json)
    ensures Validates(targets, BLANK.(constant := Some(value)), v) <==> v == Text(value)
  {
  }

  lemma {:induction false} RefMeans(targets: Targets, ref: string, v: Json)
    ensures Validates(targets, BLANK.(ref := Some(ref)), v) <==> targets(ref, v)
  {
  }

  /** The test of a refinement: on an object, whether it is tagged so. */
  lemma {:induction false} TestMeans(targets: Targets, name: string, v: Json)
    requires v.Obj?
    ensures Validates(targets, Refinement(name).parts[0].1, v) <==> TaggedAs(v, name)
  {
    var test := Refinement(name).parts[0].1;
    TagKeyword();
    assert test.parts == [(PROPERTIES + "record_schema", BLANK.(constant := Some(name)))];
    OnlyProperties(targets, test, v);
    forall i | 0 <= i < |v.entries|
      ensures test.parts[0].0 == PROPERTIES + v.entries[i].0 <==> v.entries[i].0 == "record_schema"
      ensures Validates(targets, test.parts[0].1, v.entries[i].1) <==> v.entries[i].1 == Text(name)
    {
      PropertyKeys("record_schema", v.entries[i].0);
      ConstMeans(targets, name, v.entries[i].1);
    }
    assert "record_schema" in test.required;
  }

  lemma {:induction false} RefinementMeans(targets: Targets, name: string, v: Json)
    requires v.Obj?
    ensures Validates(targets, Refinement(name), v) <==> (TaggedAs(v, name) ==> targets(RecordUrn(name), v))
  {
    var s := Refinement(name);
    TestMeans(targets, name, v);
    RefMeans(targets, RecordUrn(name), v);
    NoPropertyNamed("if");
    NoPropertyNamed("then");
    assert s.parts[0].0 == "if" && s.parts[1].0 == "then" && s.parts[1].1 == BLANK.(ref := Some(RecordUrn(name)));
    assert PartHolds(targets, s, 0, v);
    assert PartHolds(targets, s, 1, v) <==> (TaggedAs(v, name) ==> targets(RecordUrn(name), v));
  }

  lemma {:induction false} UnionMeans(targets: Targets, names: seq<string>, v: Json)
    ensures Validates(targets, RenderUnion(names), v) <==>
            v.Obj? && IsTagged(v) && forall n :: n in names && TaggedAs(v, n) ==> targets(RecordUrn(n), v)
  {
    if v.Obj? { UnionTag(targets, names, v); }
    if Validates(targets, RenderUnion(names), v) { UnionAsks(targets, names, v); }
    if v.Obj? && IsTagged(v) && forall n :: n in names && TaggedAs(v, n) ==> targets(RecordUrn(n), v) {
      UnionAccepts(targets, names, v);
    }
  }

  lemma {:induction false} PartOf(targets: Targets, s: Schema, k: nat, v: Json)
    requires Validates(targets, s, v) && k < |s.parts|
    ensures OwnKeywords(targets, s, v) && PartHolds(targets, s, k, v)
  {
  }

  lemma {:induction false} UnionAsks(targets: Targets, names: seq<string>, v: Json)
    requires Validates(targets, RenderUnion(names), v)
    ensures v.Obj? && IsTagged(v) && forall n :: n in names && TaggedAs(v, n) ==> targets(RecordUrn(n), v)
  {
    PartOf(targets, RenderUnion(names), 0, v);
    UnionTag(targets, names, v);
    forall n | n in names && TaggedAs(v, n) ensures targets(RecordUrn(n), v) { ListedKindAsks(targets, names, v, n); }
  }

  lemma {:induction false} ListedKindAsks(targets: Targets, names: seq<string>, v: Json, n: string)
    requires v.Obj? && Validates(targets, RenderUnion(names), v) && n in names && TaggedAs(v, n)
    ensures targets(RecordUrn(n), v)
  {
    var i :| 0 <= i < |names| && names[i] == n;
    PartOf(targets, RenderUnion(names), i + 1, v);
    RefinementHolds(targets, names, i + 1, v);
  }

  lemma {:induction false} UnionAccepts(targets: Targets, names: seq<string>, v: Json)
    requires v.Obj? && IsTagged(v) && forall n :: n in names && TaggedAs(v, n) ==> targets(RecordUrn(n), v)
    ensures Validates(targets, RenderUnion(names), v)
  {
    var s := RenderUnion(names);
    UnionTag(targets, names, v);
    forall k | 0 <= k < |s.parts| ensures PartHolds(targets, s, k, v) && !IsOption(s.parts[k].0) {
      UnionKeyword(names, k);
      if k > 0 {
        assert names[k - 1] in names;
        RefinementHolds(targets, names, k, v);
      }
    }
  }

  lemma {:induction false} RefinementHolds(targets: Targets, names: seq<string>, k: nat, v: Json)
    requires v.Obj? && 1 <= k <= |names|
    ensures PartHolds(targets, RenderUnion(names), k, v) <==>
            (TaggedAs(v, names[k - 1]) ==> targets(RecordUrn(names[k - 1]), v))
  {
    NoPropertyNamed("allOf");
    assert RenderUnion(names).parts[k] == ("allOf", Refinement(names[k - 1]));
    RefinementMeans(targets, names[k - 1], v);
  }

  lemma {:induction false} TagEntries(targets: Targets, s: Schema, v: Json)
    requires v.Obj? && s.parts != []
    requires s.parts[0] == (PROPERTIES + "record_schema", BLANK.(typeName := Some("string"), minLength := 1))
    ensures PartHolds(targets, s, 0, v) <==>
            forall i :: 0 <= i < |v.entries| && v.entries[i].0 == "record_schema" ==>
              v.entries[i].1.Text? && v.entries[i].1.s != []
  {
    PropertyKeys("record_schema", "");
    forall i | 0 <= i < |v.entries|
      ensures s.parts[0].0 == PROPERTIES + v.entries[i].0 <==> v.entries[i].0 == "record_schema"
      ensures Validates(targets, s.parts[0].1, v.entries[i].1) <==> v.entries[i].1.Text? && v.entries[i].1.s != []
    {
      PropertyKeys("record_schema", v.entries[i].0);
      TagMeans(targets, v.entries[i].1);
    }
  }

  /** Its envelope asks for a tag. */
  lemma {:induction false} UnionTag(targets: Targets, names: seq<string>, v: Json)
    ensures var s := RenderUnion(names);
            OwnKeywords(targets, s, v) ==> v.Obj?
    ensures var s := RenderUnion(names);
            v.Obj? ==> (OwnKeywords(targets, s, v) && PartHolds(targets, s, 0, v) <==> IsTagged(v))
  {
    var s := RenderUnion(names);
    TagKeyword();
    assert s.parts[0] == (PROPERTIES + "record_schema", BLANK.(typeName := Some("string"), minLength := 1));
    PropertyKeys("record_schema", "");
    if v.Obj? { TagEntries(targets, s, v); }
    assert "record_schema" in s.required;
  }

  lemma {:induction false} UnionKeyword(names: seq<string>, k: nat)
    requires k < |RenderUnion(names).parts|
    ensures !IsOption(RenderUnion(names).parts[k].0)
  {
    TagKeyword();
    if k > 0 { assert RenderUnion(names).parts[k].0 == "allOf"; }
  }

  // -------------------------------------------------------------------- the theorems

  /** Whatever renders accepts exactly what its shape describes there. */
  lemma {:induction false} RenderingMeans(targets: Targets, shape: Shape, position: Position, v: Json)
    requires Render(shape, position).Ok?
    ensures Validates(targets, Render(shape, position).value, v) <==> Describes(targets, shape, position, v)
    decreases shape, 1
  {
    match shape
    case Object(_, _) => ObjectMeans(targets, shape, position, v);
    case Array(_, _, _) => ArrayMeans(targets, shape, position, v);
    case AnyOf(_) => AnyOfMeans(targets, shape, position, v);
    case Nullable(_) => NullableMeans(targets, shape, position, v);
    case TaggedUnion(names) => UnionMeans(targets, names, v);
    case _ => LeafMeans(targets, shape, position, v);
  }

  lemma {:induction false} LeafMeans(targets: Targets, shape: Shape, position: Position, v: Json)
    requires Render(shape, position).Ok?
    requires !shape.Object? && !shape.Array? && !shape.AnyOf? && !shape.Nullable? && !shape.TaggedUnion?
    ensures Validates(targets, Render(shape, position).value, v) <==> Describes(targets, shape, position, v)
  {
  }

  /** Definitions that accept at least as much on output as on input, and records the same. */
  ghost predicate OutputWider(targets: Targets) {
    forall def, v :: targets(DefRef(Input, def), v) ==> targets(DefRef(Output, def), v)
  }

  /**
   What a shape admits from a caller it admits in an answer: one authored shape never
   publishes less than it takes.
   */
  lemma {:induction false} InputIsValidOutput(targets: Targets, shape: Shape, v: Json)
    requires OutputWider(targets) && Describes(targets, shape, Input, v)
    ensures Describes(targets, shape, Output, v)
    decreases shape
  {
    match shape
    case Object(properties, _) =>
      forall i, k | 0 <= i < |v.entries| && 0 <= k < |properties| && properties[k].0 == v.entries[i].0
        ensures Describes(targets, properties[k].1, Output, v.entries[i].1)
      {
        InputIsValidOutput(targets, properties[k].1, v.entries[i].1);
      }
    case Array(items, _, _) =>
      forall i | 0 <= i < |v.items| ensures Describes(targets, items, Output, v.items[i]) {
        InputIsValidOutput(targets, items, v.items[i]);
      }
    case AnyOf(options) =>
      if k :| 0 <= k < |options| && Describes(targets, options[k], Input, v) {
        InputIsValidOutput(targets, options[k], v);
      }
    case Nullable(inner) => if v != Null { InputIsValidOutput(targets, inner, v); }
    case _ =>
  }

  /** A field nobody declared: refused from a caller, and no reason to refuse an answer. */
  lemma {:induction false} UndeclaredField(targets: Targets, shape: Shape, v: Json, key: string, extra: Json)
    requires shape.Object? && v.Obj? && forall k :: 0 <= k < |shape.properties| ==> shape.properties[k].0 != key
    ensures !Describes(targets, shape, Input, Obj(v.entries + [(key, extra)]))
    ensures Describes(targets, shape, Output, v) ==> Describes(targets, shape, Output, Obj(v.entries + [(key, extra)]))
  {
    var more := Obj(v.entries + [(key, extra)]);
    assert more.entries[|v.entries|] == (key, extra);
    if Describes(targets, shape, Output, v) {
      forall k | k in shape.required ensures HasKey(more, k) {
        var i :| 0 <= i < |v.entries| && v.entries[i].0 == k;
        assert more.entries[i].0 == k;
      }
    }
  }

  // ------------------------------------------------------------ what the checks ask

  /**
   An object node passes the check on what callers send exactly when it would refuse
   one more field, not declared; and the check on answers makes sure that it would not.
   */
  lemma {:induction false} StrictnessMeans(targets: Targets, s: Schema, v: Json, key: string, extra: Json)
    requires s.typeName == Some("object") && s.ref.None? && OwnKeywords(targets, s, v) && !HasProperty(s, key)
    ensures Strict(Input)(s) <==> !OwnKeywords(targets, s, Obj(v.entries + [(key, extra)]))
    ensures Strict(Output)(s) ==> OwnKeywords(targets, s, Obj(v.entries + [(key, extra)]))
  {
    ObjectType(v);
    var more := Obj(v.entries + [(key, extra)]);
    assert more.entries[|v.entries|] == (key, extra);
    forall k | k in s.required ensures HasKey(more, k) {
      assert HasKey(v, k);
      var i :| 0 <= i < |v.entries| && v.entries[i].0 == k;
      assert more.entries[i].0 == k;
    }
    if s.additional.IsFalse? { assert !HasProperty(s, more.entries[|v.entries|].0); }
  }

  /** A closed list passes its check exactly when it accepts `other` or says why it never will. */
  lemma {:induction false} ReservingMeans(targets: Targets, s: Schema)
    requires s.members.Some? && s.ref.None? && s.constant.None? && s.minLength <= 5
    requires s.typeName == Some("string") || s.typeName.None?
    ensures ReservesOther(s) <==> s.frozenReason.Some? || OwnKeywords(targets, s, Text("other"))
  {
  }

  lemma {:induction false} MentionsSomewhere(s: string, sub: string)
    ensures Mentions(s, sub) <==> exists front, back :: s == front + sub + back
  {
    if sub <= s {
      assert s == [] + sub + s[|sub|..];
    } else if Mentions(s, sub) {
      MentionsSomewhere(s[1..], sub);
      var front, back :| s[1..] == front + sub + back;
      assert s == [s[0]] + front + sub + back;
    }
    if front, back :| s == front + sub + back { MentionedThere(front, sub, back); }
  }

  lemma {:induction false} MentionedThere(front: string, sub: string, back: string)
    ensures Mentions(front + sub + back, sub)
  {
    if front == [] {
      assert front + sub + back == sub + back;
    } else {
      MentionedThere(front[1..], sub, back);
      assert (front + sub + back)[1..] == front[1..] + sub + back;
    }
  }

  /** A reference to a record is noticed wherever it stands, and so is any that reads like one. */
  lemma {:induction false} RecordsAreNoticed(s: Schema, name: string)
    ensures s.ref == Some(RecordUrn(name)) ==> !NoRecordRef(s)
    ensures NoRecordRef(s) <==> (s.ref.Some? ==> forall front, back :: s.ref.value != front + ":record:" + back)
  {
    assert RecordUrn(name) == URN + ":record:" + name;
    MentionedThere(URN, ":record:", name);
    if s.ref.Some? { MentionsSomewhere(s.ref.value, ":record:"); }
  }
}
