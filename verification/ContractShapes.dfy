/**
 One authored shape, rendered for either side of the wire. Strictness is never
 authored: it follows from the position, at every depth, except inside a scalar,
 which is passed through as it is.
 */
module ContractShapes {
  import opened Wrappers
  import opened ContractSchemas

  datatype Shape =
    | Object(properties: seq<(string, Shape)>, required: seq<string>)
    | Array(items: Shape, minItems: Option<nat>, maxItems: Option<nat>)
    | Enum(values: seq<string>)
    | FrozenEnum(values: seq<string>, reason: string)
    | AnyOf(options: seq<Shape>)
    | Vocabulary(name: string)
    | Const(value: string)
    | Scalar(schema: Schema)
    | Nullable(inner: Shape)
    | Ref(def: string)
    | Record(name: string)
    | TaggedUnion(names: seq<string>)
    | AnyJson

  datatype RenderError = RecordInInput | UnionInInput | UnpublishedRecord

  const PUBLISHED: seq<string> :=
    ["atlas.assertion:v1", "atlas.entity:v1", "atlas.redaction:v1", "atlas.error:v1", "atlas.horizon:v1",
     "atlas.change:v1"]

  const NULL_TYPE := BLANK.(typeName := Some("null"))

  // -------------------------------------------------------------------- rendering

  function Render(shape: Shape, position: Position): Result<Schema, RenderError>
    decreases shape, 1
  {
    match shape
    case Object(properties, required) =>
      (match RenderProperties(shape, |properties|, position)
       case Err(e) => Err(e)
       case Ok(parts) =>
         Ok(BLANK.(typeName := Some("object"), parts := parts, required := required,
                   additional := if position.Input? then IsFalse else Absent)))
    case Array(items, minItems, maxItems) =>
      (match Render(items, position)
       case Err(e) => Err(e)
       case Ok(s) =>
         Ok(BLANK.(typeName := Some("array"), parts := [("items", s)], minItems := minItems, maxItems := maxItems)))
    case Enum(values) =>
      Ok(BLANK.(typeName := Some("string"), members := Some(if position.Output? then values + ["other"] else values)))
    case FrozenEnum(values, reason) =>
      Ok(BLANK.(typeName := Some("string"), members := Some(values), frozenReason := Some(reason)))
    case AnyOf(options) =>
      (match RenderOptions(shape, |options|, position)
       case Err(e) => Err(e)
       case Ok(parts) => Ok(BLANK.(parts := parts)))
    case Vocabulary(_) => Ok(BLANK.(typeName := Some("string"), minLength := 1))
    case Const(value) => Ok(BLANK.(constant := Some(value)))
    case Scalar(schema) => Ok(schema)
    case Nullable(inner) =>
      (match Render(inner, position)
       case Err(e) => Err(e)
       case Ok(s) => Ok(BLANK.(parts := [("anyOf/0", s), ("anyOf/1", NULL_TYPE)])))
    case Ref(def) => Ok(BLANK.(ref := Some(DefRef(position, def))))
    case Record(name) => if position.Input? then Err(RecordInInput) else Ok(BLANK.(ref := Some(RecordUrn(name))))
    case TaggedUnion(names) =>
      if position.Input? then Err(UnionInInput)
      else if exists n :: n in names && n !in PUBLISHED then Err(UnpublishedRecord)
      else Ok(RenderUnion(names))
    case AnyJson => Ok(BLANK)
  }

  /** The first `n` properties, in order; the first that fails to render fails the object. */
  function RenderProperties(shape: Shape, n: nat, position: Position): Result<seq<(string, Schema)>, RenderError>
    requires shape.Object? && n <= |shape.properties|
    decreases shape, 0, n
  {
    if n == 0 then Ok([])
    else
      match RenderProperties(shape, n - 1, position)
      case Err(e) => Err(e)
      case Ok(earlier) =>
        match Render(shape.properties[n - 1].1, position)
        case Err(e) => Err(e)
        case Ok(s) => Ok(earlier + [("properties/" + shape.properties[n - 1].0, s)])
  }

  function RenderOptions(shape: Shape, n: nat, position: Position): Result<seq<(string, Schema)>, RenderError>
    requires shape.AnyOf? && n <= |shape.options|
    decreases shape, 0, n
  {
    if n == 0 then Ok([])
    else
      match RenderOptions(shape, n - 1, position)
      case Err(e) => Err(e)
      case Ok(earlier) =>
        match Render(shape.options[n - 1], position)
        case Err(e) => Err(e)
        case Ok(s) => Ok(earlier + [("anyOf", s)])
  }

  /** An envelope any record satisfies, plus a conditional refinement per known kind. */
  function RenderUnion(names: seq<string>): Schema {
    var tag := BLANK.(typeName := Some("string"), minLength := 1);
    BLANK.(typeName := Some("object"), required := ["record_schema"],
           parts := [("properties/record_schema", tag)] +
                    seq(|names|, i requires 0 <= i < |names| => ("allOf", Refinement(names[i]))))
  }

  function Refinement(name: string): Schema {
    var test := BLANK.(parts := [("properties/record_schema", BLANK.(constant := Some(name)))],
                       required := ["record_schema"]);
    BLANK.(parts := [("if", test), ("then", BLANK.(ref := Some(RecordUrn(name))))])
  }

  // -------------------------------------------------------- what rendering guarantees

  /** A property of every scalar an author wrote, and of every reference name. */
  predicate Leaves(shape: Shape, scalar: Schema -> bool, name: string -> bool) {
    match shape
    case Object(properties, required) => forall i :: 0 <= i < |properties| ==> Leaves(properties[i].1, scalar, name)
    case Array(items, minItems, maxItems) => Leaves(items, scalar, name)
    case AnyOf(options) => forall i :: 0 <= i < |options| ==> Leaves(options[i], scalar, name)
    case Nullable(inner) => Leaves(inner, scalar, name)
    case Scalar(schema) => scalar(schema)
    case Ref(def) => name(def)
    case _ => true
  }

  function ObjectNode(parts: seq<(string, Schema)>, required: seq<string>, position: Position): Schema {
    BLANK.(typeName := Some("object"), parts := parts, required := required,
           additional := if position.Input? then IsFalse else Absent)
  }

  function ArrayNode(parts: seq<(string, Schema)>, minItems: Option<nat>, maxItems: Option<nat>): Schema {
    BLANK.(typeName := Some("array"), parts := parts, minItems := minItems, maxItems := maxItems)
  }

  function EnumNode(values: seq<string>, position: Position): Schema {
    BLANK.(typeName := Some("string"), members := Some(if position.Output? then values + ["other"] else values))
  }

  /** What the renderer itself emits at a position passes a check, except that a reference passes when its name does. */
  ghost predicate Passes(check: Schema -> bool, position: Position, name: string -> bool) {
    && (forall parts, required :: check(BLANK.(parts := parts, required := required)))
    && (forall parts, minItems, maxItems :: check(ArrayNode(parts, minItems, maxItems)))
    && (forall parts, required :: check(ObjectNode(parts, required, position)))
    && (forall value :: check(BLANK.(constant := Some(value))))
    && (forall values :: check(EnumNode(values, position)))
    && (forall values, reason :: check(BLANK.(typeName := Some("string"), members := Some(values),
                                              frozenReason := Some(reason))))
    && check(BLANK) && check(NULL_TYPE) && check(BLANK.(typeName := Some("string"), minLength := 1))
    && (forall def :: check(BLANK.(ref := Some(DefRef(position, def)))) <==> name(def))
    && (position.Output? ==> forall n :: check(BLANK.(ref := Some(RecordUrn(n)))))
  }

  lemma {:induction false} PropertiesPass(
    shape: Shape, n: nat, position: Position, check: Schema -> bool, name: string -> bool)
    requires shape.Object? && n <= |shape.properties| && Passes(check, position, name)
             && RenderProperties(shape, n, position).Ok?
    ensures var parts := RenderProperties(shape, n, position).value;
            |parts| == n && forall i :: 0 <= i < n ==>
              (Everywhere(parts[i].1, check) <==>
                Leaves(shape.properties[i].1, (x: Schema) => Everywhere(x, check), name))
    decreases shape, 0, n
  {
    if n > 0 {
      PropertiesPass(shape, n - 1, position, check, name);
      RenderPasses(shape.properties[n - 1].1, position, check, name);
      var parts := RenderProperties(shape, n, position).value;
      assert parts[..n - 1] == RenderProperties(shape, n - 1, position).value;
      assert forall i :: 0 <= i < n - 1 ==> parts[i] == parts[..n - 1][i];
    }
  }

  lemma {:induction false} OptionsPass(
    shape: Shape, n: nat, position: Position, check: Schema -> bool, name: string -> bool)
    requires shape.AnyOf? && n <= |shape.options| && Passes(check, position, name)
             && RenderOptions(shape, n, position).Ok?
    ensures var parts := RenderOptions(shape, n, position).value;
            |parts| == n && forall i :: 0 <= i < n ==>
              (Everywhere(parts[i].1, check) <==> Leaves(shape.options[i], (x: Schema) => Everywhere(x, check), name))
    decreases shape, 0, n
  {
    if n > 0 {
      OptionsPass(shape, n - 1, position, check, name);
      RenderPasses(shape.options[n - 1], position, check, name);
      var parts := RenderOptions(shape, n, position).value;
      assert parts[..n - 1] == RenderOptions(shape, n - 1, position).value;
      assert forall i :: 0 <= i < n - 1 ==> parts[i] == parts[..n - 1][i];
    }
  }

  /** A rendering passes a check everywhere exactly when its scalars do and its reference names do. */
  lemma {:induction false} RenderPasses(shape: Shape, position: Position, check: Schema -> bool, name: string -> bool)
    requires Passes(check, position, name) && Render(shape, position).Ok?
    ensures Everywhere(Render(shape, position).value, check) <==>
            Leaves(shape, (x: Schema) => Everywhere(x, check), name)
    decreases shape, 1
  {
    var s := Render(shape, position).value;
    match shape
    case Object(properties, required) =>
      ObjectPasses(shape, position, check, name);
    case Array(items, minItems, maxItems) =>
      RenderPasses(items, position, check, name);
      assert s == ArrayNode(s.parts, minItems, maxItems) && s.parts[0].1 == Render(items, position).value;
    case Enum(values) => assert s == EnumNode(values, position);
    case AnyOf(options) => OptionsPass(shape, |options|, position, check, name);
    case Nullable(inner) =>
      RenderPasses(inner, position, check, name);
      assert s.parts[0].1 == Render(inner, position).value && s.parts[1].1 == NULL_TYPE;
    case TaggedUnion(names) => UnionPasses(names, check, name);
    case _ =>
  }

  lemma {:induction false} ObjectPasses(shape: Shape, position: Position, check: Schema -> bool, name: string -> bool)
    requires shape.Object? && Passes(check, position, name) && Render(shape, position).Ok?
    ensures Everywhere(Render(shape, position).value, check) <==>
            Leaves(shape, (x: Schema) => Everywhere(x, check), name)
    decreases shape, 0, |shape.properties| + 1
  {
    var s := Render(shape, position).value;
    PropertiesPass(shape, |shape.properties|, position, check, name);
    assert s == ObjectNode(s.parts, shape.required, position);
  }

  lemma {:induction false} UnionPasses(names: seq<string>, check: Schema -> bool, name: string -> bool)
    requires Passes(check, Output, name)
    ensures Everywhere(RenderUnion(names), check)
  {
    var s := RenderUnion(names);
    assert s == ObjectNode(s.parts, ["record_schema"], Output);
    forall i | 0 <= i < |s.parts| ensures Everywhere(s.parts[i].1, check) {
      if i > 0 { RefinementPasses(names[i - 1], check, name); }
    }
  }

  lemma {:induction false} RefinementPasses(record: string, check: Schema -> bool, name: string -> bool)
    requires Passes(check, Output, name)
    ensures Everywhere(Refinement(record), check)
  {
    var s := Refinement(record);
    var test := s.parts[0].1;
    assert s.parts[1].1 == BLANK.(ref := Some(RecordUrn(record)));
    assert test == BLANK.(parts := test.parts, required := ["record_schema"]);
    assert test.parts[0].1 == BLANK.(constant := Some(record));
    assert Everywhere(test, check);
    assert Everywhere(s.parts[1].1, check);
  }

  // ------------------------------------------------------------------ the theorems

  /** Every object at every depth has the strictness of its position, exactly when no scalar hides one that does not. */
  lemma {:induction false} RenderFixesStrictness(shape: Shape, position: Position)
    requires Render(shape, position).Ok?
    ensures Everywhere(Render(shape, position).value, Strict(position)) <==>
            Leaves(shape, (x: Schema) => Everywhere(x, Strict(position)), (def: string) => true)
  {
    RenderPasses(shape, position, Strict(position), (def: string) => true);
  }

  /** A definition whose reference does not read like a record's. */
  predicate PlainName(def: string) {
    !Mentions(DefRef(Input, def), ":record:")
  }

  /** An input rendering references no record, exactly when no scalar does and no definition is named like one. */
  lemma {:induction false} InputNamesNoRecord(shape: Shape)
    requires Render(shape, Input).Ok?
    ensures Everywhere(Render(shape, Input).value, NoRecordRef) <==>
            Leaves(shape, (x: Schema) => Everywhere(x, NoRecordRef), PlainName)
  {
    RenderPasses(shape, Input, NoRecordRef, PlainName);
  }

  /** In an output rendering every enum reserves `other` or says why not, exactly when every scalar's does. */
  lemma {:induction false} OutputEnumsReserveOther(shape: Shape)
    requires Render(shape, Output).Ok?
    ensures Everywhere(Render(shape, Output).value, ReservesOther) <==>
            Leaves(shape, (x: Schema) => Everywhere(x, ReservesOther), (def: string) => true)
  {
    RenderPasses(shape, Output, ReservesOther, (def: string) => true);
  }

  /** Nothing in the shape is out of place: records and unions only on output, and unions of published kinds. */
  predicate InPlace(shape: Shape, position: Position) {
    match shape
    case Object(properties, required) => forall i :: 0 <= i < |properties| ==> InPlace(properties[i].1, position)
    case Array(items, minItems, maxItems) => InPlace(items, position)
    case AnyOf(options) => forall i :: 0 <= i < |options| ==> InPlace(options[i], position)
    case Nullable(inner) => InPlace(inner, position)
    case Record(_) => position.Output?
    case TaggedUnion(names) => position.Output? && forall n :: n in names ==> n in PUBLISHED
    case _ => true
  }

  /** A refusal names what was out of place. */
  predicate Fitting(e: RenderError, position: Position) {
    e.UnpublishedRecord? <==> position.Output?
  }

  lemma {:induction false} PropertiesInPlace(shape: Shape, n: nat, position: Position)
    requires shape.Object? && n <= |shape.properties|
    ensures var r := RenderProperties(shape, n, position);
            && (r.Ok? <==> forall i :: 0 <= i < n ==> InPlace(shape.properties[i].1, position))
            && (r.Err? ==> Fitting(r.error, position))
    decreases shape, 0, n
  {
    if n > 0 {
      PropertiesInPlace(shape, n - 1, position);
      RendersWhatIsInPlace(shape.properties[n - 1].1, position);
    }
  }

  lemma {:induction false} OptionsInPlace(shape: Shape, n: nat, position: Position)
    requires shape.AnyOf? && n <= |shape.options|
    ensures var r := RenderOptions(shape, n, position);
            && (r.Ok? <==> forall i :: 0 <= i < n ==> InPlace(shape.options[i], position))
            && (r.Err? ==> Fitting(r.error, position))
    decreases shape, 0, n
  {
    if n > 0 {
      OptionsInPlace(shape, n - 1, position);
      RendersWhatIsInPlace(shape.options[n - 1], position);
    }
  }

  /**
   A shape renders exactly when nothing in it, at any depth, is out of place: for input
   no record and no union, for output no union that names an unpublished kind.
   */
  lemma {:induction false} RendersWhatIsInPlace(shape: Shape, position: Position)
    ensures var r := Render(shape, position);
            && (r.Ok? <==> InPlace(shape, position)) && (r.Err? ==> Fitting(r.error, position))
    decreases shape, 1
  {
    match shape
    case Object(properties, required) => PropertiesInPlace(shape, |properties|, position);
    case AnyOf(options) => OptionsInPlace(shape, |options|, position);
    case Array(items, minItems, maxItems) => RendersWhatIsInPlace(items, position);
    case Nullable(inner) => RendersWhatIsInPlace(inner, position);
    case _ =>
  }

  // ------------------------------------------------------------- the scalar guard

  /** What `scalar()` accepts: it looks at the schema it is handed and no further. */
  predicate ScalarAccepts(s: Schema) {
    s.typeName != Some("object") && s.additional.Absent? && forall i :: 0 <= i < |s.parts| ==>
      !("properties" <= s.parts[i].0)
  }

  /** The guard is shallow: an object one keyword down passes it, and its input rendering is open. */
  lemma {:induction false} ScalarGuardIsShallow()
    ensures var hidden := BLANK.(parts := [("anyOf/0", BLANK.(typeName := Some("object")))]);
            ScalarAccepts(hidden) && Render(Scalar(hidden), Input) == Ok(hidden) && !Everywhere(hidden, Strict(Input))
  {
    var hidden := BLANK.(parts := [("anyOf/0", BLANK.(typeName := Some("object")))]);
    assert !Everywhere(hidden.parts[0].1, Strict(Input));
  }
}
