/**
 JSON Schema documents as the contract compiler sees them: the keywords it reads,
 and every sub-schema its walk descends into. A check is a property of one node,
 required everywhere the walk goes.
 */
module ContractSchemas {
  import opened Wrappers

  datatype Position = Input | Output

  datatype Additional = Absent | IsFalse | Otherwise

  /**
   `defs` is the `$defs` map; `parts` is every other sub-schema, each under the
   keyword path that leads to it. Keywords nothing here reads are left out.
   */
  datatype Schema = Schema(
    id: Option<string>,
    ref: Option<string>,
    typeName: Option<string>,
    additional: Additional,
    members: Option<seq<string>>,
    constant: Option<string>,
    required: seq<string>,
    minLength: nat,
    minItems: Option<nat>,
    maxItems: Option<nat>,
    frozenReason: Option<string>,
    defs: seq<(string, Schema)>,
    parts: seq<(string, Schema)>)

  const BLANK := Schema(None, None, None, Absent, None, None, [], 0, None, None, None, [], [])

  const URN := "urn:living-atlas:contract:2026.08.4"

  const DEFS := "#/$defs/"

  function CommonUrn(position: Position): string {
    URN + if position.Input? then ":common:input" else ":common:output"
  }

  const RECORD_PREFIX := URN + ":record:"

  function RecordUrn(name: string): string {
    RECORD_PREFIX + name
  }

  function DefRef(position: Position, name: string): string {
    CommonUrn(position) + DEFS + name
  }

  // ---------------------------------------------------------------------- the walk

  /** A property holds of every node the walk visits. */
  predicate Everywhere(s: Schema, ok: Schema -> bool) {
    && ok(s)
    && (forall i :: 0 <= i < |s.parts| ==> Everywhere(s.parts[i].1, ok))
    && (forall i :: 0 <= i < |s.defs| ==> Everywhere(s.defs[i].1, ok))
  }

  /** The nodes the walk visits. */
  ghost predicate Within(node: Schema, s: Schema) {
    || node == s
    || (exists i :: 0 <= i < |s.parts| && Within(node, s.parts[i].1))
    || (exists i :: 0 <= i < |s.defs| && Within(node, s.defs[i].1))
  }

  lemma {:induction false} EverywhereIsEveryNode(s: Schema, ok: Schema -> bool, node: Schema)
    requires Everywhere(s, ok) && Within(node, s)
    ensures ok(node)
  {
    if i :| 0 <= i < |s.parts| && Within(node, s.parts[i].1) { EverywhereIsEveryNode(s.parts[i].1, ok, node); }
    if i :| 0 <= i < |s.defs| && Within(node, s.defs[i].1) { EverywhereIsEveryNode(s.defs[i].1, ok, node); }
  }

  lemma {:induction false} SomewhereNot(s: Schema, ok: Schema -> bool) returns (node: Schema)
    requires !Everywhere(s, ok)
    ensures Within(node, s) && !ok(node)
  {
    if !ok(s) {
      node := s;
    } else if i :| 0 <= i < |s.parts| && !Everywhere(s.parts[i].1, ok) {
      node := SomewhereNot(s.parts[i].1, ok);
    } else {
      var i :| 0 <= i < |s.defs| && !Everywhere(s.defs[i].1, ok);
      node := SomewhereNot(s.defs[i].1, ok);
    }
  }

  // --------------------------------------------------------------------- the checks

  predicate ClosedObject(node: Schema) {
    node.typeName == Some("object") ==> node.additional.IsFalse?
  }

  predicate OpenObject(node: Schema) {
    node.typeName == Some("object") ==> node.additional.Absent?
  }

  function Strict(position: Position): Schema -> bool {
    if position.Input? then ClosedObject else OpenObject
  }

  predicate Mentions(s: string, sub: string) {
    sub <= s || (s != [] && Mentions(s[1..], sub))
  }

  predicate NoRecordRef(node: Schema) {
    node.ref.Some? ==> !Mentions(node.ref.value, ":record:")
  }

  predicate ReservesOther(node: Schema) {
    node.members.Some? ==> "other" in node.members.value || node.frozenReason.Some?
  }
}
