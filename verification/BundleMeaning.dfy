/**
 Bundling preserves meaning: inside the document, every reference leads to the very
 schema it named in the library, so the document accepts exactly the values that the
 published definitions accept together, however deep references are followed.
 */
module BundleMeaning {
  import opened Wrappers
  import opened CanonicalJson
  import opened ContractSchemas
  import opened ContractBundle
  import opened ContractMeaning

  // --------------------------------------------------------------------- looking up

  /** The last of a resource's definitions with this name. */
  function DefinitionIn(resource: Schema, n: nat, name: string): Option<Schema>
    requires n <= |resource.defs|
  {
    if n == 0 then None
    else if resource.defs[n - 1].0 == name then Some(resource.defs[n - 1].1)
    else DefinitionIn(resource, n - 1, name)
  }

  /** What a reference leads to inside a document: a resource, or the definition its fragment names there. */
  function LookUp(doc: Schema, ref: string): Option<Schema> {
    match ResourceIn(doc, |doc.defs|, BeforeHash(ref))
    case None => None
    case Some(resource) =>
      if "/$defs/" <= Fragment(ref) then DefinitionIn(resource, |resource.defs|, Fragment(ref)[7..]) else Some(resource)
  }

  /** What it names in the library. */
  function Published(library: Library, ref: string): Option<Schema> {
    match ParseRef(ref)
    case Some(t) => if t in library then Some(library[t]) else None
    case None => None
  }

  lemma {:induction false} DefinitionFound(resource: Schema, n: nat, name: string, s: Schema)
    requires n <= |resource.defs| && exists i :: 0 <= i < n && resource.defs[i].0 == name
    requires forall i :: 0 <= i < n && resource.defs[i].0 == name ==> resource.defs[i].1 == s
    ensures DefinitionIn(resource, n, name) == Some(s)
  {
    if resource.defs[n - 1].0 != name { DefinitionFound(resource, n - 1, name, s); }
  }

  lemma {:induction false} SharedLeads(
    library: Library, root: Schema, l: Listing, position: Position, name: string)
    requires Publishes(library, l) && RecordsBearTheirUrns(library) && name in NamesAt(l, position) && '#' !in name
    ensures LookUp(Document(root, Embedded(library, l)), DefRef(position, name)) ==
            Some(library[SharedDef(position, name)])
  {
    var all := Embedded(library, l);
    var doc := Document(root, all);
    SharedIsEmbedded(library, l, position);
    var k :| 0 <= k < |all| && all[k].1.id == Some(CommonUrn(position));
    var j := ResourceFound(doc, |doc.defs|, CommonUrn(position), k);
    SharedParts(position, name);
    DefinitionOf(library, NamesAt(l, position), position, doc.defs[j].1, name);
  }

  /** The two halves of a reference to a shared definition. */
  lemma {:induction false} SharedParts(position: Position, name: string)
    requires '#' !in name
    ensures BeforeHash(DefRef(position, name)) == CommonUrn(position)
    ensures "/$defs/" <= Fragment(DefRef(position, name)) && Fragment(DefRef(position, name))[7..] == name
  {
    DefRefSplits(position, name);
    SplitAtHash(name, "");
    assert ("/$defs/" + name)[7..] == name;
  }

  lemma {:induction false} DefinitionOf(
    library: Library, names: seq<string>, position: Position, resource: Schema, name: string)
    requires forall n :: n in names ==> SharedDef(position, n) in library
    requires resource.defs == Contents(library, names, position) && name in names
    ensures DefinitionIn(resource, |resource.defs|, name) == Some(library[SharedDef(position, name)])
  {
    ContentsDefine(library, names, position, resource, name);
    DefinitionFound(resource, |names|, name, library[SharedDef(position, name)]);
  }

  lemma {:induction false} RecordLeads(library: Library, root: Schema, l: Listing, name: string)
    requires Publishes(library, l) && RecordsBearTheirUrns(library) && name in l.records && '#' !in name
    ensures LookUp(Document(root, Embedded(library, l)), RecordUrn(name)) == Some(library[RecordDoc(name)])
  {
    var all := Embedded(library, l);
    var doc := Document(root, all);
    RecordIsEmbedded(library, l, name);
    RecordRefSplits(name);
    SplitAtHash(name, "");
    var k :| 0 <= k < |all| && all[k].1.id == Some(RecordUrn(name));
    var j := ResourceFound(doc, |doc.defs|, RecordUrn(name), k);
  }

  /** Every reference to something needed leads, inside the document, to what it names in the library. */
  lemma {:induction false} ReferencesKeepTheirTargets(
    library: Library, root: Schema, needed: set<Target>, l: Listing, t: Target)
    requires RecordsBearTheirUrns(library) && Closed(library, needed) && Lists(l, needed)
    requires t in needed && '#' !in t.name
    ensures Publishes(library, l)
    ensures LookUp(Document(root, Embedded(library, l)), RefTo(t)) == Some(library[t])
  {
    match t
    case SharedDef(position, name) => SharedLeads(library, root, l, position, name);
    case RecordDoc(name) => RecordLeads(library, root, l, name);
  }

  // ---------------------------------------------------------------------- following

  /**
   What references accept when they are followed this deep, and everything is accepted
   past that; references within the same document have a meaning of their own.
   */
  ghost function Following(look: string -> Option<Schema>, local: Targets, depth: nat): Targets
    decreases depth
  {
    if depth == 0 then (ref, v) => true
    else
      var deeper := Following(look, local, depth - 1);
      (ref, v) =>
        if IsLocal(ref) then local(ref, v) else look(ref).Some? && Validates(deeper, look(ref).value, v)
  }

  /** Two meanings agree on every reference validation meets in a schema. */
  ghost predicate AgreeOn(a: Targets, b: Targets, s: Schema) {
    && (s.ref.Some? ==> forall v :: a(s.ref.value, v) == b(s.ref.value, v))
    && (forall k :: 0 <= k < |s.parts| ==> AgreeOn(a, b, s.parts[k].1))
  }

  /** Then they validate alike. */
  lemma {:induction false} AgreeingValidates(a: Targets, b: Targets, s: Schema, v: Json)
    requires AgreeOn(a, b, s)
    ensures Validates(a, s, v) <==> Validates(b, s, v)
    decreases s, 1
  {
    forall k | 0 <= k < |s.parts| ensures Validates(a, s.parts[k].1, v) <==> Validates(b, s.parts[k].1, v) {
      AgreeingValidates(a, b, s.parts[k].1, v);
    }
    forall k | 0 <= k < |s.parts| ensures PartHolds(a, s, k, v) <==> PartHolds(b, s, k, v) {
      AgreeingPart(a, b, s, k, v);
    }
    assert OwnKeywords(a, s, v) <==> OwnKeywords(b, s, v);
  }

  lemma {:induction false} AgreeingPart(a: Targets, b: Targets, s: Schema, k: nat, v: Json)
    requires k < |s.parts| && AgreeOn(a, b, s)
    ensures PartHolds(a, s, k, v) <==> PartHolds(b, s, k, v)
    decreases s, 0
  {
    forall i, u | 0 <= i < |s.parts| ensures Validates(a, s.parts[i].1, u) <==> Validates(b, s.parts[i].1, u) {
      AgreeingValidates(a, b, s.parts[i].1, u);
    }
  }

  // ------------------------------------------------------------------- the theorem

  /** A way of following references that leads from everything needed to what the library has for it. */
  ghost predicate LeadsToLibrary(library: Library, needed: set<Target>, look: string -> Option<Schema>) {
    forall ref :: ParseRef(ref).Some? && ParseRef(ref).value in needed && ParseRef(ref).value in library ==>
      look(ref) == Some(library[ParseRef(ref).value])
  }

  /** Two such ways agree on every schema that refers only to what is needed, to any depth. */
  lemma {:induction false} FollowingAgrees(
    library: Library, needed: set<Target>, look: string -> Option<Schema>, other: string -> Option<Schema>,
    local: Targets, depth: nat, s: Schema)
    requires LeadsToLibrary(library, needed, look) && LeadsToLibrary(library, needed, other)
    requires Closed(library, needed) && Handled(library, needed, s)
    ensures AgreeOn(Following(look, local, depth), Following(other, local, depth), s)
    decreases depth, s
  {
    var a, b := Following(look, local, depth), Following(other, local, depth);
    if s.ref.Some? && !IsLocal(s.ref.value) && depth > 0 {
      var t := ParseRef(s.ref.value).value;
      FollowingAgrees(library, needed, look, other, local, depth - 1, library[t]);
      forall v ensures a(s.ref.value, v) == b(s.ref.value, v) {
        AgreeingValidates(Following(look, local, depth - 1), Following(other, local, depth - 1), library[t], v);
      }
    }
    forall k | 0 <= k < |s.parts| ensures AgreeOn(a, b, s.parts[k].1) {
      FollowingAgrees(library, needed, look, other, local, depth, s.parts[k].1);
    }
  }

  /**
   The bundled document, with references followed inside it, accepts exactly the values
   that the root accepts with references followed through the library: at every depth,
   cyclic definitions included.
   */
  lemma {:induction false} BundlingKeepsMeaning(
    library: Library, root: Schema, needed: set<Target>, l: Listing, local: Targets, depth: nat, v: Json)
    requires RecordsBearTheirUrns(library) && Closed(library, needed) && Handled(library, needed, root)
    requires Lists(l, needed) && forall t :: t in needed ==> '#' !in t.name
    ensures Publishes(library, l)
    ensures var doc := Document(root, Embedded(library, l));
            Validates(Following(ref => LookUp(doc, ref), local, depth), doc, v) <==>
            Validates(Following(ref => Published(library, ref), local, depth), root, v)
  {
    var doc := Document(root, Embedded(library, l));
    var inside, published := (ref => LookUp(doc, ref)), (ref => Published(library, ref));
    forall ref | ParseRef(ref).Some? && ParseRef(ref).value in needed
      ensures inside(ref) == Some(library[ParseRef(ref).value])
    {
      ParsedRef(ref);
      ReferencesKeepTheirTargets(library, root, needed, l, ParseRef(ref).value);
    }
    FollowingAgrees(library, needed, inside, published, local, depth, root);
    AgreeingValidates(Following(inside, local, depth), Following(published, local, depth), root, v);
    DefsAskNothing(Following(inside, local, depth), root, doc, v);
  }

  /** Embedding definitions asks nothing of a value. */
  lemma {:induction false} DefsAskNothing(targets: Targets, root: Schema, doc: Schema, v: Json)
    requires doc == root.(defs := doc.defs)
    ensures Validates(targets, doc, v) <==> Validates(targets, root, v)
  {
    forall k | 0 <= k < |root.parts| ensures PartHolds(targets, doc, k, v) <==> PartHolds(targets, root, k, v) {
      assert doc.parts[k] == root.parts[k];
    }
    assert OwnKeywords(targets, doc, v) <==> OwnKeywords(targets, root, v);
  }
}
