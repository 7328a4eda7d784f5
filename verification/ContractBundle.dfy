/**
 Bundling: embed in one document everything its references reach. The walk follows
 references through a mutable set of what it has already seen, so it ends on
 cyclic definitions; what it collects is the least closed set, and the document it
 emits resolves every reference it holds.
 */
module ContractBundle {
  import opened Wrappers
  import opened ContractSchemas

  /** Something a reference can name: a shared definition at a position, or a record document. */
  datatype Target = SharedDef(position: Position, name: string) | RecordDoc(name: string)

  /** Everything published, by what names it. */
  type Library = map<Target, Schema>

  predicate IsLocal(ref: string) {
    "#" <= ref
  }

  /** What a reference names, by its prefix. */
  function ParseRef(ref: string): Option<Target> {
    if DefRef(Input, "") <= ref then Some(SharedDef(Input, ref[|DefRef(Input, "")|..]))
    else if DefRef(Output, "") <= ref then Some(SharedDef(Output, ref[|DefRef(Output, "")|..]))
    else if RECORD_PREFIX <= ref then Some(RecordDoc(ref[|RECORD_PREFIX|..]))
    else None
  }

  function RefTo(t: Target): string {
    match t
    case SharedDef(position, name) => DefRef(position, name)
    case RecordDoc(name) => RecordUrn(name)
  }

  lemma {:induction false} ParsedRef(ref: string)
    ensures ParseRef(ref).Some? ==> ref == RefTo(ParseRef(ref).value)
  {
  }

  // --------------------------------------------------------------------- closures

  /** A node's own reference, if it leaves the document, names something published that is in the set. */
  predicate RefHandled(library: Library, needed: set<Target>, node: Schema) {
    node.ref.Some? && !IsLocal(node.ref.value) ==>
      ParseRef(node.ref.value).Some? && ParseRef(node.ref.value).value in library
        && ParseRef(node.ref.value).value in needed
  }

  /** Every reference the walk of a schema meets is handled by the set. */
  predicate Handled(library: Library, needed: set<Target>, s: Schema) {
    && RefHandled(library, needed, s)
    && (forall i :: 0 <= i < |s.parts| ==> Handled(library, needed, s.parts[i].1))
    && (forall i :: 0 <= i < |s.defs| ==> Handled(library, needed, s.defs[i].1))
  }

  /** A set that handles everything its own members refer to. */
  predicate Closed(library: Library, needed: set<Target>) {
    forall t :: t in needed ==> t in library && Handled(library, needed, library[t])
  }

  lemma {:induction false} HandledMore(library: Library, some: set<Target>, more: set<Target>, s: Schema)
    requires Handled(library, some, s) && some <= more
    ensures Handled(library, more, s)
  {
    forall i | 0 <= i < |s.parts| ensures Handled(library, more, s.parts[i].1) {
      HandledMore(library, some, more, s.parts[i].1);
    }
    forall i | 0 <= i < |s.defs| ensures Handled(library, more, s.defs[i].1) {
      HandledMore(library, some, more, s.defs[i].1);
    }
  }

  /** Every closed set that handles this schema and holds these targets: what the walk may not go beyond. */
  ghost predicate Bounds(library: Library, found: set<Target>, s: Schema, bound: set<Target>) {
    Closed(library, bound) && Handled(library, bound, s) && found <= bound
  }

  /** Everything collected since `before` is published and handled. */
  ghost predicate Settled(library: Library, before: set<Target>, needed: set<Target>) {
    before <= needed && forall t :: t in needed && t !in before ==> t in library && Handled(library, needed, library[t])
  }

  lemma {:induction false} SettledTogether(library: Library, before: set<Target>, mid: set<Target>, needed: set<Target>)
    requires Settled(library, before, mid) && Settled(library, mid, needed)
    ensures Settled(library, before, needed)
  {
    forall t | t in needed && t !in before ensures t in library && Handled(library, needed, library[t]) {
      if t in mid { HandledMore(library, mid, needed, library[t]); }
    }
  }

  // ------------------------------------------------------------------- references

  /** A walk of the schema meets a reference to this target. */
  ghost predicate Names(s: Schema, t: Target) {
    exists node :: Within(node, s) && node.ref.Some? && !IsLocal(node.ref.value) && ParseRef(node.ref.value) == Some(t)
  }

  /** A chain of references leads from the root to its last target. */
  ghost predicate Leads(library: Library, root: Schema, path: seq<Target>) {
    && path != []
    && var n := |path| - 1;
       if n == 0 then Names(root, path[0])
       else Leads(library, root, path[..n]) && path[n - 1] in library && Names(library[path[n - 1]], path[n])
  }

  ghost predicate Reached(library: Library, root: Schema, t: Target) {
    exists path :: Leads(library, root, path) && path[|path| - 1] == t
  }

  lemma {:induction false} PartNames(s: Schema, part: Schema, t: Target)
    requires Names(part, t)
    requires (exists i :: 0 <= i < |s.parts| && s.parts[i].1 == part)
             || (exists i :: 0 <= i < |s.defs| && s.defs[i].1 == part)
    ensures Names(s, t)
  {
    var node :| Within(node, part) && node.ref.Some? && !IsLocal(node.ref.value) && ParseRef(node.ref.value) == Some(t);
    assert Within(node, s);
  }

  /** A reference that leaves the document and names nothing published. */
  predicate Unpublished(library: Library, ref: string) {
    !IsLocal(ref) && (ParseRef(ref).None? || ParseRef(ref).value !in library)
  }

  ghost predicate Refers(s: Schema, ref: string) {
    exists node :: Within(node, s) && node.ref == Some(ref)
  }

  /** A reference met in this schema, or in something published that references lead to from it. */
  ghost predicate Meets(library: Library, s: Schema, ref: string) {
    || Refers(s, ref)
    || exists t :: Reached(library, s, t) && t in library && Refers(library[t], ref)
  }

  lemma {:induction false} LeadsFromWhole(library: Library, part: Schema, s: Schema, path: seq<Target>)
    requires Leads(library, part, path) && forall t :: Names(part, t) ==> Names(s, t)
    ensures Leads(library, s, path)
  {
    if |path| > 1 { LeadsFromWhole(library, part, s, path[..|path| - 1]); }
  }

  lemma {:induction false} LeadsThrough(library: Library, s: Schema, t: Target, path: seq<Target>)
    requires t in library && Names(s, t) && Leads(library, library[t], path)
    ensures Leads(library, s, [t] + path)
  {
    var n, all := |path| - 1, [t] + path;
    if n > 0 {
      LeadsThrough(library, s, t, path[..n]);
      assert all[..n + 1] == [t] + path[..n];
    } else {
      assert all[..1] == [t] && Leads(library, s, [t]);
    }
  }

  lemma {:induction false} MetInPart(library: Library, s: Schema, part: Schema, ref: string)
    requires Meets(library, part, ref)
    requires (exists i :: 0 <= i < |s.parts| && s.parts[i].1 == part)
             || (exists i :: 0 <= i < |s.defs| && s.defs[i].1 == part)
    ensures Meets(library, s, ref)
  {
    if Refers(part, ref) {
      var node :| Within(node, part) && node.ref == Some(ref);
      assert Within(node, s);
    } else {
      var t :| Reached(library, part, t) && t in library && Refers(library[t], ref);
      var path :| Leads(library, part, path) && path[|path| - 1] == t;
      forall u | Names(part, u) ensures Names(s, u) { PartNames(s, part, u); }
      LeadsFromWhole(library, part, s, path);
      assert Reached(library, s, t);
    }
  }

  lemma {:induction false} ReachedDirectly(library: Library, s: Schema, t: Target)
    requires Names(s, t)
    ensures Reached(library, s, t)
  {
    var path := [t];
    assert Leads(library, s, path) && path[|path| - 1] == t;
  }

  lemma {:induction false} ReachedThrough(library: Library, s: Schema, t: Target, u: Target)
    requires t in library && Names(s, t) && Reached(library, library[t], u)
    ensures Reached(library, s, u)
  {
    var rest :| Leads(library, library[t], rest) && rest[|rest| - 1] == u;
    LeadsThrough(library, s, t, rest);
    LastOf(t, rest);
    ReachedBy(library, s, [t] + rest);
  }

  lemma {:induction false} LastOf<T>(x: T, xs: seq<T>)
    requires xs != []
    ensures ([x] + xs)[|[x] + xs| - 1] == xs[|xs| - 1]
  {
  }

  lemma {:induction false} ReachedBy(library: Library, s: Schema, path: seq<Target>)
    requires Leads(library, s, path)
    ensures Reached(library, s, path[|path| - 1])
  {
  }

  lemma {:induction false} MetThrough(library: Library, s: Schema, t: Target, ref: string)
    requires t in library && Names(s, t) && Meets(library, library[t], ref)
    ensures Meets(library, s, ref)
  {
    if Refers(library[t], ref) {
      ReachedDirectly(library, s, t);
    } else {
      var u :| Reached(library, library[t], u) && u in library && Refers(library[u], ref);
      ReachedThrough(library, s, t, u);
    }
  }

  // ---------------------------------------------------------------------- the walk

  class Bundler {
    const library: Library
    var needed: set<Target>

    constructor (library: Library)
      ensures this.library == library && needed == {}
    {
      this.library, needed := library, {};
    }

    /**
     Walk one schema, following every reference not followed before. On success all
     it refers to, directly or not, has been collected; and whatever the outcome, it
     goes no further than any closed set must, and fails only if there is none. On
     failure it names a reference that it met and that nothing published answers to.
     */
    method Visit(s: Schema) returns (bad: Option<string>)
      modifies this
      ensures bad.None? ==> Handled(library, needed, s) && Settled(library, old(needed), needed)
      ensures old(needed) <= needed && forall bound :: Bounds(library, old(needed), s, bound) ==>
              bad.None? && needed <= bound
      ensures bad.Some? ==> Unpublished(library, bad.value) && Meets(library, s, bad.value)
      decreases library.Keys - needed, s, 2
    {
      bad := Follow(s);
      if bad.Some? { return; }
      ghost var first := needed;
      forall bound | Bounds(library, old(needed), s, bound) ensures Bounds(library, first, s, bound) { }
      bad := VisitEach(s, s.parts);
      if bad.Some? { return; }
      ghost var second := needed;
      SettledTogether(library, old(needed), first, second);
      forall bound | Bounds(library, old(needed), s, bound) ensures Bounds(library, second, s, bound) { }
      bad := VisitEach(s, s.defs);
      if bad.None? {
        SettledTogether(library, old(needed), second, needed);
        forall i | 0 <= i < |s.parts| ensures Handled(library, needed, s.parts[i].1) {
          HandledMore(library, second, needed, s.parts[i].1);
        }
      }
    }

    /** A node's own reference: refuse it, skip it if already followed, or collect its target and walk that. */
    method Follow(s: Schema) returns (bad: Option<string>)
      modifies this
      ensures bad.None? ==> RefHandled(library, needed, s) && Settled(library, old(needed), needed)
      ensures old(needed) <= needed && forall bound :: Bounds(library, old(needed), s, bound) ==>
              bad.None? && needed <= bound
      ensures bad.Some? ==> Unpublished(library, bad.value) && Meets(library, s, bad.value)
      decreases library.Keys - needed, s, 0
    {
      if s.ref.None? || IsLocal(s.ref.value) { return None; }
      var target := ParseRef(s.ref.value);
      assert Within(s, s);
      if target.None? || target.value !in library { return s.ref; }
      var t := target.value;
      if t in needed { return None; }
      ghost var before := needed;
      needed := needed + {t};
      ghost var entered := needed;
      bad := Visit(library[t]);
      if bad.Some? { MetThrough(library, s, t, bad.value); }
      forall bound | Bounds(library, before, s, bound) ensures Bounds(library, entered, library[t], bound) { }
    }

    method VisitEach(s: Schema, children: seq<(string, Schema)>) returns (bad: Option<string>)
      requires children == s.parts || children == s.defs
      modifies this
      ensures bad.None? ==>
              (forall i :: 0 <= i < |children| ==> Handled(library, needed, children[i].1))
              && Settled(library, old(needed), needed)
      ensures old(needed) <= needed && forall bound :: Bounds(library, old(needed), s, bound) ==>
              bad.None? && needed <= bound
      ensures bad.Some? ==> Unpublished(library, bad.value) && Meets(library, s, bad.value)
      decreases library.Keys - needed, s, 1
    {
      var k := 0;
      bad := None;
      while k < |children|
        invariant 0 <= k <= |children| && bad.None?
        invariant forall i :: 0 <= i < k ==> Handled(library, needed, children[i].1)
        invariant Settled(library, old(needed), needed)
        invariant forall bound :: Bounds(library, old(needed), s, bound) ==> needed <= bound
      {
        ghost var before := needed;
        bad := Visit(children[k].1);
        forall bound | Bounds(library, old(needed), s, bound) ensures Bounds(library, before, children[k].1, bound) { }
        if bad.Some? {
          MetInPart(library, s, children[k].1, bad.value);
          return;
        }
        SettledTogether(library, old(needed), before, needed);
        forall i | 0 <= i < k ensures Handled(library, needed, children[i].1) {
          HandledMore(library, before, needed, children[i].1);
        }
        k := k + 1;
      }
    }
  }

  // ------------------------------------------------------------------ the document

  /** A least closed set that handles the root: contained in every other. */
  ghost predicate LeastClosure(library: Library, root: Schema, needed: set<Target>) {
    && Closed(library, needed) && Handled(library, needed, root)
    && forall other :: Closed(library, other) && Handled(library, other, root) ==> needed <= other
  }

  /** What a document reaches, or a reference that cannot be bundled. It fails exactly when no closed set would do. */
  method Collect(library: Library, root: Schema) returns (r: Result<set<Target>, string>)
    ensures r.Ok? ==> LeastClosure(library, root, r.value)
    ensures r.Ok? <==> exists needed :: Closed(library, needed) && Handled(library, needed, root)
    ensures r.Err? ==> Unpublished(library, r.error) && Meets(library, root, r.error)
  {
    var bundler := new Bundler(library);
    var bad := bundler.Visit(root);
    forall other | Closed(library, other) && Handled(library, other, root) ensures Bounds(library, {}, root, other) { }
    if bad.Some? { return Err(bad.value); }
    assert Closed(library, bundler.needed) && Handled(library, bundler.needed, root);
    return Ok(bundler.needed);
  }

  // ----------------------------------------------------------- reached, not just kept

  lemma {:induction false} OnlyWhatIsNamed(library: Library, needed: set<Target>, fewer: set<Target>, s: Schema)
    requires Handled(library, needed, s) && forall t :: t in needed && Names(s, t) ==> t in fewer
    ensures Handled(library, fewer, s)
  {
    assert Within(s, s);
    forall i | 0 <= i < |s.parts| ensures Handled(library, fewer, s.parts[i].1) {
      forall t | t in needed && Names(s.parts[i].1, t) ensures t in fewer { PartNames(s, s.parts[i].1, t); }
      OnlyWhatIsNamed(library, needed, fewer, s.parts[i].1);
    }
    forall i | 0 <= i < |s.defs| ensures Handled(library, fewer, s.defs[i].1) {
      forall t | t in needed && Names(s.defs[i].1, t) ensures t in fewer { PartNames(s, s.defs[i].1, t); }
      OnlyWhatIsNamed(library, needed, fewer, s.defs[i].1);
    }
  }

  lemma {:induction false} ReachedFurther(library: Library, root: Schema, t: Target, u: Target)
    requires Reached(library, root, t) && t in library && Names(library[t], u)
    ensures Reached(library, root, u)
  {
    var path :| Leads(library, root, path) && path[|path| - 1] == t;
    LeadsFurther(library, root, path, u);
  }

  lemma {:induction false} LeadsFurther(library: Library, root: Schema, path: seq<Target>, u: Target)
    requires Leads(library, root, path) && path[|path| - 1] in library && Names(library[path[|path| - 1]], u)
    ensures Leads(library, root, path + [u]) && (path + [u])[|path|] == u
  {
    assert (path + [u])[..|path|] == path;
  }

  /** A closed set that handles the root holds the end of every chain. */
  lemma {:induction false} ChainStaysInside(library: Library, root: Schema, needed: set<Target>, path: seq<Target>)
    requires Closed(library, needed) && Handled(library, needed, root) && Leads(library, root, path)
    ensures path[|path| - 1] in needed
  {
    var n := |path| - 1;
    if n == 0 {
      NamesAreNeeded(library, needed, root, path[0]);
    } else {
      ChainStaysInside(library, root, needed, path[..n]);
      NamesAreNeeded(library, needed, library[path[n - 1]], path[n]);
    }
  }

  /** What is embedded is exactly what some chain of references from the root leads to. */
  lemma {:induction false} EveryMemberIsReached(library: Library, root: Schema, needed: set<Target>)
    requires LeastClosure(library, root, needed)
    ensures forall t :: t in needed <==> Reached(library, root, t)
  {
    forall t | Reached(library, root, t) ensures t in needed {
      var path :| Leads(library, root, path) && path[|path| - 1] == t;
      ChainStaysInside(library, root, needed, path);
    }
    var reached := set t | t in needed && Reached(library, root, t);
    forall t | t in needed && Names(root, t) ensures t in reached {
      assert Leads(library, root, [t]) && [t][|[t]| - 1] == t;
    }
    OnlyWhatIsNamed(library, needed, reached, root);
    forall t | t in reached ensures Handled(library, reached, library[t]) {
      forall u | u in needed && Names(library[t], u) ensures u in reached { ReachedFurther(library, root, t, u); }
      OnlyWhatIsNamed(library, needed, reached, library[t]);
    }
    assert Closed(library, reached);
  }

  // ---------------------------------------------------------------- self-containment

  /** The needed names, listed: shared definitions by position, and records. */
  datatype Listing = Listing(inputs: seq<string>, outputs: seq<string>, records: seq<string>)

  ghost predicate Lists(l: Listing, needed: set<Target>) {
    && (forall n :: n in l.inputs <==> SharedDef(Input, n) in needed)
    && (forall n :: n in l.outputs <==> SharedDef(Output, n) in needed)
    && (forall n :: n in l.records <==> RecordDoc(n) in needed)
  }

  function Contents(library: Library, names: seq<string>, position: Position): seq<(string, Schema)>
    requires forall n :: n in names ==> SharedDef(position, n) in library
  {
    seq(|names|, i requires 0 <= i < |names| => (names[i], library[SharedDef(position, names[i])]))
  }

  /** The resource that carries one position's shared definitions, if any are needed. */
  function SharedResource(library: Library, names: seq<string>, position: Position): seq<(string, Schema)>
    requires forall n :: n in names ==> SharedDef(position, n) in library
  {
    if names == [] then []
    else [(CommonUrn(position), BLANK.(id := Some(CommonUrn(position)), defs := Contents(library, names, position)))]
  }

  function RecordResources(library: Library, names: seq<string>): seq<(string, Schema)>
    requires forall n :: n in names ==> RecordDoc(n) in library
  {
    seq(|names|, i requires 0 <= i < |names| => (RecordUrn(names[i]), library[RecordDoc(names[i])]))
  }

  function Embedded(library: Library, l: Listing): seq<(string, Schema)>
    requires (forall n :: n in l.inputs ==> SharedDef(Input, n) in library)
             && (forall n :: n in l.outputs ==> SharedDef(Output, n) in library)
    requires forall n :: n in l.records ==> RecordDoc(n) in library
  {
    SharedResource(library, l.inputs, Input) + SharedResource(library, l.outputs, Output) +
      RecordResources(library, l.records)
  }

  function Document(root: Schema, embedded: seq<(string, Schema)>): Schema {
    if embedded == [] then root else root.(defs := embedded)
  }

  /** A reference up to its first `#`, and from there up to the next. */
  function BeforeHash(ref: string): string {
    if ref == [] || ref[0] == '#' then [] else [ref[0]] + BeforeHash(ref[1..])
  }

  function Fragment(ref: string): string {
    var base := BeforeHash(ref);
    if |base| < |ref| then BeforeHash(ref[|base| + 1..]) else []
  }

  lemma {:induction false} SplitAtHash(base: string, rest: string)
    requires '#' !in base
    ensures BeforeHash(base + ['#'] + rest) == base && BeforeHash(base) == base
  {
    var ref := base + ['#'] + rest;
    if base != [] {
      SplitAtHash(base[1..], rest);
      assert ref[1..] == base[1..] + ['#'] + rest;
    }
  }

  /** The embedded resource with this id; failing that, the document itself. */
  function ResourceIn(doc: Schema, n: nat, id: string): Option<Schema>
    requires n <= |doc.defs|
  {
    if n == 0 then (if doc.id == Some(id) then Some(doc) else None)
    else if doc.defs[n - 1].1.id == Some(id) then Some(doc.defs[n - 1].1)
    else ResourceIn(doc, n - 1, id)
  }

  predicate Defines(resource: Schema, name: string) {
    exists i :: 0 <= i < |resource.defs| && resource.defs[i].0 == name
  }

  /** A reference resolves within the document. */
  predicate RefResolves(doc: Schema, ref: string) {
    var resource := ResourceIn(doc, |doc.defs|, BeforeHash(ref));
    resource.Some? && ("/$defs/" <= Fragment(ref) ==> Defines(resource.value, Fragment(ref)[7..]))
  }

  predicate Resolves(doc: Schema, node: Schema) {
    node.ref.Some? && !IsLocal(node.ref.value) ==> RefResolves(doc, node.ref.value)
  }

  /** The check on the emitted document: every node's reference resolves inside it. */
  predicate SelfContained(doc: Schema, s: Schema) {
    && Resolves(doc, s)
    && (forall i :: 0 <= i < |s.parts| ==> SelfContained(doc, s.parts[i].1))
    && (forall i :: 0 <= i < |s.defs| ==> SelfContained(doc, s.defs[i].1))
  }

  /** A record document is identified by its own urn, as its generator writes it. */
  ghost predicate RecordsBearTheirUrns(library: Library) {
    forall n :: RecordDoc(n) in library ==> library[RecordDoc(n)].id == Some(RecordUrn(n))
  }

  /** Over references that can be followed, the check is that what each names is resolved. */
  lemma {:induction false} ResolvesWhatIsNamed(library: Library, needed: set<Target>, doc: Schema, s: Schema)
    requires Handled(library, needed, s)
    ensures SelfContained(doc, s) <==> forall t :: t in needed && Names(s, t) ==> RefResolves(doc, RefTo(t))
  {
    if SelfContained(doc, s) {
      forall t | t in needed && Names(s, t) ensures RefResolves(doc, RefTo(t)) { NamedResolves(doc, s, t); }
    }
    if forall t :: t in needed && Names(s, t) ==> RefResolves(doc, RefTo(t)) {
      HandledResolves(library, needed, doc, s);
    }
  }

  lemma {:induction false} NamedResolves(doc: Schema, s: Schema, t: Target)
    requires SelfContained(doc, s) && Names(s, t)
    ensures RefResolves(doc, RefTo(t))
  {
    var node :| Within(node, s) && node.ref.Some? && !IsLocal(node.ref.value) && ParseRef(node.ref.value) == Some(t);
    ParsedRef(node.ref.value);
    NodeResolves(doc, s, node);
  }

  lemma {:induction false} NodeResolves(doc: Schema, s: Schema, node: Schema)
    requires SelfContained(doc, s) && Within(node, s)
    ensures Resolves(doc, node)
  {
    if i :| 0 <= i < |s.parts| && Within(node, s.parts[i].1) { NodeResolves(doc, s.parts[i].1, node); }
    if i :| 0 <= i < |s.defs| && Within(node, s.defs[i].1) { NodeResolves(doc, s.defs[i].1, node); }
  }

  lemma {:induction false} HandledResolves(library: Library, needed: set<Target>, doc: Schema, s: Schema)
    requires Handled(library, needed, s) && forall t :: t in needed && Names(s, t) ==> RefResolves(doc, RefTo(t))
    ensures SelfContained(doc, s)
  {
    OwnRefResolves(library, needed, doc, s);
    forall i | 0 <= i < |s.parts| ensures SelfContained(doc, s.parts[i].1) {
      forall t | t in needed && Names(s.parts[i].1, t) ensures RefResolves(doc, RefTo(t)) {
        PartNames(s, s.parts[i].1, t);
      }
      HandledResolves(library, needed, doc, s.parts[i].1);
    }
    forall i | 0 <= i < |s.defs| ensures SelfContained(doc, s.defs[i].1) {
      forall t | t in needed && Names(s.defs[i].1, t) ensures RefResolves(doc, RefTo(t)) {
        PartNames(s, s.defs[i].1, t);
      }
      HandledResolves(library, needed, doc, s.defs[i].1);
    }
  }

  lemma {:induction false} OwnRefResolves(library: Library, needed: set<Target>, doc: Schema, s: Schema)
    requires RefHandled(library, needed, s)
    requires forall t :: t in needed && Names(s, t) ==> RefResolves(doc, RefTo(t))
    ensures Resolves(doc, s)
  {
    if s.ref.Some? && !IsLocal(s.ref.value) {
      ParsedRef(s.ref.value);
      assert Within(s, s) && Names(s, ParseRef(s.ref.value).value);
    }
  }

  lemma {:induction false} NamesAreNeeded(library: Library, needed: set<Target>, s: Schema, t: Target)
    requires Handled(library, needed, s) && Names(s, t)
    ensures t in needed
  {
    var node :| Within(node, s) && node.ref.Some? && !IsLocal(node.ref.value) && ParseRef(node.ref.value) == Some(t);
    NodeHandled(library, needed, s, node);
  }

  lemma {:induction false} NodeHandled(library: Library, needed: set<Target>, s: Schema, node: Schema)
    requires Handled(library, needed, s) && Within(node, s)
    ensures RefHandled(library, needed, node)
  {
    if i :| 0 <= i < |s.parts| && Within(node, s.parts[i].1) { NodeHandled(library, needed, s.parts[i].1, node); }
    if i :| 0 <= i < |s.defs| && Within(node, s.defs[i].1) { NodeHandled(library, needed, s.defs[i].1, node); }
  }

  lemma {:induction false} ResourceFound(doc: Schema, n: nat, id: string, k: nat) returns (j: nat)
    requires k < n <= |doc.defs| && doc.defs[k].1.id == Some(id)
    ensures j < n && doc.defs[j].1.id == Some(id) && ResourceIn(doc, n, id) == Some(doc.defs[j].1)
  {
    if doc.defs[n - 1].1.id == Some(id) { j := n - 1; } else { j := ResourceFound(doc, n - 1, id, k); }
  }

  lemma {:induction false} UrnsHoldNoHash(position: Position)
    ensures '#' !in CommonUrn(position) && '#' !in RECORD_PREFIX
  {
  }

  /** The ids of embedded resources do not collide. */
  lemma {:induction false} UrnsDiffer(position: Position, name: string)
    ensures CommonUrn(Input) != CommonUrn(Output) && RecordUrn(name) != CommonUrn(position)
  {
    assert |CommonUrn(Input)| != |CommonUrn(Output)|;
    assert RecordUrn(name)[|URN| + 1] == 'r' && CommonUrn(position)[|URN| + 1] == 'c';
  }

  /** The check takes a reference apart at its first two `#`s, so it looks a name up only as far as its first. */
  lemma {:induction false} DefRefSplits(position: Position, name: string)
    ensures BeforeHash(DefRef(position, name)) == CommonUrn(position)
    ensures Fragment(DefRef(position, name)) == "/$defs/" + BeforeHash(name)
  {
    UrnsHoldNoHash(position);
    var rest := "/$defs/" + name;
    assert DefRef(position, name) == CommonUrn(position) + ['#'] + rest;
    SplitAtHash(CommonUrn(position), rest);
    assert DefRef(position, name)[|CommonUrn(position)| + 1..] == rest;
    BeforeHashAfter("/$defs/", name);
  }

  lemma {:induction false} RecordRefSplits(name: string)
    ensures BeforeHash(RecordUrn(name)) == RecordUrn(BeforeHash(name)) && Fragment(RecordUrn(name)) == Fragment(name)
  {
    UrnsHoldNoHash(Input);
    BeforeHashAfter(RECORD_PREFIX, name);
    var cut := BeforeHash(name);
    if |cut| < |name| { DropBoth(RECORD_PREFIX, name, |cut| + 1); }
  }

  lemma {:induction false} DropBoth(front: string, rest: string, n: nat)
    requires n <= |rest|
    ensures (front + rest)[|front| + n..] == rest[n..]
  {
  }

  lemma {:induction false} BeforeHashAfter(front: string, rest: string)
    requires '#' !in front
    ensures BeforeHash(front + rest) == front + BeforeHash(rest)
  {
    if front == [] {
      assert front + rest == rest;
    } else {
      BeforeHashAfter(front[1..], rest);
      assert (front + rest)[1..] == front[1..] + rest;
    }
  }

  ghost predicate Publishes(library: Library, l: Listing) {
    && (forall n :: n in l.inputs ==> SharedDef(Input, n) in library)
       && (forall n :: n in l.outputs ==> SharedDef(Output, n) in library)
    && (forall n :: n in l.records ==> RecordDoc(n) in library)
  }

  function NamesAt(l: Listing, position: Position): seq<string> {
    if position.Input? then l.inputs else l.outputs
  }

  /** Where a position's shared resource sits among the embedded, and that nothing else bears its id. */
  lemma {:induction false} SharedIsEmbedded(library: Library, l: Listing, position: Position)
    requires Publishes(library, l) && RecordsBearTheirUrns(library) && NamesAt(l, position) != []
    ensures exists k :: 0 <= k < |Embedded(library, l)| && Embedded(library, l)[k].1.id == Some(CommonUrn(position))
    ensures forall j :: 0 <= j < |Embedded(library, l)| && Embedded(library, l)[j].1.id == Some(CommonUrn(position)) ==>
              Embedded(library, l)[j].1.defs == Contents(library, NamesAt(l, position), position)
  {
    var inputs, outputs := SharedResource(library, l.inputs, Input), SharedResource(library, l.outputs, Output);
    var all := Embedded(library, l);
    var k := if position.Input? then 0 else |inputs|;
    assert all[k].1.id == Some(CommonUrn(position));
    forall j | 0 <= j < |all| && all[j].1.id == Some(CommonUrn(position))
      ensures all[j].1.defs == Contents(library, NamesAt(l, position), position)
    {
      UrnsDiffer(position, "");
      if j >= |inputs| + |outputs| { UrnsDiffer(position, l.records[j - |inputs| - |outputs|]); }
    }
  }

  lemma {:induction false} ContentsDefine(
    library: Library, names: seq<string>, position: Position, resource: Schema, name: string)
    requires forall n :: n in names ==> SharedDef(position, n) in library
    requires resource.defs == Contents(library, names, position)
    ensures Defines(resource, name) <==> name in names
  {
    if i :| 0 <= i < |names| && names[i] == name { assert resource.defs[i].0 == name; }
  }

  /**
   A reference to a needed shared definition resolves exactly when the name cut at its
   first `#` is needed there too.
   */
  lemma {:induction false} SharedResolves(library: Library, root: Schema, l: Listing, position: Position, name: string)
    requires Publishes(library, l) && RecordsBearTheirUrns(library) && name in NamesAt(l, position)
    ensures RefResolves(Document(root, Embedded(library, l)), DefRef(position, name)) <==>
              BeforeHash(name) in NamesAt(l, position)
  {
    var all := Embedded(library, l);
    var doc := Document(root, all);
    SharedIsEmbedded(library, l, position);
    DefRefSplits(position, name);
    var k :| 0 <= k < |all| && all[k].1.id == Some(CommonUrn(position));
    var j := ResourceFound(doc, |doc.defs|, CommonUrn(position), k);
    ContentsDefine(library, NamesAt(l, position), position, doc.defs[j].1, BeforeHash(name));
    assert ("/$defs/" + BeforeHash(name))[7..] == BeforeHash(name);
  }

  /** Which embedded resource bears a record's urn: that record's own, if it is listed, and otherwise none. */
  lemma {:induction false} RecordIsEmbedded(library: Library, l: Listing, name: string)
    requires Publishes(library, l) && RecordsBearTheirUrns(library)
    ensures name in l.records ==>
            exists k :: 0 <= k < |Embedded(library, l)| && Embedded(library, l)[k].1.id == Some(RecordUrn(name))
    ensures forall j :: 0 <= j < |Embedded(library, l)| && Embedded(library, l)[j].1.id == Some(RecordUrn(name)) ==>
              name in l.records && Embedded(library, l)[j].1 == library[RecordDoc(name)]
  {
    var inputs, outputs := SharedResource(library, l.inputs, Input), SharedResource(library, l.outputs, Output);
    var records := RecordResources(library, l.records);
    var all := Embedded(library, l);
    if i :| 0 <= i < |l.records| && l.records[i] == name { assert all[|all| - |records| + i] == records[i]; }
    forall j | 0 <= j < |all| && all[j].1.id == Some(RecordUrn(name))
      ensures name in l.records && all[j].1 == library[RecordDoc(name)]
    {
      UrnsDiffer(Input, name);
      UrnsDiffer(Output, name);
      EmbeddedParts(inputs, outputs, records, j);
      RecordUrnsDiffer(l.records[j - |inputs| - |outputs|], name);
    }
  }

  lemma {:induction false} RecordUrnsDiffer(a: string, b: string)
    ensures RecordUrn(a) == RecordUrn(b) ==> a == b
  {
    assert RecordUrn(a)[|RECORD_PREFIX|..] == a && RecordUrn(b)[|RECORD_PREFIX|..] == b;
  }

  lemma {:induction false} NothingBears(doc: Schema, n: nat, id: string)
    requires n <= |doc.defs| && forall j :: 0 <= j < n ==> doc.defs[j].1.id != Some(id)
    ensures ResourceIn(doc, n, id) == if doc.id == Some(id) then Some(doc) else None
  {
    if n > 0 { NothingBears(doc, n - 1, id); }
  }

  /** The keys under which a bundled document embeds what it needs. */
  ghost predicate IsKey(needed: set<Target>, key: string) {
    || (exists t :: t in needed && t.SharedDef? && key == CommonUrn(t.position))
    || (exists t :: t in needed && t.RecordDoc? && key == RecordUrn(t.name))
  }

  /**
   A needed target is found again once its name is cut at the first `#`: as a
   definition needed at the same position, as a needed record, or as the document
   itself; and where the rest of a record's name reads as a pointer, the record or
   the document holds what it points at.
   */
  ghost predicate CutIsFound(library: Library, root: Schema, needed: set<Target>, t: Target) {
    match t
    case SharedDef(position, name) => SharedDef(position, BeforeHash(name)) in needed
    case RecordDoc(name) =>
      var record, rest := RecordDoc(BeforeHash(name)), Fragment(name);
      if record in needed && record in library then ("/$defs/" <= rest ==> Defines(library[record], rest[7..]))
      else root.id == Some(RecordUrn(record.name)) && ("/$defs/" <= rest ==> IsKey(needed, rest[7..]))
  }

  lemma {:induction false} KeysAreDefined(library: Library, root: Schema, needed: set<Target>, l: Listing, key: string)
    requires Lists(l, needed) && Publishes(library, l) && needed != {}
    ensures Defines(Document(root, Embedded(library, l)), key) <==> IsKey(needed, key)
  {
    var all := Embedded(library, l);
    NothingNeeded(library, needed, l);
    var doc := Document(root, all);
    if i :| 0 <= i < |doc.defs| && doc.defs[i].0 == key {
      KeyIsNeeded(library, needed, l, i);
    }
    if t :| t in needed && t.SharedDef? && key == CommonUrn(t.position) {
      assert t.name in NamesAt(l, t.position);
      SharedKeyAt(library, l, t.position);
    }
    if t :| t in needed && t.RecordDoc? && key == RecordUrn(t.name) {
      assert t.name in l.records;
      RecordKeyAt(library, l, t.name);
    }
  }

  lemma {:induction false} SharedKeyAt(library: Library, l: Listing, position: Position)
    requires Publishes(library, l) && NamesAt(l, position) != []
    ensures exists i :: 0 <= i < |Embedded(library, l)| && Embedded(library, l)[i].0 == CommonUrn(position)
  {
    var i := if position.Input? then 0 else |SharedResource(library, l.inputs, Input)|;
    assert Embedded(library, l)[i].0 == CommonUrn(position);
  }

  lemma {:induction false} RecordKeyAt(library: Library, l: Listing, name: string)
    requires Publishes(library, l) && name in l.records
    ensures exists i :: 0 <= i < |Embedded(library, l)| && Embedded(library, l)[i].0 == RecordUrn(name)
  {
    var i :| 0 <= i < |l.records| && l.records[i] == name;
    var all := Embedded(library, l);
    assert all[|all| - |l.records| + i] == RecordResources(library, l.records)[i];
  }

  lemma {:induction false} KeyIsNeeded(library: Library, needed: set<Target>, l: Listing, i: nat)
    requires Lists(l, needed) && Publishes(library, l) && i < |Embedded(library, l)|
    ensures IsKey(needed, Embedded(library, l)[i].0)
  {
    var inputs, outputs := SharedResource(library, l.inputs, Input), SharedResource(library, l.outputs, Output);
    EmbeddedParts(inputs, outputs, RecordResources(library, l.records), i);
    if i < |inputs| {
      assert l.inputs[0] in l.inputs && SharedDef(Input, l.inputs[0]) in needed;
    } else if i < |inputs| + |outputs| {
      assert l.outputs[0] in l.outputs && SharedDef(Output, l.outputs[0]) in needed;
    } else {
      var name := l.records[i - |inputs| - |outputs|];
      assert name in l.records && RecordDoc(name) in needed;
    }
  }

  lemma {:induction false} EmbeddedParts<T>(xs: seq<T>, ys: seq<T>, zs: seq<T>, i: nat)
    requires |xs| <= 1 && |ys| <= 1 && i < |xs + ys + zs|
    ensures i < |xs| ==> (xs + ys + zs)[i] == xs[0]
    ensures |xs| <= i < |xs| + |ys| ==> (xs + ys + zs)[i] == ys[0]
    ensures |xs| + |ys| <= i ==> (xs + ys + zs)[i] == zs[i - |xs| - |ys|]
  {
  }

  /** A reference to a needed record resolves exactly when its cut is found. */
  lemma {:induction false} RecordResolves(library: Library, root: Schema, needed: set<Target>, l: Listing, name: string)
    requires Lists(l, needed) && Publishes(library, l) && RecordsBearTheirUrns(library) && RecordDoc(name) in needed
    ensures RefResolves(Document(root, Embedded(library, l)), RecordUrn(name)) <==>
              CutIsFound(library, root, needed, RecordDoc(name))
  {
    var all := Embedded(library, l);
    var doc := Document(root, all);
    var cut := BeforeHash(name);
    RecordRefSplits(name);
    RecordIsEmbedded(library, l, cut);
    assert name in l.records;
    RecordKeyAt(library, l, name);
    if cut in l.records {
      var k :| 0 <= k < |all| && all[k].1.id == Some(RecordUrn(cut));
      var j := ResourceFound(doc, |doc.defs|, RecordUrn(cut), k);
    } else {
      NothingBears(doc, |doc.defs|, RecordUrn(cut));
      if "/$defs/" <= Fragment(name) { KeysAreDefined(library, root, needed, l, Fragment(name)[7..]); }
    }
  }

  /** A target some reference in the emitted document names; the root's own `$defs` are not emitted. */
  ghost predicate Carried(library: Library, root: Schema, needed: set<Target>, t: Target) {
    t in needed && (Names(root.(defs := []), t) || exists u :: u in needed && u in library && Names(library[u], t))
  }

  lemma {:induction false} MembersSelfContained(library: Library, needed: set<Target>, doc: Schema, l: Listing)
    requires Closed(library, needed) && Lists(l, needed) && Publishes(library, l)
    ensures (forall i :: 0 <= i < |Embedded(library, l)| ==> SelfContained(doc, Embedded(library, l)[i].1)) <==>
            (forall u :: u in needed ==> SelfContained(doc, library[u]))
  {
    var all := Embedded(library, l);
    if forall i :: 0 <= i < |all| ==> SelfContained(doc, all[i].1) {
      forall u | u in needed ensures SelfContained(doc, library[u]) { MemberFromEmbedded(library, needed, doc, l, u); }
    }
    if forall u :: u in needed ==> SelfContained(doc, library[u]) {
      forall i | 0 <= i < |all| ensures SelfContained(doc, all[i].1) {
        EmbeddedFromMembers(library, needed, doc, l, i);
      }
    }
  }

  lemma {:induction false} MemberFromEmbedded(library: Library, needed: set<Target>, doc: Schema, l: Listing, u: Target)
    requires Closed(library, needed) && Lists(l, needed) && Publishes(library, l) && u in needed
    requires forall i :: 0 <= i < |Embedded(library, l)| ==> SelfContained(doc, Embedded(library, l)[i].1)
    ensures SelfContained(doc, library[u])
  {
    var all := Embedded(library, l);
    match u {
      case SharedDef(position, name) =>
        assert name in NamesAt(l, position);
        var k := if position.Input? then 0 else |SharedResource(library, l.inputs, Input)|;
        var i :| 0 <= i < |NamesAt(l, position)| && NamesAt(l, position)[i] == name;
        assert all[k].1.defs == Contents(library, NamesAt(l, position), position);
        assert all[k].1.defs[i].1 == library[u];
      case RecordDoc(name) =>
        assert name in l.records;
        var i :| 0 <= i < |l.records| && l.records[i] == name;
        assert all[|all| - |l.records| + i] == RecordResources(library, l.records)[i];
    }
  }

  lemma {:induction false} EmbeddedFromMembers(library: Library, needed: set<Target>, doc: Schema, l: Listing, i: nat)
    requires Closed(library, needed) && Lists(l, needed) && Publishes(library, l) && i < |Embedded(library, l)|
    requires forall u :: u in needed ==> SelfContained(doc, library[u])
    ensures SelfContained(doc, Embedded(library, l)[i].1)
  {
    var inputs, outputs := SharedResource(library, l.inputs, Input), SharedResource(library, l.outputs, Output);
    EmbeddedParts(inputs, outputs, RecordResources(library, l.records), i);
    if i < |inputs| {
      SharedFromMembers(library, needed, doc, l.inputs, Input);
    } else if i < |inputs| + |outputs| {
      SharedFromMembers(library, needed, doc, l.outputs, Output);
    } else {
      var name := l.records[i - |inputs| - |outputs|];
      assert name in l.records;
    }
  }

  lemma {:induction false} SharedFromMembers(
    library: Library, needed: set<Target>, doc: Schema, names: seq<string>, position: Position)
    requires Closed(library, needed) && names != [] && forall n :: n in names ==> SharedDef(position, n) in needed
    requires forall u :: u in needed ==> SelfContained(doc, library[u])
    ensures forall n :: n in names ==> SharedDef(position, n) in library
    ensures SelfContained(doc, SharedResource(library, names, position)[0].1)
  {
    var resource := SharedResource(library, names, position)[0].1;
    forall i | 0 <= i < |resource.defs| ensures SelfContained(doc, resource.defs[i].1) {
      assert names[i] in names;
    }
  }

  /** The emitted document passes the check exactly when whatever it names resolves in it. */
  lemma {:induction false} CarriedResolve(library: Library, root: Schema, needed: set<Target>, l: Listing, doc: Schema)
    requires Closed(library, needed) && Handled(library, needed, root) && Lists(l, needed) && Publishes(library, l)
    requires doc == Document(root, Embedded(library, l))
    ensures SelfContained(doc, doc) <==> forall t :: Carried(library, root, needed, t) ==> RefResolves(doc, RefTo(t))
  {
    var all, bare := Embedded(library, l), root.(defs := []);
    if all == [] {
      NothingNeeded(library, needed, l);
      HandledResolves(library, needed, doc, root);
    } else {
      BareAndMembers(doc, bare, all);
      MembersSelfContained(library, needed, doc, l);
      ResolvesWhatIsNamed(library, needed, doc, bare);
      forall u | u in needed
        ensures SelfContained(doc, library[u]) <==>
                  forall t :: t in needed && Names(library[u], t) ==> RefResolves(doc, RefTo(t))
      {
        ResolvesWhatIsNamed(library, needed, doc, library[u]);
      }
    }
  }

  lemma {:induction false} NothingNeeded(library: Library, needed: set<Target>, l: Listing)
    requires Lists(l, needed) && Publishes(library, l)
    ensures needed != {} ==> Embedded(library, l) != []
  {
    if t :| t in needed {
      match t
      case RecordDoc(name) =>
        assert name in l.records;
        RecordKeyAt(library, l, name);
      case SharedDef(position, name) =>
        assert name in NamesAt(l, position);
        SharedKeyAt(library, l, position);
    }
  }

  lemma {:induction false} BareAndMembers(doc: Schema, bare: Schema, all: seq<(string, Schema)>)
    requires bare.defs == [] && doc == bare.(defs := all)
    ensures SelfContained(doc, doc) <==>
            SelfContained(doc, bare) && forall i :: 0 <= i < |all| ==> SelfContained(doc, all[i].1)
  {
    assert doc.parts == bare.parts && doc.ref == bare.ref;
  }

  /**
   Exactly when a bundled document passes its own self-containment check: every
   target it names is found again once its name is cut at the first `#`.
   */
  lemma {:induction false} SelfContainedIffCutsFound(library: Library, root: Schema, needed: set<Target>, l: Listing)
    requires RecordsBearTheirUrns(library)
    requires Closed(library, needed) && Handled(library, needed, root) && Lists(l, needed) && Publishes(library, l)
    ensures SelfContained(Document(root, Embedded(library, l)), Document(root, Embedded(library, l))) <==>
              forall t :: Carried(library, root, needed, t) ==> CutIsFound(library, root, needed, t)
  {
    var doc := Document(root, Embedded(library, l));
    CarriedResolve(library, root, needed, l, doc);
    forall t | Carried(library, root, needed, t)
      ensures RefResolves(doc, RefTo(t)) <==> CutIsFound(library, root, needed, t)
    {
      TargetResolves(library, root, needed, l, doc, t);
    }
  }

  lemma {:induction false} TargetResolves(
    library: Library, root: Schema, needed: set<Target>, l: Listing, doc: Schema, t: Target)
    requires RecordsBearTheirUrns(library) && Lists(l, needed) && Publishes(library, l) && t in needed
    requires doc == Document(root, Embedded(library, l))
    ensures RefResolves(doc, RefTo(t)) <==> CutIsFound(library, root, needed, t)
  {
    if t.RecordDoc? {
      RecordResolves(library, root, needed, l, t.name);
    } else {
      ListedAt(l, needed, t.position, t.name);
      ListedAt(l, needed, t.position, BeforeHash(t.name));
      SharedResolves(library, root, l, t.position, t.name);
    }
  }

  lemma {:induction false} ListedAt(l: Listing, needed: set<Target>, position: Position, name: string)
    requires Lists(l, needed)
    ensures name in NamesAt(l, position) <==> SharedDef(position, name) in needed
  {
  }

  /** In particular it passes whenever no name of a published definition or record holds a `#`. */
  lemma {:induction false} BundleIsSelfContained(library: Library, root: Schema, needed: set<Target>, l: Listing)
    requires RecordsBearTheirUrns(library)
    requires Closed(library, needed) && Handled(library, needed, root) && Lists(l, needed) && Publishes(library, l)
    ensures (forall t :: t in library ==> '#' !in t.name) ==>
              SelfContained(Document(root, Embedded(library, l)), Document(root, Embedded(library, l)))
  {
    if forall t :: t in library ==> '#' !in t.name {
      forall t | Carried(library, root, needed, t) ensures CutIsFound(library, root, needed, t) {
        SplitAtHash(t.name, []);
      }
      SelfContainedIffCutsFound(library, root, needed, l);
    }
  }

  /** A definition published as `a#b` and a document that refers to it: bundled, and refused by the check. */
  lemma {:induction false} HashedNameFailsTheCheck(position: Position)
    ensures var t := SharedDef(position, "a#b");
            var library: Library, root := map[t := BLANK], BLANK.(ref := Some(RefTo(t)));
            && RecordsBearTheirUrns(library) && LeastClosure(library, root, {t})
            && forall l :: Lists(l, {t}) ==>
                 Publishes(library, l) && var doc := Document(root, Embedded(library, l)); !SelfContained(doc, doc)
  {
    var t := SharedDef(position, "a#b");
    var library: Library, root := map[t := BLANK], BLANK.(ref := Some(RefTo(t)));
    RefParses(t);
    assert Handled(library, {t}, root) && Closed(library, {t});
    forall l | Lists(l, {t})
      ensures Publishes(library, l) && var doc := Document(root, Embedded(library, l)); !SelfContained(doc, doc)
    {
      SelfContainedIffCutsFound(library, root, {t}, l);
      assert Within(root, root) && root.(defs := []) == root;
      assert Names(root, t) && Carried(library, root, {t}, t);
      assert BeforeHash("a#b") == "a" by { SplitAtHash("a", "b"); }
      assert !CutIsFound(library, root, {t}, t);
    }
  }

  lemma {:induction false} RefParses(t: Target)
    requires t.SharedDef?
    ensures ParseRef(RefTo(t)) == Some(t) && !IsLocal(RefTo(t))
  {
    var ref := RefTo(t);
    assert DefRef(t.position, "") <= ref && ref[|DefRef(t.position, "")|..] == t.name;
    assert ref[0] == 'u';
    if t.position.Output? { assert DefRef(Input, "")[|URN| + 8] == 'i' && ref[|URN| + 8] == 'o'; }
  }
  /** List what is needed, by kind. The order is the enumeration's; nothing resolves by it. */
  method ListNeeded(needed: set<Target>) returns (l: Listing)
    ensures Lists(l, needed)
  {
    l := Listing([], [], []);
    var left := needed;
    while left != {}
      invariant left <= needed && Lists(l, needed - left)
      decreases left
    {
      var t :| t in left;
      match t {
        case SharedDef(position, name) =>
          if position.Input? { l := l.(inputs := l.inputs + [name]); } else { l := l.(outputs := l.outputs + [name]); }
        case RecordDoc(name) => l := l.(records := l.records + [name]);
      }
      left := left - {t};
    }
  }

  /** The whole of bundling: collect, embed, emit. */
  method Bundle(library: Library, root: Schema)
    returns (r: Result<Schema, string>, ghost needed: set<Target>, ghost l: Listing)
    requires RecordsBearTheirUrns(library)
    ensures r.Ok? <==> exists some :: Closed(library, some) && Handled(library, some, root)
    ensures r.Err? ==> Unpublished(library, r.error) && Meets(library, root, r.error)
    ensures r.Ok? ==> LeastClosure(library, root, needed) && Lists(l, needed) && Publishes(library, l)
                      && r.value == Document(root, Embedded(library, l))
                      && (SelfContained(r.value, r.value) <==>
                          forall t :: Carried(library, root, needed, t) ==> CutIsFound(library, root, needed, t))
  {
    var found := Collect(library, root);
    if found.Err? { return Err(found.error), {}, Listing([], [], []); }
    var listing := ListNeeded(found.value);
    needed, l := found.value, listing;
    assert Publishes(library, listing);
    SelfContainedIffCutsFound(library, root, needed, l);
    r := Ok(Document(root, Embedded(library, listing)));
  }
}
