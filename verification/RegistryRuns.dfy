/**
 What every run of registry operations keeps: a verifying ledger with one row per id, and
 redirects that always resolve.
 */
module RegistryRuns {
  import opened Wrappers
  import opened Sequences
  import opened AliasLedger
  import opened Redirects
  import opened IdentityRegistry

  // ---------------------------------------------------------------- the invariant

  /** One row per id, and the map finds exactly the rows of the ledger. */
  ghost predicate Indexed(rows: seq<Row>, byOldId: map<string, Row>) {
    && (forall i :: 0 <= i < |rows| ==> rows[i].unsealed.oldId in byOldId && byOldId[rows[i].unsealed.oldId] == rows[i])
    && (forall i, j :: 0 <= i < j < |rows| ==> rows[i].unsealed.oldId != rows[j].unsealed.oldId)
    && (forall id :: id in byOldId ==> byOldId[id] in rows && byOldId[id].unsealed.oldId == id)
  }

  /** What a row points at is something the registry knows. */
  predicate Grounded(links: Links, entities: set<string>, d: Disposition) {
    match d
    case Mapped(next) => next in links || next in entities
    case AmbiguousSplit(candidates) => |candidates| >= 2 && forall c :: c in candidates ==> c in entities
    case _ => true
  }

  ghost predicate AllGrounded(links: Links, entities: set<string>) {
    forall id :: id in links ==> Grounded(links, entities, links[id])
  }

  /** Entities are listed once each, in registration order. */
  ghost predicate Ordered(order: seq<string>, entities: map<string, Entity>) {
    && (forall i, j :: 0 <= i < j < |order| ==> order[i] != order[j])
    && (forall id :: id in entities <==> id in order)
    && (forall id :: id in entities ==> entities[id].id == id)
  }

  ghost predicate SoundLedger(s: Identity, h: Hash) {
    Chained(h, s.rows) && s.nextRowSeq == |s.rows| + 1 && Indexed(s.rows, s.byOldId)
  }

  ghost predicate SoundLinks(s: Identity) {
    Terminates(LinksOf(s.byOldId)) && AllGrounded(LinksOf(s.byOldId), s.entities.Keys)
  }

  ghost predicate Sound(s: Identity, h: Hash) {
    SoundLedger(s, h) && SoundLinks(s) && Ordered(s.order, s.entities) && s.observations.Keys <= s.entities.Keys
  }

  // ------------------------------------------------------------------- operations

  datatype RegistryOp =
    | DoRegister(entity: Entity, clock: Instant)
    | DoRename(id: string, content: string, clock: Instant)
    | DoMerge(from: string, into: string, reason: string, provenance: string, backing: Backing, clock: Instant)
    | DoSplit(from: string, created: seq<Entity>, reason: string, provenance: string, backing: Backing, clock: Instant)
    | DoDisposition(oldId: string, kind: TerminalKind, reason: string, provenance: string, clock: Instant)
    | DoAssertionMapping(oldId: string, assertionId: nat, reason: string, provenance: string, clock: Instant)
    | DoRecordSplit(oldId: string, candidates: seq<string>, reason: string, provenance: string, clock: Instant)
    | DoObserve(observation: Observation, entity: Entity, clock: Instant)

  ghost function Step(s: Identity, h: Hash, cap: nat, op: RegistryOp): Identity {
    match op
    case DoRegister(e, clock) => Register(s, e, clock)
    case DoRename(id, content, clock) => Rename(s, id, content, clock)
    case DoMerge(from, into, reason, provenance, backing, clock) =>
      Merge(s, h, from, into, reason, provenance, backing, cap, clock).state
    case DoSplit(from, created, reason, provenance, backing, clock) =>
      Split(s, h, from, created, reason, provenance, backing, cap, clock).state
    case DoDisposition(oldId, kind, reason, provenance, clock) =>
      RecordDisposition(s, h, oldId, kind, reason, provenance, clock).state
    case DoAssertionMapping(oldId, a, reason, provenance, clock) =>
      RecordAssertionMapping(s, h, oldId, a, reason, provenance, clock).state
    case DoRecordSplit(oldId, candidates, reason, provenance, clock) =>
      RecordSplit(s, h, oldId, candidates, reason, provenance, clock).state
    case DoObserve(o, e, clock) => ResolveOrMint(s, o, e, clock).state
  }

  ghost function Run(s: Identity, h: Hash, cap: nat, ops: seq<RegistryOp>): Identity {
    if ops == [] then s else Step(Run(s, h, cap, ops[..|ops| - 1]), h, cap, ops[|ops| - 1])
  }

  /** Later states hold every earlier row in place, know every earlier entity, and only lengthen chains. */
  ghost predicate Grew(s: Identity, later: Identity) {
    && s.rows <= later.rows && s.entities.Keys <= later.entities.Keys
    && ChainsGrew(LinksOf(s.byOldId), LinksOf(later.byOldId))
  }

  // ------------------------------------------------------------- entities alone

  lemma {:induction false} RememberOrdered(s: Identity, e: Entity)
    requires Ordered(s.order, s.entities)
    ensures var r := Remember(s, e);
            && Ordered(r.order, r.entities) && r.entities.Keys == s.entities.Keys + {e.id}
            && r == s.(entities := r.entities, order := r.order)
  {
    var r := Remember(s, e);
    forall id ensures id in r.entities <==> id in r.order {
      if e.id !in s.entities { assert r.order == s.order + [e.id]; }
    }
  }

  lemma {:induction false} RememberAllOrdered(s: Identity, es: seq<Entity>)
    requires Ordered(s.order, s.entities)
    ensures var r := RememberAll(s, es);
            && Ordered(r.order, r.entities) && r == s.(entities := r.entities, order := r.order)
            && forall id :: id in r.entities <==> id in s.entities || id in EntityIds(es)
  {
    if es != [] {
      var n := |es| - 1;
      RememberAllOrdered(s, es[..n]);
      RememberOrdered(RememberAll(s, es[..n]), es[n]);
      assert EntityIds(es) == EntityIds(es[..n]) + [es[n].id];
    }
  }

  lemma {:induction false} SameLinksGrew(links: Links)
    ensures ChainsGrew(links, links)
  {
    SameNextsGrew(links, links);
  }

  lemma {:induction false} MoreEntities(links: Links, some: set<string>, more: set<string>)
    requires AllGrounded(links, some) && some <= more
    ensures AllGrounded(links, more)
  {
    forall id | id in links ensures Grounded(links, more, links[id]) { assert Grounded(links, some, links[id]); }
  }

  /** An operation that touches no row. */
  lemma {:induction false} NoRowSound(s: Identity, h: Hash, next: Identity)
    requires Sound(s, h) && next.rows == s.rows && next.byOldId == s.byOldId && next.nextRowSeq == s.nextRowSeq
    requires Ordered(next.order, next.entities) && s.entities.Keys <= next.entities.Keys
             && next.observations.Keys <= next.entities.Keys
    ensures Sound(next, h) && Grew(s, next)
  {
    MoreEntities(LinksOf(s.byOldId), s.entities.Keys, next.entities.Keys);
    SameLinksGrew(LinksOf(s.byOldId));
  }

  // ----------------------------------------------------------------- adding a row

  lemma {:induction false} LinksSnoc(byOldId: map<string, Row>, id: string, row: Row)
    ensures LinksOf(byOldId[id := row]) == LinksOf(byOldId)[id := row.unsealed.disposition]
  {
  }

  lemma {:induction false} RowSealed(s: Identity, h: Hash, claim: Claim, created: seq<Entity>, clock: Instant)
    requires SoundLedger(s, h) && claim.oldId !in s.byOldId
    ensures SoundLedger(AppendRow(s, h, claim, created, clock), h)
    ensures s.rows <= AppendRow(s, h, claim, created, clock).rows
  {
    var row := NewRow(s, h, claim, StampNow(s, clock));
    ChainedSnoc(h, s.rows, row);
    IndexedSnoc(s.rows, s.byOldId, row);
  }

  lemma {:induction false} IndexedSnoc(rows: seq<Row>, byOldId: map<string, Row>, row: Row)
    requires Indexed(rows, byOldId) && row.unsealed.oldId !in byOldId
    ensures Indexed(rows + [row], byOldId[row.unsealed.oldId := row])
  {
    var all, more := rows + [row], byOldId[row.unsealed.oldId := row];
    forall id | id in more ensures more[id] in all && more[id].unsealed.oldId == id {
      if id != row.unsealed.oldId { assert byOldId[id] in rows; }
    }
  }

  lemma {:induction false} GroundedStays(
    links: Links, entities: set<string>, more: set<string>, id: string, d: Disposition)
    requires AllGrounded(links, entities) && entities <= more && Grounded(links[id := d], more, d)
    ensures AllGrounded(links[id := d], more)
  {
    var after := links[id := d];
    forall x | x in after ensures Grounded(after, more, after[x]) {
      if x != id { assert Grounded(links, entities, links[x]); }
    }
  }

  /** A row for an id that had none, pointing at something known, whose chains do not come back. */
  lemma {:induction false} RowSound(s: Identity, h: Hash, claim: Claim, created: seq<Entity>, clock: Instant)
    requires Sound(s, h) && claim.oldId !in s.byOldId
    requires ChainsGrew(LinksOf(s.byOldId), LinksOf(s.byOldId)[claim.oldId := claim.disposition])
    requires Grounded(LinksOf(s.byOldId)[claim.oldId := claim.disposition], RememberAll(s, created).entities.Keys,
                      claim.disposition)
    ensures Sound(AppendRow(s, h, claim, created, clock), h) && Grew(s, AppendRow(s, h, claim, created, clock))
  {
    var next := AppendRow(s, h, claim, created, clock);
    var links := LinksOf(s.byOldId);
    RememberAllOrdered(s, created);
    RowSealed(s, h, claim, created, clock);
    LinksSnoc(s.byOldId, claim.oldId, NewRow(s, h, claim, StampNow(s, clock)));
    GroundedStays(links, s.entities.Keys, next.entities.Keys, claim.oldId, claim.disposition);
    GrewTerminates(links, LinksOf(next.byOldId));
  }

  // ------------------------------------------------------------------- every step

  lemma {:induction false} EndRowSound(s: Identity, h: Hash, claim: Claim, created: seq<Entity>, clock: Instant)
    requires Sound(s, h) && claim.oldId !in s.byOldId && !claim.disposition.Mapped?
    requires claim.disposition.AmbiguousSplit? ==>
               |claim.disposition.candidates| >= 2 && forall c :: c in claim.disposition.candidates ==>
                 c in s.entities || c in EntityIds(created)
    ensures Sound(AppendRow(s, h, claim, created, clock), h) && Grew(s, AppendRow(s, h, claim, created, clock))
  {
    EndRowGrows(LinksOf(s.byOldId), claim.oldId, claim.disposition);
    RememberAllOrdered(s, created);
    RowSound(s, h, claim, created, clock);
  }

  lemma {:induction false} MergeSound(
    s: Identity, h: Hash, from: string, into: string, reason: string, provenance: string, backing: Backing, cap: nat,
    clock: Instant)
    requires Sound(s, h)
    ensures var next := Merge(s, h, from, into, reason, provenance, backing, cap, clock).state;
            Sound(next, h) && Grew(s, next)
  {
    NoRowSound(s, h, s);
    if Merge(s, h, from, into, reason, provenance, backing, cap, clock).decision.Decided? {
      MergedChains(s, from, into, cap);
      RowSound(s, h, Claim(from, reason, BasisOf(backing), provenance, Backed(s, from, backing, cap).value,
                           Mapped(into)), [], clock);
    }
  }

  /** What the checks before a merge establish. */
  lemma {:induction false} MergedChains(s: Identity, from: string, into: string, cap: nat)
    requires from !in s.byOldId && Resolution(s, into, cap).Found? && from !in Resolution(s, into, cap).chain
    ensures ChainsGrew(LinksOf(s.byOldId), LinksOf(s.byOldId)[from := Mapped(into)])
    ensures Grounded(LinksOf(s.byOldId)[from := Mapped(into)], s.entities.Keys, Mapped(into))
  {
    var links, chain := LinksOf(s.byOldId), Resolution(s, into, cap).chain;
    FoundMeansEnds(links, s.entities.Keys, [into], cap);
    assert chain[0..] == chain;
    RedirectGrows(links, from, into, |chain| - 1);
    TargetIsKnown(links, s.entities.Keys, into, |chain| - 1);
  }

  lemma {:induction false} TargetIsKnown(links: Links, entities: set<string>, id: string, n: nat)
    requires EndsIn(links, id, n) && Last(Chain(links, id, n)) in entities
    ensures id in links || id in entities
  {
    if n == 0 { assert Chain(links, id, n) == [id]; }
  }

  lemma {:induction false} SplitSound(
    s: Identity, h: Hash, from: string, created: seq<Entity>, reason: string, provenance: string, backing: Backing,
    cap: nat, clock: Instant)
    requires Sound(s, h)
    ensures var next := Split(s, h, from, created, reason, provenance, backing, cap, clock).state;
            Sound(next, h) && Grew(s, next)
  {
    NoRowSound(s, h, s);
    var stamped := s.(lastMillis := StampNow(s, clock));
    NoRowSound(s, h, stamped);
    if Split(s, h, from, created, reason, provenance, backing, cap, clock).decision.Decided? {
      var claim := Claim(from, reason, BasisOf(backing), provenance, Backed(s, from, backing, cap).value,
                         AmbiguousSplit(EntityIds(created)));
      EndRowSound(stamped, h, claim, created, clock);
    }
  }

  lemma {:induction false} NoneMissing(entities: set<string>, candidates: seq<string>)
    requires FirstMissing(entities, candidates).None?
    ensures forall c :: c in candidates ==> c in entities
  {
    if candidates != [] {
      NoneMissing(entities, candidates[1..]);
      assert candidates == [candidates[0]] + candidates[1..];
    }
  }

  lemma {:induction false} RecordsSound(
    s: Identity, h: Hash, oldId: string, d: Disposition, reason: string, provenance: string, clock: Instant)
    requires Sound(s, h) && oldId !in s.byOldId && !d.Mapped?
    requires d.AmbiguousSplit? ==> |d.candidates| >= 2 && FirstMissing(s.entities.Keys, d.candidates).None?
    ensures var next := AppendRow(s, h, Claim(oldId, reason, MechanicalMigration, provenance, None, d), [], clock);
            Sound(next, h) && Grew(s, next)
  {
    if d.AmbiguousSplit? { NoneMissing(s.entities.Keys, d.candidates); }
    EndRowSound(s, h, Claim(oldId, reason, MechanicalMigration, provenance, None, d), [], clock);
  }

  lemma {:induction false} RegisterSound(s: Identity, h: Hash, e: Entity, clock: Instant)
    requires Sound(s, h)
    ensures Sound(Register(s, e, clock), h) && Grew(s, Register(s, e, clock))
    ensures Register(s, e, clock).entities.Keys == s.entities.Keys + {e.id}
            && Register(s, e, clock).observations == s.observations
  {
    RememberOrdered(s, e);
    NoRowSound(s, h, Register(s, e, clock));
  }

  lemma {:induction false} ObserveSound(s: Identity, h: Hash, o: Observation, e: Entity, clock: Instant)
    requires Sound(s, h)
    ensures Sound(ResolveOrMint(s, o, e, clock).state, h) && Grew(s, ResolveOrMint(s, o, e, clock).state)
  {
    RegisterSound(s, h, e, clock);
    ObserveLeaves(s, o, e, clock);
    NoRowSound(s, h, ResolveOrMint(s, o, e, clock).state);
  }

  /** What an observation leaves: the registry as it was, or with one entity more, observed. */
  lemma {:induction false} ObserveLeaves(s: Identity, o: Observation, e: Entity, clock: Instant)
    requires s.observations.Keys <= s.entities.Keys
    ensures var next := ResolveOrMint(s, o, e, clock).state;
            && next.rows == s.rows && next.byOldId == s.byOldId && next.nextRowSeq == s.nextRowSeq
            && ((next.entities == s.entities && next.order == s.order)
                || (next.entities == Register(s, e, clock).entities && next.order == Register(s, e, clock).order))
            && next.observations.Keys <= next.entities.Keys
  {
  }

  /** Every operation keeps the registry sound and only ever adds to it. */
  lemma {:induction false} StepSound(s: Identity, h: Hash, cap: nat, op: RegistryOp)
    requires Sound(s, h)
    ensures Sound(Step(s, h, cap, op), h) && Grew(s, Step(s, h, cap, op))
  {
    NoRowSound(s, h, s);
    match op
    case DoRegister(e, clock) => RegisterSound(s, h, e, clock);
    case DoRename(id, content, clock) => RegisterSound(s, h, Entity(id, content, StampNow(s, clock)), clock);
    case DoMerge(from, into, reason, provenance, backing, clock) =>
      MergeSound(s, h, from, into, reason, provenance, backing, cap, clock);
    case DoSplit(from, created, reason, provenance, backing, clock) =>
      SplitSound(s, h, from, created, reason, provenance, backing, cap, clock);
    case DoDisposition(oldId, kind, reason, provenance, clock) =>
      if oldId !in s.byOldId { RecordsSound(s, h, oldId, Terminal(kind), reason, provenance, clock); }
    case DoAssertionMapping(oldId, a, reason, provenance, clock) =>
      if oldId !in s.byOldId { RecordsSound(s, h, oldId, MappedAssertion(a), reason, provenance, clock); }
    case DoRecordSplit(oldId, candidates, reason, provenance, clock) =>
      if RecordSplit(s, h, oldId, candidates, reason, provenance, clock).decision.Decided? {
        RecordsSound(s, h, oldId, AmbiguousSplit(candidates), reason, provenance, clock);
      }
    case DoObserve(o, e, clock) => ObserveSound(s, h, o, e, clock);
  }

  // ------------------------------------------------------------------- whole runs

  lemma {:induction false} EmptySound(h: Hash)
    ensures Sound(EMPTY_REGISTRY, h)
  {
    var links := LinksOf(EMPTY_REGISTRY.byOldId);
    forall id: string ensures Ends(links, id) { assert EndsIn(links, id, 0); }
  }

  lemma {:induction false} RunSound(s: Identity, h: Hash, cap: nat, ops: seq<RegistryOp>)
    requires Sound(s, h)
    ensures Sound(Run(s, h, cap, ops), h) && Grew(s, Run(s, h, cap, ops))
  {
    if ops == [] {
      NoRowSound(s, h, s);
    } else {
      var before := Run(s, h, cap, ops[..|ops| - 1]);
      RunSound(s, h, cap, ops[..|ops| - 1]);
      StepSound(before, h, cap, ops[|ops| - 1]);
      ChainsGrewTransitive(LinksOf(s.byOldId), LinksOf(before.byOldId), LinksOf(Run(s, h, cap, ops).byOldId));
    }
  }

  predicate KnownId(s: Identity, id: string) {
    id in s.entities || id in s.byOldId
  }

  lemma {:induction false} ChainStaysKnown(links: Links, entities: set<string>, id: string, n: nat)
    requires AllGrounded(links, entities) && (id in links || id in entities) && EndsIn(links, id, n)
    ensures Last(Chain(links, id, n)) in links || Last(Chain(links, id, n)) in entities
    decreases n
  {
    if n == 0 {
      assert Chain(links, id, n) == [id];
    } else {
      assert Grounded(links, entities, links[id]);
      var next := Next(links, id).value;
      ChainStaysKnown(links, entities, next, n - 1);
      assert Chain(links, id, n) == [id] + Chain(links, next, n - 1);
    }
  }

  /**
   Every id a sound registry knows answers: never unknown, cyclic or dangling, and too long
   exactly when its chain exceeds the cap.
   */
  lemma {:induction false} KnownIdsResolve(s: Identity, h: Hash, id: string, cap: nat) returns (n: nat)
    requires Sound(s, h) && KnownId(s, id)
    ensures EndsIn(LinksOf(s.byOldId), id, n)
    ensures var answer, chain := Resolution(s, id, cap), Chain(LinksOf(s.byOldId), id, n);
            && !answer.UnknownId? && !answer.Cycle? && !answer.Dangling?
            && (answer.TooLong? <==> n > cap)
            && answer.chain == (if n > cap then chain[..cap + 2] else chain)
            && (answer.Found? ==> Last(chain) in s.entities && Last(chain) !in s.byOldId)
            && (answer.Ambiguous? ==> |answer.candidates| >= 2 && forall c :: c in answer.candidates ==>
               c in s.entities)
  {
    var links := LinksOf(s.byOldId);
    assert Ends(links, id);
    n :| EndsIn(links, id, n);
    ResolveIsChain(links, s.entities.Keys, id, n, cap);
    ChainStaysKnown(links, s.entities.Keys, id, n);
    var end := Last(Chain(links, id, n));
    if end in links { assert Grounded(links, s.entities.Keys, links[end]); }
  }

  /**
   From an empty registry, after any run: the ledger verifies, has one row per id, and
   resolves every id it ever knew.
   */
  lemma {:induction false} ReachableLedgersResolve(h: Hash, cap: nat, ops: seq<RegistryOp>, id: string) returns (n: nat)
    requires KnownId(Run(EMPTY_REGISTRY, h, cap, ops), id)
    ensures var s := Run(EMPTY_REGISTRY, h, cap, ops);
            && Chained(h, s.rows) && Indexed(s.rows, s.byOldId)
            && EndsIn(LinksOf(s.byOldId), id, n)
            && !Resolution(s, id, cap).UnknownId? && !Resolution(s, id, cap).Cycle? && !Resolution(s, id, cap).Dangling?
            && (Resolution(s, id, cap).TooLong? <==> n > cap)
  {
    EmptySound(h);
    RunSound(EMPTY_REGISTRY, h, cap, ops);
    n := KnownIdsResolve(Run(EMPTY_REGISTRY, h, cap, ops), h, id, cap);
  }

  /**
   And for every continuation, earlier rows stay where they are and every earlier chain is
   a prefix of the later one.
   */
  lemma {:induction false} HistoryIsKept(h: Hash, cap: nat, ops: seq<RegistryOp>, more: seq<RegistryOp>, id: string)
    requires KnownId(Run(EMPTY_REGISTRY, h, cap, ops), id)
    ensures var s := Run(EMPTY_REGISTRY, h, cap, ops);
            var later := Run(s, h, cap, more);
            && s.rows <= later.rows && KnownId(later, id)
            && forall n: nat :: EndsIn(LinksOf(s.byOldId), id, n) ==>
                 RunsThrough(LinksOf(later.byOldId), id, Chain(LinksOf(s.byOldId), id, n))
  {
    EmptySound(h);
    RunSound(EMPTY_REGISTRY, h, cap, ops);
    var s := Run(EMPTY_REGISTRY, h, cap, ops);
    RunSound(s, h, cap, more);
    if id in s.byOldId { RowsStayMapped(s, Run(s, h, cap, more), h, id); }
  }

  lemma {:induction false} RowsStayMapped(s: Identity, later: Identity, h: Hash, id: string)
    requires SoundLedger(s, h) && SoundLedger(later, h) && s.rows <= later.rows && id in s.byOldId
    ensures id in later.byOldId && later.byOldId[id] == s.byOldId[id]
  {
    var i :| 0 <= i < |s.rows| && s.rows[i] == s.byOldId[id];
    assert later.rows[i] == s.rows[i];
  }
}
