/**
 The entity registry as a state machine over values: entities, the alias ledger,
 and what each entity was last observed as. Every operation is a function of the
 state, and everything a caller may rely on is an invariant of runs of them.
 */
module IdentityRegistry {
  import opened Wrappers
  import opened Sequences
  import opened AliasLedger
  import opened Redirects

  /** `content` stands for the type, names and provenance, which nothing here reads. */
  datatype Entity = Entity(id: string, content: string, updatedAt: Instant)

  datatype Trait = SourcePath | BlockOrdinal | TextDigest | IdProperty

  /** The traits a source observation carries; a block ordinal is its decimal text. */
  type Observation = map<Trait, string>

  const THRESHOLD := 2

  datatype Identity = Identity(
    entities: map<string, Entity>,
    order: seq<string>,
    rows: seq<Row>,
    byOldId: map<string, Row>,
    observations: map<string, Observation>,
    nextRowSeq: int,
    lastMillis: Instant)

  const EMPTY_REGISTRY := Identity(map[], [], [], map[], map[], 1, 0)

  function LinksOf(byOldId: map<string, Row>): Links {
    map id | id in byOldId :: byOldId[id].unsealed.disposition
  }

  function Resolution(s: Identity, id: string, cap: nat): Answer {
    Walk(LinksOf(s.byOldId), s.entities.Keys, [id], cap)
  }

  function StampNow(s: Identity, clock: Instant): Instant {
    Max(clock, s.lastMillis + 1)
  }

  // ------------------------------------------------------------------ operations

  function Remember(s: Identity, e: Entity): Identity {
    s.(entities := s.entities[e.id := e], order := if e.id in s.entities then s.order else s.order + [e.id])
  }

  function RememberAll(s: Identity, es: seq<Entity>): Identity {
    if es == [] then s else Remember(RememberAll(s, es[..|es| - 1]), es[|es| - 1])
  }

  /** What a row says about itself, besides its place in the ledger. */
  datatype Claim = Claim(oldId: string, reason: string, basis: Basis, provenance: string, resolution: Option<nat>,
                         disposition: Disposition)

  function NewRow(s: Identity, h: Hash, claim: Claim, at: Instant): Row {
    Seal(h, UnsealedRow(s.nextRowSeq, claim.oldId, claim.reason, at, claim.basis, claim.provenance, claim.resolution,
                        Head(s.rows), claim.disposition))
  }

  /** Seal a row onto the chain, with any entities minted alongside it. */
  function AppendRow(s: Identity, h: Hash, claim: Claim, created: seq<Entity>, clock: Instant): Identity {
    var at := StampNow(s, clock);
    var row := NewRow(s, h, claim, at);
    RememberAll(s, created).(
      rows := s.rows + [row],
      byOldId := s.byOldId[claim.oldId := row],
      nextRowSeq := s.nextRowSeq + 1,
      lastMillis := at)
  }

  /** How a decision is backed: a machine's needs nothing, an owner's needs its resolution assertion recorded. */
  datatype Backing = Mechanical | Owner(recorded: Option<nat>)

  function BasisOf(b: Backing): Basis {
    if b.Mechanical? then MechanicalMigration else OwnerResolution
  }

  datatype Decision =
    | Decided(row: Row)
    | AlreadyRedirected(existing: Row)
    | IntoSelf
    | WouldCycle(chain: seq<string>)
    | TargetUnresolvable(refusal: Answer)
    | SubjectUnresolvable(refusal: Answer)
    | RecorderRefused
    | NeedsTwoCandidates
    | CandidateUnresolvable(missing: string)

  datatype Outcome = Outcome(state: Identity, decision: Decision)

  /**
   An owner's decision must be about something that resolves, and must be recorded; a
   machine's goes straight through.
   */
  function Backed(s: Identity, from: string, backing: Backing, cap: nat): Result<Option<nat>, Decision> {
    match backing
    case Mechanical => Ok(None)
    case Owner(recorded) =>
      var subject := Resolution(s, from, cap);
      if !subject.Found? then Err(SubjectUnresolvable(subject))
      else if recorded.None? then Err(RecorderRefused)
      else Ok(Some(recorded.value))
  }

  function Decide(s: Identity, h: Hash, claim: Claim, created: seq<Entity>, clock: Instant): Outcome {
    var next := AppendRow(s, h, claim, created, clock);
    Outcome(next, Decided(next.rows[|s.rows|]))
  }

  function Merge(
    s: Identity, h: Hash, from: string, into: string, reason: string, provenance: string, backing: Backing, cap: nat,
    clock: Instant): Outcome
  {
    if from == into then Outcome(s, IntoSelf)
    else if from in s.byOldId then Outcome(s, AlreadyRedirected(s.byOldId[from]))
    else
      var target := Resolution(s, into, cap);
      if !target.Found? then Outcome(s, TargetUnresolvable(target))
      else if from in target.chain then Outcome(s, WouldCycle(target.chain))
      else
        match Backed(s, from, backing, cap)
        case Err(refusal) => Outcome(s, refusal)
        case Ok(resolution) =>
          Decide(s, h, Claim(from, reason, BasisOf(backing), provenance, resolution, Mapped(into)), [], clock)
  }

  function EntityIds(es: seq<Entity>): seq<string> {
    seq(|es|, i requires 0 <= i < |es| => es[i].id)
  }

  /** A split mints its halves before it asks whether the decision is backed, so a refusal still spends an instant. */
  function Split(
    s: Identity, h: Hash, from: string, created: seq<Entity>, reason: string, provenance: string, backing: Backing,
    cap: nat, clock: Instant): Outcome
  {
    if |created| < 2 then Outcome(s, NeedsTwoCandidates)
    else if from in s.byOldId then Outcome(s, AlreadyRedirected(s.byOldId[from]))
    else
      var stamped := s.(lastMillis := StampNow(s, clock));
      match Backed(s, from, backing, cap)
      case Err(refusal) => Outcome(stamped, refusal)
      case Ok(resolution) =>
        Decide(stamped, h, Claim(from, reason, BasisOf(backing), provenance, resolution,
                                 AmbiguousSplit(EntityIds(created))), created, clock)
  }

  function RecordDisposition(
    s: Identity, h: Hash, oldId: string, kind: TerminalKind, reason: string, provenance: string,
    clock: Instant): Outcome
  {
    if oldId in s.byOldId then Outcome(s, AlreadyRedirected(s.byOldId[oldId]))
    else Decide(s, h, Claim(oldId, reason, MechanicalMigration, provenance, None, Terminal(kind)), [], clock)
  }

  function RecordAssertionMapping(
    s: Identity, h: Hash, oldId: string, assertionId: nat, reason: string, provenance: string, clock: Instant): Outcome
  {
    if oldId in s.byOldId then Outcome(s, AlreadyRedirected(s.byOldId[oldId]))
    else Decide(s, h, Claim(oldId, reason, MechanicalMigration, provenance, None, MappedAssertion(assertionId)), [],
                clock)
  }

  function FirstMissing(entities: set<string>, candidates: seq<string>): Option<string> {
    if candidates == [] then None
    else if candidates[0] !in entities then Some(candidates[0])
    else FirstMissing(entities, candidates[1..])
  }

  function RecordSplit(
    s: Identity, h: Hash, oldId: string, candidates: seq<string>, reason: string, provenance: string,
    clock: Instant): Outcome
  {
    if |candidates| < 2 then Outcome(s, NeedsTwoCandidates)
    else if oldId in s.byOldId then Outcome(s, AlreadyRedirected(s.byOldId[oldId]))
    else
      var missing := FirstMissing(s.entities.Keys, candidates);
      if missing.Some? then Outcome(s, CandidateUnresolvable(missing.value))
      else Decide(s, h, Claim(oldId, reason, MechanicalMigration, provenance, None, AmbiguousSplit(candidates)), [],
                  clock)
  }

  function Register(s: Identity, e: Entity, clock: Instant): Identity {
    Remember(s, e).(lastMillis := StampNow(s, clock))
  }

  /** A rename edits a current entity in place; a redirected or unknown one is refused. */
  function Rename(s: Identity, id: string, content: string, clock: Instant): Identity {
    if id !in s.entities || id in s.byOldId then s
    else Remember(s, Entity(id, content, StampNow(s, clock))).(lastMillis := StampNow(s, clock))
  }

  // ------------------------------------------------------------ re-import matching

  /** The traits two observations agree on. */
  function Agreement(o: Observation, p: Observation): set<Trait> {
    set t | t in o && t in p && o[t] == p[t]
  }

  /** The entities that agree with an observation on enough traits. */
  function Matching(s: Identity, o: Observation): set<string> {
    set e | e in s.observations && |Agreement(s.observations[e], o)| >= THRESHOLD
  }

  lemma {:induction false} AtMostOne(xs: set<string>, x: string)
    requires x in xs && |xs| <= 1
    ensures xs == {x}
  {
    var rest := xs - {x};
    assert |xs| == |rest| + 1;
  }

  datatype Match =
    | CarriedForward(id: string, traits: set<Trait>)
    | Minted(id: string)
    | AmbiguousMatch(candidates: set<string>)
    | Underspecified

  datatype MatchOutcome = MatchOutcome(state: Identity, outcome: Match)

  function Observe(s: Identity, id: string, o: Observation): Identity {
    s.(observations := s.observations[id := o])
  }

  /**
   Carry an id forward when exactly one entity agrees on two traits; refuse to choose among
   several; mint otherwise.
   */
  ghost function ResolveOrMint(s: Identity, o: Observation, minted: Entity, clock: Instant): MatchOutcome {
    var candidates := Matching(s, o);
    if |o| < THRESHOLD then MatchOutcome(s, Underspecified)
    else if |candidates| > 1 then MatchOutcome(s, AmbiguousMatch(candidates))
    else if exists e :: candidates == {e} && e in s.entities then
      var e :| candidates == {e} && e in s.entities;
      MatchOutcome(Observe(s, e, o).(lastMillis := StampNow(s, clock)),
                   CarriedForward(e, Agreement(s.observations[e], o)))
    else
      MatchOutcome(Observe(Register(s, minted, clock), minted.id, o), Minted(minted.id))
  }
}
