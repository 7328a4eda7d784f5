/**
 `EntityRegistry` as it runs: maps, lists and an inverted trait index updated in
 place. Each method does to the view what the value-level operation says, and the
 index is always the exact inverse of the latest observations.
 */
module LiveRegistry {
  import opened Wrappers
  import opened Sequences
  import LogRecords
  import opened AliasLedger
  import opened Redirects
  import opened IdentityRegistry
  import RegistryMeaning
  import RegistryRuns

  const TRAITS: seq<Trait> := [SourcePath, BlockOrdinal, TextDigest, IdProperty]

  function TraitName(t: Trait): string {
    match t
    case SourcePath => "source_path_ref"
    case BlockOrdinal => "block_ordinal"
    case TextDigest => "text_digest"
    case IdProperty => "id_property"
  }

  /** NUL separates, because values are free strings. */
  function TraitKey(t: Trait, value: string): string {
    LogRecords.SubmissionKey(TraitName(t), value)
  }

  lemma {:induction false} TraitKeyInjective(t: Trait, v: string, u: Trait, w: string)
    ensures TraitKey(t, v) == TraitKey(u, w) <==> t == u && v == w
  {
    LogRecords.SubmissionKeyInjective(TraitName(t), v, TraitName(u), w);
    assert TraitName(t) == TraitName(u) ==> t == u by {
      assert |"source_path_ref"| == 15 && |"block_ordinal"| == 13 && |"text_digest"| == 11 && "id_property"[0] == 'i';
    }
  }

  function BucketAt(index: map<string, set<string>>, t: Trait, v: string): set<string> {
    var key := TraitKey(t, v);
    if key in index then index[key] else {}
  }

  /** An entity's latest observation carries this value for this trait. */
  predicate Carries(observations: map<string, Observation>, e: string, t: Trait, v: string) {
    e in observations && t in observations[e] && observations[e][t] == v
  }

  /** The index is the exact inverse of the latest observations. */
  ghost predicate Inverse(index: map<string, set<string>>, observations: map<string, Observation>) {
    forall t, v, e :: e in BucketAt(index, t, v) <==> Carries(observations, e, t, v)
  }

  /** One bucket changed, the others as they were. */
  lemma {:induction false} OneBucket(
    index: map<string, set<string>>, t: Trait, v: string, after: map<string, set<string>>)
    requires TraitKey(t, v) in after && after == index[TraitKey(t, v) := after[TraitKey(t, v)]]
    ensures forall u, w ::
              BucketAt(after, u, w) == if u == t && w == v then after[TraitKey(t, v)] else BucketAt(index, u, w)
  {
    forall u, w
      ensures BucketAt(after, u, w) == if u == t && w == v then after[TraitKey(t, v)] else BucketAt(index, u, w)
    {
      TraitKeyInjective(t, v, u, w);
    }
  }

  predicate Has(o: Observation, t: Trait, v: string) {
    t in o && o[t] == v
  }

  class EntityRegistry {
    const hash: Hash
    const cap: nat
    var entities: map<string, Entity>
    var order: seq<string>
    var rowsByOldId: map<string, Row>
    var rows: seq<Row>
    var observations: map<string, Observation>
    var traitIndex: map<string, set<string>>
    var nextRowSeq: int
    var lastMillis: Instant

    ghost predicate Valid()
      reads this
    {
      Inverse(traitIndex, observations)
    }

    function View(): Identity
      reads this
    {
      Identity(entities, order, rows, rowsByOldId, observations, nextRowSeq, lastMillis)
    }

    constructor (hash: Hash, cap: nat)
      ensures Valid() && View() == EMPTY_REGISTRY && this.hash == hash && this.cap == cap
    {
      this.hash, this.cap := hash, cap;
      entities, order, rowsByOldId, rows, observations, traitIndex := map[], [], map[], [], map[], map[];
      nextRowSeq, lastMillis := 1, 0;
    }

    // ---------------------------------------------------------------- the trait index

    /** Take an entity out of every bucket an observation put it in. */
    method Unindex(id: string, o: Observation)
      modifies this`traitIndex
      ensures forall t, v ::
                BucketAt(traitIndex, t, v) == BucketAt(old(traitIndex), t, v) - if Has(o, t, v) then {id} else {}
    {
      var i := 0;
      while i < |TRAITS|
        invariant 0 <= i <= |TRAITS|
        invariant forall t, v :: BucketAt(traitIndex, t, v) ==
                    BucketAt(old(traitIndex), t, v) - if t in TRAITS[..i] && Has(o, t, v) then {id} else {}
      {
        var t := TRAITS[i];
        if t in o {
          var v := o[t];
          if TraitKey(t, v) in traitIndex {
            ghost var before := traitIndex;
            traitIndex := traitIndex[TraitKey(t, v) := traitIndex[TraitKey(t, v)] - {id}];
            OneBucket(before, t, v, traitIndex);
          }
        }
        assert TRAITS[..i + 1] == TRAITS[..i] + [t];
        i := i + 1;
      }
      AllTraits();
    }

    /** Put it in every bucket an observation asks for. */
    method Index(id: string, o: Observation)
      modifies this`traitIndex
      ensures forall t, v ::
                BucketAt(traitIndex, t, v) == BucketAt(old(traitIndex), t, v) + if Has(o, t, v) then {id} else {}
    {
      var i := 0;
      while i < |TRAITS|
        invariant 0 <= i <= |TRAITS|
        invariant forall t, v :: BucketAt(traitIndex, t, v) ==
                    BucketAt(old(traitIndex), t, v) + if t in TRAITS[..i] && Has(o, t, v) then {id} else {}
      {
        var t := TRAITS[i];
        if t in o {
          var v := o[t];
          ghost var before := traitIndex;
          traitIndex := traitIndex[TraitKey(t, v) := BucketAt(traitIndex, t, v) + {id}];
          OneBucket(before, t, v, traitIndex);
        }
        assert TRAITS[..i + 1] == TRAITS[..i] + [t];
        i := i + 1;
      }
      AllTraits();
    }

    /** Re-anchor an entity on the observation just seen. */
    method IndexObservation(id: string, o: Observation)
      requires Valid()
      modifies this`traitIndex, this`observations
      ensures Valid() && observations == old(observations)[id := o]
    {
      if id in observations { Unindex(id, observations[id]); }
      Index(id, o);
      observations := observations[id := o];
    }

    // ------------------------------------------------------------------- matching

    /** One trait's votes: every entity in the bucket gains this trait. */
    method Vote(t: Trait, bucket: set<string>, votes: map<string, set<Trait>>) returns (more: map<string, set<Trait>>)
      ensures forall e :: VotesFor(more, e) == VotesFor(votes, e) + if e in bucket then {t} else {}
    {
      more := votes;
      var left := bucket;
      while left != {}
        invariant left <= bucket
        invariant forall e :: VotesFor(more, e) == VotesFor(votes, e) + if e in bucket - left then {t} else {}
        decreases left
      {
        var e :| e in left;
        more := more[e := VotesFor(more, e) + {t}];
        left := left - {e};
      }
    }

    /** The votes an observation collects through the index are the traits each entity agrees on. */
    method CollectVotes(o: Observation) returns (votes: map<string, set<Trait>>)
      requires Valid()
      ensures forall e :: VotesFor(votes, e) == if e in observations then Agreement(observations[e], o) else {}
    {
      votes := map[];
      var i := 0;
      while i < |TRAITS|
        invariant 0 <= i <= |TRAITS|
        invariant forall e, t :: t in VotesFor(votes, e) <==>
                  t in TRAITS[..i] && t in o && Carries(observations, e, t, o[t])
      {
        var t := TRAITS[i];
        if t in o { votes := Vote(t, BucketAt(traitIndex, t, o[t]), votes); }
        assert TRAITS[..i + 1] == TRAITS[..i] + [t];
        i := i + 1;
      }
      AllTraits();
      forall e ensures VotesFor(votes, e) == if e in observations then Agreement(observations[e], o) else {} {
        var agreed := if e in observations then Agreement(observations[e], o) else {};
        forall t: Trait ensures t in VotesFor(votes, e) <==> t in agreed {
          assert t in TRAITS[..i];
        }
      }
    }

    /** Enough votes through the index is agreement on enough traits. */
    method Candidates(o: Observation) returns (candidates: set<string>)
      requires Valid()
      ensures candidates == Matching(View(), o)
    {
      var votes := CollectVotes(o);
      candidates := set e | e in votes && |votes[e]| >= THRESHOLD;
      forall e ensures e in candidates <==> e in Matching(View(), o) {
        assert VotesFor(votes, e) == VotesFor(votes, e);
      }
    }

    method ResolveOrMint(o: Observation, minted: Entity, clock: Instant) returns (outcome: Match)
      requires Valid()
      modifies this
      ensures Valid() && MatchOutcome(View(), outcome) == IdentityRegistry.ResolveOrMint(old(View()), o, minted, clock)
    {
      if |o| < THRESHOLD { return Underspecified; }
      var candidates := Candidates(o);
      if |candidates| > 1 { return AmbiguousMatch(candidates); }
      if candidates != {} {
        var winner :| winner in candidates;
        AtMostOne(candidates, winner);
        if winner in entities {
          outcome := CarriedForward(winner, Agreement(observations[winner], o));
          lastMillis := Max(clock, lastMillis + 1);
          IndexObservation(winner, o);
          return;
        }
      }
      RememberEntity(minted);
      lastMillis := Max(clock, lastMillis + 1);
      IndexObservation(minted.id, o);
      outcome := Minted(minted.id);
    }

    // ------------------------------------------------------------------ identities

    method RememberEntity(e: Entity)
      modifies this`entities, this`order
      ensures View() == Remember(old(View()), e)
    {
      if e.id !in entities { order := order + [e.id]; }
      entities := entities[e.id := e];
    }

    method RegisterEntity(e: Entity, clock: Instant)
      requires Valid()
      modifies this`entities, this`order, this`lastMillis
      ensures Valid() && View() == Register(old(View()), e, clock)
    {
      RememberEntity(e);
      lastMillis := Max(clock, lastMillis + 1);
    }

    method RenameEntity(id: string, content: string, clock: Instant)
      requires Valid()
      modifies this`entities, this`order, this`lastMillis
      ensures Valid() && View() == Rename(old(View()), id, content, clock)
    {
      if id !in entities || id in rowsByOldId { return; }
      lastMillis := Max(clock, lastMillis + 1);
      RememberEntity(Entity(id, content, lastMillis));
    }

    method ResolveId(id: string) returns (answer: Answer)
      ensures answer == Resolution(View(), id, cap)
    {
      answer := Redirects.Resolve(LinksOf(rowsByOldId), entities.Keys, id, cap);
    }

    /** Seal a row onto the chain; entities minted with it become visible with it. */
    method AppendSealed(claim: Claim, created: seq<Entity>, clock: Instant) returns (row: Row)
      requires Valid()
      modifies this`entities, this`order, this`rows, this`rowsByOldId, this`nextRowSeq, this`lastMillis
      ensures Valid() && View() == AppendRow(old(View()), hash, claim, created, clock)
              && row == NewRow(old(View()), hash, claim, lastMillis)
    {
      var at := Max(clock, lastMillis + 1);
      row := Seal(hash, UnsealedRow(nextRowSeq, claim.oldId, claim.reason, at, claim.basis, claim.provenance,
                                    claim.resolution,
                                    Head(rows), claim.disposition));
      RememberEach(created);
      lastMillis := at;
      rows := rows + [row];
      rowsByOldId := rowsByOldId[claim.oldId := row];
      nextRowSeq := nextRowSeq + 1;
    }

    method RememberEach(es: seq<Entity>)
      modifies this`entities, this`order
      ensures View() == RememberAll(old(View()), es)
    {
      var i := 0;
      assert es[..0] == [];
      while i < |es|
        invariant 0 <= i <= |es| && View() == RememberAll(old(View()), es[..i])
      {
        assert es[..i + 1][..i] == es[..i];
        RememberEntity(es[i]);
        i := i + 1;
      }
      assert es[..i] == es;
    }

    /** An owner's decision is about something that resolves and is recorded first; a machine's needs neither. */
    method Back(from: string, backing: Backing) returns (r: Result<Option<nat>, Decision>)
      ensures r == Backed(View(), from, backing, cap)
    {
      if backing.Mechanical? { return Ok(None); }
      var subject := ResolveId(from);
      if !subject.Found? { return Err(SubjectUnresolvable(subject)); }
      if backing.recorded.None? { return Err(RecorderRefused); }
      return Ok(Some(backing.recorded.value));
    }

    method MergeInto(from: string, into: string, reason: string, provenance: string, backing: Backing, clock: Instant)
      returns (decision: Decision)
      requires Valid()
      modifies this`entities, this`order, this`rows, this`rowsByOldId, this`nextRowSeq, this`lastMillis
      ensures Valid()
              && Outcome(View(), decision) ==
              Merge(old(View()), hash, from, into, reason, provenance, backing, cap, clock)
      ensures RegistryRuns.Sound(old(View()), hash) && decision.Decided? ==>
                RegistryMeaning.Leads(old(View()), View(), from, into, cap)
    {
      ghost var s := View();
      if from == into { return IntoSelf; }
      if from in rowsByOldId { return AlreadyRedirected(rowsByOldId[from]); }
      var target := ResolveId(into);
      if !target.Found? { return TargetUnresolvable(target); }
      if from in target.chain { return WouldCycle(target.chain); }
      var backed := Back(from, backing);
      if backed.Err? { return backed.error; }
      var row := AppendSealed(Claim(from, reason, BasisOf(backing), provenance, backed.value, Mapped(into)), [], clock);
      decision := Decided(row);
      if RegistryRuns.Sound(s, hash) {
        RegistryMeaning.MergeLeads(s, hash, from, into, reason, provenance, backing, cap, clock);
      }
    }

    method SplitInto(
      from: string, created: seq<Entity>, reason: string, provenance: string, backing: Backing, clock: Instant)
      returns (decision: Decision)
      requires Valid()
      modifies this`entities, this`order, this`rows, this`rowsByOldId, this`nextRowSeq, this`lastMillis
      ensures Valid()
              && Outcome(View(), decision) ==
              Split(old(View()), hash, from, created, reason, provenance, backing, cap, clock)
    {
      if |created| < 2 { return NeedsTwoCandidates; }
      if from in rowsByOldId { return AlreadyRedirected(rowsByOldId[from]); }
      lastMillis := Max(clock, lastMillis + 1);
      var backed := Back(from, backing);
      if backed.Err? { return backed.error; }
      var row := AppendSealed(
        Claim(from, reason, BasisOf(backing), provenance, backed.value, AmbiguousSplit(EntityIds(created))), created,
          clock);
      decision := Decided(row);
    }

    /** A mechanical row that redirects nowhere. */
    method RecordOutcome(oldId: string, d: Disposition, reason: string, provenance: string, clock: Instant)
      returns (decision: Decision)
      requires Valid()
      modifies this`entities, this`order, this`rows, this`rowsByOldId, this`nextRowSeq, this`lastMillis
      ensures Valid() && Outcome(View(), decision) ==
                if oldId in old(rowsByOldId) then Outcome(old(View()), AlreadyRedirected(old(rowsByOldId)[oldId]))
                else Decide(old(View()), hash, Claim(oldId, reason, MechanicalMigration, provenance, None, d), [],
                            clock)
    {
      if oldId in rowsByOldId { return AlreadyRedirected(rowsByOldId[oldId]); }
      var row := AppendSealed(Claim(oldId, reason, MechanicalMigration, provenance, None, d), [], clock);
      decision := Decided(row);
    }

    /** Every candidate must exist before a split may name it. */
    method RecordAmbiguous(oldId: string, candidates: seq<string>, reason: string, provenance: string, clock: Instant)
      returns (decision: Decision)
      requires Valid()
      modifies this`entities, this`order, this`rows, this`rowsByOldId, this`nextRowSeq, this`lastMillis
      ensures Valid()
              && Outcome(View(), decision) ==
              RecordSplit(old(View()), hash, oldId, candidates, reason, provenance, clock)
    {
      if |candidates| < 2 { return NeedsTwoCandidates; }
      if oldId in rowsByOldId { return AlreadyRedirected(rowsByOldId[oldId]); }
      var i := 0;
      while i < |candidates|
        invariant 0 <= i <= |candidates|
                  && FirstMissing(entities.Keys, candidates) == FirstMissing(entities.Keys, candidates[i..])
      {
        if candidates[i] !in entities { return CandidateUnresolvable(candidates[i]); }
        assert candidates[i..][1..] == candidates[i + 1..];
        i := i + 1;
      }
      decision := RecordOutcome(oldId, AmbiguousSplit(candidates), reason, provenance, clock);
    }
  }

  /** The traits of an observation under which the index files this entity. */
  function IndexVotes(index: map<string, set<string>>, o: Observation, e: string): set<Trait> {
    set t | t in o && e in BucketAt(index, t, o[t])
  }

  /**
   Through the index: an id is carried forward exactly when it alone is filed under two of
   the observed traits or more.
   */
  lemma {:induction false} CarriedExactlyWhenUnique(
    s: Identity, index: map<string, set<string>>, o: Observation, minted: Entity, clock: Instant, id: string)
    requires Inverse(index, s.observations) && s.observations.Keys <= s.entities.Keys
    ensures (exists traits :: ResolveOrMint(s, o, minted, clock).outcome == CarriedForward(id, traits)) <==>
            |o| >= THRESHOLD && forall e :: |IndexVotes(index, o, e)| >= THRESHOLD <==> e == id
  {
    forall e ensures |IndexVotes(index, o, e)| >= THRESHOLD <==> e in Matching(s, o) {
      IndexVotesAgree(s, index, o, e);
    }
    var r := ResolveOrMint(s, o, minted, clock);
    if |o| >= THRESHOLD && Matching(s, o) == {id} {
      assert id in Matching(s, o);
      assert r.outcome == CarriedForward(id, Agreement(s.observations[id], o));
    }
  }

  lemma {:induction false} IndexVotesAgree(s: Identity, index: map<string, set<string>>, o: Observation, e: string)
    requires Inverse(index, s.observations)
    ensures IndexVotes(index, o, e) == if e in s.observations then Agreement(s.observations[e], o) else {}
  {
    forall t ensures t in IndexVotes(index, o, e) <==> t in o && Carries(s.observations, e, t, o[t]) { }
  }

  function VotesFor(votes: map<string, set<Trait>>, e: string): set<Trait> {
    if e in votes then votes[e] else {}
  }

  lemma {:induction false} AllTraits()
    ensures forall t: Trait :: t in TRAITS[..|TRAITS|]
  {
    assert TRAITS[..|TRAITS|] == TRAITS;
    assert TRAITS[0] == SourcePath && TRAITS[1] == BlockOrdinal && TRAITS[2] == TextDigest && TRAITS[3] == IdProperty;
    forall t: Trait ensures t in TRAITS {
      match t
      case SourcePath => assert TRAITS[0] in TRAITS;
      case BlockOrdinal => assert TRAITS[1] in TRAITS;
      case TextDigest => assert TRAITS[2] in TRAITS;
      case IdProperty => assert TRAITS[3] in TRAITS;
    }
  }
}
