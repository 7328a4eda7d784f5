/**
 What each registry decision leaves behind, said in terms of the ledger and of what
 ids resolve to: when it is taken, the one row it writes, where the id leads after
 it, and that everything else leads where it did.
 */
module RegistryMeaning {
  import opened Wrappers
  import opened Sequences
  import opened AliasLedger
  import opened Redirects
  import opened IdentityRegistry
  import opened RegistryRuns

  // -------------------------------------------------------------------- the ledger

  /** The ledger says what became of this id. */
  ghost predicate HasRow(s: Identity, id: string) {
    exists i :: 0 <= i < |s.rows| && s.rows[i].unsealed.oldId == id
  }

  lemma {:induction false} RowsAreIndexed(s: Identity, h: Hash, id: string)
    requires SoundLedger(s, h)
    ensures HasRow(s, id) <==> id in s.byOldId
    ensures HasRow(s, id) ==> s.byOldId[id] in s.rows && s.byOldId[id].unsealed.oldId == id
  {
    if id in s.byOldId {
      var i :| 0 <= i < |s.rows| && s.rows[i] == s.byOldId[id];
      assert s.rows[i].unsealed.oldId == id;
    }
  }

  /**
   Exactly one row was added, sealed in its place, and it says this; it is later than
   anything before it and not before the clock, by one instant more than needed at most.
   */
  ghost predicate Wrote(
    s: Identity, h: Hash, next: Identity, clock: Instant, oldId: string, reason: string, provenance: string,
    basis: Basis, resolution: Option<nat>, disposition: Disposition)
  {
    && |next.rows| == |s.rows| + 1 && next.rows[..|s.rows|] == s.rows
    && var row := next.rows[|s.rows|];
       && Follows(h, Head(s.rows), |s.rows| + 1, row)
       && row.unsealed.oldId == oldId && row.unsealed.disposition == disposition
       && row.unsealed.reason == reason && row.unsealed.provenance == provenance
       && row.unsealed.basis == basis && row.unsealed.resolution == resolution
       && row.unsealed.recordedAt > s.lastMillis && row.unsealed.recordedAt >= clock
       && (row.unsealed.recordedAt <= clock + 1 || row.unsealed.recordedAt <= s.lastMillis + 2)
       && next.lastMillis == row.unsealed.recordedAt
       && LinksOf(next.byOldId) == LinksOf(s.byOldId)[oldId := disposition]
       && next.observations == s.observations
  }

  lemma {:induction false} AppendWrites(s: Identity, h: Hash, claim: Claim, created: seq<Entity>, clock: Instant)
    requires SoundLedger(s, h)
    ensures Wrote(s, h, AppendRow(s, h, claim, created, clock), clock, claim.oldId, claim.reason,
                  claim.provenance, claim.basis, claim.resolution, claim.disposition)
  {
    LinksSnoc(s.byOldId, claim.oldId, NewRow(s, h, claim, StampNow(s, clock)));
    RememberKeeps(s, created);
  }

  lemma {:induction false} RememberKeeps(s: Identity, es: seq<Entity>)
    ensures RememberAll(s, es).observations == s.observations
  {
    if es != [] { RememberKeeps(s, es[..|es| - 1]); }
  }

  /** An owner decides about something that resolves and on the record; a machine needs neither. */
  ghost predicate IsBacked(s: Identity, from: string, backing: Backing, cap: nat) {
    backing.Owner? ==> Resolution(s, from, cap).Found? && backing.recorded.Some?
  }

  ghost function RecordedBy(backing: Backing): Option<nat> {
    if backing.Owner? then backing.recorded else None
  }

  ghost function OnBasis(backing: Backing): Basis {
    if backing.Owner? then OwnerResolution else MechanicalMigration
  }

  // --------------------------------------------------------------- what ids lead to

  /** An id whose chain ends elsewhere answers as before, under every cap. */
  lemma {:induction false} LeadsAsBefore(
    links: Links, entities: set<string>, more: set<string>, from: string, d: Disposition, id: string, n: nat, cap: nat)
    requires from !in links && EndsIn(links, id, n) && Last(Chain(links, id, n)) != from && entities <= more
    requires Last(Chain(links, id, n)) in more ==> Last(Chain(links, id, n)) in entities
    ensures Walk(links[from := d], more, [id], cap) == Walk(links, entities, [id], cap)
  {
    OtherChainsStay(links, from, d, id, n);
    ResolveIsChain(links, entities, id, n, cap);
    ResolveIsChain(links[from := d], more, id, n, cap);
  }

  /** A row that redirects nowhere answers for its id and for every id that led to it. */
  lemma {:induction false} EndRowAnswers(
    links: Links, entities: set<string>, from: string, d: Disposition, id: string, n: nat, cap: nat)
    requires from !in links && !d.Mapped? && EndsIn(links, id, n) && Last(Chain(links, id, n)) == from && n <= cap
    ensures var chain, answer := Chain(links, id, n), Walk(links[from := d], entities, [id], cap);
            match d
            case AmbiguousSplit(candidates) => answer == Ambiguous(chain, candidates)
            case MappedAssertion(a) => answer == CarriedAsAssertion(chain, a)
            case Terminal(kind) => answer == NotCarriedForward(chain, kind)
  {
    var more := links[from := d];
    SameNexts(links, more, id, n);
    ResolveIsChain(more, entities, id, n, cap);
  }

  lemma {:induction false} OwnChain(links: Links, from: string)
    requires from !in links
    ensures EndsIn(links, from, 0) && Chain(links, from, 0) == [from]
  {
  }

  // ------------------------------------------------------------------------- merge

  /**
   When a merge is decided: the ids differ, `from` has no row, `into` leads to an entity
   by a chain without `from`, and the decision is backed. Otherwise it is refused for
   the first of these that fails, and changes nothing.
   */
  lemma {:induction false} MergeDecides(
    s: Identity, h: Hash, from: string, into: string, reason: string, provenance: string, backing: Backing, cap: nat,
    clock: Instant)
    requires Sound(s, h)
    ensures var o, target := Merge(s, h, from, into, reason, provenance, backing, cap, clock), Resolution(s, into, cap);
            var free := from != into && !HasRow(s, from);
            var clear := free && target.Found? && from !in target.chain;
            && (o.decision.Decided? <==> clear && IsBacked(s, from, backing, cap))
            && (o.decision.IntoSelf? <==> from == into)
            && (o.decision.AlreadyRedirected? <==> from != into && HasRow(s, from))
            && (o.decision.AlreadyRedirected? ==>
                  o.decision.existing in s.rows && o.decision.existing.unsealed.oldId == from)
            && (o.decision.TargetUnresolvable? <==> free && !target.Found?)
            && (o.decision.TargetUnresolvable? ==> o.decision.refusal == target)
            && (o.decision.WouldCycle? <==> free && target.Found? && from in target.chain)
            && (o.decision.WouldCycle? ==> o.decision.chain == target.chain)
            && (o.decision.SubjectUnresolvable? <==> clear && backing.Owner? && !Resolution(s, from, cap).Found?)
            && (o.decision.SubjectUnresolvable? ==> o.decision.refusal == Resolution(s, from, cap))
            && (!o.decision.Decided? ==> o.state == s)
  {
    RowsAreIndexed(s, h, from);
  }

  /** The one row a merge writes, and where its id leads afterwards: through it to where its target led. */
  lemma {:induction false} MergeRedirects(
    s: Identity, h: Hash, from: string, into: string, reason: string, provenance: string, backing: Backing, cap: nat,
    clock: Instant, wide: nat)
    requires Sound(s, h) && Merge(s, h, from, into, reason, provenance, backing, cap, clock).decision.Decided?
    ensures var o, chain := Merge(s, h, from, into, reason, provenance, backing, cap, clock),
            Resolution(s, into, cap).chain;
            && Wrote(s, h, o.state, clock, from, reason, provenance, OnBasis(backing), RecordedBy(backing),
                     Mapped(into))
            && o.decision.row == o.state.rows[|s.rows|] && o.state.entities == s.entities
            && (wide >= |chain| ==> Resolution(o.state, from, wide) == Found([from] + chain))
  {
    RowsAreIndexed(s, h, from);
    var claim := Claim(from, reason, BasisOf(backing), provenance, Backed(s, from, backing, cap).value, Mapped(into));
    AppendWrites(s, h, claim, [], clock);
    OwnChain(LinksOf(s.byOldId), from);
    if wide >= |Resolution(s, into, cap).chain| { LeadsOn(s, from, into, cap, from, 0, wide); }
  }

  /** Under any cap as long as the target's chain, `from` resolves to itself and then that chain. */
  ghost predicate Leads(s: Identity, next: Identity, from: string, into: string, cap: nat) {
    && Resolution(s, into, cap).Found?
    && forall wide: nat :: wide >= |Resolution(s, into, cap).chain| ==>
         Resolution(next, from, wide) == Found([from] + Resolution(s, into, cap).chain)
  }

  lemma {:induction false} MergeLeads(
    s: Identity, h: Hash, from: string, into: string, reason: string, provenance: string, backing: Backing, cap: nat,
    clock: Instant)
    requires Sound(s, h) && Merge(s, h, from, into, reason, provenance, backing, cap, clock).decision.Decided?
    ensures Leads(s, Merge(s, h, from, into, reason, provenance, backing, cap, clock).state, from, into, cap)
  {
    forall wide: nat | wide >= |Resolution(s, into, cap).chain|
      ensures Resolution(Merge(s, h, from, into, reason, provenance, backing, cap, clock).state, from, wide) ==
              Found([from] + Resolution(s, into, cap).chain)
    {
      MergeRedirects(s, h, from, into, reason, provenance, backing, cap, clock, wide);
    }
  }

  /** Ids that led to `from` now lead on to where `into` led. */
  lemma {:induction false} LeadsOn(s: Identity, from: string, into: string, cap: nat, id: string, n: nat, wide: nat)
    requires from !in s.byOldId && Resolution(s, into, cap).Found? && from !in Resolution(s, into, cap).chain
    requires EndsIn(LinksOf(s.byOldId), id, n) && Last(Chain(LinksOf(s.byOldId), id, n)) == from
    requires wide >= n + |Resolution(s, into, cap).chain|
    ensures Walk(LinksOf(s.byOldId)[from := Mapped(into)], s.entities.Keys, [id], wide) ==
            Found(Chain(LinksOf(s.byOldId), id, n) + Resolution(s, into, cap).chain)
  {
    var links, chain := LinksOf(s.byOldId), Resolution(s, into, cap).chain;
    FoundMeansEnds(links, s.entities.Keys, [into], cap);
    assert chain[0..] == chain;
    var m := |chain| - 1;
    assert Last(chain) in chain;
    ChainsRunOn(links, from, into, m, id, n);
    ResolveIsChain(links[from := Mapped(into)], s.entities.Keys, id, n + 1 + m, wide);
    assert Last(Chain(links, id, n) + chain) == Last(chain);
  }

  /** Every other id leads where it did, under every cap; those that led to `from` lead on. */
  lemma {:induction false} MergeLeavesOthers(
    s: Identity, h: Hash, from: string, into: string, reason: string, provenance: string, backing: Backing, cap: nat,
    clock: Instant, id: string, n: nat, wide: nat)
    requires Sound(s, h) && Merge(s, h, from, into, reason, provenance, backing, cap, clock).decision.Decided?
    requires EndsIn(LinksOf(s.byOldId), id, n)
    ensures var next, chain := Merge(s, h, from, into, reason, provenance, backing, cap, clock).state,
                               Chain(LinksOf(s.byOldId), id, n);
            && (Last(chain) != from ==> Resolution(next, id, wide) == Resolution(s, id, wide))
            && (Last(chain) == from && wide >= n + |Resolution(s, into, cap).chain| ==>
                  Resolution(next, id, wide) == Found(chain + Resolution(s, into, cap).chain))
  {
    var links := LinksOf(s.byOldId);
    MergeRedirects(s, h, from, into, reason, provenance, backing, cap, clock, wide);
    if Last(Chain(links, id, n)) != from {
      LeadsAsBefore(links, s.entities.Keys, s.entities.Keys, from, Mapped(into), id, n, wide);
    } else if wide >= n + |Resolution(s, into, cap).chain| {
      LeadsOn(s, from, into, cap, id, n, wide);
    }
  }

  // ------------------------------------------------------------- splits and the rest

  /** What a row that redirects nowhere leaves: its own answer for its id, and no other answer changed. */
  ghost predicate Settled(s: Identity, next: Identity, from: string, d: Disposition) {
    && (forall cap: nat ::
          match d
          case AmbiguousSplit(candidates) => Resolution(next, from, cap) == Ambiguous([from], candidates)
          case MappedAssertion(a) => Resolution(next, from, cap) == CarriedAsAssertion([from], a)
          case Terminal(kind) => Resolution(next, from, cap) == NotCarriedForward([from], kind)
          case Mapped(_) => true)
    && (forall id: string, n: nat, cap: nat :: LedElsewhere(s, next, from, id, n) ==>
          Resolution(next, id, cap) == Resolution(s, id, cap))
  }

  /** An id that led somewhere other than here, and not to an id that has just become an entity. */
  ghost predicate LedElsewhere(s: Identity, next: Identity, from: string, id: string, n: nat) {
    && EndsIn(LinksOf(s.byOldId), id, n)
    && var end := Last(Chain(LinksOf(s.byOldId), id, n));
       end != from && (end in next.entities ==> end in s.entities)
  }

  lemma {:induction false} EndRowSettles(s: Identity, next: Identity, from: string, d: Disposition)
    requires from !in s.byOldId && !d.Mapped? && s.entities.Keys <= next.entities.Keys
    requires LinksOf(next.byOldId) == LinksOf(s.byOldId)[from := d]
    ensures Settled(s, next, from, d)
  {
    var links := LinksOf(s.byOldId);
    OwnChain(links, from);
    forall cap: nat
      ensures match d
              case AmbiguousSplit(candidates) => Resolution(next, from, cap) == Ambiguous([from], candidates)
              case MappedAssertion(a) => Resolution(next, from, cap) == CarriedAsAssertion([from], a)
              case Terminal(kind) => Resolution(next, from, cap) == NotCarriedForward([from], kind)
              case Mapped(_) => true
    {
      EndRowAnswers(links, next.entities.Keys, from, d, from, 0, cap);
    }
    forall id: string, n: nat, cap: nat | LedElsewhere(s, next, from, id, n)
      ensures Resolution(next, id, cap) == Resolution(s, id, cap)
    {
      LeadsAsBefore(links, s.entities.Keys, next.entities.Keys, from, d, id, n, cap);
    }
  }

  lemma {:induction false} AppendSettles(s: Identity, h: Hash, claim: Claim, created: seq<Entity>, clock: Instant)
    requires Sound(s, h) && !HasRow(s, claim.oldId) && !claim.disposition.Mapped?
    ensures Settled(s, AppendRow(s, h, claim, created, clock), claim.oldId, claim.disposition)
  {
    RowsAreIndexed(s, h, claim.oldId);
    AppendWrites(s, h, claim, created, clock);
    RememberAllOrdered(s, created);
    EndRowSettles(s, AppendRow(s, h, claim, created, clock), claim.oldId, claim.disposition);
  }

  /** A split is decided when it mints at least two, the id has no row, and it is backed; a refusal writes nothing. */
  lemma {:induction false} SplitDecides(
    s: Identity, h: Hash, from: string, created: seq<Entity>, reason: string, provenance: string, backing: Backing,
    cap: nat, clock: Instant)
    requires Sound(s, h)
    ensures var o := Split(s, h, from, created, reason, provenance, backing, cap, clock);
            && (o.decision.Decided? <==> |created| >= 2 && !HasRow(s, from) && IsBacked(s, from, backing, cap))
            && (o.decision.NeedsTwoCandidates? <==> |created| < 2)
            && (o.decision.AlreadyRedirected? <==> |created| >= 2 && HasRow(s, from))
            && (o.decision.SubjectUnresolvable? <==>
                  |created| >= 2 && !HasRow(s, from) && backing.Owner? && !Resolution(s, from, cap).Found?)
            && (!o.decision.Decided? ==> o.state == s.(lastMillis := o.state.lastMillis))
  {
    RowsAreIndexed(s, h, from);
  }

  ghost function IdsOf(es: seq<Entity>): seq<string> {
    seq(|es|, i requires 0 <= i < |es| => es[i].id)
  }

  /** A split id resolves to exactly what it was split into. */
  lemma {:induction false} SplitMeans(
    s: Identity, h: Hash, from: string, created: seq<Entity>, reason: string, provenance: string, backing: Backing,
    cap: nat, clock: Instant)
    requires Sound(s, h) && Split(s, h, from, created, reason, provenance, backing, cap, clock).decision.Decided?
    ensures var o := Split(s, h, from, created, reason, provenance, backing, cap, clock);
            && Wrote(s, h, o.state, clock, from, reason, provenance, OnBasis(backing), RecordedBy(backing),
                     AmbiguousSplit(IdsOf(created)))
            && o.decision.row == o.state.rows[|s.rows|] && Settled(s, o.state, from, AmbiguousSplit(IdsOf(created)))
  {
    var claim := SplitClaim(s, h, from, created, reason, provenance, backing, cap, clock);
    SpentInstantWrites(s, h, claim, created, clock);
  }

  /** What a split that is decided claims, one instant on. */
  lemma {:induction false} SplitClaim(
    s: Identity, h: Hash, from: string, created: seq<Entity>, reason: string, provenance: string, backing: Backing,
    cap: nat, clock: Instant) returns (claim: Claim)
    requires Sound(s, h) && Split(s, h, from, created, reason, provenance, backing, cap, clock).decision.Decided?
    ensures claim == Claim(from, reason, OnBasis(backing), provenance, RecordedBy(backing),
                           AmbiguousSplit(IdsOf(created)))
    ensures !HasRow(s, from) && Split(s, h, from, created, reason, provenance, backing, cap, clock) ==
                                Decide(s.(lastMillis := StampNow(s, clock)), h, claim, created, clock)
  {
    SplitDecides(s, h, from, created, reason, provenance, backing, cap, clock);
    claim := Claim(from, reason, BasisOf(backing), provenance, Backed(s, from, backing, cap).value,
                   AmbiguousSplit(EntityIds(created)));
    assert EntityIds(created) == IdsOf(created);
  }

  /** A row written after an instant was spent is written all the same. */
  lemma {:induction false} SpentInstantWrites(
    s: Identity, h: Hash, claim: Claim, created: seq<Entity>, clock: Instant)
    requires Sound(s, h) && !HasRow(s, claim.oldId) && !claim.disposition.Mapped?
    ensures var next := AppendRow(s.(lastMillis := StampNow(s, clock)), h, claim, created, clock);
            && Wrote(s, h, next, clock, claim.oldId, claim.reason, claim.provenance, claim.basis, claim.resolution,
                     claim.disposition)
            && Settled(s, next, claim.oldId, claim.disposition)
  {
    var stamped := s.(lastMillis := StampNow(s, clock));
    NoRowSound(s, h, stamped);
    AppendWrites(stamped, h, claim, created, clock);
    AppendSettles(stamped, h, claim, created, clock);
    SettledFrom(s, stamped, AppendRow(stamped, h, claim, created, clock), claim.oldId, claim.disposition);
  }

  /** And each of them is now an entity, as it was minted, beside every entity there was. */
  lemma {:induction false} SplitMints(
    s: Identity, h: Hash, from: string, created: seq<Entity>, reason: string, provenance: string, backing: Backing,
    cap: nat, clock: Instant)
    requires Sound(s, h) && Split(s, h, from, created, reason, provenance, backing, cap, clock).decision.Decided?
    requires forall i, j :: 0 <= i < j < |created| ==> created[i].id != created[j].id
    ensures var next := Split(s, h, from, created, reason, provenance, backing, cap, clock).state;
            && (forall i :: 0 <= i < |created| ==>
                  created[i].id in next.entities && next.entities[created[i].id] == created[i])
            && (forall id :: id in s.entities && id !in IdsOf(created) ==>
                  id in next.entities && next.entities[id] == s.entities[id])
  {
    var stamped := s.(lastMillis := StampNow(s, clock));
    forall i | 0 <= i < |created|
      ensures created[i].id in RememberAll(stamped, created).entities
      ensures RememberAll(stamped, created).entities[created[i].id] == created[i]
    {
      RememberedAsGiven(stamped, created, i);
    }
    forall id | id in s.entities && id !in IdsOf(created)
      ensures id in RememberAll(stamped, created).entities
      ensures RememberAll(stamped, created).entities[id] == s.entities[id]
    {
      OthersAsBefore(stamped, created, id);
    }
  }

  lemma {:induction false} OthersAsBefore(s: Identity, es: seq<Entity>, id: string)
    requires id in s.entities && id !in IdsOf(es)
    ensures id in RememberAll(s, es).entities && RememberAll(s, es).entities[id] == s.entities[id]
  {
    if es != [] {
      var n := |es| - 1;
      assert IdsOf(es) == IdsOf(es[..n]) + [es[n].id];
      OthersAsBefore(s, es[..n], id);
    }
  }

  lemma {:induction false} SettledFrom(s: Identity, stamped: Identity, next: Identity, from: string, d: Disposition)
    requires stamped == s.(lastMillis := stamped.lastMillis) && Settled(stamped, next, from, d)
    ensures Settled(s, next, from, d)
  {
    forall id: string, n: nat, cap: nat | LedElsewhere(s, next, from, id, n)
      ensures Resolution(next, id, cap) == Resolution(s, id, cap)
    {
      assert LedElsewhere(stamped, next, from, id, n);
    }
  }

  lemma {:induction false} RememberedAsGiven(s: Identity, es: seq<Entity>, i: nat)
    requires i < |es| && forall j, k :: 0 <= j < k < |es| ==> es[j].id != es[k].id
    ensures es[i].id in RememberAll(s, es).entities && RememberAll(s, es).entities[es[i].id] == es[i]
  {
    var n := |es| - 1;
    if i < n { RememberedAsGiven(s, es[..n], i); }
  }

  /** A mechanical row: written unless the id has one, and then the id resolves to what it says. */
  lemma {:induction false} DispositionMeans(
    s: Identity, h: Hash, oldId: string, kind: TerminalKind, reason: string, provenance: string, clock: Instant)
    requires Sound(s, h)
    ensures var o := RecordDisposition(s, h, oldId, kind, reason, provenance, clock);
            && (o.decision.Decided? <==> !HasRow(s, oldId)) && (!o.decision.Decided? ==> o.state == s)
            && (o.decision.Decided? ==>
                  Wrote(s, h, o.state, clock, oldId, reason, provenance, MechanicalMigration, None, Terminal(kind))
                  && o.decision.row == o.state.rows[|s.rows|] && Settled(s, o.state, oldId, Terminal(kind)))
  {
    RowsAreIndexed(s, h, oldId);
    var claim := Claim(oldId, reason, MechanicalMigration, provenance, None, Terminal(kind));
    AppendWrites(s, h, claim, [], clock);
    if !HasRow(s, oldId) { AppendSettles(s, h, claim, [], clock); }
  }

  lemma {:induction false} AssertionMappingMeans(
    s: Identity, h: Hash, oldId: string, a: nat, reason: string, provenance: string, clock: Instant)
    requires Sound(s, h)
    ensures var o := RecordAssertionMapping(s, h, oldId, a, reason, provenance, clock);
            && (o.decision.Decided? <==> !HasRow(s, oldId)) && (!o.decision.Decided? ==> o.state == s)
            && (o.decision.Decided? ==>
                  Wrote(s, h, o.state, clock, oldId, reason, provenance, MechanicalMigration, None, MappedAssertion(a))
                  && o.decision.row == o.state.rows[|s.rows|] && Settled(s, o.state, oldId, MappedAssertion(a)))
  {
    RowsAreIndexed(s, h, oldId);
    var claim := Claim(oldId, reason, MechanicalMigration, provenance, None, MappedAssertion(a));
    AppendWrites(s, h, claim, [], clock);
    if !HasRow(s, oldId) { AppendSettles(s, h, claim, [], clock); }
  }

  lemma {:induction false} FirstMissingIsFirst(entities: set<string>, candidates: seq<string>)
    ensures var r := FirstMissing(entities, candidates);
            && (r.None? <==> forall i :: 0 <= i < |candidates| ==> candidates[i] in entities)
            && (r.Some? ==> exists i :: 0 <= i < |candidates| && r == Some(candidates[i]) && candidates[i] !in entities
                                        && forall j :: 0 <= j < i ==> candidates[j] in entities)
  {
    if candidates != [] {
      FirstMissingIsFirst(entities, candidates[1..]);
      if candidates[0] !in entities {
        var i := 0;
        assert FirstMissing(entities, candidates) == Some(candidates[i]) && candidates[i] !in entities;
      } else if i :| 0 <= i < |candidates[1..]| && FirstMissing(entities, candidates[1..]) == Some(candidates[1..][i])
                     && candidates[1..][i] !in entities && forall j :: 0 <= j < i ==> candidates[1..][j] in entities
      {
        assert candidates[1..][i] == candidates[i + 1];
        assert forall j :: 0 < j < i + 1 ==> candidates[j] == candidates[1..][j - 1];
      }
    }
  }

  /** A split of existing entities: decided when there are two, the id has no row and every candidate is one. */
  lemma {:induction false} RecordSplitMeans(
    s: Identity, h: Hash, oldId: string, candidates: seq<string>, reason: string, provenance: string, clock: Instant)
    requires Sound(s, h)
    ensures var o := RecordSplit(s, h, oldId, candidates, reason, provenance, clock);
            var known := forall i :: 0 <= i < |candidates| ==> candidates[i] in s.entities;
            && (o.decision.Decided? <==> |candidates| >= 2 && !HasRow(s, oldId) && known)
            && (o.decision.NeedsTwoCandidates? <==> |candidates| < 2)
            && (o.decision.CandidateUnresolvable? <==> |candidates| >= 2 && !HasRow(s, oldId) && !known)
            && (o.decision.CandidateUnresolvable? ==>
                  exists i :: 0 <= i < |candidates| && o.decision.missing == candidates[i]
                              && candidates[i] !in s.entities
                              && forall j :: 0 <= j < i ==> candidates[j] in s.entities)
            && (!o.decision.Decided? ==> o.state == s)
            && (o.decision.Decided? ==>
                  Wrote(s, h, o.state, clock, oldId, reason, provenance, MechanicalMigration, None,
                        AmbiguousSplit(candidates))
                  && o.decision.row == o.state.rows[|s.rows|] && Settled(s, o.state, oldId, AmbiguousSplit(candidates)))
  {
    RowsAreIndexed(s, h, oldId);
    FirstMissingIsFirst(s.entities.Keys, candidates);
    var claim := Claim(oldId, reason, MechanicalMigration, provenance, None, AmbiguousSplit(candidates));
    AppendWrites(s, h, claim, [], clock);
    if !HasRow(s, oldId) { AppendSettles(s, h, claim, [], clock); }
  }

  // -------------------------------------------------------------- entities themselves

  /** Registering an entity makes it the one its id names, listed once, and changes no row and no other entity. */
  lemma {:induction false} RegisterMeans(s: Identity, h: Hash, e: Entity, clock: Instant, cap: nat)
    requires Sound(s, h)
    ensures var next := Register(s, e, clock);
            && next.entities == s.entities[e.id := e]
            && next.order == (if e.id in s.order then s.order else s.order + [e.id])
            && next.rows == s.rows && next.observations == s.observations
            && next.lastMillis > s.lastMillis && next.lastMillis >= clock
            && (next.lastMillis == clock || next.lastMillis == s.lastMillis + 1)
            && (!HasRow(s, e.id) ==> Resolution(next, e.id, cap) == Found([e.id]))
  {
    RowsAreIndexed(s, h, e.id);
    ResolutionAnswers(LinksOf(s.byOldId), Register(s, e, clock).entities.Keys, [e.id], cap);
  }

  /** A rename reaches an entity that no row has redirected, and changes what it says and when, nothing else. */
  lemma {:induction false} RenameMeans(s: Identity, h: Hash, id: string, content: string, clock: Instant)
    requires Sound(s, h)
    ensures var next := Rename(s, id, content, clock);
            && (id in s.entities && !HasRow(s, id) ==>
                  next.entities.Keys == s.entities.Keys && next.entities[id].content == content
                  && next.entities[id].id == id && next.entities[id].updatedAt > s.lastMillis
                  && next.entities[id].updatedAt >= clock
                  && (next.entities[id].updatedAt == clock || next.entities[id].updatedAt == s.lastMillis + 1)
                  && (forall other :: other in s.entities && other != id ==> next.entities[other] == s.entities[other])
                  && next == s.(entities := next.entities, lastMillis := next.entities[id].updatedAt))
            && (id !in s.entities || HasRow(s, id) ==> next == s)
  {
    RowsAreIndexed(s, h, id);
  }
}
