/**
 Finding the entity an observation already belongs to. The registry votes through
 an inverted index; it is proved to answer as a scan over every entity would, and
 an observation once accepted always finds its entity again.
 */
module ReimportMatching {
  import opened Wrappers
  import opened Sequences
  import opened AliasLedger
  import opened Redirects
  import opened IdentityRegistry
  import opened RegistryRuns

  // ------------------------------------------------------------------ the invariant

  /** No two entities were last observed so alike that one could be taken for the other. */
  ghost predicate Apart(observations: map<string, Observation>) {
    forall a, b :: a in observations && b in observations && a != b ==>
      |Agreement(observations[a], observations[b])| < THRESHOLD
  }

  /** Every latest observation has enough traits to be found by. */
  ghost predicate Findable(observations: map<string, Observation>) {
    forall id :: id in observations ==> |observations[id]| >= THRESHOLD
  }

  ghost predicate Matchable(s: Identity) {
    s.observations.Keys <= s.entities.Keys && Apart(s.observations) && Findable(s.observations)
  }

  lemma {:induction false} AgreesWithItself(o: Observation)
    ensures Agreement(o, o) == o.Keys && |o.Keys| == |o|
  {
  }

  lemma {:induction false} AgreementIsMutual(o: Observation, p: Observation)
    ensures Agreement(o, p) == Agreement(p, o)
  {
  }

  /** The entity an accepted observation was filed under. */
  function AcceptedAs(m: Match): Option<string> {
    match m
    case CarriedForward(id, _) => Some(id)
    case Minted(id) => Some(id)
    case _ => None
  }

  /** Acceptance files the observation under one entity, and before it nobody else matched. */
  lemma {:induction false} Acceptance(s: Identity, o: Observation, minted: Entity, clock: Instant)
    requires s.observations.Keys <= s.entities.Keys
    ensures var r := ResolveOrMint(s, o, minted, clock);
            match AcceptedAs(r.outcome)
            case None => r.state == s
            case Some(id) =>
              && |o| >= THRESHOLD && r.state.observations == s.observations[id := o] && id in r.state.entities
              && s.entities.Keys <= r.state.entities.Keys && Matching(s, o) <= {id}
  {
    var candidates := Matching(s, o);
    if |o| >= THRESHOLD && |candidates| <= 1 && candidates != {} {
      var e :| e in candidates;
      AtMostOne(candidates, e);
      assert e in s.entities;
    }
  }

  /** Filing an observation nobody else matches keeps entities apart. */
  lemma {:induction false} FilingKeepsApart(s: Identity, o: Observation, id: string)
    requires Apart(s.observations) && Matching(s, o) <= {id}
    ensures Apart(s.observations[id := o])
  {
    var after := s.observations[id := o];
    forall e | e in s.observations && e != id ensures |Agreement(s.observations[e], o)| < THRESHOLD {
      assert e !in Matching(s, o);
    }
    forall a, b | a in after && b in after && a != b ensures |Agreement(after[a], after[b])| < THRESHOLD {
      AgreementIsMutual(after[a], after[b]);
    }
  }

  lemma {:induction false} RememberKeepsObservations(s: Identity, es: seq<Entity>)
    ensures RememberAll(s, es).observations == s.observations
  {
    if es != [] { RememberKeepsObservations(s, es[..|es| - 1]); }
  }

  lemma {:induction false} StepKeepsObservations(s: Identity, h: Hash, cap: nat, op: RegistryOp)
    requires !op.DoObserve?
    ensures Step(s, h, cap, op).observations == s.observations
  {
    RememberKeepsObservations(s, []);
    if op.DoSplit? { RememberKeepsObservations(s.(lastMillis := StampNow(s, op.clock)), op.created); }
  }

  /** Every registry operation keeps entities apart and findable, observing included. */
  lemma {:induction false} StepKeepsApart(s: Identity, h: Hash, cap: nat, op: RegistryOp)
    requires Sound(s, h) && Matchable(s)
    ensures Sound(Step(s, h, cap, op), h) && Matchable(Step(s, h, cap, op))
  {
    StepSound(s, h, cap, op);
    if op.DoObserve? {
      ObserveKeepsApart(s, op.observation, op.entity, op.clock);
    } else {
      StepKeepsObservations(s, h, cap, op);
    }
  }

  lemma {:induction false} ObserveKeepsApart(s: Identity, o: Observation, minted: Entity, clock: Instant)
    requires Matchable(s)
    ensures Matchable(ResolveOrMint(s, o, minted, clock).state)
  {
    Acceptance(s, o, minted, clock);
    var id := AcceptedAs(ResolveOrMint(s, o, minted, clock).outcome);
    if id.Some? { FilingKeepsApart(s, o, id.value); }
  }

  lemma {:induction false} RunKeepsApart(s: Identity, h: Hash, cap: nat, ops: seq<RegistryOp>)
    requires Sound(s, h) && Matchable(s)
    ensures Sound(Run(s, h, cap, ops), h) && Matchable(Run(s, h, cap, ops))
  {
    if ops != [] {
      RunKeepsApart(s, h, cap, ops[..|ops| - 1]);
      StepKeepsApart(Run(s, h, cap, ops[..|ops| - 1]), h, cap, ops[|ops| - 1]);
    }
  }

  // ------------------------------------------------------------------- what follows

  /** What an entity was last observed as, only that entity matches. */
  lemma {:induction false} OnlyItselfMatches(s: Identity, id: string)
    requires Matchable(s) && id in s.observations
    ensures Matching(s, s.observations[id]) == {id}
  {
    AgreesWithItself(s.observations[id]);
  }

  lemma {:induction false} LatestIsCarried(s: Identity, id: string, other: Entity, later: Instant)
    requires Matchable(s) && id in s.observations
    ensures var o := s.observations[id]; ResolveOrMint(s, o, other, later).outcome == CarriedForward(id, o.Keys)
  {
    OnlyItselfMatches(s, id);
    AgreesWithItself(s.observations[id]);
  }

  /**
   In every reachable registry, observing an entity again as it was last observed
   carries exactly that entity forward.
   */
  lemma {:induction false} LatestObservationFindsItsEntity(
    h: Hash, cap: nat, ops: seq<RegistryOp>, id: string, other: Entity, later: Instant)
    requires id in Run(EMPTY_REGISTRY, h, cap, ops).observations
    ensures var s := Run(EMPTY_REGISTRY, h, cap, ops);
            ResolveOrMint(s, s.observations[id], other, later).outcome == CarriedForward(id, s.observations[id].Keys)
  {
    EmptySound(h);
    RunKeepsApart(EMPTY_REGISTRY, h, cap, ops);
    LatestIsCarried(Run(EMPTY_REGISTRY, h, cap, ops), id, other, later);
  }

  /** A step that files an observation under this entity. */
  ghost predicate Reanchors(s: Identity, op: RegistryOp, id: string) {
    op.DoObserve? && AcceptedAs(ResolveOrMint(s, op.observation, op.entity, op.clock).outcome) == Some(id)
  }

  /** No step of the run files an observation under this entity. */
  ghost predicate LeavesAlone(s: Identity, h: Hash, cap: nat, ops: seq<RegistryOp>, id: string) {
    ops == [] ||
    (LeavesAlone(s, h, cap, ops[..|ops| - 1], id) && !Reanchors(Run(s, h, cap, ops[..|ops| - 1]), ops[|ops| - 1], id))
  }

  lemma {:induction false} StepLeavesAlone(s: Identity, h: Hash, cap: nat, op: RegistryOp, id: string)
    requires s.observations.Keys <= s.entities.Keys && id in s.observations && !Reanchors(s, op, id)
    ensures id in Step(s, h, cap, op).observations && Step(s, h, cap, op).observations[id] == s.observations[id]
  {
    if op.DoObserve? {
      Acceptance(s, op.observation, op.entity, op.clock);
    } else {
      StepKeepsObservations(s, h, cap, op);
    }
  }

  lemma {:induction false} RunLeavesAlone(s: Identity, h: Hash, cap: nat, ops: seq<RegistryOp>, id: string)
    requires Sound(s, h) && Matchable(s) && id in s.observations && LeavesAlone(s, h, cap, ops, id)
    ensures id in Run(s, h, cap, ops).observations && Run(s, h, cap, ops).observations[id] == s.observations[id]
  {
    if ops != [] {
      RunLeavesAlone(s, h, cap, ops[..|ops| - 1], id);
      RunKeepsApart(s, h, cap, ops[..|ops| - 1]);
      StepLeavesAlone(Run(s, h, cap, ops[..|ops| - 1]), h, cap, ops[|ops| - 1], id);
    }
  }

  /**
   Repeating an accepted observation returns the same entity after any run of
   registry operations, other observations included, that did not observe that
   entity as something else.
   */
  lemma {:induction false} RepeatFindsTheSame(
    h: Hash, cap: nat, before: seq<RegistryOp>, o: Observation, minted: Entity, clock: Instant,
    ops: seq<RegistryOp>, other: Entity, later: Instant)
    requires AcceptedAs(ResolveOrMint(Run(EMPTY_REGISTRY, h, cap, before), o, minted, clock).outcome).Some?
    requires LeavesAlone(
               ResolveOrMint(Run(EMPTY_REGISTRY, h, cap, before), o, minted, clock).state, h, cap, ops,
               AcceptedAs(ResolveOrMint(Run(EMPTY_REGISTRY, h, cap, before), o, minted, clock).outcome).value)
    ensures var r := ResolveOrMint(Run(EMPTY_REGISTRY, h, cap, before), o, minted, clock);
            var again := ResolveOrMint(Run(r.state, h, cap, ops), o, other, later).outcome;
            again == CarriedForward(AcceptedAs(r.outcome).value, o.Keys)
  {
    EmptySound(h);
    RunKeepsApart(EMPTY_REGISTRY, h, cap, before);
    RepeatFrom(Run(EMPTY_REGISTRY, h, cap, before), h, cap, o, minted, clock, ops, other, later);
  }

  lemma {:induction false} RepeatFrom(
    s: Identity, h: Hash, cap: nat, o: Observation, minted: Entity, clock: Instant,
    ops: seq<RegistryOp>, other: Entity, later: Instant)
    requires Sound(s, h) && Matchable(s) && AcceptedAs(ResolveOrMint(s, o, minted, clock).outcome).Some?
    requires LeavesAlone(ResolveOrMint(s, o, minted, clock).state, h, cap, ops,
                         AcceptedAs(ResolveOrMint(s, o, minted, clock).outcome).value)
    ensures var r := ResolveOrMint(s, o, minted, clock);
            ResolveOrMint(Run(r.state, h, cap, ops), o, other, later).outcome ==
            CarriedForward(AcceptedAs(r.outcome).value, o.Keys)
  {
    var r := ResolveOrMint(s, o, minted, clock);
    AcceptedState(s, h, o, minted, clock, r);
    CarriedLater(r.state, h, cap, AcceptedAs(r.outcome).value, ops, other, later);
  }

  lemma {:induction false} AcceptedState(
    s: Identity, h: Hash, o: Observation, minted: Entity, clock: Instant, r: MatchOutcome)
    requires Sound(s, h) && Matchable(s) && r == ResolveOrMint(s, o, minted, clock) && AcceptedAs(r.outcome).Some?
    ensures Sound(r.state, h) && Matchable(r.state) && AcceptedAs(r.outcome).value in r.state.observations
    ensures r.state.observations[AcceptedAs(r.outcome).value] == o
  {
    Acceptance(s, o, minted, clock);
    ObserveSound(s, h, o, minted, clock);
    ObserveKeepsApart(s, o, minted, clock);
  }

  lemma {:induction false} CarriedLater(
    s: Identity, h: Hash, cap: nat, id: string, ops: seq<RegistryOp>, other: Entity, later: Instant)
    requires Sound(s, h) && Matchable(s) && id in s.observations && LeavesAlone(s, h, cap, ops, id)
    ensures ResolveOrMint(Run(s, h, cap, ops), s.observations[id], other, later).outcome ==
            CarriedForward(id, s.observations[id].Keys)
  {
    RunLeavesAlone(s, h, cap, ops, id);
    RunKeepsApart(s, h, cap, ops);
    LatestIsCarried(Run(s, h, cap, ops), id, other, later);
  }

  // ------------------------------------------------------------- drifting away

  /*
   An entity observed as `FIRST`, then with two more traits, then with only those
   two: each step is within the threshold of the last, and the first observation
   is no longer within the threshold of what the entity has become.
   */

  const FIRST: Observation := map[SourcePath := "a", TextDigest := "t"]
  const SECOND: Observation := map[SourcePath := "a", TextDigest := "t", BlockOrdinal := "5", IdProperty := "p"]
  const THIRD: Observation := map[BlockOrdinal := "5", IdProperty := "p"]

  function Named(id: string): Entity { Entity(id, "", 0) }

  lemma {:induction false} DriftAgreement()
    ensures Agreement(FIRST, SECOND) == {SourcePath, TextDigest} && |Agreement(FIRST, SECOND)| == 2
    ensures Agreement(SECOND, THIRD) == {BlockOrdinal, IdProperty} && |Agreement(SECOND, THIRD)| == 2
    ensures Agreement(THIRD, FIRST) == {} && |FIRST| == |THIRD| == 2 && |SECOND| == 4
  {
    assert FIRST.Keys == {SourcePath, TextDigest} && THIRD.Keys == {BlockOrdinal, IdProperty};
    assert SECOND.Keys == {SourcePath, TextDigest, BlockOrdinal, IdProperty};
    assert |FIRST| == |FIRST.Keys| && |SECOND| == |SECOND.Keys| && |THIRD| == |THIRD.Keys|;
  }

  lemma {:induction false} OneEntityMatches(s: Identity, o: Observation, p: Observation, minted: Entity, clock: Instant)
    requires s.observations == map["e" := o] && "e" in s.entities && |p| >= THRESHOLD && |Agreement(o, p)| >= THRESHOLD
    ensures var r := ResolveOrMint(s, p, minted, clock);
            r.outcome == CarriedForward("e", Agreement(o, p)) && r.state.observations == map["e" := p]
              && "e" in r.state.entities
  {
    assert Matching(s, p) == {"e"};
  }

  lemma {:induction false} NobodyMatches(s: Identity, p: Observation, minted: Entity, clock: Instant)
    requires |p| >= THRESHOLD && Matching(s, p) == {}
    ensures var r := ResolveOrMint(s, p, minted, clock);
            r.outcome == Minted(minted.id) && r.state.observations == s.observations[minted.id := p]
              && minted.id in r.state.entities
  {
  }

  /** After each of the three observations. */
  ghost const ONCE: Identity := ResolveOrMint(EMPTY_REGISTRY, FIRST, Named("e"), 1).state
  ghost const TWICE: Identity := ResolveOrMint(ONCE, SECOND, Named("x"), 2).state
  ghost const THRICE: Identity := ResolveOrMint(TWICE, THIRD, Named("y"), 3).state

  const DRIFT: seq<RegistryOp> :=
    [DoObserve(FIRST, Named("e"), 1), DoObserve(SECOND, Named("x"), 2), DoObserve(THIRD, Named("y"), 3)]

  lemma {:induction false} SeenOnce()
    ensures ONCE.observations == map["e" := FIRST] && "e" in ONCE.entities
  {
    DriftAgreement();
    assert Matching(EMPTY_REGISTRY, FIRST) == {};
    NobodyMatches(EMPTY_REGISTRY, FIRST, Named("e"), 1);
  }

  lemma {:induction false} SeenThrice()
    ensures THRICE.observations == map["e" := THIRD]
  {
    SeenOnce();
    DriftAgreement();
    OneEntityMatches(ONCE, FIRST, SECOND, Named("x"), 2);
    OneEntityMatches(TWICE, SECOND, THIRD, Named("y"), 3);
  }

  lemma {:induction false} NoLongerMatches(s: Identity)
    requires s.observations == map["e" := THIRD]
    ensures Matching(s, FIRST) == {}
  {
    DriftAgreement();
  }

  lemma {:induction false} Observing(s: Identity, h: Hash, cap: nat, o: Observation, e: Entity, clock: Instant)
    ensures Step(s, h, cap, DoObserve(o, e, clock)) == ResolveOrMint(s, o, e, clock).state
  {
  }

  lemma {:induction false} DriftRun(h: Hash, cap: nat)
    ensures Run(EMPTY_REGISTRY, h, cap, DRIFT) == THRICE
  {
    RunOfThree(EMPTY_REGISTRY, h, cap, DRIFT);
    Observing(EMPTY_REGISTRY, h, cap, FIRST, Named("e"), 1);
    Observing(ONCE, h, cap, SECOND, Named("x"), 2);
    Observing(TWICE, h, cap, THIRD, Named("y"), 3);
  }

  /** The witness: observed away in two accepted steps, the first observation mints a second entity. */
  lemma {:induction false} ReanchoredAway(h: Hash, cap: nat)
    ensures var s := Run(EMPTY_REGISTRY, h, cap, DRIFT);
            && "e" in s.observations && s.observations["e"] == THIRD
            && ResolveOrMint(s, FIRST, Named("z"), 4).outcome == Minted("z")
  {
    DriftRun(h, cap);
    SeenThrice();
    NoLongerMatches(THRICE);
    assert |FIRST| >= THRESHOLD by { DriftAgreement(); }
    NobodyMatches(THRICE, FIRST, Named("z"), 4);
  }

  lemma {:induction false} RunOfThree(s: Identity, h: Hash, cap: nat, ops: seq<RegistryOp>)
    requires |ops| == 3
    ensures Run(s, h, cap, ops) == Step(Step(Step(s, h, cap, ops[0]), h, cap, ops[1]), h, cap, ops[2])
  {
    assert ops[..2][..1] == ops[..1] && ops[..1][..0] == [];
    assert Run(s, h, cap, []) == s;
    assert Run(s, h, cap, ops[..1]) == Step(s, h, cap, ops[0]);
    assert Run(s, h, cap, ops[..2]) == Step(Run(s, h, cap, ops[..1]), h, cap, ops[1]);
  }

  // --------------------------------------------------------------- every outcome

  /** Two observations share two different traits or more. */
  ghost predicate ShareTwo(o: Observation, p: Observation) {
    exists t, u :: t != u && t in o && t in p && o[t] == p[t] && u in o && u in p && o[u] == p[u]
  }

  lemma {:induction false} TwoOrMore<T>(xs: set<T>)
    ensures |xs| >= 2 <==> exists t, u :: t != u && t in xs && u in xs
  {
    if |xs| >= 2 {
      var t :| t in xs;
      var rest := xs - {t};
      assert |rest| == |xs| - 1;
      var u :| u in rest;
    }
    if t, u :| t != u && t in xs && u in xs {
      assert {t, u} <= xs;
      Within({t, u}, xs);
    }
  }

  lemma {:induction false} Within<T>(some: set<T>, all: set<T>)
    requires some <= all
    ensures |some| <= |all|
  {
    assert all == some + (all - some);
  }

  lemma {:induction false} SharesByCount(o: Observation, p: Observation)
    ensures |Agreement(o, p)| >= THRESHOLD <==> ShareTwo(o, p)
  {
    TwoOrMore(Agreement(o, p));
    if t, u :| t != u && t in o && t in p && o[t] == p[t] && u in o && u in p && o[u] == p[u] {
      assert t in Agreement(o, p) && u in Agreement(o, p);
    }
  }

  ghost predicate Resembles(s: Identity, o: Observation, id: string) {
    id in s.observations && ShareTwo(s.observations[id], o)
  }

  lemma {:induction false} MatchingResembles(s: Identity, o: Observation, id: string)
    ensures id in Matching(s, o) <==> Resembles(s, o, id)
  {
    if id in s.observations { SharesByCount(s.observations[id], o); }
  }

  /** Belief time moved to the clock, or just past where it was. */
  ghost predicate Moved(s: Identity, next: Identity, clock: Instant) {
    && next.lastMillis > s.lastMillis && next.lastMillis >= clock
    && (next.lastMillis == clock || next.lastMillis == s.lastMillis + 1)
  }

  /**
   What an observation comes to: refused with fewer than two traits; refused by name
   where two entities or more resemble it; carried to the one that does, with the
   traits they share; and otherwise a new entity. Whoever it is filed under was last
   observed as it, and nobody else as anything new.
   */
  lemma {:induction false} ObservationOutcome(s: Identity, h: Hash, o: Observation, minted: Entity, clock: Instant)
    requires Sound(s, h)
    ensures var r := ResolveOrMint(s, o, minted, clock);
            match r.outcome
            case Underspecified => !(exists t, u :: t != u && t in o && u in o) && r.state == s
            case AmbiguousMatch(candidates) =>
              && (exists a, b :: a != b && Resembles(s, o, a) && Resembles(s, o, b))
              && (forall e :: e in candidates <==> Resembles(s, o, e)) && r.state == s
            case CarriedForward(id, traits) =>
              && (forall e :: Resembles(s, o, e) <==> e == id)
              && (forall t :: t in traits <==>
                    t in o && t in s.observations[id] && o[t] == s.observations[id][t])
              && r.state == s.(observations := s.observations[id := o], lastMillis := r.state.lastMillis)
              && Moved(s, r.state, clock)
            case Minted(id) =>
              && (forall e :: !Resembles(s, o, e)) && id == minted.id
              && (exists t, u :: t != u && t in o && u in o)
              && r.state.entities == s.entities[id := minted] && r.state.observations == s.observations[id := o]
              && r.state.rows == s.rows && Moved(s, r.state, clock)
  {
    var r := ResolveOrMint(s, o, minted, clock);
    forall e ensures e in Matching(s, o) <==> Resembles(s, o, e) { MatchingResembles(s, o, e); }
    TwoOrMore(Matching(s, o));
    TwoOrMore(o.Keys);
    assert |o| == |o.Keys|;
    EmptyOrSome(Matching(s, o));
  }

  lemma {:induction false} EmptyOrSome(xs: set<string>)
    ensures |xs| <= 1 ==> xs == {} || exists x :: xs == {x}
  {
    if |xs| == 1 {
      var x :| x in xs;
      AtMostOne(xs, x);
    }
  }
}
