/**
 What a query answers, said of the assertions themselves: which of them are hits,
 in which order, and what every count counts. Nothing here goes through the
 operation's own predicates.
 */
module QueryMeaning {
  import opened Wrappers
  import opened Sequences
  import opened WorldTime
  import opened LogRecords
  import opened Store

  /** The filters asked for; one left out or empty asks nothing. */
  ghost predicate Asked(q: Query, a: Assertion) {
    && (q.subject.Some? && q.subject.value != "" ==> a.subject == q.subject.value)
    && (q.relation.Some? && q.relation.value != "" ==> a.relation == q.relation.value)
  }

  /** Learned by the instant asked for, and not yet given up by it; without an instant, not given up at all. */
  ghost predicate Held(q: Query, a: Assertion) {
    && (q.asOfRecorded.Some? ==> a.recordedAt <= q.asOfRecorded.value)
    && (q.includeSuperseded || a.supersededAt.None?
        || (q.asOfRecorded.Some? && q.asOfRecorded.value < a.supersededAt.value))
  }

  ghost predicate Wanted(q: Query, a: Assertion) {
    && Asked(q, a) && Held(q, a)
    && (q.asOfValid.Some? ==> IntervalContains(a.validTime, q.asOfValid.value).Matches?)
  }

  /** How much world time an interval carries. */
  ghost predicate Carries(i: Interval, f: Fidelity) {
    && (f.AbsentTime? <==> i.from.None? && i.to.None?)
    && (f.UnknownTime? <==> i.from == Some(Unknown) || i.to == Some(Unknown))
    && (f.ApproximateTime? ==> exists v :: i.from == Some(Approximate(v)) || i.to == Some(Approximate(v)))
    && (f.ExactTime? ==> forall v :: i.from != Some(Approximate(v)) && i.to != Some(Approximate(v)))
  }

  /** A hit is the assertion as it stands, with its fidelity and, where a date was asked for, how it matched. */
  ghost predicate Describes(q: Query, a: Assertion, h: Hit) {
    && h.assertion == a && Carries(a.validTime, h.fidelity)
    && (q.asOfValid.None? ==> h.quality.None?)
    && (q.asOfValid.Some? ==>
          h.quality.Some? && IntervalContains(a.validTime, q.asOfValid.value) == Matches(h.quality.value))
  }

  ghost predicate Climbs(rows: seq<nat>) {
    forall j, k :: 0 <= j < k < |rows| ==> rows[j] < rows[k]
  }

  /** These rows of the log, in order, are the wanted ones, and the hits describe them one by one. */
  ghost predicate Answers(q: Query, assertions: seq<Assertion>, rows: seq<nat>, hits: seq<Hit>) {
    && Climbs(rows) && |hits| == |rows|
    && (forall i: nat :: i in rows <==> i < |assertions| && Wanted(q, assertions[i]))
    && (forall k :: 0 <= k < |rows| ==> rows[k] < |assertions| && Describes(q, assertions[rows[k]], hits[k]))
  }

  lemma {:induction false} HitDescribes(q: Query, a: Assertion)
    ensures Visible(q, a) <==> Wanted(q, a)
    ensures Visible(q, a) ==> Describes(q, a, HitFor(q, a))
  {
    var i := a.validTime;
    if i.from.Some? && i.from.value.Approximate? { assert i.from == Some(Approximate(i.from.value.value)); }
    if i.to.Some? && i.to.value.Approximate? { assert i.to == Some(Approximate(i.to.value.value)); }
  }

  lemma {:induction false} HitRows(q: Query, assertions: seq<Assertion>) returns (rows: seq<nat>)
    ensures Answers(q, assertions, rows, Hits(q, assertions))
  {
    if assertions == [] {
      rows := [];
    } else {
      var n := |assertions| - 1;
      rows := HitRows(q, assertions[..n]);
      HitDescribes(q, assertions[n]);
      if Visible(q, assertions[n]) {
        OneMoreRow(q, assertions, rows, Hits(q, assertions[..n]), HitFor(q, assertions[n]));
        rows := rows + [n];
      }
    }
  }

  lemma {:induction false} OneMoreRow(q: Query, assertions: seq<Assertion>, rows: seq<nat>, hits: seq<Hit>, h: Hit)
    requires assertions != [] && Answers(q, assertions[..|assertions| - 1], rows, hits)
    requires Wanted(q, assertions[|assertions| - 1]) && Describes(q, assertions[|assertions| - 1], h)
    ensures Answers(q, assertions, rows + [|assertions| - 1], hits + [h])
  {
    var n := |assertions| - 1;
    forall i: nat ensures i in rows + [n] <==> i < |assertions| && Wanted(q, assertions[i]) {
      assert i in rows <==> i < n && Wanted(q, assertions[..n][i]);
    }
    forall k | 0 <= k < |rows| ensures rows[k] < n { assert rows[k] in rows; }
  }

  // ------------------------------------------------------------------------ counts

  /** How many places of a list hold something with a property. */
  ghost function Tally<T>(xs: seq<T>, p: T -> bool): nat {
    |set i | 0 <= i < |xs| && p(xs[i])|
  }

  lemma {:induction false} TallyLast<T>(xs: seq<T>, p: T -> bool)
    ensures xs == [] ==> Tally(xs, p) == 0
    ensures xs != [] ==>
              Tally(xs, p) == Tally(xs[..|xs| - 1], p) + if p(xs[|xs| - 1]) then 1 else 0
  {
    var all := set i | 0 <= i < |xs| && p(xs[i]);
    if xs == [] {
      assert all == {};
    } else {
      var n := |xs| - 1;
      var front := xs[..n];
      var before := set i | 0 <= i < |front| && p(front[i]);
      assert all == if p(xs[n]) then before + {n} else before;
    }
  }

  lemma {:induction false} CountsAsked(q: Query, assertions: seq<Assertion>)
    ensures CountEvaluated(q, assertions) == Tally(assertions, (a: Assertion) => Asked(q, a))
  {
    TallyLast(assertions, (a: Assertion) => Asked(q, a));
    if assertions != [] { CountsAsked(q, assertions[..|assertions| - 1]); }
  }

  ghost predicate CarriesTime(h: Hit) {
    h.fidelity.ExactTime? || h.fidelity.ApproximateTime?
  }

  lemma {:induction false} CountsHits(hits: seq<Hit>)
    ensures CountWithheld(hits) == Tally(hits, (h: Hit) => h.assertion.withheld)
    ensures CountWithValidTime(hits) == Tally(hits, CarriesTime)
  {
    TallyLast(hits, (h: Hit) => h.assertion.withheld);
    TallyLast(hits, CarriesTime);
    if hits != [] { CountsHits(hits[..|hits| - 1]); }
  }

  // ------------------------------------------------------------------- the theorem

  /** A read before the history floor is refused and told the floor; every other is answered. */
  lemma {:induction false} RefusedExactlyBelowFloor(s: LogState, q: Query)
    ensures RunQuery(s, q).BeforeHistoryFloor? <==> q.asOfRecorded.Some? && q.asOfRecorded.value < s.floor
    ensures RunQuery(s, q).BeforeHistoryFloor? ==> RunQuery(s, q).since == s.floor
  {
  }

  /**
   The hits of a query are exactly the wanted assertions, each once, in log order, and
   every count is a count of rows: evaluated the ones asked for, matched the hits,
   withheld and with valid time the hits that are so. Present, past, and with or
   without superseded records.
   */
  lemma {:induction false} QueryAnswers(s: LogState, q: Query) returns (rows: seq<nat>)
    requires q.asOfRecorded.Some? ==> s.floor <= q.asOfRecorded.value
    ensures RunQuery(s, q).Answer?
    ensures var page := RunQuery(s, q).page;
            && Answers(q, s.assertions, rows, page.hits) && page.matched == |rows|
            && page.evaluated == Tally(s.assertions, (a: Assertion) => Asked(q, a))
            && page.withheld == Tally(page.hits, (h: Hit) => h.assertion.withheld)
            && page.withValidTime == Tally(page.hits, CarriesTime)
            && page.unknownOrAbsentValidTime == |rows| - page.withValidTime
            && (page.fidelityMixed <==>
                  exists j, k :: 0 <= j < |rows| && 0 <= k < |rows|
                                 && page.hits[j].assertion.fidelity != page.hits[k].assertion.fidelity)
            && page.floor == s.floor && page.epoch == s.epoch
  {
    rows := HitRows(q, s.assertions);
    var hits := Hits(q, s.assertions);
    CountsAsked(q, s.assertions);
    CountsHits(hits);
    MixedMeansDiffering(hits);
  }

  lemma {:induction false} MixedMeansDiffering(hits: seq<Hit>)
    ensures MixesFidelity(hits) <==>
            exists j, k :: 0 <= j < |hits| && 0 <= k < |hits|
                           && hits[j].assertion.fidelity != hits[k].assertion.fidelity
  {
    if j, k :| 0 <= j < |hits| && 0 <= k < |hits| && hits[j].assertion.fidelity != hits[k].assertion.fidelity {
      assert hits[j] in hits && hits[k] in hits;
    }
  }
}
