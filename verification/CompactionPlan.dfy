/**
 `compact` as it runs: one pass over the scanned segments deciding which to
 refuse, then one over those left, collecting what must be announced and carried.
 */
module CompactionPlan {
  import opened Wrappers
  import opened Sequences
  import opened LogRecords
  import opened Store
  import opened SegmentScan
  import opened Recovery
  import opened LogWorld
  import opened LogInvariant
  import opened Appending
  import CommitSteps

  datatype RefusedSegment = RefusedSegment(segment: int, reason: Refusal)

  /** Every refused segment, in order, with the first rule that refused it. */
  function RefusedAmong(disk: seq<LogSegment>, live: LogState, n: nat): seq<RefusedSegment>
    requires disk != [] && n <= |disk|
  {
    if n == 0 then []
    else
      var v := Verdict(disk, disk[n - 1], live.published, live.floor, disk[|disk| - 1].ordinal);
      RefusedAmong(disk, live, n - 1) + if v.Some? then [RefusedSegment(disk[n - 1].ordinal, v.value)] else []
  }

  predicate UniqueIds(bodies: seq<Assertion>) {
    forall i, j :: 0 <= i < j < |bodies| ==> bodies[i].id != bodies[j].id
  }

  /** When each scanned assertion stopped being believed, by id. */
  method EndsById(disk: seq<LogSegment>) returns (ends: map<AssertionId, Option<Instant>>)
    requires UniqueIds(Bodies(Flat(disk)))
    ensures forall a :: a in Bodies(Flat(disk)) ==> a.id in ends && ends[a.id] == ScannedEnd(disk, a)
  {
    var bodies := Bodies(Flat(disk));
    var scanned := ApplyStamps(bodies, Stamps(Flat(disk)));
    ends := map[];
    for i := 0 to |scanned|
      invariant forall k :: 0 <= k < i ==> bodies[k].id in ends && ends[bodies[k].id] == ScannedEnd(disk, bodies[k])
    {
      assert scanned[i].id == bodies[i].id;
      ends := ends[scanned[i].id := scanned[i].supersededAt];
    }
  }

  /** One segment against the rules, in the order they are checked. */
  method Judge(
    disk: seq<LogSegment>, s: LogSegment, live: LogState, active: int, ends: map<AssertionId, Option<Instant>>)
    returns (v: Option<Refusal>)
    requires forall a :: a in Bodies(s.lines) ==> a.id in ends && ends[a.id] == ScannedEnd(disk, a)
    ensures v == Verdict(disk, s, live.published, live.floor, active)
    ensures v.None? <==>
            && s.ordinal != active && (forall r :: r in s.lines ==> !r.Repair?)
            && forall a :: a in Bodies(s.lines) ==>
                 a.seqNo <= live.published && ends[a.id].Some? && ends[a.id].value <= live.floor
  {
    if s.ordinal == active { return Some(ActiveSegment); }
    if exists r :: r in s.lines && r.Repair? { return Some(HoldsRepair); }
    var bodies := Bodies(s.lines);
    if exists a :: a in bodies && a.seqNo > live.published { return Some(AboveWatermark); }
    var believed, withinFloor := 0, 0;
    for i := 0 to |bodies|
      invariant believed >= 0 && withinFloor >= 0
      invariant believed > 0 <==> exists k :: 0 <= k < i && ScannedEnd(disk, bodies[k]).None?
      invariant withinFloor > 0 <==>
                exists k :: 0 <= k < i && ScannedEnd(disk, bodies[k]).Some?
                  && ScannedEnd(disk, bodies[k]).value > live.floor
    {
      var end := ends[bodies[i].id];
      if end.None? { believed := believed + 1; }
      else if end.value > live.floor { withinFloor := withinFloor + 1; }
    }
    if believed > 0 { return Some(StillBelieved); }
    if withinFloor > 0 { return Some(WithinFloor); }
    return None;
  }

  /** The first pass: candidates and refusals, each in segment order. */
  method Select(disk: seq<LogSegment>, live: LogState)
    returns (candidates: seq<LogSegment>, refused: seq<RefusedSegment>)
    requires disk != [] && UniqueIds(Bodies(Flat(disk)))
    ensures candidates == Candidates(disk, live) && refused == RefusedAmong(disk, live, |disk|)
  {
    var ends := EndsById(disk);
    candidates, refused := [], [];
    for n := 0 to |disk|
      invariant candidates == CandidatesAmong(disk, live, n) && refused == RefusedAmong(disk, live, n)
    {
      forall a | a in Bodies(disk[n].lines) ensures a in Bodies(Flat(disk)) { FlatBody(disk, n, a); }
      var v := Judge(disk, disk[n], live, disk[|disk| - 1].ordinal, ends);
      if v.Some? { refused := refused + [RefusedSegment(disk[n].ordinal, v.value)]; }
      else { candidates := candidates + [disk[n]]; }
    }
  }

  lemma {:induction false} FlatBody(disk: seq<LogSegment>, n: nat, a: Assertion)
    requires n < |disk| && a in Bodies(disk[n].lines)
    ensures a in Bodies(Flat(disk))
  {
    FlatMapMember(disk[n].lines, BodiesIn, a);
    var r :| r in disk[n].lines && a in BodiesIn(r);
    FlatMapMember(disk, LinesIn, r);
    assert disk[n] in disk;
    FlatMapMember(Flat(disk), BodiesIn, a);
  }

  // ------------------------------------------------------------------ the second pass

  lemma {:induction false} NextSegment(segments: seq<LogSegment>, i: nat)
    requires i < |segments|
    ensures Bodies(Flat(segments[..i + 1])) == Bodies(Flat(segments[..i])) + Bodies(segments[i].lines)
    ensures Receipts(Flat(segments[..i + 1])) == Receipts(Flat(segments[..i])) + Receipts(segments[i].lines)
  {
    assert segments[..i + 1] == segments[..i] + [segments[i]];
    FlatSnoc(segments[..i], segments[i]);
    FlatMapConcat(Flat(segments[..i]), segments[i].lines, BodiesIn);
    FlatMapConcat(Flat(segments[..i]), segments[i].lines, ReceiptsIn);
  }

  lemma {:induction false} IdsConcat(xs: seq<Assertion>, ys: seq<Assertion>)
    ensures Ids(xs + ys) == Ids(xs) + Ids(ys) && SeqNos(xs + ys) == SeqNos(xs) + SeqNos(ys)
  {
  }

  lemma {:induction false} SubmissionsConcat(xs: seq<Receipt>, ys: seq<Receipt>)
    ensures Submissions(xs + ys) == Submissions(xs) + Submissions(ys)
  {
  }

  /** One segment's notes, added to those so far. */
  method NoteSegment(bodies: seq<Assertion>, ordinal: int, clock: Instant, notes: map<AssertionId, Note>)
    returns (more: map<AssertionId, Note>, ids: seq<AssertionId>, seqNos: seq<int>)
    ensures more == notes + SegmentNotes(bodies, ordinal, clock) && ids == Ids(bodies) && seqNos == SeqNos(bodies)
  {
    more, ids, seqNos := notes, [], [];
    assert bodies[..0] == [];
    for i := 0 to |bodies|
      invariant more == notes + SegmentNotes(bodies[..i], ordinal, clock)
      invariant ids == Ids(bodies[..i]) && seqNos == SeqNos(bodies[..i])
    {
      assert bodies[..i + 1][..i] == bodies[..i];
      ids, seqNos := ids + [bodies[i].id], seqNos + [bodies[i].seqNo];
      more := more[bodies[i].id := Note(bodies[i].seqNo, clock, ordinal)];
    }
    assert bodies[..|bodies|] == bodies;
  }

  /** Everything the candidates hold that has to be announced. */
  method Announce(candidates: seq<LogSegment>, clock: Instant)
    returns (notes: map<AssertionId, Note>, ids: seq<AssertionId>, seqNos: seq<int>)
    ensures notes == ReclamationNotes(candidates, clock)
    ensures ids == Ids(Bodies(Flat(candidates))) && seqNos == SeqNos(Bodies(Flat(candidates)))
  {
    notes, ids, seqNos := map[], [], [];
    assert candidates[..0] == [];
    for i := 0 to |candidates|
      invariant notes == ReclamationNotes(candidates[..i], clock)
      invariant ids == Ids(Bodies(Flat(candidates[..i]))) && seqNos == SeqNos(Bodies(Flat(candidates[..i])))
    {
      var moreIds, moreSeqs;
      notes, moreIds, moreSeqs := NoteSegment(Bodies(candidates[i].lines), candidates[i].ordinal, clock, notes);
      assert candidates[..i + 1][..i] == candidates[..i];
      NextSegment(candidates, i);
      IdsConcat(Bodies(Flat(candidates[..i])), Bodies(candidates[i].lines));
      ids, seqNos := ids + moreIds, seqNos + moreSeqs;
    }
    assert candidates[..|candidates|] == candidates;
  }

  /** Every receipt the candidates hold, carried forward. */
  method CarryReceipts(candidates: seq<LogSegment>) returns (carried: seq<Record>)
    ensures carried == Submissions(Receipts(Flat(candidates)))
  {
    carried := [];
    assert candidates[..0] == [];
    for i := 0 to |candidates|
      invariant carried == Submissions(Receipts(Flat(candidates[..i])))
    {
      NextSegment(candidates, i);
      SubmissionsConcat(Receipts(Flat(candidates[..i])), Receipts(candidates[i].lines));
      carried := carried + Submissions(Receipts(candidates[i].lines));
    }
    assert candidates[..|candidates|] == candidates;
  }

  /** The highest seq and the highest belief instant the scan saw. */
  method HighMarks(disk: seq<LogSegment>, floor: Instant) returns (highSeq: int, highRecordedAt: Instant)
    ensures highSeq == HighSeq(Flat(disk)) && highRecordedAt == Highest(RecordedAts(Bodies(Flat(disk))), floor)
  {
    var bodies := Bodies(Flat(disk));
    var restoredSeq := HighSeq(Flat(disk));
    highSeq, highRecordedAt := 0, floor;
    assert RecordedAts(bodies)[..0] == [];
    for i := 0 to |bodies|
      invariant highRecordedAt == Highest(RecordedAts(bodies)[..i], floor) && 0 <= highSeq <= restoredSeq
    {
      assert RecordedAts(bodies)[..i + 1][..i] == RecordedAts(bodies)[..i];
      CommitSteps.BodySeqBounded(Flat(disk), bodies[i]);
      if bodies[i].seqNo > highSeq { highSeq := bodies[i].seqNo; }
      if bodies[i].recordedAt > highRecordedAt { highRecordedAt := bodies[i].recordedAt; }
    }
    assert RecordedAts(bodies)[..|bodies|] == RecordedAts(bodies);
    highSeq := Max(highSeq, restoredSeq);
  }

  /** The whole plan: exactly the group, the doomed segments and the notes the compaction step of the log uses. */
  method Plan(disk: seq<LogSegment>, live: LogState, clock: Instant)
    returns (doomed: seq<LogSegment>, refused: seq<RefusedSegment>, group: seq<Record>, notes: map<AssertionId, Note>)
    requires disk != [] && UniqueIds(Bodies(Flat(disk)))
    ensures doomed == Candidates(disk, live) && refused == RefusedAmong(disk, live, |disk|)
    ensures doomed == [] ==> group == [] && notes == map[]
    ensures doomed != [] ==>
            group == CompactionGroup(disk, live, doomed, clock) && notes == ReclamationNotes(doomed, clock)
  {
    doomed, refused := Select(disk, live);
    if doomed == [] { return doomed, refused, [], map[]; }
    var highSeq, highRecordedAt := HighMarks(disk, live.floor);
    var ids, seqNos;
    notes, ids, seqNos := Announce(doomed, clock);
    var carried := CarryReceipts(doomed);
    group := carried +
      [Compaction(clock, Ordinals(doomed), ids, seqNos, highSeq, highRecordedAt, live.published, live.floor)];
  }
}
