/**
 A short run of ordinary operations after which the feed of the reopened log
 silently skips a change. The record of a compaction is alone in its segment; a
 segment with no assertions in it passes every rule, so the next compaction
 reclaims it, and with it goes all the log knew of what the first one dropped.
 */
module SilentGap {
  import opened Wrappers
  import opened Sequences
  import opened LogRecords
  import opened Store
  import opened SegmentScan
  import opened Recovery
  import opened LogWorld
  import opened Appending
  import opened LogInvariant
  import opened CommitSteps
  import opened Unlinking
  import opened CompactionSteps
  import opened LogRuns
  import opened Reopening
  import opened CompactedReopening
  import opened SyncedRuns
  import opened LostStamps
  import opened LostNotes
  import opened Feed
  import opened FeedReopening

  /** After the first compaction, whose record rolls to a segment of its own. */
  const ALONE: LogSegment := Segment(3, Head(3) + GROUP)

  ghost const U4: World := World([T2, ALONE], V4.live, V3.used, V3.history)

  /** After a floor advance, which rolls once more. */
  const ACTIVE: LogSegment := Segment(4, Head(4) + [HistoryFloor(101, 4)])

  ghost const U5: World := World([T2, ALONE, ACTIVE], V4.live.(floor := 101, lastMillis := 4), U4.used, U4.history)

  const ADVANCE: Event := Finishes(DoFloor(101, 0), ROLL)

  const GAPPED: seq<Event> := EARLIER + [Finishes(DoCompact(0), ROLL), ADVANCE, COMPACT]

  lemma {:induction false} FirstCompactedAlone()
    ensures Finish(V3, DoCompact(0), ROLL) == U4
  {
    FirstIsDoomed();
    FirstNotes();
    FirstReclaimed();
    TwoOnDisk();
    FinishCompact(V3, 0, ROLL);
    assert Append(V3.disk, V3.live, GROUP, ROLL) == [T1, T2, ALONE];
    UnlinkFirstOfThree(T1, T2, ALONE);
  }

  lemma {:induction false} UnlinkFirstOfThree(a: LogSegment, b: LogSegment, c: LogSegment)
    requires b.ordinal != a.ordinal && c.ordinal != a.ordinal
    ensures Unlink([a, b, c], {a.ordinal}) == [b, c]
  {
    UnlinkFirst(a, b);
    assert [a, b, c][..2] == [a, b];
  }

  lemma {:induction false} FloorAdvances()
    ensures Finish(U4, DoFloor(101, 0), ROLL) == U5
  {
    AfterTwo();
    TwoOnDisk();
    FinishMark(U4, DoFloor(101, 0), ROLL);
    assert |GROUP| > 0;
    assert Append(U4.disk, U4.live, [HistoryFloor(101, 4)], ROLL) == U5.disk;
  }

  lemma {:induction false} ToTheRecord()
    ensures PossibleRun(W0, GAPPED[..4]) && Run(W0, GAPPED[..4]) == U4
  {
    EarlierRun();
    FirstCompactedAlone();
    assert GAPPED[..4] == EARLIER + [GAPPED[3]];
    RunSnoc(W0, EARLIER, GAPPED[3]);
  }

  lemma {:induction false} ToTheFloor()
    ensures PossibleRun(W0, GAPPED[..5]) && Run(W0, GAPPED[..5]) == U5
  {
    ToTheRecord();
    FloorAdvances();
    assert GAPPED[..5] == GAPPED[..4] + [ADVANCE];
    RunSnoc(W0, GAPPED[..4], ADVANCE);
  }

  lemma {:induction false} AllFinish()
    ensures InProcess(GAPPED) && InProcess(GAPPED[..5])
  {
  }

  lemma {:induction false} UpToDate()
    ensures InSync(U5)
  {
    EarlierInSync();
    FirstIsDoomed();
    FirstIsClean();
    FirstCompactedAlone();
    CompactInSync(V3, 0, ROLL);
    FloorAdvances();
    MarkInSync(U4, DoFloor(101, 0), ROLL);
  }

  // -------------------------------------------------------------- the second compaction

  lemma {:induction false} AloneHoldsNothing()
    ensures Bodies(ALONE.lines) == [] && Stamps(ALONE.lines) == [] && forall r :: r in ALONE.lines ==> !r.Repair?
  {
    HeadLists(3);
    CompactionGroupLists(V3.disk, V3.live, [T1], 0);
    FlatMapConcat(Head(3), GROUP, BodiesIn);
    FlatMapConcat(Head(3), GROUP, StampsIn);
  }

  lemma {:induction false} ActiveHoldsNothing()
    ensures Stamps(ACTIVE.lines) == [] && Named(ACTIVE.lines) == [] && Named(T2.lines) == []
  {
    HeadLists(4);
    FlatMapSnoc(Head(4), HistoryFloor(101, 4), StampsIn);
    FlatMapEmpty(ACTIVE.lines, NamedIn);
    FlatMapEmpty(T2.lines, NamedIn);
  }

  lemma {:induction false} OneStampLeft()
    ensures Stamps(Flat(U5.disk)) == [Stamp(1, 2, 2)]
  {
    SecondHolds();
    AloneHoldsNothing();
    ActiveHoldsNothing();
    FlatTwo(T2, ALONE);
    assert U5.disk == [T2, ALONE] + [ACTIVE];
    FlatSnoc([T2, ALONE], ACTIVE);
    FlatMapConcat(Flat([T2, ALONE]), ACTIVE.lines, StampsIn);
  }

  lemma {:induction false} SecondIsBelieved()
    ensures Verdict(U5.disk, T2, U5.live.published, 101, 4).Some?
  {
    OneStampLeft();
    SecondHolds();
    var y := Said(W1.live, 2, [1]);
    assert y in Bodies(T2.lines);
    var none: seq<Stamp> := [];
    assert [Stamp(1, 2, 2)][..0] == none && FirstStamp(none, 2) == None;
    assert ScannedEnd(U5.disk, y).None?;
  }

  lemma {:induction false} AloneIsDoomed()
    ensures Candidates(U5.disk, U5.live) == [ALONE] && OrdinalSet([ALONE]) == {3}
  {
    SecondIsBelieved();
    AloneHoldsNothing();
    var disk, live := U5.disk, U5.live;
    var none: seq<LogSegment> := [];
    assert Verdict(disk, ALONE, live.published, live.floor, 4).None?;
    assert Verdict(disk, ACTIVE, live.published, live.floor, 4).Some?;
    assert CandidatesAmong(disk, live, 0) == none;
    assert CandidatesAmong(disk, live, 1) == none;
    assert CandidatesAmong(disk, live, 2) == none + [ALONE];
    assert CandidatesAmong(disk, live, 3) == [ALONE];
  }

  lemma {:induction false} NothingIsTold()
    ensures Bodies(Flat([ALONE])) == [] && ReclamationNotes([ALONE], 0) == map[]
  {
    AloneHoldsNothing();
    FlatMapOne(ALONE, LinesIn);
    var none: seq<LogSegment> := [];
    assert [ALONE][..0] == none && ReclamationNotes(none, 0) == map[];
  }

  lemma {:induction false} NothingIsNamed()
    ensures Notes(Flat(Unlink(U5.disk, {3}))) == map[]
  {
    ActiveHoldsNothing();
    UnlinkSecondOfThree(T2, ALONE, ACTIVE);
    FlatMapOne(T2, LinesIn);
    assert [T2, ACTIVE] == [T2] + [ACTIVE];
    FlatSnoc([T2], ACTIVE);
    NothingNamedNothingNoted(T2.lines, ACTIVE.lines);
  }

  lemma {:induction false} NothingNamedNothingNoted(rs: seq<Record>, more: seq<Record>)
    requires Named(rs) == [] && Named(more) == []
    ensures Notes(rs + more) == map[]
  {
    FlatMapConcat(rs, more, NamedIn);
    var notes := Notes(rs + more);
    forall id ensures id !in notes { NotesAreNamed(rs + more, id); }
  }

  lemma {:induction false} UnlinkSecondOfThree(a: LogSegment, b: LogSegment, c: LogSegment)
    requires a.ordinal != b.ordinal && c.ordinal != b.ordinal
    ensures Unlink([a, b, c], {b.ordinal}) == [a, c]
  {
    var none: seq<LogSegment> := [];
    assert [a, b, c][..2] == [a, b] && [a, b][..1] == [a] && [a][..0] == none;
    assert Unlink(none, {b.ordinal}) == none && Unlink([a], {b.ordinal}) == [a];
    assert Unlink([a, b], {b.ordinal}) == [a];
  }

  /** The new record names nothing either. */
  lemma {:induction false} NoNoteIsLeft()
    ensures Restore(Unlink(Appended(U5, 0, STAY), {3})).retention == 0
  {
    AloneIsDoomed();
    NothingIsTold();
    NothingIsNamed();
    UpToDate();
    CompactedNotes(U5, 0, STAY, {3});
    var c := CompactionRecord(U5.disk, U5.live, [ALONE], 0);
    assert AllNotesOf(c, 0) == map[];
    RestoredNotes(Unlink(Appended(U5, 0, STAY), {3}));
  }

  lemma {:induction false} LiveIsUnchanged()
    ensures Finish(U5, DoCompact(0), STAY).live == U5.live
    ensures Finish(U5, DoCompact(0), STAY).disk == Unlink(Appended(U5, 0, STAY), {3})
  {
    AloneIsDoomed();
    NothingIsTold();
    FinishCompact(U5, 0, STAY);
  }

  lemma {:induction false} FloorOne()
    ensures HighestNote(TOLD) == 1
  {
    assert 1 in TOLD && TOLD[1].seqNo == 1;
  }

  /** The live store still knows that seq 1 is gone. */
  lemma {:induction false} LiveKnows()
    ensures U5.live.retention == 1 && U5.live.nextSeq == 3 && !Holds(U5.live.assertions, 1)
  {
    AfterTwo();
    FirstTwo();
    FloorOne();
  }

  lemma {:induction false} WholeRun()
    ensures PossibleRun(W0, GAPPED) && Run(W0, GAPPED) == Finish(U5, DoCompact(0), STAY)
  {
    ToTheFloor();
    assert GAPPED == GAPPED[..5] + [COMPACT];
    RunSnoc(W0, GAPPED[..5], COMPACT);
  }

  /**
   The witness: a possible run in one process, whose live feed has no silent gap;
   once the log is reopened, the first page is not flagged and skips seq 1.
   */
  lemma {:induction false} ReopenedFeedSkipsAChange()
    ensures PossibleRun(W0, GAPPED) && InProcess(GAPPED)
    ensures var w := Run(W0, GAPPED);
            var page := ChangesSince(Restore(w.disk), 0, 10, 0).page;
            NoSilentGap(w.live) && !page.beforeRetention && !NoGap(Restore(w.disk), 0, page)
  {
    WholeRun();
    AllFinish();
    NewWorldInv("e", 100, 0);
    NewWatermark("e", 100, 0);
    RunFeedInv(W0, GAPPED);
    WholeFeedHasNoSilentGap(Run(W0, GAPPED).live);
    SkipsOne();
  }

  lemma {:induction false} SkipsOne()
    ensures var r := Restore(Finish(U5, DoCompact(0), STAY).disk);
            var page := ChangesSince(r, 0, 10, 0).page;
            !page.beforeRetention && !NoGap(r, 0, page)
  {
    var w := Finish(U5, DoCompact(0), STAY);
    UpToDate();
    var next := CompactKeepsInv(U5, 0, STAY);
    LiveIsUnchanged();
    NoNoteIsLeft();
    LiveKnows();
    ReloadedSeqs(w);
    SameSeqsHeld(Restore(w.disk).assertions, w.live.assertions, 1);
    MissingSeqIsAGap(Restore(w.disk), 1, 10, 0);
  }
}
