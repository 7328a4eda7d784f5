/**
 What a compaction costs when it unlinks the record of an earlier one: the log no
 longer knows that an id it reclaimed ever existed. First for every such
 compaction, then on one short run of ordinary operations that reaches it.
 */
module LostNotes {
  import opened Wrappers
  import opened Sequences
  import opened LogRecords
  import opened Store
  import opened SegmentScan
  import opened Recovery
  import opened LogWorld
  import opened Appending
  import opened LogInvariant
  import opened CommitSteps
  import opened Unlinking
  import opened CompactionSteps
  import opened LogRuns
  import opened Reopening
  import opened CompactedReopening
  import opened SyncedRuns
  import opened LostStamps

  /**
   A reclaimed id that no surviving record names is answered with a note as long as
   the process lives, and with nothing at all, neither body nor note, once the log
   is reopened.
   */
  lemma {:induction false} LostNoteIsForgotten(w: World, clock: Instant, at: Landing, id: AssertionId)
    requires InSync(w) && Candidates(w.disk, w.live) != [] && id in w.live.reclaimed
    requires id !in Named(Flat(Unlink(w.disk, OrdinalSet(Candidates(w.disk, w.live)))))
    ensures var next := Finish(w, DoCompact(clock), at);
            var r := Restore(next.disk);
            id in next.live.reclaimed && id !in r.reclaimed && !Known(r.assertions, id)
  {
    var doomed := Candidates(w.disk, w.live);
    var gone, told := OrdinalSet(doomed), ReclamationNotes(doomed, clock);
    var disk := Unlink(Appended(w, clock, at), gone);
    FinishCompact(w, clock, at);
    ReclaimedFields(w.live, told);
    CompactedDisk(w, clock, at, gone);
    CompactionSites(w, clock, at);
    GoneWithin(w, clock, at, gone);
    GoneAreBodies(w.disk, gone);
    BodiesLeft(Bodies(Flat(w.disk)), Flat(w.disk), Flat(disk), told.Keys);
    DoomedBodies(w);
    RecordAgreesWithLive(w.disk, w.live, doomed, clock);
    CompactedNotes(w, clock, at, gone);
    NotesAreNamed(Flat(Unlink(w.disk, gone)), id);
    RestoredNotes(disk);
    KnownIsBody(disk, id);
  }

  // ------------------------------------------------------------------ one short run

  /*
   The first segment holds x; the second holds y, which supersedes x. Published, the
   first is reclaimed, and the record that says so lands in the second. A third
   segment holds z, which supersedes y. Published, the second is reclaimed too, and
   the record about x goes with it.
   */

  const V2: World := SaidWorld(W1, "2", 2, [1], ROLL)

  const V3: World :=
    World(Append(V2.disk, V2.live, [Watermark(2, 3)], STAY), V2.live.(published := 2, lastMillis := 3), V2.used,
          V2.history)

  const T1: LogSegment := Segment(1, Head(1) + GroupSaid(W0.live, "1", 1, []))
  const T2: LogSegment := Segment(2, Head(2) + GroupSaid(W1.live, "2", 2, [1]) + [Watermark(2, 3)])

  const GROUP: seq<Record> := CompactionGroup(V3.disk, V3.live, [T1], 0)

  const TOLD: map<AssertionId, Note> := map[1 := Note(1, 0, 1)]

  const KEPT: LogSegment := Segment(2, T2.lines + GROUP)

  ghost const V4: World :=
    World([KEPT], V3.live.(assertions := [Said(W1.live, 2, [1])], reclaimed := TOLD, retention := HighestNote(TOLD)),
          V3.used, V3.history)

  ghost const V5: World := SaidWorld(V4, "3", 3, [2], ROLL)

  ghost const V6: World :=
    World(Append(V5.disk, V5.live, [Watermark(3, 5)], STAY), V5.live.(published := 3, lastMillis := 5), V5.used,
          V5.history)

  ghost const T3: LogSegment := Segment(3, Head(3) + GroupSaid(V4.live, "3", 3, [2]) + [Watermark(3, 5)])

  const COMPACT: Event := Finishes(DoCompact(0), STAY)

  const EARLIER: seq<Event> := [Commits("1", 1, [], STAY), Commits("2", 2, [1], ROLL), PUBLISH]

  const LATER: seq<Event> := EARLIER + [COMPACT, Commits("3", 3, [2], ROLL), PUBLISH]

  lemma {:induction false} StampOne(first: Assertion, second: Assertion, st: Stamp)
    requires first.id == st.target && first.supersededAt.None? && second.id != st.target
    ensures var after := ApplyStamps([first, second], [st]);
            |after| == 2 && after[0].id == first.id && after[0].seqNo == first.seqNo && after[1] == second
  {
    var none: seq<Stamp> := [];
    assert [st][..0] == none;
    assert FirstStamp(none, first.id) == None && FirstStamp(none, second.id) == None;
  }

  lemma {:induction false} AfterTwo()
    ensures |V2.live.assertions| == 2 && V2.live.assertions[0].id == 1 && V2.live.assertions[0].seqNo == 1
    ensures V2.live.assertions[1] == Said(W1.live, 2, [1])
    ensures V2.used == {1, 2} && V2.live.lastMillis == 2 && V2.live.nextSeq == 3 && V2.live.reclaimed == map[]
    ensures V2.live.retention == 0 && V2.live.published == 0 && V2.live.floor == 100 && V2.live.epoch == "e"
    ensures V2.live.submissions.Keys == {SubmissionKey("c", "1"), SubmissionKey("c", "2")}
    ensures Says(W1.live, "2", 2, [1]).stamps == [Stamp(1, 2, 2)]
  {
    FirstTwo();
    assert IdSet([2]) == {2};
    assert Says(W1.live, "2", 2, [1]).stamps == [Stamp(1, 2, 2)];
    StampOne(Said(W0.live, 1, []), Said(W1.live, 2, [1]), Stamp(1, 2, 2));
    assert W1.live.assertions + [Said(W1.live, 2, [1])] == [Said(W0.live, 1, []), Said(W1.live, 2, [1])];
  }

  lemma {:induction false} FirstPage()
    ensures var r := ChangesSince(V2.live, 0, 10, 0); r.state == V3.live && r.group == [Watermark(2, 3)]
  {
    AfterTwo();
    FirstTwo();
    AllAfterCursor(V2.live.assertions, 0);
  }

  lemma {:induction false} FirstSaid()
    ensures PossibleRun(W0, EARLIER[..1]) && Run(W0, EARLIER[..1]) == W1
  {
    assert EARLIER[..0] == [] && EARLIER[..1] == EARLIER[..0] + [EARLIER[0]];
    SayingCommits(W0, "1", 1, [], STAY);
    RunSnoc(W0, EARLIER[..0], EARLIER[0]);
  }

  lemma {:induction false} SecondIsNew()
    ensures 2 !in W1.used && SubmissionKey("c", "2") !in W1.live.submissions && Believed(W1.live.assertions, 1)
  {
    FirstTwo();
    DifferentKeys();
    assert W1.live.assertions[0] in W1.live.assertions;
  }

  lemma {:induction false} SecondSaid()
    ensures PossibleRun(W0, EARLIER[..2]) && Run(W0, EARLIER[..2]) == V2
  {
    FirstSaid();
    SecondIsNew();
    assert EARLIER[..2] == EARLIER[..1] + [EARLIER[1]];
    SayingCommits(W1, "2", 2, [1], ROLL);
    RunSnoc(W0, EARLIER[..1], EARLIER[1]);
  }

  lemma {:induction false} EarlierRun()
    ensures PossibleRun(W0, EARLIER) && Run(W0, EARLIER) == V3
  {
    SecondSaid();
    FirstPage();
    assert EARLIER == EARLIER[..2] + [PUBLISH];
    FinishMark(V2, DoFeed(0, 10, 0), STAY);
    RunSnoc(W0, EARLIER[..2], PUBLISH);
  }

  lemma {:induction false} EarlierInSync()
    ensures InSync(V3)
  {
    EarlierRun();
    NewWorldInSync("e", 100, 0);
    NoneCompactsEarlier();
    UncompactedInSync(W0, EARLIER);
  }

  lemma {:induction false} NoneCompactsEarlier()
    ensures forall i :: 0 <= i < |EARLIER| ==> !EARLIER[i].op.DoCompact?
  {
  }

  // ------------------------------------------------------------ the first compaction

  lemma {:induction false} TwoOnDisk()
    ensures V3.disk == [T1, T2] && V3.live.floor == 100 && V3.live.epoch == "e"
  {
    EpochStays();
    assert W1.disk == [T1];
    assert V2.disk == [T1, Segment(2, Head(2) + GroupSaid(W1.live, "2", 2, [1]))];
  }

  lemma {:induction false} FirstHolds()
    ensures Bodies(T1.lines) == [Said(W0.live, 1, [])] && forall r :: r in T1.lines ==> !r.Repair?
  {
    HeadLists(1);
    SegmentLists(W0.live, "1", 1, [], Head(1));
  }

  lemma {:induction false} SecondHolds()
    ensures Bodies(T2.lines) == [Said(W1.live, 2, [1])] && Stamps(T2.lines) == [Stamp(1, 2, 2)]
    ensures Stamps(T1.lines) == [] && forall r :: r in T2.lines ==> !r.Repair?
  {
    HeadLists(1);
    HeadLists(2);
    AfterTwo();
    SegmentLists(W0.live, "1", 1, [], Head(1));
    SegmentLists(W1.live, "2", 2, [1], Head(2));
    var front := Head(2) + GroupSaid(W1.live, "2", 2, [1]);
    FlatMapSnoc(front, Watermark(2, 3), BodiesIn);
    FlatMapSnoc(front, Watermark(2, 3), StampsIn);
  }

  lemma {:induction false} FlatTwo(a: LogSegment, b: LogSegment)
    ensures Stamps(Flat([a, b])) == Stamps(a.lines) + Stamps(b.lines)
  {
    FlatMapOne(a, LinesIn);
    assert [a, b] == [a] + [b];
    FlatSnoc([a], b);
    FlatMapConcat(Flat([a]), b.lines, StampsIn);
  }

  lemma {:induction false} EndsAt(disk: seq<LogSegment>, st: Stamp, a: Assertion)
    requires Stamps(Flat(disk)) == [st] && a.id == st.target && a.supersededAt.None?
    ensures ScannedEnd(disk, a) == Some(st.at)
  {
    var none: seq<Stamp> := [];
    assert [st][..0] == none;
    assert FirstStamp(none, a.id) == None;
  }

  /** Of two segments, the first holding one published body that ended by the floor: it alone is reclaimable. */
  lemma {:induction false} OnlyFirstIsReclaimable(a: LogSegment, b: LogSegment, live: LogState, body: Assertion)
    requires Bodies(a.lines) == [body] && (forall r :: r in a.lines ==> !r.Repair?) && a.ordinal != b.ordinal
    requires body.seqNo <= live.published
    requires ScannedEnd([a, b], body).Some? && ScannedEnd([a, b], body).value <= live.floor
    ensures Candidates([a, b], live) == [a]
  {
    var disk := [a, b];
    var none: seq<LogSegment> := [];
    assert Verdict(disk, a, live.published, live.floor, b.ordinal).None?;
    assert Verdict(disk, b, live.published, live.floor, b.ordinal).Some?;
    assert CandidatesAmong(disk, live, 0) == none;
    assert CandidatesAmong(disk, live, 1) == none + [a];
    assert CandidatesAmong(disk, live, 2) == [a];
  }

  lemma {:induction false} FirstIsDoomed()
    ensures Candidates(V3.disk, V3.live) == [T1] && OrdinalSet([T1]) == {1} && Stamps(Flat(V3.disk)) == [Stamp(1, 2, 2)]
  {
    TwoOnDisk();
    FirstHolds();
    SecondHolds();
    FirstTwo();
    FlatTwo(T1, T2);
    EndsAt(V3.disk, Stamp(1, 2, 2), Said(W0.live, 1, []));
    OnlyFirstIsReclaimable(T1, T2, V3.live, Said(W0.live, 1, []));
  }

  lemma {:induction false} FirstNotes()
    ensures ReclamationNotes([T1], 0) == TOLD
  {
    FirstHolds();
    FirstTwo();
    var none: seq<LogSegment> := [];
    var nobody: seq<Assertion> := [];
    var body := Said(W0.live, 1, []);
    assert [T1][..0] == none && [body][..0] == nobody;
    assert ReclamationNotes(none, 0) == map[] && SegmentNotes(nobody, 1, 0) == map[];
    assert SegmentNotes([body], 1, 0) == TOLD;
    assert map[] + TOLD == TOLD;
  }

  lemma {:induction false} FirstReclaimed()
    ensures ApplyReclamation(V3.live, TOLD) == V4.live
  {
    AfterTwo();
    ReclaimedFields(V3.live, TOLD);
    var all, none := V2.live.assertions, V2.live.assertions[..0];
    assert TOLD.Keys == {1};
    assert all[..1][..0] == none && Without(none, {1}) == none;
    assert Without(all[..1], {1}) == none;
    assert Without(all, {1}) == none + [all[1]];
    assert map[] + TOLD == TOLD;
  }

  lemma {:induction false} FirstCompacted()
    ensures Finish(V3, DoCompact(0), STAY) == V4
  {
    FirstIsDoomed();
    FirstNotes();
    FirstReclaimed();
    TwoOnDisk();
    FinishCompact(V3, 0, STAY);
    assert Append(V3.disk, V3.live, GROUP, STAY) == [T1, KEPT];
    UnlinkFirst(T1, KEPT);
  }

  lemma {:induction false} UnlinkFirst(a: LogSegment, b: LogSegment)
    requires b.ordinal != a.ordinal
    ensures Unlink([a, b], {a.ordinal}) == [b]
  {
    var none: seq<LogSegment> := [];
    assert [a, b][..1] == [a] && [a][..0] == none;
    assert Unlink(none, {a.ordinal}) == none && Unlink([a], {a.ordinal}) == none;
  }

  /** It drops no stamp and there is no earlier note: the first compaction is clean. */
  lemma {:induction false} FirstIsClean()
    ensures CleanCompaction(V3)
  {
    FirstIsDoomed();
    TwoOnDisk();
    SecondHolds();
    AfterTwo();
    forall st | st in StampSites(V3.disk) ensures st.ordinal != 1 {
      FlatMapMember(V3.disk, StampSitesIn, st);
      var s :| s in V3.disk && st in StampSitesIn(s);
    }
  }

  lemma {:induction false} StillInSync()
    ensures InSync(V4)
  {
    EarlierInSync();
    FirstIsDoomed();
    FirstIsClean();
    FirstCompacted();
    CompactInSync(V3, 0, STAY);
  }

  // ----------------------------------------------------------- the second compaction

  lemma {:induction false} AfterThree()
    ensures |V5.live.assertions| == 2 && V5.live.assertions[0].seqNo == 2 && V5.live.assertions[1].seqNo == 3
    ensures V5.live.published == 2 && V5.live.floor == 100 && V5.live.lastMillis == 4 && V5.live.reclaimed == TOLD
    ensures Says(V4.live, "3", 3, [2]).stamps == [Stamp(2, 4, 3)]
  {
    AfterTwo();
    FirstTwo();
    assert Says(V4.live, "3", 3, [2]).stamps == [Stamp(2, 4, 3)];
    StampOne(Said(W1.live, 2, [1]), Said(V4.live, 3, [2]), Stamp(2, 4, 3));
    assert V4.live.assertions + [Said(V4.live, 3, [2])] == [Said(W1.live, 2, [1]), Said(V4.live, 3, [2])];
  }

  lemma {:induction false} NextIsNew()
    ensures 3 !in V4.used && SubmissionKey("c", "3") !in V4.live.submissions && Believed(V4.live.assertions, 2)
  {
    AfterTwo();
    DifferentKeys();
    assert V4.live.assertions[0] in V4.live.assertions;
  }

  lemma {:induction false} SecondPage()
    ensures var r := ChangesSince(V5.live, 0, 10, 0); r.state == V6.live && r.group == [Watermark(3, 5)]
  {
    AfterThree();
    AllAfterCursor(V5.live.assertions, 0);
  }

  lemma {:induction false} CompactedRun()
    ensures PossibleRun(W0, LATER[..4]) && Run(W0, LATER[..4]) == V4
  {
    EarlierRun();
    FirstCompacted();
    assert LATER[..4] == EARLIER + [COMPACT];
    RunSnoc(W0, EARLIER, COMPACT);
  }

  lemma {:induction false} ThirdSaid()
    ensures PossibleRun(W0, LATER[..5]) && Run(W0, LATER[..5]) == V5
  {
    CompactedRun();
    NextIsNew();
    assert LATER[..5] == LATER[..4] + [LATER[4]];
    SayingCommits(V4, "3", 3, [2], ROLL);
    RunSnoc(W0, LATER[..4], LATER[4]);
  }

  lemma {:induction false} LaterRun()
    ensures PossibleRun(W0, LATER) && Run(W0, LATER) == V6
  {
    ThirdSaid();
    SecondPage();
    assert LATER == LATER[..5] + [PUBLISH];
    FinishMark(V5, DoFeed(0, 10, 0), STAY);
    RunSnoc(W0, LATER[..5], PUBLISH);
  }

  lemma {:induction false} LaterInSync()
    ensures InSync(V6)
  {
    StillInSync();
    NextIsNew();
    SecondPage();
    SayingCommits(V4, "3", 3, [2], ROLL);
    CommitInSync(V4, Saying("3", [2]), Minting1(3), ROLL);
    FinishMark(V5, DoFeed(0, 10, 0), STAY);
    MarkInSync(V5, DoFeed(0, 10, 0), STAY);
  }

  lemma {:induction false} TwoLeft()
    ensures V6.disk == [KEPT, T3]
  {
    TwoOnDisk();
    assert V5.disk == [KEPT, Segment(3, Head(3) + GroupSaid(V4.live, "3", 3, [2]))];
  }

  lemma {:induction false} KeptHolds()
    ensures Bodies(KEPT.lines) == [Said(W1.live, 2, [1])] && Stamps(KEPT.lines) == [Stamp(1, 2, 2)]
  {
    SecondHolds();
    CompactionGroupLists(V3.disk, V3.live, [T1], 0);
    FlatMapConcat(T2.lines, GROUP, BodiesIn);
    FlatMapConcat(T2.lines, GROUP, StampsIn);
  }

  lemma {:induction false} KeptHoldsNoRepair()
    ensures forall r :: r in KEPT.lines ==> !r.Repair?
  {
    SecondHolds();
  }

  lemma {:induction false} SecondSays()
    ensures var y := Said(W1.live, 2, [1]); y.id == 2 && y.seqNo == 2 && y.supersededAt.None?
    ensures V6.live.published == 3 && V6.live.floor == 100
  {
    FirstTwo();
    AfterThree();
  }

  lemma {:induction false} ThirdHolds()
    ensures Stamps(T3.lines) == [Stamp(2, 4, 3)] && Named(T3.lines) == []
  {
    HeadLists(3);
    AfterThree();
    SegmentLists(V4.live, "3", 3, [2], Head(3));
    FlatMapSnoc(Head(3) + GroupSaid(V4.live, "3", 3, [2]), Watermark(3, 5), StampsIn);
    FlatMapEmpty(T3.lines, NamedIn);
  }

  lemma {:induction false} EndsSecond(disk: seq<LogSegment>, other: Stamp, st: Stamp, a: Assertion)
    requires Stamps(Flat(disk)) == [other, st] && a.id == st.target && other.target != a.id && a.supersededAt.None?
    ensures ScannedEnd(disk, a) == Some(st.at)
  {
    var none: seq<Stamp> := [];
    assert [other, st][..1] == [other] && [other][..0] == none;
    assert FirstStamp(none, a.id) == None && FirstStamp([other], a.id) == None;
  }

  lemma {:induction false} SecondIsDoomed()
    ensures Candidates(V6.disk, V6.live) == [KEPT] && OrdinalSet([KEPT]) == {2}
  {
    TwoLeft();
    KeptHolds();
    KeptHoldsNoRepair();
    ThirdHolds();
    SecondSays();
    FlatTwo(KEPT, T3);
    EndsSecond(V6.disk, Stamp(1, 2, 2), Stamp(2, 4, 3), Said(W1.live, 2, [1]));
    OnlyFirstIsReclaimable(KEPT, T3, V6.live, Said(W1.live, 2, [1]));
  }

  lemma {:induction false} NothingNamesX()
    ensures Named(Flat(Unlink(V6.disk, {2}))) == []
  {
    TwoLeft();
    ThirdHolds();
    UnlinkFirst(KEPT, T3);
    FlatMapOne(T3, LinesIn);
  }

  /**
   The witness: a possible run after which the second compaction leaves x reclaimed
   in process, with its note, and unheard of once the log is reopened.
   */
  lemma {:induction false} ReclaimedAssertionIsForgotten()
    ensures PossibleRun(W0, LATER)
    ensures var before := Run(W0, LATER);
            && before.disk != []
            && var next := Finish(before, DoCompact(0), STAY);
               var r := Restore(next.disk);
               X in next.live.reclaimed && X !in r.reclaimed && !Known(r.assertions, X)
  {
    LaterRun();
    LaterInSync();
    SecondIsDoomed();
    NothingNamesX();
    AfterThree();
    LostNoteIsForgotten(V6, 0, STAY, X);
  }
}
