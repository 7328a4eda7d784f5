/**
 What a compaction that is not clean costs: an assertion that was superseded is
 believed again after the next reopen. First for every such compaction, then on
 one short run of ordinary operations that reaches it.
 */
module LostStamps {
  import opened Wrappers
  import opened Sequences
  import WorldTime
  import opened LogRecords
  import opened Store
  import opened SegmentScan
  import opened Recovery
  import opened LogWorld
  import opened Appending
  import opened LogInvariant
  import opened CommitSteps
  import opened Unlinking
  import opened CompactionSteps
  import opened LogRuns
  import opened Reopening
  import opened CompactedReopening
  import opened SyncedRuns

  /** On unstamped bodies, an id is believed exactly when it is known and no stamp names it. */
  lemma {:induction false} BelievedIffUnstamped(bodies: seq<Assertion>, stamps: seq<Stamp>, id: AssertionId)
    requires forall i :: 0 <= i < |bodies| ==> Unstamped(bodies[i]) == bodies[i]
    ensures Believed(ApplyStamps(bodies, stamps), id) <==> Known(bodies, id) && FirstStamp(stamps, id).None?
  {
    var live := ApplyStamps(bodies, stamps);
    if Believed(live, id) {
      var a :| a in live && a.id == id && a.supersededAt.None?;
      var i :| 0 <= i < |live| && live[i] == a;
      assert bodies[i] in bodies;
    }
    if Known(bodies, id) && FirstStamp(stamps, id).None? {
      var b :| b in bodies && b.id == id;
      var i :| 0 <= i < |bodies| && bodies[i] == b;
      assert Unstamped(bodies[i]) == bodies[i];
      assert live[i] in live;
    }
  }

  /** The stamp is gone from the disk, the body is not. */
  lemma {:induction false} StampGone(disk: seq<LogSegment>, used: set<AssertionId>, gone: set<int>, b: Site, st: Site)
    requires BodiesInv(Bodies(Flat(disk)), used) && StampsInv(Stamps(Flat(disk)), used)
    requires b in BodySites(disk) && st in StampSites(disk) && b.id == st.id && st.ordinal in gone && b.ordinal !in gone
    ensures FirstStamp(Stamps(Flat(disk)), b.id).Some? && FirstStamp(Stamps(Flat(Unlink(disk, gone))), b.id).None?
    ensures Known(Bodies(Flat(Unlink(disk, gone))), b.id) && b.id !in GoneIds(disk, gone)
  {
    UnlinkedSites(disk, gone);
    StampHasSite(disk, b.id);
    StampHasSite(Unlink(disk, gone), b.id);
    forall site | site in StampSites(disk) && site.id == b.id ensures site.ordinal in gone {
      OneStampSite(disk, used, site, st);
    }
    var body := SiteHasItsBody(Unlink(disk, gone), b);
    GoneIdsExact(disk, used, gone);
  }

  /**
   A compaction that unlinks a stamp and keeps its body leaves the assertion superseded in
   process and believed after a reopen.
   */
  lemma {:induction false} LostStampRevives(w: World, clock: Instant, at: Landing, b: Site, st: Site)
    requires InSync(w) && b in BodySites(w.disk) && st in StampSites(w.disk) && b.id == st.id
    requires st.ordinal in OrdinalSet(Candidates(w.disk, w.live))
             && b.ordinal !in OrdinalSet(Candidates(w.disk, w.live))
    ensures var next := Finish(w, DoCompact(clock), at);
            && Known(next.live.assertions, b.id) && !Believed(next.live.assertions, b.id)
            && Believed(Restore(next.disk).assertions, b.id)
  {
    var appended, gone := Appended(w, clock, at), OrdinalSet(Candidates(w.disk, w.live));
    FinishCompact(w, clock, at);
    CompactedDisk(w, clock, at, gone);
    CompactionSites(w, clock, at);
    StampGone(appended, w.used, gone, b, st);
    RestoredAssertions(Unlink(appended, gone));
    BelievedIffUnstamped(Bodies(Flat(Unlink(appended, gone))), Stamps(Flat(Unlink(appended, gone))), b.id);
    StillSuperseded(w, clock, at, b.id);
  }

  lemma {:induction false} StillSuperseded(w: World, clock: Instant, at: Landing, id: AssertionId)
    requires InSync(w) && Candidates(w.disk, w.live) != []
    requires FirstStamp(Stamps(Flat(w.disk)), id).Some?
    requires Known(Without(Bodies(Flat(w.disk)), GoneIds(w.disk, OrdinalSet(Candidates(w.disk, w.live)))), id)
    ensures var live := ApplyReclamation(w.live, ReclamationNotes(Candidates(w.disk, w.live), clock)).assertions;
            Known(live, id) && !Believed(live, id)
  {
    var bodies, stamps, notes :=
      Bodies(Flat(w.disk)), Stamps(Flat(w.disk)), ReclamationNotes(Candidates(w.disk, w.live), clock);
    GoneWithin(w, clock, at, {});
    ReclaimedLive(w.live, notes);
    KnownStampsReload(w.live.assertions, bodies, stamps);
    WithoutStamped(bodies, stamps, notes.Keys);
    WithoutBodiesInv(bodies, w.used, notes.Keys);
    BelievedIffUnstamped(Without(bodies, notes.Keys), stamps, id);
    StampedKnown(Without(bodies, notes.Keys), stamps, id);
  }

  // ------------------------------------------------------------------ one short run

  /*
   A client says x, then something it never takes back, in the first segment. A
   second segment holds y, which supersedes x; a third holds z, which supersedes
   y. Once everything is published and below the floor, the second segment is
   reclaimable although the first is not, and it holds the only stamp on x.
   */

  const X: AssertionId := 1

  function Saying(key: string, supersedes: seq<AssertionId>): CommitInput {
    CommitInput("c", key, [Draft(true, "s", "r", WorldTime.Interval(None, None), supersedes, "")], Authoritative, false)
  }

  function Minting1(id: AssertionId): Mint { Mint(0, [id], id) }

  function Said(s: LogState, id: AssertionId, supersedes: seq<AssertionId>): Assertion {
    Assertion(id, s.nextSeq, s.epoch, "s", "r", WorldTime.Interval(None, None), StampNow(s, 0), None, None, supersedes,
              "c", Authoritative, false, "")
  }

  function Says(s: LogState, key: string, id: AssertionId, supersedes: seq<AssertionId>): Committing {
    Committing([Said(s, id, supersedes)], StampAll(supersedes, StampNow(s, 0), id),
               ReceiptOf(Saying(key, supersedes), Minting1(id), StampNow(s, 0)))
  }

  lemma {:induction false} SayingCommits(
    w: World, key: string, id: AssertionId, supersedes: seq<AssertionId>, at: Landing)
    requires w.disk != [] && id !in w.used && SubmissionKey("c", key) !in w.live.submissions
    requires supersedes == [] || (|supersedes| == 1 && Believed(w.live.assertions, supersedes[0]))
    ensures Minting(w, DoCommit(Saying(key, supersedes), Minting1(id)))
    ensures Finish(w, DoCommit(Saying(key, supersedes), Minting1(id)), at) ==
            CommittedWorld(w, Says(w.live, key, id, supersedes), at)
  {
    SayingIsCommitted(w.live, key, id, supersedes);
    SayingParts(w.live, key, id, supersedes);
    var c := FinishCommitted(w, Saying(key, supersedes), Minting1(id), at);
  }

  lemma {:induction false} SayingRequests(key: string, id: AssertionId, supersedes: seq<AssertionId>, now: Instant)
    ensures Requested(Saying(key, supersedes).drafts, Minting1(id).ids, now) == StampAll(supersedes, now, id)
  {
    var drafts, ids := Saying(key, supersedes).drafts, Minting1(id).ids;
    assert drafts[..0] == [] && ids[..0] == [];
    assert Requested([], [], now) == [];
  }

  lemma {:induction false} SayingParts(s: LogState, key: string, id: AssertionId, supersedes: seq<AssertionId>)
    requires supersedes == [] || (|supersedes| == 1 && Believed(s.assertions, supersedes[0]))
    ensures PartsOf(s, Saying(key, supersedes), Minting1(id)) == Says(s, key, id, supersedes)
  {
    SayingRequests(key, id, supersedes, StampNow(s, 0));
    StampBelieved(s.assertions, StampAll(supersedes, StampNow(s, 0), id));
    assert Minted(s, Saying(key, supersedes), Minting1(id).ids, StampNow(s, 0)) == [Said(s, id, supersedes)];
  }

  lemma {:induction false} SayingIsCommitted(s: LogState, key: string, id: AssertionId, supersedes: seq<AssertionId>)
    requires SubmissionKey("c", key) !in s.submissions
    requires supersedes == [] || (|supersedes| == 1 && Believed(s.assertions, supersedes[0]))
    ensures Commit(s, Saying(key, supersedes), Minting1(id)).outcome.Committed?
  {
    SayingRequests(key, id, supersedes, StampNow(s, 0));
    StampBelieved(s.assertions, StampAll(supersedes, StampNow(s, 0), id));
  }

  lemma {:induction false} StampBelieved(assertions: seq<Assertion>, requested: seq<Stamp>)
    requires requested == [] || (|requested| == 1 && Believed(assertions, requested[0].target))
    ensures FirstUnknown(assertions, requested) == None && Effective(assertions, requested) == requested
  {
    if requested != [] {
      assert requested[..0] == [];
      assert Effective(assertions, []) == [] && FirstUnknown(assertions, []) == None;
    }
  }

  const STAY := Landing(false, 0)
  const ROLL := Landing(true, 0)

  function SaidWorld(w: World, key: string, id: AssertionId, supersedes: seq<AssertionId>, at: Landing): World
    requires w.disk != []
  {
    CommittedWorld(w, Says(w.live, key, id, supersedes), at)
  }

  const W0: World := NewWorld("e", 100, 0)
  const W1: World := SaidWorld(W0, "1", 1, [], STAY)
  const W2: World := SaidWorld(W1, "2", 2, [], STAY)
  const W3: World := SaidWorld(W2, "3", 3, [1], ROLL)
  const W4: World := SaidWorld(W3, "4", 4, [3], ROLL)

  function Commits(key: string, id: AssertionId, supersedes: seq<AssertionId>, at: Landing): Event {
    Finishes(DoCommit(Saying(key, supersedes), Minting1(id)), at)
  }

  const PUBLISH: Event := Finishes(DoFeed(0, 10, 0), STAY)

  const EVENTS: seq<Event> :=
    [Commits("1", 1, [], STAY), Commits("2", 2, [], STAY), Commits("3", 3, [1], ROLL), Commits("4", 4, [3], ROLL),
     PUBLISH]

  lemma {:induction false} RunSnoc(w: World, events: seq<Event>, e: Event)
    requires PossibleRun(w, events) && Possible(Run(w, events), e)
    ensures PossibleRun(w, events + [e]) && Run(w, events + [e]) == Step(Run(w, events), e)
  {
    assert (events + [e])[..|events|] == events;
  }

  /** The live side, world by world. */
  lemma {:induction false} FirstTwo()
    ensures W1.live.assertions == [Said(W0.live, 1, [])] && W1.used == {1} && W1.live.lastMillis == 1
            && W1.live.nextSeq == 2
    ensures W1.live.submissions.Keys == {SubmissionKey("c", "1")}
    ensures W2.live.assertions == [Said(W0.live, 1, []), Said(W1.live, 2, [])]
    ensures W2.used == {1, 2} && W2.live.lastMillis == 2 && W2.live.nextSeq == 3
    ensures W2.live.submissions.Keys == {SubmissionKey("c", "1"), SubmissionKey("c", "2")}
  {
    assert Says(W0.live, "1", 1, []).stamps == [];
    assert Says(W1.live, "2", 2, []).stamps == [];
    assert IdSet([1]) == {1} && IdSet([2]) == {2};
  }

  lemma {:induction false} Third()
    ensures Believed(W3.live.assertions, 3) && W3.used == {1, 2, 3} && W3.live.lastMillis == 3 && W3.live.nextSeq == 4
    ensures W3.live.submissions.Keys == {SubmissionKey("c", "1"), SubmissionKey("c", "2"), SubmissionKey("c", "3")}
    ensures Says(W2.live, "3", 3, [1]).stamps == [Stamp(1, 3, 3)]
  {
    FirstTwo();
    assert Says(W2.live, "3", 3, [1]).stamps == [Stamp(1, 3, 3)];
    assert IdSet([3]) == {3};
    var all := W2.live.assertions + [Said(W2.live, 3, [1])];
    var none: seq<Stamp> := [];
    assert [Stamp(1, 3, 3)][..0] == none;
    assert W3.live.assertions[2] == Stamped(all[2], [Stamp(1, 3, 3)]) == Said(W2.live, 3, [1]);
    assert W3.live.assertions[2] in W3.live.assertions;
  }

  lemma {:induction false} ThirdIsNew()
    ensures Believed(W2.live.assertions, 1) && 3 !in W2.used && SubmissionKey("c", "3") !in W2.live.submissions
  {
    FirstTwo();
    DifferentKeys();
    assert W2.live.assertions[0] in W2.live.assertions;
  }

  lemma {:induction false} TwoCommits()
    ensures PossibleRun(W0, EVENTS[..2]) && Run(W0, EVENTS[..2]) == W2
  {
    FirstTwo();
    DifferentKeys();
    assert EVENTS[..0] == [];
    assert EVENTS[..1] == EVENTS[..0] + [EVENTS[0]] && EVENTS[..2] == EVENTS[..1] + [EVENTS[1]];
    SayingCommits(W0, "1", 1, [], STAY);
    RunSnoc(W0, EVENTS[..0], EVENTS[0]);
    SayingCommits(W1, "2", 2, [], STAY);
    RunSnoc(W0, EVENTS[..1], EVENTS[1]);
  }

  lemma {:induction false} ThreeCommits()
    ensures PossibleRun(W0, EVENTS[..3]) && Run(W0, EVENTS[..3]) == W3
  {
    TwoCommits();
    ThirdIsNew();
    assert EVENTS[..3] == EVENTS[..2] + [EVENTS[2]];
    SayingCommits(W2, "3", 3, [1], ROLL);
    RunSnoc(W0, EVENTS[..2], EVENTS[2]);
  }

  lemma {:induction false} FourthIsNew()
    ensures 4 !in W3.used && SubmissionKey("c", "4") !in W3.live.submissions && Believed(W3.live.assertions, 3)
  {
    Third();
    DifferentKeys();
  }

  lemma {:induction false} FourCommits()
    ensures PossibleRun(W0, EVENTS[..4]) && Run(W0, EVENTS[..4]) == W4
  {
    ThreeCommits();
    FourthIsNew();
    assert EVENTS[..4] == EVENTS[..3] + [EVENTS[3]];
    SayingCommits(W3, "4", 4, [3], ROLL);
    RunSnoc(W0, EVENTS[..3], EVENTS[3]);
  }

  lemma {:induction false} DifferentKeys()
    ensures SubmissionKey("c", "2") != SubmissionKey("c", "1")
    ensures SubmissionKey("c", "3") != SubmissionKey("c", "1") && SubmissionKey("c", "3") != SubmissionKey("c", "2")
    ensures SubmissionKey("c", "4") != SubmissionKey("c", "1") && SubmissionKey("c", "4") != SubmissionKey("c", "2")
    ensures SubmissionKey("c", "4") != SubmissionKey("c", "3")
  {
    forall k: string, l: string | k != l ensures SubmissionKey("c", k) != SubmissionKey("c", l) {
      SubmissionKeyInjective("c", k, "c", l);
    }
  }

  /** The last page publishes everything: the watermark lands in the third segment. */
  const W5: World :=
    World(Append(W4.disk, W4.live, [Watermark(4, 5)], STAY), W4.live.(published := 4, lastMillis := 5), W4.used,
          W4.history)

  lemma {:induction false} AllAfterCursor(xs: seq<Assertion>, cursor: int)
    requires forall i :: 0 <= i < |xs| ==> xs[i].seqNo > cursor
    ensures AfterCursor(xs, cursor) == xs
  {
    if xs != [] { AllAfterCursor(xs[..|xs| - 1], cursor); }
  }

  lemma {:induction false} Fourth()
    ensures |W4.live.assertions| == 4 && forall i :: 0 <= i < 4 ==> W4.live.assertions[i].seqNo == i + 1
    ensures W4.live.lastMillis == 4 && W4.live.published == 0 && W4.live.floor == 100
    ensures Says(W3.live, "4", 4, [3]).stamps == [Stamp(3, 4, 4)]
  {
    FirstTwo();
    Third();
    ThreeSeqs();
  }

  lemma {:induction false} ThreeSeqs()
    ensures |W3.live.assertions| == 3 && forall i :: 0 <= i < 3 ==> W3.live.assertions[i].seqNo == i + 1
  {
    FirstTwo();
  }

  lemma {:induction false} LastPage()
    ensures var r := ChangesSince(W4.live, 0, 10, 0); r.state == W5.live && r.group == [Watermark(4, 5)]
  {
    Fourth();
    AllAfterCursor(W4.live.assertions, 0);
  }

  lemma {:induction false} Published()
    ensures PossibleRun(W0, EVENTS) && Run(W0, EVENTS) == W5
  {
    FourCommits();
    LastPage();
    assert EVENTS == EVENTS[..4] + [PUBLISH];
    FinishMark(W4, DoFeed(0, 10, 0), STAY);
    RunSnoc(W0, EVENTS[..4], PUBLISH);
  }

  function GroupSaid(s: LogState, key: string, id: AssertionId, supersedes: seq<AssertionId>): seq<Record> {
    var c := Says(s, key, id, supersedes);
    CommitGroup(c.minted, c.stamps, c.receipt)
  }

  /** What one more commit adds to the disk. */
  lemma {:induction false} SaidStamps(w: World, key: string, id: AssertionId, supersedes: seq<AssertionId>, at: Landing)
    requires w.disk != []
    ensures Stamps(Flat(SaidWorld(w, key, id, supersedes, at).disk)) ==
            Stamps(Flat(w.disk)) + Says(w.live, key, id, supersedes).stamps
  {
    var c := Says(w.live, key, id, supersedes);
    CommitGroupLists(c.minted, c.stamps, c.receipt);
    AppendList(w.disk, w.live, GroupSaid(w.live, key, id, supersedes), at, StampsIn);
  }

  lemma {:induction false} StampsOnDisk()
    ensures Stamps(Flat(W5.disk)) == [Stamp(1, 3, 3), Stamp(3, 4, 4)]
  {
    Third();
    Fourth();
    NewDisk(W0.disk[0], W0.disk[0].lines[0]);
    SaidStamps(W0, "1", 1, [], STAY);
    SaidStamps(W1, "2", 2, [], STAY);
    SaidStamps(W2, "3", 3, [1], ROLL);
    SaidStamps(W3, "4", 4, [3], ROLL);
    AppendList(W4.disk, W4.live, [Watermark(4, 5)], STAY, StampsIn);
    FlatMapOne(Watermark(4, 5), StampsIn);
  }

  function Head(ordinal: int): seq<Record> { [Header(ordinal, "e", 100, 0)] }

  const S1: LogSegment := Segment(1, Head(1) + GroupSaid(W0.live, "1", 1, []) + GroupSaid(W1.live, "2", 2, []))
  const S2: LogSegment := Segment(2, Head(2) + GroupSaid(W2.live, "3", 3, [1]))
  const S3: LogSegment := Segment(3, Head(3) + GroupSaid(W3.live, "4", 4, [3]) + [Watermark(4, 5)])

  lemma {:induction false} EpochStays()
    ensures W0.live.epoch == W1.live.epoch == W2.live.epoch == W3.live.epoch == W4.live.epoch == "e"
    ensures W0.live.floor == W1.live.floor == W2.live.floor == W3.live.floor == W4.live.floor == 100
  {
  }

  lemma {:induction false} ThreeSegments()
    ensures W5.disk == [S1, S2, S3]
  {
    EpochStays();
    assert W1.disk == [Segment(1, Head(1) + GroupSaid(W0.live, "1", 1, []))];
    assert W2.disk == [S1];
    assert W3.disk == [S1, S2];
    assert W4.disk == [S1, S2, Segment(3, Head(3) + GroupSaid(W3.live, "4", 4, [3]))];
  }

  lemma {:induction false} SegmentLists(
    s: LogState, key: string, id: AssertionId, supersedes: seq<AssertionId>, before: seq<Record>)
    ensures Bodies(before + GroupSaid(s, key, id, supersedes)) == Bodies(before) + [Said(s, id, supersedes)]
    ensures Stamps(before + GroupSaid(s, key, id, supersedes)) ==
            Stamps(before) + StampAll(supersedes, StampNow(s, 0), id)
  {
    var c := Says(s, key, id, supersedes);
    CommitGroupLists(c.minted, c.stamps, c.receipt);
    FlatMapConcat(before, GroupSaid(s, key, id, supersedes), BodiesIn);
    FlatMapConcat(before, GroupSaid(s, key, id, supersedes), StampsIn);
  }

  lemma {:induction false} HeadLists(ordinal: int)
    ensures Bodies(Head(ordinal)) == [] && Stamps(Head(ordinal)) == []
  {
    FlatMapOne(Head(ordinal)[0], BodiesIn);
    FlatMapOne(Head(ordinal)[0], StampsIn);
  }

  lemma {:induction false} FirstSegment()
    ensures Bodies(S1.lines) == [Said(W0.live, 1, []), Said(W1.live, 2, [])]
  {
    HeadLists(1);
    SegmentLists(W0.live, "1", 1, [], Head(1));
    SegmentLists(W1.live, "2", 2, [], Head(1) + GroupSaid(W0.live, "1", 1, []));
  }

  lemma {:induction false} SecondSegment()
    ensures Bodies(S2.lines) == [Said(W2.live, 3, [1])] && Stamps(S2.lines) == [Stamp(1, 3, 3)]
    ensures forall r :: r in S2.lines ==> !r.Repair?
  {
    HeadLists(2);
    Third();
    SegmentLists(W2.live, "3", 3, [1], Head(2));
  }

  lemma {:induction false} Ends()
    ensures FirstStamp([Stamp(1, 3, 3), Stamp(3, 4, 4)], 2) == None
    ensures FirstStamp([Stamp(1, 3, 3), Stamp(3, 4, 4)], 3) == Some(Stamp(3, 4, 4))
  {
    var none: seq<Stamp> := [];
    assert [Stamp(1, 3, 3), Stamp(3, 4, 4)][..1] == [Stamp(1, 3, 3)] && [Stamp(1, 3, 3)][..0] == none;
    assert FirstStamp(none, 2) == None && FirstStamp(none, 3) == None;
    assert FirstStamp([Stamp(1, 3, 3)], 2) == None && FirstStamp([Stamp(1, 3, 3)], 3) == None;
  }

  /** The second segment is reclaimable, the first is not. */
  lemma {:induction false} OnlySecondIsReclaimable()
    ensures 2 in OrdinalSet(Candidates(W5.disk, W5.live)) && 1 !in OrdinalSet(Candidates(W5.disk, W5.live))
  {
    ThreeSegments();
    StampsOnDisk();
    FirstSegment();
    SecondSegment();
    FirstTwo();
    Fourth();
    Ends();
    VerdictOnFirst();
    VerdictOnSecond();
    assert W5.disk[..3] == W5.disk && W5.disk[1] in W5.disk;
    CandidateMember(W5.disk, W5.live, 3, S2);
    forall s | s in Candidates(W5.disk, W5.live) ensures s.ordinal != 1 {
      CandidateMember(W5.disk, W5.live, 3, s);
    }
  }

  lemma {:induction false} VerdictOnFirst()
    ensures Verdict(W5.disk, S1, 4, 100, 3).Some?
  {
    StampsOnDisk();
    FirstSegment();
    Ends();
    assert Bodies(S1.lines)[1] in Bodies(S1.lines);
  }

  lemma {:induction false} VerdictOnSecond()
    ensures Verdict(W5.disk, S2, 4, 100, 3).None?
  {
    StampsOnDisk();
    SecondSegment();
    FirstTwo();
    Ends();
  }

  /**
   The witness: a possible run, free of compactions, after which one compaction
   leaves x superseded in process, and believed again once the log is reopened.
   */
  lemma {:induction false} SupersededAssertionComesBack()
    ensures PossibleRun(W0, EVENTS)
    ensures var before := Run(W0, EVENTS);
            && before.disk != []
            && var next := Finish(before, DoCompact(0), STAY);
               Known(next.live.assertions, X) && !Believed(next.live.assertions, X)
                 && Believed(Restore(next.disk).assertions, X)
  {
    Published();
    WitnessInSync();
    OnlySecondIsReclaimable();
    WitnessSites();
    LostStampRevives(W5, 0, STAY, Site(X, 1), Site(X, 2));
  }

  lemma {:induction false} WitnessSites()
    ensures Site(X, 1) in BodySites(W5.disk) && Site(X, 2) in StampSites(W5.disk)
  {
    ThreeSegments();
    FirstSegment();
    SecondSegment();
    assert BodySitesIn(S1)[0] == Site(X, 1) && StampSitesIn(S2)[0] == Site(X, 2);
    assert W5.disk[0] in W5.disk && W5.disk[1] in W5.disk;
    FlatMapMember(W5.disk, BodySitesIn, Site(X, 1));
    FlatMapMember(W5.disk, StampSitesIn, Site(X, 2));
  }

  lemma {:induction false} WitnessInSync()
    ensures InSync(W5)
  {
    Published();
    NewWorldInSync("e", 100, 0);
    NoCompactionHere();
    UncompactedInSync(W0, EVENTS);
  }

  lemma {:induction false} NoCompactionHere()
    ensures forall i :: 0 <= i < |EVENTS| ==> !EVENTS[i].op.DoCompact?
  {
  }

  lemma {:induction false} UncompactedInSync(w: World, events: seq<Event>)
    requires InSync(w) && PossibleRun(w, events) && forall i :: 0 <= i < |events| ==> !events[i].op.DoCompact?
    ensures InSync(Run(w, events))
  {
    NoCompactionIsClean(w, events);
    CleanRunInSync(w, events);
  }

  lemma {:induction false} NoCompactionIsClean(w: World, events: seq<Event>)
    requires PossibleRun(w, events) && forall i :: 0 <= i < |events| ==> !events[i].op.DoCompact?
    ensures CleanRun(w, events)
  {
    if events != [] { NoCompactionIsClean(w, events[..|events| - 1]); }
  }
}
