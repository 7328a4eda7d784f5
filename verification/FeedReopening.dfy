/**
 The change feed across crashes and reopens. A reload takes its retention floor
 from the notes still on disk, so it keeps the feed free of silent gaps exactly
 when that floor still covers what is missing. Over runs whose compactions are
 clean it always does, wherever the process dies; one compaction that drops a
 note is enough to lose it.
 */
module FeedReopening {
  import opened Wrappers
  import opened Sequences
  import opened LogRecords
  import opened Store
  import opened SegmentScan
  import opened Recovery
  import opened LogWorld
  import opened Appending
  import opened LogInvariant
  import opened CommitSteps
  import opened Unlinking
  import opened CompactionSteps
  import opened LogRuns
  import opened Reopening
  import opened CompactedReopening
  import opened SyncedRuns
  import opened RepeatableReads
  import opened Feed

  // --------------------------------------------------------- when a reload has no gap

  lemma {:induction false} SameSeqsHeld(xs: seq<Assertion>, ys: seq<Assertion>, q: int)
    requires |xs| == |ys| && forall i :: 0 <= i < |xs| ==> xs[i].seqNo == ys[i].seqNo
    ensures Holds(xs, q) <==> Holds(ys, q)
  {
    if a :| a in xs && a.seqNo == q {
      var i :| 0 <= i < |xs| && xs[i] == a;
      assert ys[i] in ys;
    }
    if a :| a in ys && a.seqNo == q {
      var i :| 0 <= i < |ys| && ys[i] == a;
      assert xs[i] in xs;
    }
  }

  lemma {:induction false} RestoredSeqs(
    disk: seq<LogSegment>, epoch: string, used: set<AssertionId>, history: seq<Entry>)
    requires DiskInv(disk, epoch, used, history)
    ensures var r, bodies := Restore(disk), Bodies(Flat(disk));
            && |r.assertions| == |bodies| && r.nextSeq == Issued(history) + 1
            && forall i :: 0 <= i < |bodies| ==> r.assertions[i].seqNo == bodies[i].seqNo
  {
    ReloadIsLive(disk, epoch, used, history);
    RestoredAssertions(disk);
  }

  /** A reload's assertions have the seqs of the bodies on disk, and so of the live assertions. */
  lemma {:induction false} ReloadedSeqs(w: World)
    requires Inv(w)
    ensures SameSeqs(w.live, Restore(w.disk))
  {
    RestoredSeqs(w.disk, w.live.epoch, w.used, w.history);
    LiveSeqs(w);
  }

  /**
   A seq that was issued, lies above the retention floor and is not held is missing from a
   page that is not flagged.
   */
  lemma {:induction false} MissingSeqIsAGap(s: LogState, q: int, limit: nat, clock: Instant)
    requires 0 <= s.retention < q < s.nextSeq && !Holds(s.assertions, q) && limit > 0
    ensures var page := ChangesSince(s, q - 1, limit, clock).page; !page.beforeRetention && !NoGap(s, q - 1, page)
  {
    var page := ChangesSince(s, q - 1, limit, clock).page;
    var later := AfterCursor(s.assertions, q - 1);
    if later != [] {
      AfterCursorMember(s.assertions, q - 1, later[0]);
      assert page.changes[0] == later[0];
    } else {
      forall a | a in s.assertions ensures a.seqNo <= q - 1 { AfterCursorMember(s.assertions, q - 1, a); }
    }
  }

  /** No page that is not flagged has a gap. */
  ghost predicate NoSilentGap(s: LogState) {
    forall cursor: nat, limit: nat, clock: Instant ::
      var page := ChangesSince(s, cursor, limit, clock).page;
      !page.beforeRetention ==> NoGap(s, cursor, page)
  }

  /** Every seq between a reload's retention floor and the live one is held after all. */
  ghost predicate FloorCovers(w: World, reloaded: int) {
    forall q :: reloaded < q <= w.live.retention && q < w.live.nextSeq ==> Holds(w.live.assertions, q)
  }

  ghost predicate SameSeqs(s: LogState, r: LogState) {
    && |r.assertions| == |s.assertions| && r.nextSeq == s.nextSeq
    && forall i :: 0 <= i < |r.assertions| ==> r.assertions[i].seqNo == s.assertions[i].seqNo
  }

  lemma {:induction false} CoveredFeedInv(w: World, r: LogState)
    requires FeedInv(w.live) && SameSeqs(w.live, r) && r.retention >= 0 && FloorCovers(w, r.retention)
    ensures FeedInv(r)
  {
    forall q | r.retention < q < r.nextSeq ensures Holds(r.assertions, q) {
      SameSeqsHeld(r.assertions, w.live.assertions, q);
    }
  }

  lemma {:induction false} UncoveredHasGap(w: World, r: LogState)
    requires SameSeqs(w.live, r) && r.retention >= 0 && !FloorCovers(w, r.retention)
    ensures !NoSilentGap(r)
  {
    var q :| r.retention < q <= w.live.retention && q < w.live.nextSeq && !Holds(w.live.assertions, q);
    SameSeqsHeld(r.assertions, w.live.assertions, q);
    MissingSeqIsAGap(r, q, 1, 0);
    var cursor: nat := q - 1;
    var page := ChangesSince(r, cursor, 1, 0).page;
    assert !page.beforeRetention && !NoGap(r, cursor, page);
  }

  /** A reload has no silent gap exactly when its retention floor covers all that is missing. */
  lemma {:induction false} ReloadHasNoSilentGapIff(w: World)
    requires Inv(w) && FeedInv(w.live)
    ensures NoSilentGap(Restore(w.disk)) <==> FloorCovers(w, Restore(w.disk).retention)
  {
    var r := Restore(w.disk);
    ReloadedSeqs(w);
    RestoredNotes(w.disk);
    if FloorCovers(w, r.retention) {
      CoveredFeedInv(w, r);
      WholeFeedHasNoSilentGap(r);
    } else {
      UncoveredHasGap(w, r);
    }
  }

  // ------------------------------------------------------------ notes part-way through

  /** One note, now, against what it was and what it is in the end. */
  ghost predicate PartWay(
    before: map<AssertionId, Note>, now: map<AssertionId, Note>, after: map<AssertionId, Note>, id: AssertionId)
  {
    id in after ==> id in before && id in now && (now[id] == before[id] || now[id] == after[id])
  }

  /** Part-way through an ascending unlinking, an id's note is what it was, or what it is in the end. */
  lemma {:induction false} NotePartWay(disk: seq<LogSegment>, whole: set<int>, part: set<int>, id: AssertionId)
    requires Ascending(disk) && part <= whole && (forall o, p :: o in whole && p in part && o <= p ==> o in part)
    ensures PartWay(Notes(Flat(disk)), Notes(Flat(Unlink(disk, part))), Notes(Flat(Unlink(disk, whole))), id)
  {
    if disk != [] {
      if disk[|disk| - 1].ordinal in part {
        SameUnlink(disk, whole, part);
        if id in Notes(Flat(Unlink(disk, whole))) { UnlinkedNoteBefore(disk, whole, id); }
      } else {
        NotePartWay(disk[..|disk| - 1], whole, part, id);
        LastNote(disk, whole);
        LastNote(disk, part);
        NothingGone(disk);
        NothingGone(disk[..|disk| - 1]);
        LastNote(disk, {});
      }
    }
  }

  lemma {:induction false} NothingGone(disk: seq<LogSegment>)
    ensures Unlink(disk, {}) == disk
  {
    NothingUnlinked(disk);
    var none: seq<LogSegment> := [];
    assert OrdinalSet(none) == {};
  }

  /** How the last segment bears on the notes. */
  lemma {:induction false} LastNote(disk: seq<LogSegment>, gone: set<int>)
    requires disk != []
    ensures var front, last := disk[..|disk| - 1], disk[|disk| - 1];
            var all, earlier, its :=
              Notes(Flat(Unlink(disk, gone))), Notes(Flat(Unlink(front, gone))), Notes(last.lines);
            && (last.ordinal in gone ==> Unlink(disk, gone) == Unlink(front, gone))
            && (last.ordinal !in gone ==> all == earlier + its)
  {
    var front, last := disk[..|disk| - 1], disk[|disk| - 1];
    if last.ordinal !in gone {
      FlatSnoc(Unlink(front, gone), last);
      NotesConcat(Flat(Unlink(front, gone)), last.lines);
    }
  }

  lemma {:induction false} UnlinkedNoteBefore(disk: seq<LogSegment>, gone: set<int>, id: AssertionId)
    requires id in Notes(Flat(Unlink(disk, gone)))
    ensures id in Notes(Flat(disk))
  {
    NotesAreNamed(Flat(Unlink(disk, gone)), id);
    NotesAreNamed(Flat(disk), id);
    UnlinkedSubset(disk, gone, NamedIn);
  }

  /** Once the last segment is gone in the part, the part has come to its end. */
  lemma {:induction false} SameUnlink(disk: seq<LogSegment>, whole: set<int>, part: set<int>)
    requires disk != [] && Ascending(disk) && part <= whole && disk[|disk| - 1].ordinal in part
    requires forall o, p :: o in whole && p in part && o <= p ==> o in part
    ensures Unlink(disk, whole) == Unlink(disk, part)
  {
    AgreeingUnlink(disk, whole, part);
  }

  lemma {:induction false} AgreeingUnlink(disk: seq<LogSegment>, a: set<int>, b: set<int>)
    requires forall i :: 0 <= i < |disk| ==> (disk[i].ordinal in a <==> disk[i].ordinal in b)
    ensures Unlink(disk, a) == Unlink(disk, b)
  {
    if disk != [] { AgreeingUnlink(disk[..|disk| - 1], a, b); }
  }

  /** If the notes stay in the end, they stay at every point of the unlinking. */
  lemma {:induction false} EveryPrefixRecalls(w: World, n: nat)
    requires InSync(w) && n <= |Candidates(w.disk, w.live)| && NotesStay(w, OrdinalSet(Candidates(w.disk, w.live)))
    ensures NotesStay(w, FirstUnlinked(w, n))
  {
    var whole, part := OrdinalSet(Candidates(w.disk, w.live)), FirstUnlinked(w, n);
    UnlinkedInOrder(w, n);
    assert Ascending(w.disk);
    forall id | id in w.live.reclaimed.Keys
      ensures id in Notes(Flat(Unlink(w.disk, part)))
      ensures Notes(Flat(Unlink(w.disk, part)))[id].seqNo == w.live.reclaimed[id].seqNo
      ensures Notes(Flat(Unlink(w.disk, part)))[id].reclaimedAt == w.live.reclaimed[id].reclaimedAt
    {
      NotePartWay(w.disk, whole, part, id);
    }
  }

  // -------------------------------------------------------------- crashed compactions

  /** A sound disk that holds the live bodies less some no higher than its retention floor keeps the feed whole. */
  lemma {:induction false} FewerBodiesFeedInv(w: World, disk: seq<LogSegment>, gone: set<AssertionId>)
    requires Inv(w) && FeedInv(w.live) && DiskInv(disk, w.live.epoch, w.used, w.history)
    requires Bodies(Flat(disk)) == Without(Bodies(Flat(w.disk)), gone)
    requires w.live.retention <= Restore(disk).retention
    requires forall b :: b in Bodies(Flat(w.disk)) && b.id in gone ==> b.seqNo <= Restore(disk).retention
    ensures FeedInv(Restore(disk))
  {
    var r, bodies, fewer := Restore(disk), Bodies(Flat(w.disk)), Bodies(Flat(disk));
    RestoredSeqs(disk, w.live.epoch, w.used, w.history);
    LiveSeqs(w);
    assert r.nextSeq == w.live.nextSeq;
    FewerSeqs(w.live, r, bodies, fewer, gone);
  }

  lemma {:induction false} LiveSeqs(w: World)
    requires Inv(w)
    ensures var bodies := Bodies(Flat(w.disk));
            |bodies| == |w.live.assertions| && forall i :: 0 <= i < |bodies| ==>
              bodies[i].seqNo == w.live.assertions[i].seqNo
  {
    var bodies := Bodies(Flat(w.disk));
    assert forall i :: 0 <= i < |bodies| ==> Unstamped(w.live.assertions[i]) == bodies[i];
  }

  lemma {:induction false} FewerSeqs(
    s: LogState, r: LogState, bodies: seq<Assertion>, fewer: seq<Assertion>, gone: set<AssertionId>)
    requires FeedInv(s) && |bodies| == |s.assertions| && fewer == Without(bodies, gone)
    requires forall i :: 0 <= i < |bodies| ==> bodies[i].seqNo == s.assertions[i].seqNo
    requires |r.assertions| == |fewer| && forall i :: 0 <= i < |fewer| ==> r.assertions[i].seqNo == fewer[i].seqNo
    requires r.nextSeq == s.nextSeq && s.retention <= r.retention
    requires forall b :: b in bodies && b.id in gone ==> b.seqNo <= r.retention
    ensures FeedInv(r)
  {
    WithoutAscends(bodies, gone);
    forall i | 0 <= i < |r.assertions| ensures 1 <= r.assertions[i].seqNo < r.nextSeq {
      WithoutMember(bodies, gone, fewer[i]);
      var k :| 0 <= k < |bodies| && bodies[k] == fewer[i];
    }
    forall q | r.retention < q < r.nextSeq ensures Holds(r.assertions, q) {
      SameSeqsHeld(bodies, s.assertions, q);
      var b :| b in bodies && b.seqNo == q;
      WithoutMember(bodies, gone, b);
      SameSeqsHeld(r.assertions, fewer, q);
    }
  }

  /** A compaction that died while appending: some carried receipts, no record, nothing unlinked. */
  lemma {:induction false} TornCompactionFeedInv(w: World, clock: Instant, at: Landing, n: nat)
    requires InSync(w) && FeedInv(w.live) && Candidates(w.disk, w.live) != []
    requires n < |CompactionGroup(w.disk, w.live, Candidates(w.disk, w.live), clock)|
    ensures FeedInv(Restore(Append(w.disk, w.live,
                                   CompactionGroup(w.disk, w.live, Candidates(w.disk, w.live), clock)[..n], at)))
  {
    var doomed := Candidates(w.disk, w.live);
    var part := CompactionGroup(w.disk, w.live, doomed, clock)[..n];
    var disk := Append(w.disk, w.live, part, at);
    forall s | s in doomed ensures s in w.disk { DoomedAreCandidates(w, s); }
    CompactionPrefixQuiet(w, doomed, clock, n);
    QuietKeepsDisk(w, part, at);
    OnlyReceiptsYet(w.disk, w.live, doomed, clock, n);
    Reopening.NoCompactions(w.disk, w.live, part, at);
    WithoutNone(Bodies(Flat(w.disk)));
    RestoredNotes(disk);
    HighestNoteAgrees(w.live.reclaimed, Restore(disk).reclaimed);
    FewerBodiesFeedInv(w, disk, {});
  }

  lemma {:induction false} OnlyReceiptsYet(
    disk: seq<LogSegment>, live: LogState, doomed: seq<LogSegment>, clock: Instant, n: nat)
    requires n < |CompactionGroup(disk, live, doomed, clock)|
    ensures Compactions(CompactionGroup(disk, live, doomed, clock)[..n]) == []
  {
    FlatMapEmpty(CompactionGroup(disk, live, doomed, clock)[..n], CompactionsIn);
  }

  lemma {:induction false} WithoutNone(bodies: seq<Assertion>)
    ensures Without(bodies, {}) == bodies
  {
    if bodies != [] { WithoutNone(bodies[..|bodies| - 1]); }
  }

  /** What a reload remembers after any part of the unlinking: the notes it had, and one for every body gone. */
  lemma {:induction false} PartNotes(w: World, clock: Instant, at: Landing, gone: set<int>, id: AssertionId)
    requires InSync(w) && Candidates(w.disk, w.live) != [] && gone <= OrdinalSet(Candidates(w.disk, w.live))
    ensures var r, told := Restore(Unlink(Appended(w, clock, at), gone)),
            ReclamationNotes(Candidates(w.disk, w.live), clock);
            && (NotesStay(w, gone) && id in w.live.reclaimed ==>
                  id in r.reclaimed && r.reclaimed[id].seqNo == w.live.reclaimed[id].seqNo)
            && (id in GoneIds(w.disk, gone) ==>
                  id in told && id in r.reclaimed && r.reclaimed[id].seqNo == told[id].seqNo)
  {
    var doomed := Candidates(w.disk, w.live);
    var told, disk := ReclamationNotes(doomed, clock), Unlink(Appended(w, clock, at), gone);
    CompactedDisk(w, clock, at, gone);
    CompactionSites(w, clock, at);
    GoneWithin(w, clock, at, gone);
    GoneAreBodies(w.disk, gone);
    GoneAreBodies(w.disk, OrdinalSet(doomed));
    BodiesLeft(Bodies(Flat(w.disk)), Flat(w.disk), Flat(disk), GoneIds(w.disk, gone));
    DoomedBodies(w);
    RecordAgreesWithLive(w.disk, w.live, doomed, clock);
    CompactedNotes(w, clock, at, gone);
    RestoredNotes(disk);
  }

  lemma {:induction false} PartRetention(w: World, clock: Instant, at: Landing, gone: set<int>)
    requires InSync(w) && Candidates(w.disk, w.live) != [] && gone <= OrdinalSet(Candidates(w.disk, w.live))
    requires NotesStay(w, gone)
    ensures var r := Restore(Unlink(Appended(w, clock, at), gone));
            && w.live.retention <= r.retention
            && forall b :: b in Bodies(Flat(w.disk)) && b.id in GoneIds(w.disk, gone) ==> b.seqNo <= r.retention
  {
    var r := Restore(Unlink(Appended(w, clock, at), gone));
    RestoredNotes(Unlink(Appended(w, clock, at), gone));
    if w.live.retention != 0 {
      var id :| id in w.live.reclaimed && w.live.reclaimed[id].seqNo == w.live.retention;
      PartNotes(w, clock, at, gone, id);
    }
    forall b | b in Bodies(Flat(w.disk)) && b.id in GoneIds(w.disk, gone) ensures b.seqNo <= r.retention {
      PartNotes(w, clock, at, gone, b.id);
      ToldItsSeq(w, clock, b);
    }
  }

  lemma {:induction false} ToldItsSeq(w: World, clock: Instant, b: Assertion)
    requires Inv(w) && b in Bodies(Flat(w.disk)) && b.id in ReclamationNotes(Candidates(w.disk, w.live), clock)
    ensures ReclamationNotes(Candidates(w.disk, w.live), clock)[b.id].seqNo == b.seqNo
  {
    var bodies := Bodies(Flat(w.disk));
    var i :| 0 <= i < |bodies| && bodies[i] == b;
    var a := w.live.assertions[i];
    assert Unstamped(a) == b && a in w.live.assertions;
    NotesCarrySeqs(w, clock, a);
  }

  /** A clean compaction that died after its append, however much it had unlinked. */
  lemma {:induction false} PartlyUnlinkedFeedInv(w: World, clock: Instant, at: Landing, n: nat)
    requires InSync(w) && FeedInv(w.live) && Candidates(w.disk, w.live) != [] && n <= |Candidates(w.disk, w.live)|
    requires NotesStay(w, OrdinalSet(Candidates(w.disk, w.live)))
    ensures FeedInv(Restore(Unlink(Appended(w, clock, at), FirstUnlinked(w, n))))
  {
    var gone := FirstUnlinked(w, n);
    UnlinkedInOrder(w, n);
    EveryPrefixRecalls(w, n);
    CompactedDisk(w, clock, at, gone);
    CompactionSites(w, clock, at);
    PartRetention(w, clock, at, gone);
    FewerBodiesFeedInv(w, Unlink(Appended(w, clock, at), gone), GoneIds(w.disk, gone));
  }

  /** The disk a crashed compaction leaves, in its two cases. */
  lemma {:induction false} CrashedCompaction(w: World, clock: Instant, p: Progress, at: Landing)
    requires Inv(w) && Candidates(w.disk, w.live) != [] && Reaches(EffectOf(w, DoCompact(clock)), p)
    ensures var e, doomed := EffectOf(w, DoCompact(clock)), Candidates(w.disk, w.live);
            var group := CompactionGroup(w.disk, w.live, doomed, clock);
            && (p.written < |group| ==> CrashedDisk(w, e, p, at) == Append(w.disk, w.live, group[..p.written], at))
            && (p.written == |group| ==>
               CrashedDisk(w, e, p, at) == Unlink(Appended(w, clock, at), FirstUnlinked(w, p.unlinked)))
            && p.written <= |group| && p.unlinked <= |doomed|
  {
    var doomed := Candidates(w.disk, w.live);
    var group := CompactionGroup(w.disk, w.live, doomed, clock);
    CompactionGroupWritable(w.disk, w.live, doomed, clock, p.written);
    if p.written < |group| {
      assert doomed[..0] == [];
      NothingUnlinked(Append(w.disk, w.live, group[..p.written], at));
    } else {
      assert group[..|group|] == group;
    }
  }

  lemma {:induction false} CompactionCrashFeedInv(
    w: World, clock: Instant, p: Progress, at: Landing, disk: seq<LogSegment>)
    requires InSync(w) && FeedInv(w.live) && CleanCompaction(w) && Reaches(EffectOf(w, DoCompact(clock)), p)
    requires disk == CrashedDisk(w, EffectOf(w, DoCompact(clock)), p, at)
    ensures FeedInv(Restore(disk))
  {
    if Candidates(w.disk, w.live) != [] {
      CrashedCompaction(w, clock, p, at);
      EitherCrashFeedInv(w, clock, p, at, disk);
    } else {
      assert disk == w.disk;
      ReopenFeedInv(w);
    }
  }

  lemma {:induction false} EitherCrashFeedInv(w: World, clock: Instant, p: Progress, at: Landing, disk: seq<LogSegment>)
    requires InSync(w) && FeedInv(w.live) && NotesStay(w, OrdinalSet(Candidates(w.disk, w.live)))
    requires Candidates(w.disk, w.live) != [] && p.unlinked <= |Candidates(w.disk, w.live)|
    requires p.written <= |CompactionGroup(w.disk, w.live, Candidates(w.disk, w.live), clock)|
    requires p.written < |CompactionGroup(w.disk, w.live, Candidates(w.disk, w.live), clock)| ==>
               disk == Append(w.disk, w.live,
                              CompactionGroup(w.disk, w.live, Candidates(w.disk, w.live), clock)[..p.written], at)
    requires p.written == |CompactionGroup(w.disk, w.live, Candidates(w.disk, w.live), clock)| ==>
               disk == Unlink(Appended(w, clock, at), FirstUnlinked(w, p.unlinked))
    ensures FeedInv(Restore(disk))
  {
    if p.written < |CompactionGroup(w.disk, w.live, Candidates(w.disk, w.live), clock)| {
      TornCompactionFeedInv(w, clock, at, p.written);
    } else {
      PartlyUnlinkedFeedInv(w, clock, at, p.unlinked);
    }
  }

  lemma {:induction false} PlainCrashFeedInv(w: World, op: Operation, p: Progress, at: Landing)
    requires InSync(w) && FeedInv(w.live) && Minting(w, op) && !op.DoCompact? && Reaches(EffectOf(w, op), p)
    ensures FeedInv(Restore(CrashedDisk(w, EffectOf(w, op), p, at)))
  {
    var disk := CrashedDisk(w, EffectOf(w, op), p, at);
    CrashIsAllOrNothing(w, op, p, at);
    if disk == w.disk {
      ReopenFeedInv(w);
    } else if disk == Append(w.disk, w.live, [], at) {
      RollKeepsSync(w, at);
      ReopenFeedInv(w.(disk := disk));
    } else {
      StepInSync(w, Finishes(op, at));
      FinishFeedInv(w, op, at);
      ReopenFeedInv(Finish(w, op, at));
    }
  }

  // ------------------------------------------------------------------------- runs

  /** Every compaction of the run is clean, whether it finished or the process died in it. */
  ghost predicate CleanThroughout(w: World, events: seq<Event>)
    requires PossibleRun(w, events)
  {
    events == [] ||
    var front, e := events[..|events| - 1], events[|events| - 1];
    CleanThroughout(w, front) && (e.op.DoCompact? ==> CleanCompaction(Run(w, front)))
  }

  lemma {:induction false} StepFeedInv(w: World, e: Event)
    requires InSync(w) && FeedInv(w.live) && Possible(w, e) && (e.op.DoCompact? ==> CleanCompaction(w))
    ensures InSync(Step(w, e)) && FeedInv(Step(w, e).live)
  {
    StepInSync(w, e);
    match e
    case Finishes(op, at) => FinishFeedInv(w, op, at);
    case Crashes(op, p, at, repairs) =>
      if op.DoCompact? {
        CompactionCrashFeedInv(w, op.clock, p, at, CrashedDisk(w, EffectOf(w, op), p, at));
      } else {
        PlainCrashFeedInv(w, op, p, at);
      }
  }

  lemma {:induction false} CleanRunFeedInv(w: World, events: seq<Event>)
    requires InSync(w) && FeedInv(w.live) && PossibleRun(w, events) && CleanThroughout(w, events)
    ensures InSync(Run(w, events)) && FeedInv(Run(w, events).live)
  {
    if events != [] {
      var front := events[..|events| - 1];
      CleanRunFeedInv(w, front);
      StepFeedInv(Run(w, front), events[|events| - 1]);
    }
  }

  /**
   From a new log, through any run whose compactions are clean, with a crash at any
   point of any operation and a reopen after it, no unflagged page has a gap.
   */
  lemma {:induction false} NoSilentGapAcrossReopens(epoch: string, floor: Instant, clock: Instant, events: seq<Event>)
    requires PossibleRun(NewWorld(epoch, floor, clock), events)
             && CleanThroughout(NewWorld(epoch, floor, clock), events)
    ensures var w := Run(NewWorld(epoch, floor, clock), events); NoSilentGap(w.live) && NoSilentGap(Restore(w.disk))
  {
    var w := Run(NewWorld(epoch, floor, clock), events);
    NewWorldInSync(epoch, floor, clock);
    NewWatermark(epoch, floor, clock);
    CleanRunFeedInv(NewWorld(epoch, floor, clock), events);
    ReopenFeedInv(w);
    WholeFeedHasNoSilentGap(w.live);
    WholeFeedHasNoSilentGap(Restore(w.disk));
  }

  lemma {:induction false} WholeFeedHasNoSilentGap(s: LogState)
    requires FeedInv(s)
    ensures NoSilentGap(s)
  {
    forall cursor: nat, limit: nat, clock: Instant
      ensures var page := ChangesSince(s, cursor, limit, clock).page; !page.beforeRetention ==> NoGap(s, cursor, page)
    {
      PageHasNoGap(s, cursor, limit, clock);
    }
  }
}
