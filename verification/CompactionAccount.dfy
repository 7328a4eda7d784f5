/**
 What a compaction says it did, against what it does: the record it appends, the
 receipts it carries, the notes it leaves, and where a reload stands in time. The one
 thing that differs across a reopen is which segment a note names.
 */
module CompactionAccount {
  import opened Wrappers
  import opened Sequences
  import opened LogRecords
  import opened Store
  import opened SegmentScan
  import opened Recovery
  import opened LogWorld
  import opened Appending
  import opened LogInvariant
  import opened CommitSteps
  import opened Unlinking
  import opened CompactionSteps
  import opened LogRuns
  import opened Reopening
  import opened CompactedReopening
  import opened Reclaiming

  // --------------------------------------------------------------------- the record

  ghost predicate SpentBody(w: World, b: Assertion)
    requires w.disk != []
  {
    exists s :: s in w.disk && Spent(w, s) && b in Bodies(s.lines)
  }

  lemma {:induction false} PickedAreSpent(w: World, s: LogSegment)
    requires Inv(w)
    ensures s in Candidates(w.disk, w.live) <==> s in w.disk && Spent(w, s)
  {
    if s in w.disk { PickedIffSpent(w, s); }
    if s in Candidates(w.disk, w.live) { DoomedAreCandidates(w, s); }
  }

  lemma {:induction false} PickedBodies(w: World, b: Assertion)
    requires Inv(w)
    ensures b in Bodies(Flat(Candidates(w.disk, w.live))) <==> SpentBody(w, b)
  {
    var doomed := Candidates(w.disk, w.live);
    FlatMember(doomed, BodiesIn, b);
    if b in Bodies(Flat(doomed)) {
      var s :| s in doomed && b in FlatMap(s.lines, BodiesIn);
      PickedAreSpent(w, s);
    }
    if s :| s in w.disk && Spent(w, s) && b in Bodies(s.lines) { PickedAreSpent(w, s); }
  }

  ghost predicate HeldBySpent(w: World, id: AssertionId, seqNo: int)
    requires w.disk != []
  {
    exists b :: SpentBody(w, b) && b.id == id && b.seqNo == seqNo
  }

  ghost predicate Listed(c: Record, b: Assertion)
    requires c.Compaction? && |c.ids| == |c.seqNos|
  {
    exists k :: 0 <= k < |c.ids| && c.ids[k] == b.id && c.seqNos[k] == b.seqNo
  }

  /** A compaction record names the segments it reclaims, ascending, and every assertion in them with its seq. */
  ghost predicate Accounts(w: World, c: Record, clock: Instant)
    requires w.disk != []
  {
    && c.Compaction? && c.compactedAt == clock
    && (forall i, j :: 0 <= i < j < |c.segments| ==> c.segments[i] < c.segments[j])
    && (forall s :: s in w.disk ==> (s.ordinal in c.segments <==> Spent(w, s)))
    && (forall o :: o in c.segments ==> OnDisk(w.disk, o))
    && |c.ids| == |c.seqNos|
    && (forall k :: 0 <= k < |c.ids| ==> HeldBySpent(w, c.ids[k], c.seqNos[k]))
    && (forall b :: SpentBody(w, b) ==> Listed(c, b))
    && c.highSeq == w.live.nextSeq - 1 && c.watermark == w.live.published && c.floorAtCompaction == w.live.floor
    && LatestOf(Bodies(Flat(w.disk)), w.live.floor, c.highRecordedAt)
  }

  /** The latest instant any of these was recorded at, or the floor. */
  ghost predicate LatestOf(bodies: seq<Assertion>, floor: Instant, at: Instant) {
    && at >= floor && (forall b :: b in bodies ==> b.recordedAt <= at)
    && (at == floor || exists b :: b in bodies && b.recordedAt == at)
  }

  lemma {:induction false} OrdinalsAre(w: World, c: Record, clock: Instant)
    requires Inv(w) && c == CompactionRecord(w.disk, w.live, Candidates(w.disk, w.live), clock)
    ensures forall i, j :: 0 <= i < j < |c.segments| ==> c.segments[i] < c.segments[j]
    ensures forall s :: s in w.disk ==> (s.ordinal in c.segments <==> Spent(w, s))
    ensures forall o :: o in c.segments ==> OnDisk(w.disk, o)
  {
    var doomed := Candidates(w.disk, w.live);
    CandidatesAscend(w.disk, w.live, |w.disk|);
    assert Ascending(doomed);
    forall o | o in c.segments ensures o in OrdinalSet(doomed) && OnDisk(w.disk, o) {
      var i :| 0 <= i < |doomed| && Ordinals(doomed)[i] == o;
      assert doomed[i] in doomed;
      DoomedAreCandidates(w, doomed[i]);
    }
    forall s | s in w.disk ensures s.ordinal in c.segments <==> Spent(w, s) {
      PickedAreSpent(w, s);
      GoneIffPicked(w, s);
      if s in doomed {
        var i :| 0 <= i < |doomed| && doomed[i] == s;
        assert Ordinals(doomed)[i] == s.ordinal;
      }
    }
  }

  lemma {:induction false} EachIsSpent(w: World, c: Record, clock: Instant)
    requires Inv(w) && c == CompactionRecord(w.disk, w.live, Candidates(w.disk, w.live), clock)
    ensures |c.ids| == |c.seqNos|
    ensures forall k :: 0 <= k < |c.ids| ==> HeldBySpent(w, c.ids[k], c.seqNos[k])
  {
    var bodies := Bodies(Flat(Candidates(w.disk, w.live)));
    forall k | 0 <= k < |c.ids| ensures HeldBySpent(w, c.ids[k], c.seqNos[k]) {
      assert bodies[k] in bodies && c.ids[k] == bodies[k].id && c.seqNos[k] == bodies[k].seqNo;
      PickedBodies(w, bodies[k]);
    }
  }

  lemma {:induction false} EachIsListed(bodies: seq<Assertion>, c: Record, b: Assertion)
    requires c.Compaction? && c.ids == Ids(bodies) && c.seqNos == SeqNos(bodies) && b in bodies
    ensures Listed(c, b)
  {
    var k :| 0 <= k < |bodies| && bodies[k] == b;
    assert c.ids[k] == b.id && c.seqNos[k] == b.seqNo;
  }

  lemma {:induction false} BodiesAre(w: World, c: Record, clock: Instant)
    requires Inv(w) && c == CompactionRecord(w.disk, w.live, Candidates(w.disk, w.live), clock)
    ensures forall b :: SpentBody(w, b) ==> Listed(c, b)
  {
    forall b | SpentBody(w, b) ensures Listed(c, b) {
      PickedBodies(w, b);
      EachIsListed(Bodies(Flat(Candidates(w.disk, w.live))), c, b);
    }
  }

  lemma {:induction false} MarksAre(w: World)
    requires Inv(w)
    ensures HighSeq(Flat(w.disk)) == w.live.nextSeq - 1
  {
  }

  lemma {:induction false} HighestIsLatest(bodies: seq<Assertion>, floor: Instant)
    ensures LatestOf(bodies, floor, Highest(RecordedAts(bodies), floor))
  {
    var ats := RecordedAts(bodies);
    var at := Highest(ats, floor);
    forall b | b in bodies ensures b.recordedAt <= at {
      var i :| 0 <= i < |bodies| && bodies[i] == b;
      assert ats[i] == b.recordedAt && ats[i] in ats;
    }
    if at != floor {
      var i :| 0 <= i < |ats| && ats[i] == at;
      assert bodies[i] in bodies && bodies[i].recordedAt == at;
    }
  }

  lemma {:induction false} CarriedAre(w: World, r: Receipt, clock: Instant)
    requires Inv(w)
    ensures Submission(r) in CompactionGroup(w.disk, w.live, Candidates(w.disk, w.live), clock) <==>
            exists s :: s in w.disk && Spent(w, s) && r in Receipts(s.lines)
  {
    var doomed := Candidates(w.disk, w.live);
    var receipts := Receipts(Flat(doomed));
    FlatMember(doomed, ReceiptsIn, r);
    if Submission(r) in CompactionGroup(w.disk, w.live, doomed, clock) {
      var i :| 0 <= i < |Submissions(receipts)| && Submissions(receipts)[i] == Submission(r);
      assert receipts[i] == r;
      var s :| s in doomed && r in FlatMap(s.lines, ReceiptsIn);
      PickedAreSpent(w, s);
    }
    if s :| s in w.disk && Spent(w, s) && r in Receipts(s.lines) {
      PickedAreSpent(w, s);
      var i :| 0 <= i < |receipts| && receipts[i] == r;
      assert Submissions(receipts)[i] == Submission(r);
    }
  }

  /**
   A compaction that reclaims anything appends the receipts of what it reclaims, no
   others, and then one record that says exactly what it reclaims and where the log
   stands.
   */
  lemma {:induction false} CompactionSaysWhatItDoes(w: World, clock: Instant)
    requires Inv(w) && exists s :: s in w.disk && Spent(w, s)
    ensures var group := EffectOf(w, DoCompact(clock)).group;
            && group != [] && Accounts(w, group[|group| - 1], clock)
            && (forall i :: 0 <= i < |group| - 1 ==> group[i].Submission?)
            && (forall r: Receipt :: Submission(r) in group <==>
                  exists s :: s in w.disk && Spent(w, s) && r in Receipts(s.lines))
  {
    var some :| some in w.disk && Spent(w, some);
    PickedAreSpent(w, some);
    GroupOfCompaction(w, clock);
    RecordAccounts(w, clock);
    forall r: Receipt
      ensures Submission(r) in EffectOf(w, DoCompact(clock)).group <==>
              exists s :: s in w.disk && Spent(w, s) && r in Receipts(s.lines)
    {
      CarriedAre(w, r, clock);
    }
  }

  lemma {:induction false} GroupOfCompaction(w: World, clock: Instant)
    requires w.disk != [] && Candidates(w.disk, w.live) != []
    ensures var group, doomed := EffectOf(w, DoCompact(clock)).group, Candidates(w.disk, w.live);
            && group == CompactionGroup(w.disk, w.live, doomed, clock) && group != []
            && group[|group| - 1] == CompactionRecord(w.disk, w.live, doomed, clock)
            && (forall i :: 0 <= i < |group| - 1 ==> group[i].Submission?)
  {
  }

  lemma {:induction false} RecordAccounts(w: World, clock: Instant)
    requires Inv(w)
    ensures Accounts(w, CompactionRecord(w.disk, w.live, Candidates(w.disk, w.live), clock), clock)
  {
    var c := CompactionRecord(w.disk, w.live, Candidates(w.disk, w.live), clock);
    OrdinalsAre(w, c, clock);
    EachIsSpent(w, c, clock);
    BodiesAre(w, c, clock);
    MarksAre(w);
    HighestIsLatest(Bodies(Flat(w.disk)), w.live.floor);
  }

  // ---------------------------------------------------------- which segment a note names

  /** A live note names the segment that held its assertion. */
  lemma {:induction false} LiveNoteNamesItsSegment(doomed: seq<LogSegment>, clock: Instant, id: AssertionId)
    requires id in ReclamationNotes(doomed, clock)
    ensures exists s :: s in doomed && s.ordinal == ReclamationNotes(doomed, clock)[id].fromSegment
                        && exists b :: b in Bodies(s.lines) && b.id == id
  {
    var front, last := doomed[..|doomed| - 1], doomed[|doomed| - 1];
    NotedSegment(Bodies(last.lines), last.ordinal, clock, id);
    assert last in doomed;
    if id !in SegmentNotes(Bodies(last.lines), last.ordinal, clock) {
      LiveNoteNamesItsSegment(front, clock, id);
      var s :| s in front && s.ordinal == ReclamationNotes(front, clock)[id].fromSegment
               && exists b :: b in Bodies(s.lines) && b.id == id;
      assert s in doomed;
    }
  }

  lemma {:induction false} NotedSegment(bodies: seq<Assertion>, ordinal: int, clock: Instant, id: AssertionId)
    ensures var notes := SegmentNotes(bodies, ordinal, clock);
            id in notes ==> notes[id].fromSegment == ordinal && exists b :: b in bodies && b.id == id
  {
    if bodies != [] {
      assert bodies == bodies[..|bodies| - 1] + [bodies[|bodies| - 1]];
      NotedSegment(bodies[..|bodies| - 1], ordinal, clock, id);
    }
  }

  lemma {:induction false} RecordNoteNamesFirst(c: Record, n: nat, id: AssertionId)
    requires c.Compaction? && c.segments != [] && n <= |c.ids| && n <= |c.seqNos| && id in NotesOf(c, 0, n)
    ensures NotesOf(c, 0, n)[id].fromSegment == c.segments[0]
  {
    if id in NotesOf(c, 0, n - 1) { RecordNoteNamesFirst(c, n - 1, id); }
  }

  /**
   Everything a compaction reclaims is noted, with its seq and the instant, and a reopen
   notes the same; but the live note names the segment that held the assertion, and the
   reopened one the first segment that compaction reclaimed. So they are the same note
   exactly where that was the one.
   */
  lemma {:induction false} NoteNamesFirstAfterReopen(w: World, clock: Instant, at: Landing, b: Assertion)
    requires InSync(w) && SpentBody(w, b)
    ensures var next, id := Finish(w, DoCompact(clock), at), b.id;
            var r := Restore(next.disk);
            && id in next.live.reclaimed && id in r.reclaimed
            && RemembersAs(next.live.reclaimed[id], b, clock) && RemembersAs(r.reclaimed[id], b, clock)
            && (exists s :: s in w.disk && Spent(w, s) && s.ordinal == next.live.reclaimed[id].fromSegment
                            && exists c :: c in Bodies(s.lines) && c.id == id)
            && (exists s :: s in w.disk && Spent(w, s) && s.ordinal == r.reclaimed[id].fromSegment
                            && forall t :: t in w.disk && Spent(w, t) ==> s.ordinal <= t.ordinal)
  {
    var doomed, id := Candidates(w.disk, w.live), b.id;
    FinishCompact(w, clock, at);
    SpentIsNoted(w, clock, b);
    LiveSide(w, clock, id);
    ReclaimedFields(w.live, ReclamationNotes(doomed, clock));
    ReloadedNote(w, clock, at, id);
    FirstOrdinal(w);
  }

  ghost predicate RemembersAs(note: Note, b: Assertion, clock: Instant) {
    note.seqNo == b.seqNo && note.reclaimedAt == clock
  }

  lemma {:induction false} SpentIsNoted(w: World, clock: Instant, b: Assertion)
    requires Inv(w) && SpentBody(w, b)
    ensures var told := ReclamationNotes(Candidates(w.disk, w.live), clock);
            b.id in told && RemembersAs(told[b.id], b, clock)
  {
    DoomedBodies(w);
    PickedBodies(w, b);
    LiveNoteSays(Candidates(w.disk, w.live), clock, b.id);
  }

  lemma {:induction false} LiveSide(w: World, clock: Instant, id: AssertionId)
    requires Inv(w) && id in ReclamationNotes(Candidates(w.disk, w.live), clock)
    ensures Candidates(w.disk, w.live) != []
    ensures exists s :: s in w.disk && Spent(w, s)
                        && s.ordinal == ReclamationNotes(Candidates(w.disk, w.live), clock)[id].fromSegment
                        && exists b :: b in Bodies(s.lines) && b.id == id
  {
    var doomed := Candidates(w.disk, w.live);
    LiveNoteNamesItsSegment(doomed, clock, id);
    var s :| s in doomed && s.ordinal == ReclamationNotes(doomed, clock)[id].fromSegment
             && exists b :: b in Bodies(s.lines) && b.id == id;
    PickedAreSpent(w, s);
  }

  lemma {:induction false} FirstOrdinal(w: World)
    requires Inv(w) && Candidates(w.disk, w.live) != []
    ensures var first := Candidates(w.disk, w.live)[0];
            first in w.disk && Spent(w, first) && forall t :: t in w.disk && Spent(w, t) ==> first.ordinal <= t.ordinal
  {
    var doomed := Candidates(w.disk, w.live);
    CandidatesAscend(w.disk, w.live, |w.disk|);
    assert Ascending(doomed);
    PickedAreSpent(w, doomed[0]);
    forall t | t in w.disk && Spent(w, t) ensures doomed[0].ordinal <= t.ordinal {
      PickedAreSpent(w, t);
      var i :| 0 <= i < |doomed| && doomed[i] == t;
    }
  }

  lemma {:induction false} ReloadedNote(w: World, clock: Instant, at: Landing, id: AssertionId)
    requires InSync(w) && Candidates(w.disk, w.live) != []
    requires id in ReclamationNotes(Candidates(w.disk, w.live), clock)
    ensures var doomed := Candidates(w.disk, w.live);
            var r := Restore(Unlink(Appended(w, clock, at), OrdinalSet(doomed)));
            && id in r.reclaimed && r.reclaimed[id].fromSegment == doomed[0].ordinal
            && r.reclaimed[id].seqNo == ReclamationNotes(doomed, clock)[id].seqNo
            && r.reclaimed[id].reclaimedAt == ReclamationNotes(doomed, clock)[id].reclaimedAt
  {
    var doomed := Candidates(w.disk, w.live);
    var gone, told := OrdinalSet(doomed), ReclamationNotes(doomed, clock);
    var disk, c := Unlink(Appended(w, clock, at), gone), CompactionRecord(w.disk, w.live, doomed, clock);
    CompactedDisk(w, clock, at, gone);
    GoneWithin(w, clock, at, gone);
    CompactionSites(w, clock, at);
    BodiesLeft(Bodies(Flat(w.disk)), Flat(w.disk), Flat(disk), told.Keys);
    DoomedBodies(w);
    RecordAgreesWithLive(w.disk, w.live, doomed, clock);
    CompactedNotes(w, clock, at, gone);
    RestoredNotes(disk);
    RecordNoteNamesFirst(c, |c.ids|, id);
  }

  // ------------------------------------------------------------------------ headers

  /** Whatever an operation appends lands past every ordinal in use, under a header that states epoch and floor. */
  lemma {:induction false} NewSegmentsState(w: World, op: Operation, at: Landing, s: LogSegment)
    requires Inv(w) && Minting(w, op) && s in Finish(w, op, at).disk && !OnDisk(w.disk, s.ordinal)
    ensures at.roll && s.ordinal == w.disk[|w.disk| - 1].ordinal + 1
    ensures s.lines == [Header(s.ordinal, w.live.epoch, w.live.floor, at.clock)] + EffectOf(w, op).group
  {
    var e := EffectOf(w, op);
    if e.group != [] {
      var appended := Append(w.disk, w.live, e.group, at);
      UnlinkMember(appended, OrdinalSet(e.doomed), s);
      LandsLast(w.disk, w.live, e.group, at, s);
    }
  }

  lemma {:induction false} LandsLast(
    disk: seq<LogSegment>, live: LogState, group: seq<Record>, at: Landing, s: LogSegment)
    requires disk != [] && s in Append(disk, live, group, at) && !OnDisk(disk, s.ordinal)
    ensures at.roll && s.ordinal == disk[|disk| - 1].ordinal + 1
    ensures s.lines == [Header(s.ordinal, live.epoch, live.floor, at.clock)] + group
  {
    var appended := Append(disk, live, group, at);
    forall k | 0 <= k < |disk| ensures OnDisk(disk, disk[k].ordinal) { assert disk[k] in disk; }
    var i :| 0 <= i < |appended| && appended[i] == s;
  }

  // ------------------------------------------------------------------- belief time

  /** A reload's clock is at or past every instant any record on disk states. */
  lemma {:induction false} ReloadIsPastAll(disk: seq<LogSegment>, r: Record)
    requires r in Flat(disk)
    ensures var now := Restore(disk).lastMillis;
            match r
            case Header(_, _, _, createdAt) => createdAt <= now
            case Body(_, a) => a.recordedAt <= now
            case Supersession(_, stamp) => stamp.at <= now
            case Submission(receipt) => receipt.committedAt <= now
            case Watermark(_, at) => at <= now
            case HistoryFloor(_, at) => at <= now
            case Compaction(at, _, _, _, _, high, _, _) => at <= now && high <= now
            case Repair(at, _, _, _) => at <= now
  {
    forall t | t in InstantsIn(r) ensures t <= LastMillis(Flat(disk)) { FlatMapMember(Flat(disk), InstantsIn, t); }
    StatedInstants(r);
  }

  lemma {:induction false} StatedInstants(r: Record)
    ensures match r
            case Header(_, _, _, createdAt) => createdAt in InstantsIn(r)
            case Body(_, a) => a.recordedAt in InstantsIn(r)
            case Supersession(_, stamp) => stamp.at in InstantsIn(r)
            case Submission(receipt) => receipt.committedAt in InstantsIn(r)
            case Watermark(_, at) => at in InstantsIn(r)
            case HistoryFloor(_, at) => at in InstantsIn(r)
            case Compaction(at, _, _, _, _, high, _, _) => at in InstantsIn(r) && high in InstantsIn(r)
            case Repair(at, _, _, _) => at in InstantsIn(r)
  {
  }
}
