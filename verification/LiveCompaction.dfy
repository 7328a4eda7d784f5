/**
 Compaction as the running log does it: scan, plan, append, unlink, then tell the
 live store and rebuild its index. Disk, store and index end as the compaction
 step of the log's machine leaves them.
 */
module LiveCompaction {
  import opened Wrappers
  import opened Sequences
  import opened LogRecords
  import opened Store
  import opened SegmentScan
  import opened Recovery
  import opened LogWorld
  import opened LogInvariant
  import opened CompactionSteps
  import opened LogRuns
  import opened Reopening
  import opened CompactionPlan
  import opened LiveLog
  import opened LogIndexing

  /** All a plan reads of the live store. */
  function Marks(epoch: string, floor: Instant, published: int): LogState {
    FreshLog(epoch, floor).(published := published)
  }

  ghost predicate SameMarks(s: LogState, t: LogState) {
    s.epoch == t.epoch && s.floor == t.floor && s.published == t.published
  }

  lemma {:induction false} SameSelection(disk: seq<LogSegment>, s: LogState, t: LogState, n: nat)
    requires disk != [] && n <= |disk| && SameMarks(s, t)
    ensures CandidatesAmong(disk, s, n) == CandidatesAmong(disk, t, n)
    ensures RefusedAmong(disk, s, n) == RefusedAmong(disk, t, n)
  {
    if n > 0 { SameSelection(disk, s, t, n - 1); }
  }

  lemma {:induction false} SameCompaction(
    disk: seq<LogSegment>, s: LogState, t: LogState, doomed: seq<LogSegment>, clock: Instant, at: Landing)
    requires disk != [] && SameMarks(s, t)
    ensures var group := CompactionGroup(disk, s, doomed, clock);
            CompactionGroup(disk, t, doomed, clock) == group && Append(disk, t, group, at) == Append(disk, s, group, at)
  {
  }

  lemma {:induction false} BodiesAreUnique(w: World)
    requires Inv(w)
    ensures w.disk != [] && UniqueIds(Bodies(Flat(w.disk)))
  {
  }

  /** In sync, the index rebuilt from the scan shows what the reclaimed store holds. */
  lemma {:induction false} ScanIsLive(w: World, notes: map<AssertionId, Note>)
    requires InSync(w)
    ensures ApplyReclamation(w.live, notes).assertions == Without(Restore(w.disk).assertions, notes.Keys)
  {
    ReopenIsInvisible(w);
    ReclaimedLive(w.live, notes);
  }

  /** The disk after a plan is carried out. */
  function CarriedOut(
    disk: seq<LogSegment>, marks: LogState, doomed: seq<LogSegment>, group: seq<Record>, at: Landing): seq<LogSegment>
    requires disk != []
  {
    if doomed == [] then disk else Unlink(Append(disk, marks, group, at), OrdinalSet(doomed))
  }

  /** What was planned is the compaction step, on both sides. */
  lemma {:induction false} PlannedStep(
    w: World, marks: LogState, clock: Instant, at: Landing, doomed: seq<LogSegment>, group: seq<Record>,
    notes: map<AssertionId, Note>)
    requires w.disk != [] && SameMarks(marks, w.live) && doomed == Candidates(w.disk, marks)
    requires doomed == [] ==> notes == map[]
    requires doomed != [] ==>
             group == CompactionGroup(w.disk, marks, doomed, clock) && notes == ReclamationNotes(doomed, clock)
    ensures var next := Finish(w, DoCompact(clock), at);
            next.disk == CarriedOut(w.disk, marks, doomed, group, at) && next.live == ApplyReclamation(w.live, notes)
  {
    SameSelection(w.disk, marks, w.live, |w.disk|);
    SameCompaction(w.disk, marks, w.live, doomed, clock, at);
    FinishCompact(w, clock, at);
  }

  method CompactLog(
    d: DurableLog, disk: seq<LogSegment>, scanned: seq<Assertion>, clock: Instant, at: Landing, ghost w: World)
    returns (next: seq<LogSegment>, refused: seq<RefusedSegment>)
    requires d.Valid() && d.log.retention >= 0 && Inv(w) && w.disk == disk && w.live == d.log.View()
    requires scanned == Restore(disk).assertions
    modifies d`index, d.log
    ensures d.Valid() && refused == RefusedAmong(disk, w.live, |disk|)
    ensures next == Finish(w, DoCompact(clock), at).disk && d.log.View() == Finish(w, DoCompact(clock), at).live
    ensures Candidates(disk, w.live) == [] ==> d.index == old(d.index)
    ensures Candidates(disk, w.live) != [] ==>
              fresh(d.index) && fresh(d.index.added)
              && Shows(d.index.added, Without(scanned, ReclamationNotes(Candidates(disk, w.live), clock).Keys))
    ensures Candidates(disk, w.live) != [] && InSync(w) ==> Shows(d.index.added, d.log.values)
  {
    BodiesAreUnique(w);
    var marks := Marks(d.log.epoch, d.log.floor, d.log.published);
    var doomed, group, notes;
    doomed, refused, group, notes := Plan(disk, marks, clock);
    SameSelection(disk, marks, w.live, |disk|);
    PlannedStep(w, marks, clock, at, doomed, group, notes);
    next := CarriedOut(disk, marks, doomed, group, at);
    if doomed == [] { return; }
    d.Compact(notes, scanned);
    if InSync(w) { ScanIsLive(w, notes); }
  }
}
