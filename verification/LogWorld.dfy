/**
 The durable log as one machine: the segments on disk, the live store beside
 them, and every way a step can end, crashes included.

 Three things come from outside and are parameters of a step: the clock, minted
 ids, and whether the writer's size rule rolls to a new segment. Two fields are
 history kept for the theorems and read by no operation: the ids ever minted,
 and the commits ever made durable.
 */
module LogWorld {
  import opened Wrappers
  import opened Sequences
  import opened LogRecords
  import opened Store
  import opened SegmentScan
  import opened Recovery

  /** A durable commit: its receipt and the first `seq` it was given. */
  datatype Entry = Entry(receipt: Receipt, first: int)

  datatype World = World(disk: seq<LogSegment>, live: LogState, used: set<AssertionId>, history: seq<Entry>)

  function FreshSegment(ordinal: int, epoch: string, floor: Instant, clock: Instant): LogSegment {
    Segment(ordinal, [Header(ordinal, epoch, floor, clock)])
  }

  /** A log opened on an empty directory: one segment holding its header. */
  function NewWorld(epoch: string, floor: Instant, clock: Instant): World {
    World([FreshSegment(1, epoch, floor, clock)], FreshLog(epoch, floor), {}, [])
  }

  // ---------------------------------------------------------------- appending

  /** Where a group lands: the active segment, or a new one when the writer rolls. */
  datatype Landing = Landing(roll: bool, clock: Instant)

  predicate Rolls(disk: seq<LogSegment>, at: Landing)
    requires disk != []
  {
    at.roll && |disk[|disk| - 1].lines| > 1
  }

  function Append(disk: seq<LogSegment>, live: LogState, group: seq<Record>, at: Landing): seq<LogSegment>
    requires disk != []
  {
    var last := disk[|disk| - 1];
    if Rolls(disk, at) then
      var begun := FreshSegment(last.ordinal + 1, live.epoch, live.floor, at.clock);
      disk + [begun.(lines := begun.lines + group)]
    else
      disk[..|disk| - 1] + [last.(lines := last.lines + group)]
  }

  // --------------------------------------------------------------- compaction

  datatype Refusal = ActiveSegment | HoldsRepair | AboveWatermark | StillBelieved | WithinFloor

  /** When the scan says an assertion stopped being believed. */
  function ScannedEnd(disk: seq<LogSegment>, a: Assertion): Option<Instant> {
    Stamped(a, Stamps(Flat(disk))).supersededAt
  }

  /** The rule that stops a segment from being reclaimed, checked in the compactor's order. */
  function Verdict(disk: seq<LogSegment>, s: LogSegment, watermark: int, floor: Instant, active: int): Option<Refusal> {
    var bodies := Bodies(s.lines);
    if s.ordinal == active then Some(ActiveSegment)
    else if exists r :: r in s.lines && r.Repair? then Some(HoldsRepair)
    else if exists a :: a in bodies && a.seqNo > watermark then Some(AboveWatermark)
    else if exists a :: a in bodies && ScannedEnd(disk, a).None? then Some(StillBelieved)
    else if exists a :: a in bodies && ScannedEnd(disk, a).Some? && ScannedEnd(disk, a).value > floor
    then Some(WithinFloor)
    else None
  }

  /** The first `n` segments that no rule refuses. */
  function CandidatesAmong(disk: seq<LogSegment>, live: LogState, n: nat): seq<LogSegment>
    requires disk != [] && n <= |disk|
  {
    if n == 0 then []
    else
      var earlier, s := CandidatesAmong(disk, live, n - 1), disk[n - 1];
      if Verdict(disk, s, live.published, live.floor, disk[|disk| - 1].ordinal).None? then earlier + [s] else earlier
  }

  function Candidates(disk: seq<LogSegment>, live: LogState): seq<LogSegment>
    requires disk != []
  {
    CandidatesAmong(disk, live, |disk|)
  }

  function Ordinals(segments: seq<LogSegment>): seq<int> {
    seq(|segments|, i requires 0 <= i < |segments| => segments[i].ordinal)
  }

  function Ids(assertions: seq<Assertion>): seq<AssertionId> {
    seq(|assertions|, i requires 0 <= i < |assertions| => assertions[i].id)
  }

  function SeqNos(assertions: seq<Assertion>): seq<int> {
    seq(|assertions|, i requires 0 <= i < |assertions| => assertions[i].seqNo)
  }

  function RecordedAts(assertions: seq<Assertion>): seq<Instant> {
    seq(|assertions|, i requires 0 <= i < |assertions| => assertions[i].recordedAt)
  }

  function Submissions(receipts: seq<Receipt>): seq<Record> {
    seq(|receipts|, i requires 0 <= i < |receipts| => Submission(receipts[i]))
  }

  /** The record that announces a reclamation and carries every mark its segments might be the last to hold. */
  function CompactionRecord(disk: seq<LogSegment>, live: LogState, doomed: seq<LogSegment>, clock: Instant): Record {
    var bodies := Bodies(Flat(doomed));
    Compaction(clock, Ordinals(doomed), Ids(bodies), SeqNos(bodies), HighSeq(Flat(disk)),
               Highest(RecordedAts(Bodies(Flat(disk))), live.floor), live.published, live.floor)
  }

  function CompactionGroup(
    disk: seq<LogSegment>, live: LogState, doomed: seq<LogSegment>, clock: Instant): seq<Record>
  {
    Submissions(Receipts(Flat(doomed))) + [CompactionRecord(disk, live, doomed, clock)]
  }

  /** What the live store is told: one note per body, naming the segment that held it. */
  function ReclamationNotes(doomed: seq<LogSegment>, clock: Instant): map<AssertionId, Note> {
    if doomed == [] then map[]
    else
      var last := doomed[|doomed| - 1];
      ReclamationNotes(doomed[..|doomed| - 1], clock) + SegmentNotes(Bodies(last.lines), last.ordinal, clock)
  }

  function SegmentNotes(bodies: seq<Assertion>, ordinal: int, clock: Instant): map<AssertionId, Note> {
    if bodies == [] then map[]
    else
      var last := bodies[|bodies| - 1];
      SegmentNotes(bodies[..|bodies| - 1], ordinal, clock)[last.id := Note(last.seqNo, clock, ordinal)]
  }

  /** The disk once the segments with these ordinals are unlinked. */
  function Unlink(disk: seq<LogSegment>, gone: set<int>): seq<LogSegment> {
    if disk == [] then []
    else
      var front, last := Unlink(disk[..|disk| - 1], gone), disk[|disk| - 1];
      if last.ordinal in gone then front else front + [last]
  }

  function OrdinalSet(segments: seq<LogSegment>): set<int> {
    set s | s in segments :: s.ordinal
  }

  // ---------------------------------------------------------------- operations

  datatype Operation =
    | DoCommit(input: CommitInput, mint: Mint)
    | DoFeed(cursor: int, limit: nat, clock: Instant)
    | DoFloor(to: Instant, clock: Instant)
    | DoCompact(clock: Instant)

  /** Everything one operation does: what it appends, what it then unlinks, and the live state it leaves. */
  datatype Effect = Effect(live: LogState, group: seq<Record>, doomed: seq<LogSegment>, entry: Option<Entry>)

  /** Minted ids are new, and there is one per draft: the promise of the id mint. */
  predicate Minting(w: World, op: Operation) {
    op.DoCommit? ==>
      && |op.mint.ids| == |op.input.drafts|
      && (forall i :: 0 <= i < |op.mint.ids| ==> op.mint.ids[i] !in w.used)
      && (forall i, j :: 0 <= i < j < |op.mint.ids| ==> op.mint.ids[i] != op.mint.ids[j])
  }

  ghost function EffectOf(w: World, op: Operation): Effect
    requires w.disk != [] && Minting(w, op)
  {
    match op
    case DoCommit(input, mint) =>
      var r := Commit(w.live, input, mint);
      Effect(r.state, r.group, [],
             if r.outcome.Committed? then Some(Entry(r.outcome.receipt, w.live.nextSeq)) else None)
    case DoFeed(cursor, limit, clock) =>
      var r := ChangesSince(w.live, cursor, limit, clock);
      Effect(r.state, r.group, [], None)
    case DoFloor(to, clock) =>
      var r := AdvanceFloor(w.live, to, clock);
      Effect(r.state, r.group, [], None)
    case DoCompact(clock) =>
      var doomed := Candidates(w.disk, w.live);
      if doomed == [] then Effect(w.live, [], [], None)
      else Effect(ApplyReclamation(w.live, ReclamationNotes(doomed, clock)),
                  CompactionGroup(w.disk, w.live, doomed, clock), doomed, None)
  }

  function IdSet(ids: seq<AssertionId>): set<AssertionId> {
    set id | id in ids
  }

  function MintedBy(op: Operation): set<AssertionId> {
    if op.DoCommit? then IdSet(op.mint.ids) else {}
  }

  function Recorded(history: seq<Entry>, entry: Option<Entry>): seq<Entry> {
    if entry.Some? then history + [entry.value] else history
  }

  /** An operation that returns: the group is durable, then the change is visible, then files are unlinked. */
  ghost function Finish(w: World, op: Operation, at: Landing): World
    requires w.disk != [] && Minting(w, op)
  {
    var e := EffectOf(w, op);
    World(
      if e.group == [] then w.disk else Unlink(Append(w.disk, w.live, e.group, at), OrdinalSet(e.doomed)),
      e.live, w.used + MintedBy(op), Recorded(w.history, e.entry))
  }

  // ------------------------------------------------------------------- crashes

  /** How far an operation got: `written` whole records of its group, and `unlinked` of its doomed segments. */
  datatype Progress = Progress(written: nat, unlinked: nat)

  predicate Reaches(e: Effect, p: Progress) {
    && p.written <= |e.group|
    && p.unlinked <= |e.doomed|
    && (p.written < |e.group| ==> p.unlinked == 0)
  }

  /** What repair leaves of a group that got this far. */
  function Surviving(group: seq<Record>, written: nat): seq<Record>
    requires written <= |group|
  {
    group[..ClosedLines(OpensGroup, group[..written])]
  }

  /** The disk after a crash and the repairing scan of the next open. */
  ghost function CrashedDisk(w: World, e: Effect, p: Progress, at: Landing): seq<LogSegment>
    requires w.disk != [] && Reaches(e, p)
  {
    if e.group == [] then w.disk
    else Unlink(Append(w.disk, w.live, Surviving(e.group, p.written), at), OrdinalSet(e.doomed[..p.unlinked]))
  }

  /** Repairs are appended one by one after the scan, each wherever the writer lands. */
  function AppendRepairs(disk: seq<LogSegment>, live: LogState, repairs: seq<(Record, Landing)>): seq<LogSegment>
    requires disk != []
    ensures AppendRepairs(disk, live, repairs) != []
  {
    if repairs == [] then disk
    else
      var front, last := AppendRepairs(disk, live, repairs[..|repairs| - 1]), repairs[|repairs| - 1];
      Append(front, live, [last.0], last.1)
  }

  predicate AreRepairs(repairs: seq<(Record, Landing)>) {
    forall i :: 0 <= i < |repairs| ==> repairs[i].0.Repair?
  }

  lemma {:induction false} UnlinkMember(disk: seq<LogSegment>, gone: set<int>, s: LogSegment)
    ensures s in Unlink(disk, gone) <==> s in disk && s.ordinal !in gone
  {
    if disk != [] {
      assert disk == disk[..|disk| - 1] + [disk[|disk| - 1]];
      UnlinkMember(disk[..|disk| - 1], gone, s);
    }
  }

  lemma {:induction false} CandidateMember(disk: seq<LogSegment>, live: LogState, n: nat, s: LogSegment)
    requires disk != [] && n <= |disk|
    ensures s in CandidatesAmong(disk, live, n) <==>
            s in disk[..n] && Verdict(disk, s, live.published, live.floor, disk[|disk| - 1].ordinal).None?
  {
    if n > 0 {
      assert disk[..n] == disk[..n - 1] + [disk[n - 1]];
      CandidateMember(disk, live, n - 1, s);
    }
  }

  /** The segment being appended to is never doomed, so something is always left to open. */
  lemma {:induction false} ActiveSegmentSurvives(w: World, op: Operation, p: Progress, at: Landing)
    requires w.disk != [] && Minting(w, op) && Reaches(EffectOf(w, op), p)
    ensures CrashedDisk(w, EffectOf(w, op), p, at) != []
  {
    var e := EffectOf(w, op);
    if e.group != [] {
      var n := |w.disk|;
      var active := w.disk[n - 1].ordinal;
      var appended := Append(w.disk, w.live, Surviving(e.group, p.written), at);
      var gone := OrdinalSet(e.doomed[..p.unlinked]);
      forall s | s in e.doomed ensures s.ordinal != active {
        assert w.disk[..n] == w.disk;
        CandidateMember(w.disk, w.live, n, s);
      }
      assert active !in gone;
      UnlinkMember(appended, gone, appended[n - 1]);
      assert appended[n - 1] in appended;
    }
  }

  /**
   The process dies during an operation and is opened again. Killing an idle
   process is the same step with an operation that got nowhere.
   */
  ghost function CrashAndReopen(
    w: World, op: Operation, p: Progress, at: Landing, repairs: seq<(Record, Landing)>): World
    requires w.disk != [] && Minting(w, op) && Reaches(EffectOf(w, op), p)
  {
    var e := EffectOf(w, op);
    var disk := CrashedDisk(w, e, p, at);
    ActiveSegmentSurvives(w, op, p, at);
    var live := Restore(disk);
    World(AppendRepairs(disk, live, repairs), live, w.used + MintedBy(op),
          Recorded(w.history, if p.written == |e.group| then e.entry else None))
  }

  // ---------------------------------------------------------------------- runs

  datatype Event =
    | Finishes(op: Operation, at: Landing)
    | Crashes(op: Operation, progress: Progress, at: Landing, repairs: seq<(Record, Landing)>)

  /** An event that can happen: fresh ids, and progress no further than the operation goes. */
  ghost predicate Possible(w: World, e: Event) {
    && w.disk != [] && Minting(w, e.op)
    && (e.Crashes? ==> Reaches(EffectOf(w, e.op), e.progress) && AreRepairs(e.repairs))
  }

  ghost function Step(w: World, e: Event): World
    requires Possible(w, e)
  {
    match e
    case Finishes(op, at) => Finish(w, op, at)
    case Crashes(op, p, at, repairs) => CrashAndReopen(w, op, p, at, repairs)
  }

  ghost predicate PossibleRun(w: World, events: seq<Event>)
    decreases |events|, 0
  {
    if events == [] then true
    else PossibleRun(w, events[..|events| - 1]) && Possible(Run(w, events[..|events| - 1]), events[|events| - 1])
  }

  ghost function Run(w: World, events: seq<Event>): World
    requires PossibleRun(w, events)
    decreases |events|, 1
  {
    if events == [] then w else Step(Run(w, events[..|events| - 1]), events[|events| - 1])
  }
}
