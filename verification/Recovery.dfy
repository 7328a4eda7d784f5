/**
 The assertion log's recovery fold, and what it amounts to.

 The reader folds records one by one, holding a commit back until its receipt
 closes it. On anything the writer produces, the result is a handful of plain
 functions of the records on disk: which bodies, which stamps, which receipts,
 which notes, and the highest marks stated anywhere.
 */
module Recovery {
  import opened Wrappers
  import opened Sequences
  import opened LogRecords
  import opened Store
  import opened SegmentScan

  type LogSegment = Segment<Record>

  // ------------------------------------------------- the records, read at a glance

  function BodiesIn(r: Record): seq<Assertion> { if r.Body? then [r.assertion] else [] }
  function StampsIn(r: Record): seq<Stamp> { if r.Supersession? then [r.stamp] else [] }
  function ReceiptsIn(r: Record): seq<Receipt> { if r.Submission? then [r.receipt] else [] }
  function CompactionsIn(r: Record): seq<Record> { if r.Compaction? then [r] else [] }

  function SeqsIn(r: Record): seq<int> {
    match r
    case Body(_, a) => [a.seqNo]
    case Compaction(_, _, _, _, high, _, _, _) => [high]
    case _ => []
  }

  function WatermarksIn(r: Record): seq<int> {
    match r
    case Watermark(seqNo, _) => [seqNo]
    case Compaction(_, _, _, _, _, _, mark, _) => [mark]
    case _ => []
  }

  function FloorsIn(r: Record): seq<Instant> {
    match r
    case Header(_, _, floor, _) => [floor]
    case HistoryFloor(floor, _) => [floor]
    case Compaction(_, _, _, _, _, _, _, floor) => [floor]
    case _ => []
  }

  function InstantsIn(r: Record): seq<Instant> {
    match r
    case Header(_, _, _, createdAt) => [createdAt]
    case Body(_, a) => [a.recordedAt]
    case Supersession(_, stamp) => [stamp.at]
    case Submission(receipt) => [receipt.committedAt]
    case Watermark(_, at) => [at]
    case HistoryFloor(_, at) => [at]
    case Compaction(at, _, _, _, _, highRecordedAt, _, _) => [highRecordedAt, at]
    case Repair(at, _, _, _) => [at]
  }

  function EpochsIn(r: Record): seq<string> { if r.Header? then [r.epoch] else [] }

  function Bodies(rs: seq<Record>): seq<Assertion> { FlatMap(rs, BodiesIn) }
  function Stamps(rs: seq<Record>): seq<Stamp> { FlatMap(rs, StampsIn) }
  function Receipts(rs: seq<Record>): seq<Receipt> { FlatMap(rs, ReceiptsIn) }
  function Compactions(rs: seq<Record>): seq<Record> { FlatMap(rs, CompactionsIn) }
  function HighSeq(rs: seq<Record>): int { Highest(FlatMap(rs, SeqsIn), 0) }
  function HighWatermark(rs: seq<Record>): int { Highest(FlatMap(rs, WatermarksIn), 0) }
  function LastMillis(rs: seq<Record>): Instant { Highest(FlatMap(rs, InstantsIn), 0) }

  function FloorOf(rs: seq<Record>): Option<Instant> { RaiseTo(None, FlatMap(rs, FloorsIn)) }

  function EpochOf(rs: seq<Record>): Option<string> { LastOr(FlatMap(rs, EpochsIn), None) }

  /** The floor only ever advances; the first statement of it sets it. */
  function RaiseTo(floor: Option<Instant>, stated: seq<Instant>): Option<Instant> {
    if stated == [] then floor else Some(Highest(stated, if floor.Some? then floor.value else stated[0]))
  }

  function LastOr<T>(xs: seq<T>, otherwise: Option<T>): Option<T> {
    if xs == [] then otherwise else Some(xs[|xs| - 1])
  }

  function ReceiptMap(receipts: seq<Receipt>): map<string, Receipt> {
    if receipts == [] then map[]
    else
      var last := receipts[|receipts| - 1];
      ReceiptMap(receipts[..|receipts| - 1])[KeyOf(last) := last]
  }

  /** The notes one compaction record announces; `ordinal` is the segment that holds the record. */
  function NotesOf(c: Record, ordinal: int, n: nat): map<AssertionId, Note>
    requires c.Compaction? && n <= |c.ids| && n <= |c.seqNos|
  {
    if n == 0 then map[]
    else NotesOf(c, ordinal, n - 1)[c.ids[n - 1] :=
           Note(c.seqNos[n - 1], c.compactedAt, if c.segments != [] then c.segments[0] else ordinal)]
  }

  function AllNotesOf(c: Record, ordinal: int): map<AssertionId, Note>
    requires c.Compaction?
  {
    NotesOf(c, ordinal, if |c.ids| <= |c.seqNos| then |c.ids| else |c.seqNos|)
  }

  predicate NamesItsSegments(r: Record) {
    r.Compaction? ==> r.segments != []
  }

  function NoteMap(compactions: seq<Record>): map<AssertionId, Note>
    requires forall i :: 0 <= i < |compactions| ==> compactions[i].Compaction?
  {
    if compactions == [] then map[]
    else NoteMap(compactions[..|compactions| - 1]) + AllNotesOf(compactions[|compactions| - 1], 0)
  }

  lemma {:induction false} CompactionsAreCompactions(rs: seq<Record>)
    ensures forall i :: 0 <= i < |Compactions(rs)| ==> Compactions(rs)[i].Compaction?
  {
    if rs != [] {
      CompactionsAreCompactions(rs[..|rs| - 1]);
      assert Compactions(rs) == Compactions(rs[..|rs| - 1]) + CompactionsIn(rs[|rs| - 1]);
    }
  }

  function Notes(rs: seq<Record>): map<AssertionId, Note> {
    CompactionsAreCompactions(rs);
    NoteMap(Compactions(rs))
  }

  // -------------------------------------------------------------- the fold itself

  datatype Acc = Acc(
    bodies: seq<Assertion>,
    stamps: seq<Stamp>,
    submissions: map<string, Receipt>,
    reclaimed: map<AssertionId, Note>,
    watermark: int,
    highSeq: int,
    lastMillis: Instant,
    floor: Option<Instant>,
    epoch: Option<string>)

  const NOTHING := Acc([], [], map[], map[], 0, 0, 0, None, None)

  /** Make one record real: append what it holds, and raise every mark it states. */
  function Absorb(acc: Acc, ordinal: int, r: Record): Acc {
    Acc(acc.bodies + BodiesIn(r),
        acc.stamps + StampsIn(r),
        if r.Submission? then acc.submissions[KeyOf(r.receipt) := r.receipt] else acc.submissions,
        if r.Compaction? then acc.reclaimed + AllNotesOf(r, ordinal) else acc.reclaimed,
        Highest(WatermarksIn(r), acc.watermark),
        Highest(SeqsIn(r), acc.highSeq),
        Highest(InstantsIn(r), acc.lastMillis),
        RaiseTo(acc.floor, FloorsIn(r)),
        LastOr(EpochsIn(r), acc.epoch))
  }

  function AbsorbAll(acc: Acc, ordinal: int, rs: seq<Record>): Acc {
    if rs == [] then acc else Absorb(AbsorbAll(acc, ordinal, rs[..|rs| - 1]), ordinal, rs[|rs| - 1])
  }

  function Begin(acc: Acc, ordinal: int, header: Record): Result<Acc, ScanError> {
    if !header.Header? then Err(MissingHeader)
    else if header.ordinal != ordinal then Err(OrdinalMismatch)
    else if acc.epoch.Some? && acc.epoch.value != header.epoch then Err(EpochMismatch)
    else Ok(Absorb(acc, ordinal, header))
  }

  function Close(acc: Acc, ordinal: int, open: seq<Record>, r: Record): Result<Acc, ScanError> {
    Ok(Absorb(AbsorbAll(acc, ordinal, open), ordinal, r))
  }

  const LOG_FORMAT: Format<Record, Acc> :=
    Format((r: Record) => r.Header?, OpensGroup, (r: Record) => r.Submission?, Begin, Close, Absorb)

  /** What a reload restores, from the folded records. */
  ghost function RestoredFrom(acc: Acc): LogState {
    var live := SortBySeq(ApplyStamps(acc.bodies, acc.stamps));
    var notes := acc.reclaimed - set a | a in acc.bodies :: a.id;
    LogState(
      if acc.epoch.Some? then acc.epoch.value else "e1",
      live, acc.submissions, notes,
      if acc.floor.Some? then acc.floor.value else 0,
      acc.highSeq + 1, acc.lastMillis, acc.watermark, HighestNote(notes))
  }

  function InsertBySeq(sorted: seq<Assertion>, a: Assertion): seq<Assertion> {
    if sorted == [] || sorted[|sorted| - 1].seqNo <= a.seqNo then sorted + [a]
    else InsertBySeq(sorted[..|sorted| - 1], a) + [sorted[|sorted| - 1]]
  }

  /** A stable sort by `seq`. */
  function SortBySeq(assertions: seq<Assertion>): seq<Assertion> {
    if assertions == [] then []
    else InsertBySeq(SortBySeq(assertions[..|assertions| - 1]), assertions[|assertions| - 1])
  }

  ghost predicate SeqAscending(assertions: seq<Assertion>) {
    forall i, j :: 0 <= i < j < |assertions| ==> assertions[i].seqNo < assertions[j].seqNo
  }

  lemma {:induction false} SortedAlready(assertions: seq<Assertion>)
    requires SeqAscending(assertions)
    ensures SortBySeq(assertions) == assertions
  {
    if assertions != [] {
      SortedAlready(assertions[..|assertions| - 1]);
    }
  }

  // ------------------------------------------- the fold is those plain functions

  /** The fold's result, said without folding. */
  function Plain(rs: seq<Record>): Acc {
    Acc(Bodies(rs), Stamps(rs), ReceiptMap(Receipts(rs)), Notes(rs), HighWatermark(rs), HighSeq(rs), LastMillis(rs),
        FloorOf(rs), EpochOf(rs))
  }

  lemma {:induction false} NotesIgnoreOrdinal(c: Record, ordinal: int, n: nat)
    requires c.Compaction? && c.segments != [] && n <= |c.ids| && n <= |c.seqNos|
    ensures NotesOf(c, ordinal, n) == NotesOf(c, 0, n)
  {
    if n > 0 { NotesIgnoreOrdinal(c, ordinal, n - 1); }
  }

  lemma {:induction false} ReceiptsSnoc(rs: seq<Record>, r: Record)
    ensures ReceiptMap(Receipts(rs + [r])) ==
            if r.Submission? then ReceiptMap(Receipts(rs))[KeyOf(r.receipt) := r.receipt] else ReceiptMap(Receipts(rs))
  {
    FlatMapSnoc(rs, r, ReceiptsIn);
    assert Receipts(rs) + [] == Receipts(rs);
    if r.Submission? { assert Receipts(rs + [r])[..|Receipts(rs)|] == Receipts(rs); }
  }

  lemma {:induction false} NotesSnoc(rs: seq<Record>, r: Record)
    ensures Notes(rs + [r]) == if r.Compaction? then Notes(rs) + AllNotesOf(r, 0) else Notes(rs)
  {
    FlatMapSnoc(rs, r, CompactionsIn);
    CompactionsAreCompactions(rs);
    CompactionsAreCompactions(rs + [r]);
    assert Compactions(rs) + [] == Compactions(rs);
    if r.Compaction? { assert Compactions(rs + [r])[..|Compactions(rs)|] == Compactions(rs); }
  }

  lemma {:induction false} FloorsConcat(xs: seq<Instant>, ys: seq<Instant>)
    ensures RaiseTo(None, xs + ys) == RaiseTo(RaiseTo(None, xs), ys)
  {
    if xs == [] {
      assert xs + ys == ys;
    } else if ys == [] {
      assert xs + ys == xs;
    } else {
      assert (xs + ys)[0] == xs[0];
      HighestConcat(xs, ys, xs[0]);
    }
  }

  lemma {:induction false} EpochSnoc(rs: seq<Record>, r: Record)
    ensures EpochOf(rs + [r]) == LastOr(EpochsIn(r), EpochOf(rs))
  {
    FlatMapSnoc(rs, r, EpochsIn);
  }

  lemma {:induction false} MarksSnoc(rs: seq<Record>, r: Record)
    ensures HighWatermark(rs + [r]) == Highest(WatermarksIn(r), HighWatermark(rs))
    ensures HighSeq(rs + [r]) == Highest(SeqsIn(r), HighSeq(rs))
    ensures LastMillis(rs + [r]) == Highest(InstantsIn(r), LastMillis(rs))
    ensures FloorOf(rs + [r]) == RaiseTo(FloorOf(rs), FloorsIn(r))
  {
    FlatMapSnoc(rs, r, WatermarksIn);
    FlatMapSnoc(rs, r, SeqsIn);
    FlatMapSnoc(rs, r, InstantsIn);
    FlatMapSnoc(rs, r, FloorsIn);
    HighestConcat(FlatMap(rs, WatermarksIn), WatermarksIn(r), 0);
    HighestConcat(FlatMap(rs, SeqsIn), SeqsIn(r), 0);
    HighestConcat(FlatMap(rs, InstantsIn), InstantsIn(r), 0);
    FloorsConcat(FlatMap(rs, FloorsIn), FloorsIn(r));
  }

  lemma {:induction false} AbsorbPlain(ordinal: int, rs: seq<Record>, r: Record)
    requires NamesItsSegments(r)
    ensures Absorb(Plain(rs), ordinal, r) == Plain(rs + [r])
  {
    FlatMapSnoc(rs, r, BodiesIn);
    FlatMapSnoc(rs, r, StampsIn);
    ReceiptsSnoc(rs, r);
    NotesSnoc(rs, r);
    MarksSnoc(rs, r);
    EpochSnoc(rs, r);
    if r.Compaction? { NotesIgnoreOrdinal(r, ordinal, if |r.ids| <= |r.seqNos| then |r.ids| else |r.seqNos|); }
  }

  lemma {:induction false} AbsorbAllPlain(ordinal: int, prior: seq<Record>, rs: seq<Record>)
    requires forall i :: 0 <= i < |rs| ==> NamesItsSegments(rs[i])
    ensures AbsorbAll(Plain(prior), ordinal, rs) == Plain(prior + rs)
  {
    if rs == [] {
      assert prior + rs == prior;
    } else {
      var front, last := rs[..|rs| - 1], rs[|rs| - 1];
      AbsorbAllPlain(ordinal, prior, front);
      AbsorbPlain(ordinal, prior + front, last);
      Unsnoc(prior, rs);
    }
  }

  // ---------------------------------------------------------- disks a writer makes

  /** Groups are contiguous: a record that stands alone never lands inside an open commit. */
  ghost predicate Grouped(lines: seq<Record>) {
    forall i, j :: 0 <= i < |lines| && j == i + 1 && j < |lines| && OpensGroup(lines[i]) ==>
      OpensGroup(lines[j]) || lines[j].Submission?
  }

  ghost predicate WellFormedLines(lines: seq<Record>) {
    && Shaped(LOG_FORMAT, lines)
    && Grouped(lines)
    && (forall i :: 0 <= i < |lines| ==> NamesItsSegments(lines[i]))
  }

  ghost predicate WellFormedSegment(s: LogSegment, epoch: string) {
    && WellFormedLines(s.lines)
    && s.lines[0].ordinal == s.ordinal && s.lines[0].epoch == epoch
    && !OpensGroup(s.lines[|s.lines| - 1])
  }

  ghost predicate WellFormedDisk(disk: seq<LogSegment>, epoch: string) {
    && (forall i :: 0 <= i < |disk| ==> WellFormedSegment(disk[i], epoch))
    && (forall i, j :: 0 <= i < j < |disk| ==> disk[i].ordinal < disk[j].ordinal)
  }

  function LinesIn(s: LogSegment): seq<Record> { s.lines }

  /** Every record on disk, in log order, headers included. */
  function Flat(disk: seq<LogSegment>): seq<Record> { FlatMap(disk, LinesIn) }

  /** A closing record makes the held-back lines and itself real, in order. */
  lemma {:induction false} CloseAbsorbs(ordinal: int, prior: seq<Record>, lines: seq<Record>, m: nat)
    requires lines != [] && m < |lines| && forall i :: 0 <= i < |lines| ==> NamesItsSegments(lines[i])
    ensures Absorb(AbsorbAll(Plain(prior + lines[..m]), ordinal, lines[..|lines| - 1][m..]), ordinal,
                   lines[|lines| - 1]) == Plain(prior + lines)
  {
    var front, last := lines[..|lines| - 1], lines[|lines| - 1];
    assert front[..m] == lines[..m];
    AbsorbAllPlain(ordinal, prior + front[..m], front[m..]);
    SplitAt(prior, front, m);
    AbsorbPlain(ordinal, prior + front, last);
    Unsnoc(prior, lines);
  }

  /** Folding one segment's lines absorbs exactly its closed ones. */
  lemma {:induction false} ScanAbsorbs(ordinal: int, prior: seq<Record>, lines: seq<Record>)
    requires WellFormedLines(lines)
    ensures var n := ClosedLines(OpensGroup, lines);
            var st := ScanLines(LOG_FORMAT, ordinal, Plain(prior + [lines[0]]), lines);
            n >= 1 && st.Ok? && st.value.open == lines[n..] && st.value.acc == Plain(prior + lines[..n])
  {
    if |lines| == 1 {
      OneLine(lines);
    } else {
      var front, last := lines[..|lines| - 1], lines[|lines| - 1];
      ScanAbsorbs(ordinal, prior, front);
      var m := ClosedLines(OpensGroup, front);
      FrontLines(lines, m);
      if !OpensGroup(last) {
        assert !last.Submission? ==> !OpensGroup(lines[|lines| - 2]) && !OpensGroup(front[|front| - 1]);
        CloseAbsorbs(ordinal, prior, lines, m);
        assert AbsorbAll(Plain(prior + lines[..m]), ordinal, []) == Plain(prior + lines[..m]);
      }
    }
  }

  lemma {:induction false} OneLine(lines: seq<Record>)
    requires |lines| == 1
    ensures lines[..0] == [] && lines[..1] == [lines[0]] == lines && lines[1..] == []
  {
  }

  lemma {:induction false} FrontLines(lines: seq<Record>, m: nat)
    requires m < |lines|
    ensures var front, last := lines[..|lines| - 1], lines[|lines| - 1];
            && front[..m] == lines[..m] && lines[m..] == front[m..] + [last]
            && lines[..|lines|] == lines && lines[|lines|..] == []
  {
  }

  /** One segment: begin at its header, absorb all its lines. */
  lemma {:induction false} FoldSegmentPlain(prior: seq<Record>, s: LogSegment, epoch: string)
    requires WellFormedSegment(s, epoch) && (EpochOf(prior).Some? ==> EpochOf(prior).value == epoch)
    ensures var st := FoldSegment(LOG_FORMAT, Plain(prior), s);
            st.Ok? && st.value.open == [] && st.value.acc == Plain(prior + s.lines)
  {
    AbsorbPlain(s.ordinal, prior, s.lines[0]);
    ScanAbsorbs(s.ordinal, prior, s.lines);
    assert s.lines[..|s.lines|] == s.lines;
  }

  lemma {:induction false} EpochOfFlat(disk: seq<LogSegment>, epoch: string)
    requires WellFormedDisk(disk, epoch)
    ensures EpochOf(Flat(disk)) == if disk == [] then None else Some(epoch)
  {
    if disk != [] {
      var front, last := disk[..|disk| - 1], disk[|disk| - 1];
      FlatMapConcat(Flat(front), last.lines, EpochsIn);
      FlatMapConcat([last.lines[0]], last.lines[1..], EpochsIn);
      assert last.lines == [last.lines[0]] + last.lines[1..];
      FlatMapEmpty(last.lines[1..], EpochsIn);
      FlatMapOne(last.lines[0], EpochsIn);
    }
  }

  /** The recovery fold of a well-formed disk is the plain reading of all its records. */
  lemma {:induction false} FoldIsPlainReading(disk: seq<LogSegment>, epoch: string)
    requires WellFormedDisk(disk, epoch)
    ensures AllShaped(LOG_FORMAT, disk) && FoldDisk(LOG_FORMAT, NOTHING, disk) == Ok(Plain(Flat(disk)))
  {
    if disk != [] {
      var front, last := disk[..|disk| - 1], disk[|disk| - 1];
      FoldIsPlainReading(front, epoch);
      EpochOfFlat(front, epoch);
      FoldSegmentPlain(Flat(front), last, epoch);
    }
  }

  /** What a reload of a disk restores. */
  ghost function Restore(disk: seq<LogSegment>): LogState {
    RestoredFrom(Plain(Flat(disk)))
  }
}
