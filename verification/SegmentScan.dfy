/**
 Reading segment files back: split into lines, parse, fold closed groups, and
 repair only the tail of the final segment. The assertion log and the identity
 log differ in their records and in what a record does; both are a `Format`.
 */
module SegmentScan {
  import opened Wrappers
  import opened Sequences
  import opened LineFormat

  datatype ScanError =
    | EmptySegment
    | MissingHeader
    | OrdinalMismatch
    | EpochMismatch
    | CorruptRecord
    | TornMidLog
    | IncompleteMidLog

  datatype RepairKind = TornTail | IncompleteGroup

  datatype RepairNote = RepairNote(ordinal: int, kind: RepairKind, discarded: nat)

  datatype File = File(ordinal: int, content: bytes)

  /** A segment as its writer produced it: the header line, then whole groups. */
  datatype Segment<R> = Segment(ordinal: int, lines: seq<R>)

  /**
   What one log does with its records. `opens` marks members of a group that is
   not closed yet, `closes` the record that makes the group real; every other
   record but the header stands alone.
   */
  datatype Format<!R, !A> = Format(
    header: R -> bool,
    opens: R -> bool,
    closes: R -> bool,
    begin: (A, int, R) -> Result<A, ScanError>,
    close: (A, int, seq<R>, R) -> Result<A, ScanError>,
    alone: (A, int, R) -> A)

  /** Fold state inside one segment: `since` counts the lines before the open group. */
  datatype Fold<R, A> = Fold(acc: A, open: seq<R>, seen: nat, since: nat)

  function ScanLine<R, A>(f: Format<R, A>, ordinal: int, st: Fold<R, A>, r: R): Result<Fold<R, A>, ScanError> {
    if f.header(r) then Ok(st.(seen := st.seen + 1))
    else if f.opens(r) then
      Ok(Fold(st.acc, st.open + [r], st.seen + 1, if st.open == [] then st.seen else st.since))
    else if f.closes(r) then
      match f.close(st.acc, ordinal, st.open, r)
      case Err(e) => Err(e)
      case Ok(acc) => Ok(Fold(acc, [], st.seen + 1, st.since))
    else if st.open != [] then Err(IncompleteMidLog)
    else Ok(Fold(f.alone(st.acc, ordinal, r), [], st.seen + 1, st.since))
  }

  function ScanLines<R, A>(f: Format<R, A>, ordinal: int, acc: A, lines: seq<R>): Result<Fold<R, A>, ScanError> {
    if lines == [] then Ok(Fold(acc, [], 0, 0))
    else
      match ScanLines(f, ordinal, acc, lines[..|lines| - 1])
      case Err(e) => Err(e)
      case Ok(st) => ScanLine(f, ordinal, st, lines[|lines| - 1])
  }

  datatype Read<R> = Read(lines: seq<bytes>, records: seq<R>, complete: nat, torn: nat)

  function ReadSegment<R>(c: Codec<R>, b: bytes, isLast: bool): Result<Read<R>, ScanError> {
    if b == [] then Err(EmptySegment)
    else
      var s := SplitLines(b);
      if s.torn != [] && !isLast then Err(TornMidLog)
      else
        var lines := LinesOf(s.complete, []);
        var records := DecodeAll(c, lines);
        if records.None? then Err(CorruptRecord)
        else if records.value == [] then Err(MissingHeader)
        else Ok(Read(lines, records.value, |s.complete|, |s.torn|))
  }

  datatype FileScan<A> = FileScan(acc: A, repairs: seq<RepairNote>, file: File, records: int)

  /** Fold one file; `file` in the result is what repair leaves of it. */
  function ScanFile<R, A>(f: Format<R, A>, c: Codec<R>, acc: A, file: File, isLast: bool)
    : Result<FileScan<A>, ScanError>
  {
    match ReadSegment(c, file.content, isLast)
    case Err(e) => Err(e)
    case Ok(read) =>
      if !f.header(read.records[0]) then Err(MissingHeader)
      else
        match f.begin(acc, file.ordinal, read.records[0])
        case Err(e) => Err(e)
        case Ok(begun) =>
          match ScanLines(f, file.ordinal, begun, read.records)
          case Err(e) => Err(e)
          case Ok(st) =>
            if st.open != [] && !isLast then Err(IncompleteMidLog)
            else Ok(Settle(file, read, st))
  }

  function Settle<R, A>(file: File, read: Read<R>, st: Fold<R, A>): FileScan<A> {
    var live := if st.open == [] then read.complete else |Join(Take(read.lines, st.since))|;
    FileScan(
      st.acc,
      (if st.open == [] then [] else [RepairNote(file.ordinal, IncompleteGroup, Max(read.complete - live, 0))]) +
      (if read.torn == 0 then [] else [RepairNote(file.ordinal, TornTail, read.torn)]),
      File(file.ordinal, Take(file.content, live)),
      |read.records| - 1 - |st.open|)
  }

  datatype LogScan<A> = LogScan(acc: A, repairs: seq<RepairNote>, files: seq<File>)

  /** Every file but the last was sealed before the next was created, so nothing in it may need repair. */
  function ScanSealed<R, A>(f: Format<R, A>, c: Codec<R>, acc: A, files: seq<File>): Result<LogScan<A>, ScanError> {
    if files == [] then Ok(LogScan(acc, [], []))
    else
      match ScanSealed(f, c, acc, files[..|files| - 1])
      case Err(e) => Err(e)
      case Ok(earlier) => Extend(earlier, ScanFile(f, c, earlier.acc, files[|files| - 1], false))
  }

  function Extend<A>(earlier: LogScan<A>, next: Result<FileScan<A>, ScanError>): Result<LogScan<A>, ScanError> {
    match next
    case Err(e) => Err(e)
    case Ok(s) => Ok(LogScan(s.acc, earlier.repairs + s.repairs, earlier.files + [s.file]))
  }

  /** The recovery scan over files in ordinal order, repaired tail included. */
  function ScanFiles<R, A>(f: Format<R, A>, c: Codec<R>, acc: A, files: seq<File>): Result<LogScan<A>, ScanError> {
    if files == [] then Ok(LogScan(acc, [], []))
    else
      match ScanSealed(f, c, acc, files[..|files| - 1])
      case Err(e) => Err(e)
      case Ok(earlier) => Extend(earlier, ScanFile(f, c, earlier.acc, files[|files| - 1], true))
  }

  // ------------------------------------------------------------ the scan itself

  /** One file, as the reader loops over its lines. */
  method ScanOneFile<R, A>(f: Format<R, A>, c: Codec<R>, acc: A, file: File, isLast: bool)
    returns (r: Result<FileScan<A>, ScanError>)
    ensures r == ScanFile(f, c, acc, file, isLast)
  {
    var read := ReadSegment(c, file.content, isLast);
    if read.Err? { return Err(read.error); }
    var records := read.value.records;
    if !f.header(records[0]) { return Err(MissingHeader); }
    var begun := f.begin(acc, file.ordinal, records[0]);
    if begun.Err? { return Err(begun.error); }

    var current := begun.value;
    var open: seq<R> := [];
    var since := 0;
    var i := 0;
    while i < |records|
      invariant 0 <= i <= |records|
      invariant ScanLines(f, file.ordinal, begun.value, records[..i]) == Ok(Fold(current, open, i, since))
    {
      var record := records[i];
      assert records[..i + 1][..i] == records[..i];
      assert ScanLines(f, file.ordinal, begun.value, records[..i + 1]) ==
             ScanLine(f, file.ordinal, Fold(current, open, i, since), record);
      if f.header(record) {
      } else if f.opens(record) {
        if open == [] { since := i; }
        open := open + [record];
      } else if f.closes(record) {
        var closed := f.close(current, file.ordinal, open, record);
        if closed.Err? {
          ScanErrorSticks(f, file.ordinal, begun.value, records, i + 1);
          return Err(closed.error);
        }
        current := closed.value;
        open := [];
      } else if open != [] {
        ScanErrorSticks(f, file.ordinal, begun.value, records, i + 1);
        return Err(IncompleteMidLog);
      } else {
        current := f.alone(current, file.ordinal, record);
      }
      i := i + 1;
    }
    assert records[..i] == records;
    if open != [] && !isLast { return Err(IncompleteMidLog); }
    return Ok(Settle(file, read.value, Fold(current, open, i, since)));
  }

  /** The sealed files, one after another; the first refusal ends the scan. */
  method ScanSealedFiles<R, A>(f: Format<R, A>, c: Codec<R>, initial: A, files: seq<File>)
    returns (r: Result<LogScan<A>, ScanError>)
    ensures r == ScanSealed(f, c, initial, files)
  {
    var scan: LogScan<A> := LogScan(initial, [], []);
    var i := 0;
    while i < |files|
      invariant 0 <= i <= |files|
      invariant ScanSealed(f, c, initial, files[..i]) == Ok(scan)
    {
      var s := ScanOneFile(f, c, scan.acc, files[i], false);
      assert files[..i + 1][..i] == files[..i];
      if s.Err? {
        SealedErrorSticks(f, c, initial, files, i + 1);
        return Err(s.error);
      }
      scan := LogScan(s.value.acc, scan.repairs + s.value.repairs, scan.files + [s.value.file]);
      i := i + 1;
    }
    assert files[..i] == files;
    return Ok(scan);
  }

  /** The whole directory; `repair` decides whether the tail is truncated for real or only reported. */
  method ScanDirectory<R, A>(f: Format<R, A>, c: Codec<R>, initial: A, files: seq<File>, repair: bool)
    returns (r: Result<LogScan<A>, ScanError>)
    ensures var spec := ScanFiles(f, c, initial, files);
            r == if spec.Err? || repair then spec else Ok(spec.value.(files := files))
  {
    if files == [] { return Ok(LogScan(initial, [], [])); }
    var sealedScan := ScanSealedFiles(f, c, initial, files[..|files| - 1]);
    if sealedScan.Err? { return sealedScan; }
    var s := ScanOneFile(f, c, sealedScan.value.acc, files[|files| - 1], true);
    r := Extend(sealedScan.value, s);
    if r.Ok? && !repair { r := Ok(r.value.(files := files)); }
  }

  lemma {:induction false} ScanErrorSticks<R, A>(f: Format<R, A>, ordinal: int, acc: A, lines: seq<R>, i: nat)
    requires i <= |lines| && ScanLines(f, ordinal, acc, lines[..i]).Err?
    ensures ScanLines(f, ordinal, acc, lines) == ScanLines(f, ordinal, acc, lines[..i])
  {
    if i == |lines| {
      assert lines[..i] == lines;
    } else {
      var front := lines[..|lines| - 1];
      assert front[..i] == lines[..i];
      ScanErrorSticks(f, ordinal, acc, front, i);
    }
  }

  lemma {:induction false} SealedErrorSticks<R, A>(f: Format<R, A>, c: Codec<R>, acc: A, files: seq<File>, i: nat)
    requires i <= |files| && ScanSealed(f, c, acc, files[..i]).Err?
    ensures ScanSealed(f, c, acc, files) == ScanSealed(f, c, acc, files[..i])
  {
    if i == |files| {
      assert files[..i] == files;
    } else {
      var front := files[..|files| - 1];
      assert front[..i] == files[..i];
      SealedErrorSticks(f, c, acc, front, i);
    }
  }

  // --------------------------------------------------- the fold, on clean records

  /** How many leading lines end at a record that leaves nothing open. */
  function ClosedLines<R>(opens: R -> bool, lines: seq<R>): (n: nat)
    ensures n <= |lines|
    ensures n == 0 || !opens(lines[n - 1])
    ensures forall i :: n <= i < |lines| ==> opens(lines[i])
  {
    if lines == [] then 0
    else if opens(lines[|lines| - 1]) then ClosedLines(opens, lines[..|lines| - 1])
    else |lines|
  }

  /** A segment's shape on disk: its header first and nowhere else. */
  ghost predicate Shaped<R, A>(f: Format<R, A>, lines: seq<R>) {
    && lines != [] && f.header(lines[0])
    && (forall i :: 1 <= i < |lines| ==> !f.header(lines[i]))
    && (forall i :: 0 <= i < |lines| && f.header(lines[i]) ==> !f.opens(lines[i]))
  }

  lemma {:induction false} ScanPrefixOk<R, A>(f: Format<R, A>, ordinal: int, acc: A, lines: seq<R>, i: nat)
    requires i <= |lines| && ScanLines(f, ordinal, acc, lines).Ok?
    ensures ScanLines(f, ordinal, acc, lines[..i]).Ok?
  {
    if i < |lines| {
      var front := lines[..|lines| - 1];
      assert front[..i] == lines[..i];
      ScanPrefixOk(f, ordinal, acc, front, i);
    } else {
      assert lines[..i] == lines;
    }
  }

  /** What stays open after a fold is exactly the lines past the last closed one, and they changed nothing. */
  lemma {:induction false} OpenIsTheRest<R, A>(f: Format<R, A>, ordinal: int, acc: A, lines: seq<R>)
    requires Shaped(f, lines) && ScanLines(f, ordinal, acc, lines).Ok?
    ensures var st := ScanLines(f, ordinal, acc, lines).value;
            var n := ClosedLines(f.opens, lines);
            && n >= 1
            && st.seen == |lines|
            && st.open == lines[n..]
            && (st.open != [] ==> st.since == n)
            && ScanLines(f, ordinal, acc, lines[..n]).Ok?
            && ScanLines(f, ordinal, acc, lines[..n]).value.acc == st.acc
            && ScanLines(f, ordinal, acc, lines[..n]).value.open == []
  {
    var front, last := lines[..|lines| - 1], lines[|lines| - 1];
    var n := ClosedLines(f.opens, lines);
    if |lines| == 1 {
      assert front == [];
      assert lines[..n] == lines;
    } else {
      OpenIsTheRest(f, ordinal, acc, front);
      if f.opens(last) {
        assert front[..n] == lines[..n];
        assert lines[n..] == front[n..] + [last];
      } else {
        assert lines[..n] == lines;
      }
    }
  }

  // ------------------------------------------------------------- encoded segments

  function Encoded<R>(c: Codec<R>, lines: seq<R>): bytes {
    Join(EncodeAll(c, lines))
  }

  function EncodeSegment<R>(c: Codec<R>, s: Segment<R>): File {
    File(s.ordinal, Encoded(c, s.lines))
  }

  function EncodeDisk<R>(c: Codec<R>, disk: seq<Segment<R>>): seq<File> {
    seq(|disk|, i requires 0 <= i < |disk| => EncodeSegment(c, disk[i]))
  }

  /** Begin a segment and fold its lines. */
  function FoldSegment<R, A>(f: Format<R, A>, acc: A, s: Segment<R>): Result<Fold<R, A>, ScanError>
    requires s.lines != []
  {
    match f.begin(acc, s.ordinal, s.lines[0])
    case Err(e) => Err(e)
    case Ok(begun) => ScanLines(f, s.ordinal, begun, s.lines)
  }

  ghost predicate AllShaped<R, A>(f: Format<R, A>, disk: seq<Segment<R>>) {
    forall i :: 0 <= i < |disk| ==> Shaped(f, disk[i].lines)
  }

  /** The records-only reading of a disk: fold every segment in order, each one left closed. */
  function FoldDisk<R, A>(f: Format<R, A>, acc: A, disk: seq<Segment<R>>): Result<A, ScanError>
    requires forall i :: 0 <= i < |disk| ==> disk[i].lines != []
  {
    if disk == [] then Ok(acc)
    else
      match FoldDisk(f, acc, disk[..|disk| - 1])
      case Err(e) => Err(e)
      case Ok(mid) =>
        match FoldSegment(f, mid, disk[|disk| - 1])
        case Err(e) => Err(e)
        case Ok(st) => if st.open == [] then Ok(st.acc) else Err(IncompleteMidLog)
  }

  lemma {:induction false} EncodedLines<R(!new)>(c: Codec<R>, lines: seq<R>)
    requires ValidCodec(c) && lines != []
    ensures Join(EncodeAll(c, lines)) != []
    ensures WholeLines(EncodeAll(c, lines), |Join(EncodeAll(c, lines))|) == |lines|
  {
    var encoded := EncodeAll(c, lines);
    assert encoded[..|encoded|] == encoded;
    assert Join(encoded) == Join(encoded[..|encoded| - 1]) + encoded[|encoded| - 1] + [NEWLINE];
  }

  /** Reading an uncut file gives its records back, with nothing torn. */
  lemma {:induction false} ReadWhole<R(!new)>(c: Codec<R>, s: Segment<R>, isLast: bool)
    requires ValidCodec(c) && s.lines != []
    ensures var b := EncodeSegment(c, s).content;
            ReadSegment(c, b, isLast) == Ok(Read(EncodeAll(c, s.lines), s.lines, |b|, 0))
  {
    var b := EncodeSegment(c, s).content;
    EncodedLines(c, s.lines);
    CutRecords(c, s.lines, |b|);
    assert b[..|b|] == b && s.lines[..|s.lines|] == s.lines;
    var split := SplitLines(b);
    assert split.complete == b && split.torn == [];
  }

  /** A closed segment scans to its fold, sealed or final, and repair leaves it alone. */
  lemma {:induction false} ScanClosedFile<R(!new), A>(f: Format<R, A>, c: Codec<R>, acc: A, s: Segment<R>, isLast: bool)
    requires ValidCodec(c) && Shaped(f, s.lines)
    requires FoldSegment(f, acc, s).Ok? && FoldSegment(f, acc, s).value.open == []
    ensures var r := ScanFile(f, c, acc, EncodeSegment(c, s), isLast);
            && r.Ok? && r.value.acc == FoldSegment(f, acc, s).value.acc && r.value.repairs == []
            && r.value.file == EncodeSegment(c, s)
  {
    ReadWhole(c, s, isLast);
  }

  lemma {:induction false} EncodeDiskSnoc<R>(c: Codec<R>, disk: seq<Segment<R>>)
    requires disk != []
    ensures EncodeDisk(c, disk) == EncodeDisk(c, disk[..|disk| - 1]) + [EncodeSegment(c, disk[|disk| - 1])]
  {
  }

  lemma {:induction false} ScanSealedSnoc<R, A>(
    f: Format<R, A>, c: Codec<R>, acc: A, files: seq<File>, earlier: LogScan<A>, file: File)
    requires ScanSealed(f, c, acc, files) == Ok(earlier)
    ensures ScanSealed(f, c, acc, files + [file]) == Extend(earlier, ScanFile(f, c, earlier.acc, file, false))
    ensures ScanFiles(f, c, acc, files + [file]) == Extend(earlier, ScanFile(f, c, earlier.acc, file, true))
  {
    assert (files + [file])[..|files|] == files;
  }

  lemma {:induction false} ScanSealedDisk<R(!new), A>(
    f: Format<R, A>, c: Codec<R>, acc: A, disk: seq<Segment<R>>, result: A)
    requires ValidCodec(c) && AllShaped(f, disk) && FoldDisk(f, acc, disk) == Ok(result)
    ensures ScanSealed(f, c, acc, EncodeDisk(c, disk)) == Ok(LogScan(result, [], EncodeDisk(c, disk)))
  {
    if disk != [] {
      var front, last := disk[..|disk| - 1], disk[|disk| - 1];
      var mid := FoldDisk(f, acc, front).value;
      ScanSealedDisk(f, c, acc, front, mid);
      ScanClosedFile(f, c, mid, last, false);
      ScanSealedSnoc(f, c, acc, EncodeDisk(c, front), LogScan(mid, [], EncodeDisk(c, front)), EncodeSegment(c, last));
      EncodeDiskSnoc(c, disk);
    }
  }

  /** Scanning an undamaged directory: the fold of its records, nothing to repair, nothing changed. */
  lemma {:induction false} ScanUndamaged<R(!new),
    A>(f: Format<R, A>, c: Codec<R>, acc: A, disk: seq<Segment<R>>, result: A)
    requires ValidCodec(c) && AllShaped(f, disk) && FoldDisk(f, acc, disk) == Ok(result)
    ensures ScanFiles(f, c, acc, EncodeDisk(c, disk)) == Ok(LogScan(result, [], EncodeDisk(c, disk)))
  {
    if disk != [] {
      var front, last := disk[..|disk| - 1], disk[|disk| - 1];
      var mid := FoldDisk(f, acc, front).value;
      ScanSealedDisk(f, c, acc, front, mid);
      ScanClosedFile(f, c, mid, last, true);
      ScanSealedSnoc(f, c, acc, EncodeDisk(c, front), LogScan(mid, [], EncodeDisk(c, front)), EncodeSegment(c, last));
      EncodeDiskSnoc(c, disk);
    }
  }

  // -------------------------------------------------------------------- crash cuts

  /** The last file cut after its first `k` bytes. */
  function CutTail(files: seq<File>, k: nat): seq<File>
    requires files != [] && k <= |files[|files| - 1].content|
  {
    var last := files[|files| - 1];
    files[..|files| - 1] + [File(last.ordinal, last.content[..k])]
  }

  /** The last segment cut to its first `n` lines. */
  function CutLines<R>(disk: seq<Segment<R>>, n: nat): seq<Segment<R>>
    requires disk != [] && n <= |disk[|disk| - 1].lines|
  {
    var last := disk[|disk| - 1];
    disk[..|disk| - 1] + [Segment(last.ordinal, last.lines[..n])]
  }

  /** Lines that survive a cut at byte `k`: those of the longest run of whole groups lying wholly before it. */
  function SurvivingLines<R>(opens: R -> bool, c: Codec<R>, lines: seq<R>, k: nat): (n: nat)
    ensures n <= |lines|
  {
    ClosedLines(opens, lines[..WholeLines(EncodeAll(c, lines), k)])
  }

  /** The bytes of some lines split where the lines do, and every line takes bytes. */
  lemma {:induction false} EncodedPrefix<R(!new)>(c: Codec<R>, lines: seq<R>, n: nat)
    requires ValidCodec(c) && n <= |lines|
    ensures Encoded(c, lines) == Encoded(c, lines[..n]) + Encoded(c, lines[n..])
    ensures n < |lines| ==> Encoded(c, lines[n..]) != []
  {
    var encoded := EncodeAll(c, lines);
    assert encoded == EncodeAll(c, lines[..n]) + EncodeAll(c, lines[n..]);
    JoinConcat(EncodeAll(c, lines[..n]), EncodeAll(c, lines[n..]));
    if n < |lines| { EncodedLines(c, lines[n..]); }
  }

  /** Whole lines, counted on records: the longest prefix whose bytes end by `k`. */
  lemma {:induction false} WholeRecords<R(!new)>(c: Codec<R>, lines: seq<R>, k: nat)
    requires ValidCodec(c)
    ensures var m := WholeLines(EncodeAll(c, lines), k);
            && m <= |lines| && |Encoded(c, lines[..m])| <= k
            && forall n :: 0 <= n <= |lines| && |Encoded(c, lines[..n])| <= k ==> n <= m
  {
    var encoded := EncodeAll(c, lines);
    var m := WholeLines(encoded, k);
    assert encoded[..m] == EncodeAll(c, lines[..m]);
    forall n | 0 <= n <= |lines| && |Encoded(c, lines[..n])| <= k ensures n <= m
    {
      if m < n {
        assert encoded[..m + 1] == EncodeAll(c, lines[..n][..m + 1]);
        EncodedPrefix(c, lines[..n], m + 1);
      }
    }
  }

  /** Nothing longer survives: one more closing record would not fit before the cut. */
  lemma {:induction false} SurvivingIsLongest<R(!new)>(opens: R -> bool, c: Codec<R>, lines: seq<R>, k: nat, n: nat)
    requires ValidCodec(c) && n <= |lines| && (n == 0 || !opens(lines[n - 1]))
    requires |Encoded(c, lines[..n])| <= k
    ensures n <= SurvivingLines(opens, c, lines, k)
    ensures |Encoded(c, lines[..SurvivingLines(opens, c, lines, k)])| <= k
  {
    WholeRecords(c, lines, k);
    var whole := lines[..WholeLines(EncodeAll(c, lines), k)];
    var s := SurvivingLines(opens, c, lines, k);
    assert whole[..s] == lines[..s];
    EncodedPrefix(c, whole, s);
  }

  /** The reader's view of a cut file: the records whose lines are whole. */
  lemma {:induction false} ReadCut<R(!new)>(c: Codec<R>, s: Segment<R>, k: nat)
    requires ValidCodec(c) && s.lines != []
    requires |Encoded(c, s.lines[..1])| <= k <= |EncodeSegment(c, s).content|
    ensures var m := WholeLines(EncodeAll(c, s.lines), k);
            var whole := s.lines[..m];
            && m >= 1 && |Encoded(c, whole)| <= k
            && ReadSegment(c, EncodeSegment(c, s).content[..k], true) ==
               Ok(Read(EncodeAll(c, whole), whole, |Encoded(c, whole)|, k - |Encoded(c, whole)|))
  {
    WholeRecords(c, s.lines, k);
    CutRecords(c, s.lines, k);
    EncodedLines(c, s.lines[..1]);
  }

  /** Folding the whole lines of a cut segment stops where folding its surviving lines does. */
  lemma {:induction false} FoldCut<R, A>(f: Format<R, A>, acc: A, s: Segment<R>, m: nat)
    requires Shaped(f, s.lines) && FoldSegment(f, acc, s).Ok? && 1 <= m <= |s.lines|
    ensures var n := ClosedLines(f.opens, s.lines[..m]);
            var whole := FoldSegment(f, acc, Segment(s.ordinal, s.lines[..m]));
            var kept := FoldSegment(f, acc, Segment(s.ordinal, s.lines[..n]));
            && n >= 1 && whole.Ok? && kept.Ok? && kept.value.open == [] && kept.value.acc == whole.value.acc
            && whole.value.open == s.lines[..m][n..]
            && (whole.value.open != [] ==> whole.value.since == n)
  {
    var begun := f.begin(acc, s.ordinal, s.lines[0]).value;
    ScanPrefixOk(f, s.ordinal, begun, s.lines, m);
    OpenIsTheRest(f, s.ordinal, begun, s.lines[..m]);
    var n := ClosedLines(f.opens, s.lines[..m]);
    assert s.lines[..m][..n] == s.lines[..n];
  }

  /** Repair keeps exactly the bytes of the closed lines, and does nothing exactly when they are all there is. */
  lemma {:induction false} SettleCut<R(!new),
    A>(c: Codec<R>, ordinal: int, cut: bytes, whole: seq<R>, n: nat, st: Fold<R, A>)
    requires ValidCodec(c) && n <= |whole| && st.open == whole[n..] && (st.open != [] ==> st.since == n)
    requires Encoded(c, whole) <= cut
    ensures var read := Read(EncodeAll(c, whole), whole, |Encoded(c, whole)|, |cut| - |Encoded(c, whole)|);
            var r := Settle(File(ordinal, cut), read, st);
            var kept := Encoded(c, whole[..n]);
            && r.acc == st.acc && r.file == File(ordinal, kept) && (r.repairs == [] <==> |cut| == |kept|)
  {
    var kept := Encoded(c, whole[..n]);
    EncodedPrefix(c, whole, n);
    assert n == |whole| ==> whole[..n] == whole;
    assert Take(EncodeAll(c, whole), n) == EncodeAll(c, whole[..n]);
    assert cut[..|kept|] == kept && cut[..|cut|] == cut;
  }

  /** The tail of one file, cut anywhere past its header line. */
  lemma {:induction false} ScanCutFile<R(!new), A>(f: Format<R, A>, c: Codec<R>, acc: A, s: Segment<R>, k: nat)
    requires ValidCodec(c) && Shaped(f, s.lines) && FoldSegment(f, acc, s).Ok?
    requires |Encoded(c, s.lines[..1])| <= k <= |EncodeSegment(c, s).content|
    ensures var n := SurvivingLines(f.opens, c, s.lines, k);
            var kept := Segment(s.ordinal, s.lines[..n]);
            var r := ScanFile(f, c, acc, File(s.ordinal, EncodeSegment(c, s).content[..k]), true);
            && Shaped(f, kept.lines)
            && FoldSegment(f, acc, kept).Ok? && FoldSegment(f, acc, kept).value.open == []
            && r.Ok? && r.value.acc == FoldSegment(f, acc, kept).value.acc
            && r.value.file == EncodeSegment(c, kept)
            && (r.value.repairs == [] <==> k == |EncodeSegment(c, kept).content|)
  {
    var m := WholeLines(EncodeAll(c, s.lines), k);
    var whole, cut := s.lines[..m], EncodeSegment(c, s).content[..k];
    ReadCut(c, s, k);
    FoldCut(f, acc, s, m);
    EncodedPrefix(c, s.lines, m);
    var n := ClosedLines(f.opens, whole);
    assert whole[..n] == s.lines[..n];
    SettleCut(c, s.ordinal, cut, whole, n, FoldSegment(f, acc, Segment(s.ordinal, whole)).value);
  }

  /** A directory is its clean sealed files and whatever the last file turns out to be. */
  lemma {:induction false} ScanWithTail<R(!new),
    A>(f: Format<R, A>, c: Codec<R>, acc: A, front: seq<Segment<R>>, mid: A, tail: File)
    requires ValidCodec(c) && AllShaped(f, front) && FoldDisk(f, acc, front) == Ok(mid)
    ensures ScanFiles(f, c, acc, EncodeDisk(c, front) + [tail]) ==
            Extend(LogScan(mid, [], EncodeDisk(c, front)), ScanFile(f, c, mid, tail, true))
  {
    ScanSealedDisk(f, c, acc, front, mid);
    ScanSealedSnoc(f, c, acc, EncodeDisk(c, front), LogScan(mid, [], EncodeDisk(c, front)), tail);
  }

  /** A damaged directory scans to the fold of `kept`; repair leaves exactly its files, and they need no more. */
  ghost predicate RecoversAs<R(!new), A>(
    f: Format<R, A>, c: Codec<R>, acc: A, damaged: seq<File>, kept: seq<Segment<R>>, recovered: A)
  {
    && AllShaped(f, kept) && FoldDisk(f, acc, kept) == Ok(recovered)
    && ScanFiles(f, c, acc, damaged).Ok?
    && ScanFiles(f, c, acc, damaged).value.acc == recovered
    && ScanFiles(f, c, acc, damaged).value.files == EncodeDisk(c, kept)
    && ScanFiles(f, c, acc, EncodeDisk(c, kept)) == Ok(LogScan(recovered, [], EncodeDisk(c, kept)))
  }

  lemma {:induction false} FoldDiskSnoc<R, A>(f: Format<R, A>, acc: A, front: seq<Segment<R>>, mid: A, s: Segment<R>)
    requires AllShaped(f, front) && FoldDisk(f, acc, front) == Ok(mid)
    requires Shaped(f, s.lines) && FoldSegment(f, mid, s).Ok? && FoldSegment(f, mid, s).value.open == []
    ensures AllShaped(f, front + [s]) && FoldDisk(f, acc, front + [s]) == Ok(FoldSegment(f, mid, s).value.acc)
  {
    assert (front + [s])[..|front|] == front;
  }

  /** Scanning a damaged tail and scanning what repair leaves of it agree. */
  lemma {:induction false} ScanRepairedTail<R(!new), A>(
    f: Format<R, A>, c: Codec<R>, acc: A, front: seq<Segment<R>>, mid: A, tail: Segment<R>, damaged: File)
    requires ValidCodec(c) && AllShaped(f, front) && FoldDisk(f, acc, front) == Ok(mid)
    requires Shaped(f, tail.lines) && FoldSegment(f, mid, tail).Ok? && FoldSegment(f, mid, tail).value.open == []
    requires ScanFile(f, c, mid, damaged, true).Ok?
    requires ScanFile(f, c, mid, damaged, true).value.acc == FoldSegment(f, mid, tail).value.acc
    requires ScanFile(f, c, mid, damaged, true).value.file == EncodeSegment(c, tail)
    ensures RecoversAs(f, c, acc, EncodeDisk(c, front) + [damaged], front + [tail], FoldSegment(f, mid, tail).value.acc)
  {
    FoldDiskSnoc(f, acc, front, mid, tail);
    EncodeDiskAppend(c, front, tail);
    ScanWithTail(f, c, acc, front, mid, damaged);
    ScanUndamaged(f, c, acc, front + [tail], FoldSegment(f, mid, tail).value.acc);
  }

  lemma {:induction false} EncodeDiskAppend<R>(c: Codec<R>, front: seq<Segment<R>>, s: Segment<R>)
    ensures EncodeDisk(c, front + [s]) == EncodeDisk(c, front) + [EncodeSegment(c, s)]
  {
  }

  /**
   Crash-cut recovery. Whatever byte prefix of the final file survives past its
   header line, the repairing scan yields exactly the fold of the longest run of
   whole groups, leaves exactly their bytes, and a second scan repairs nothing.
   */
  lemma {:induction false} CrashCutRecovery<R(!new),
    A>(f: Format<R, A>, c: Codec<R>, acc: A, disk: seq<Segment<R>>, k: nat)
    returns (kept: seq<Segment<R>>, recovered: A)
    requires ValidCodec(c) && disk != [] && AllShaped(f, disk) && FoldDisk(f, acc, disk).Ok?
    requires |Encoded(c, disk[|disk| - 1].lines[..1])| <= k <= |EncodeSegment(c, disk[|disk| - 1]).content|
    ensures kept == CutLines(disk, SurvivingLines(f.opens, c, disk[|disk| - 1].lines, k))
    ensures RecoversAs(f, c, acc, CutTail(EncodeDisk(c, disk), k), kept, recovered)
  {
    var front, last := disk[..|disk| - 1], disk[|disk| - 1];
    kept := CutLines(disk, SurvivingLines(f.opens, c, last.lines, k));
    var mid := FoldDisk(f, acc, front).value;
    assert disk == front + [last];
    recovered := RecoverTail(f, c, acc, front, last, mid, k);
    CutEncoded(c, front, last, k);
  }

  lemma {:induction false} CutEncoded<R>(c: Codec<R>, front: seq<Segment<R>>, last: Segment<R>, k: nat)
    requires k <= |EncodeSegment(c, last).content|
    ensures CutTail(EncodeDisk(c, front + [last]), k) ==
            EncodeDisk(c, front) + [File(last.ordinal, EncodeSegment(c, last).content[..k])]
  {
    var files := EncodeDisk(c, front + [last]);
    assert files[..|files| - 1] == EncodeDisk(c, front);
  }

  lemma {:induction false} RecoverTail<R(!new), A>(
    f: Format<R, A>, c: Codec<R>, acc: A, front: seq<Segment<R>>, last: Segment<R>, mid: A, k: nat)
    returns (recovered: A)
    requires ValidCodec(c) && AllShaped(f, front) && FoldDisk(f, acc, front) == Ok(mid)
    requires Shaped(f, last.lines) && FoldSegment(f, mid, last).Ok?
    requires |Encoded(c, last.lines[..1])| <= k <= |EncodeSegment(c, last).content|
    ensures RecoversAs(f, c, acc, EncodeDisk(c, front) + [File(last.ordinal, EncodeSegment(c, last).content[..k])],
                       front + [Segment(last.ordinal, last.lines[..SurvivingLines(f.opens, c, last.lines, k)])],
                       recovered)
  {
    var tail := Segment(last.ordinal, last.lines[..SurvivingLines(f.opens, c, last.lines, k)]);
    ScanCutFile(f, c, mid, last, k);
    recovered := FoldSegment(f, mid, tail).value.acc;
    ScanRepairedTail(f, c, acc, front, mid, tail, File(last.ordinal, EncodeSegment(c, last).content[..k]));
  }

  /** A cut inside the header line is refused, never read as an empty segment. */
  lemma {:induction false} CutInsideHeaderRefuses<R(!new), A>(
    f: Format<R, A>, c: Codec<R>, acc: A, disk: seq<Segment<R>>, k: nat)
    requires ValidCodec(c) && disk != [] && AllShaped(f, disk) && FoldDisk(f, acc, disk).Ok?
    requires k < |Encoded(c, disk[|disk| - 1].lines[..1])|
    ensures k <= |EncodeSegment(c, disk[|disk| - 1]).content|
    ensures ScanFiles(f, c, acc, CutTail(EncodeDisk(c, disk), k)) == Err(if k == 0 then EmptySegment else MissingHeader)
  {
    var front, last := disk[..|disk| - 1], disk[|disk| - 1];
    EncodedPrefix(c, last.lines, 1);
    var cutFile := File(last.ordinal, EncodeSegment(c, last).content[..k]);
    assert CutTail(EncodeDisk(c, disk), k) == EncodeDisk(c, front) + [cutFile];
    ScanWithTail(f, c, acc, front, FoldDisk(f, acc, front).value, cutFile);
    NoWholeLine(c, last.lines, k);
  }

  lemma {:induction false} NoWholeLine<R(!new)>(c: Codec<R>, lines: seq<R>, k: nat)
    requires ValidCodec(c) && lines != [] && k < |Encoded(c, lines[..1])| && k <= |Encoded(c, lines)|
    ensures ReadSegment(c, Encoded(c, lines)[..k], true) == Err(if k == 0 then EmptySegment else MissingHeader)
  {
    CutRecords(c, lines, k);
    WholeRecords(c, lines, k);
    var m := WholeLines(EncodeAll(c, lines), k);
    if m > 0 {
      assert lines[..m][..1] == lines[..1];
      EncodedPrefix(c, lines[..m], 1);
    }
  }
}
