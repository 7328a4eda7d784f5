/**
 What a scan says of damage, in bytes and records: what repair discarded from the
 final file, and why a file is refused. Damage a crash cannot cause is refused by its
 own name; the one cut of a sealed file that passes is one that ends on a whole group.
 */
module ScanVerdicts {
  import opened Wrappers
  import opened Sequences
  import opened LineFormat
  import opened LogRecords
  import opened SegmentScan
  import opened SegmentWriting
  import opened GroupCuts
  import opened Recovery

  // ---------------------------------------------------------------- the final file

  /** Where the whole lines of a cut end, and where its whole groups do. */
  ghost function LinesEnd<R>(c: Codec<R>, lines: seq<R>, k: nat): nat {
    |Encoded(c, lines[..WholeLines(EncodeAll(c, lines), k)])|
  }

  ghost function GroupsEnd<R>(opens: R -> bool, c: Codec<R>, lines: seq<R>, k: nat): nat {
    |Encoded(c, lines[..SurvivingLines(opens, c, lines, k)])|
  }

  /** What is discarded, in order: the lines of a group left open, and then a torn line. */
  ghost function Discarded(ordinal: int, groupsEnd: nat, linesEnd: nat, k: nat): seq<RepairNote>
    requires groupsEnd <= linesEnd <= k
  {
    (if groupsEnd < linesEnd then [RepairNote(ordinal, RepairKind.IncompleteGroup, linesEnd - groupsEnd)] else []) +
    (if linesEnd < k then [RepairNote(ordinal, RepairKind.TornTail, k - linesEnd)] else [])
  }

  lemma {:induction false} EndsInOrder<R(!new)>(opens: R -> bool, c: Codec<R>, lines: seq<R>, k: nat)
    requires ValidCodec(c)
    ensures GroupsEnd(opens, c, lines, k) <= LinesEnd(c, lines, k) <= k
    ensures var m, n := WholeLines(EncodeAll(c, lines), k), SurvivingLines(opens, c, lines, k);
            n <= m <= |lines| && (n < m <==> GroupsEnd(opens, c, lines, k) < LinesEnd(c, lines, k))
  {
    WholeRecords(c, lines, k);
    var m, n := WholeLines(EncodeAll(c, lines), k), SurvivingLines(opens, c, lines, k);
    assert lines[..m][..n] == lines[..n];
    EncodedPrefix(c, lines[..m], n);
    assert n == m ==> lines[..m][n..] == [] && Encoded(c, lines[..m][n..]) == [];
  }

  /** The notes for a cut final file: every byte past its last whole group is in one of them, and nothing else is. */
  lemma {:induction false} TailNotes<R(!new), A>(f: Format<R, A>, c: Codec<R>, acc: A, s: Segment<R>, k: nat)
    requires ValidCodec(c) && Shaped(f, s.lines) && FoldSegment(f, acc, s).Ok?
    requires |Encoded(c, s.lines[..1])| <= k <= |EncodeSegment(c, s).content|
    ensures var r := ScanFile(f, c, acc, File(s.ordinal, EncodeSegment(c, s).content[..k]), true);
            && GroupsEnd(f.opens, c, s.lines, k) <= LinesEnd(c, s.lines, k) <= k && r.Ok?
            && r.value.repairs ==
               Discarded(s.ordinal, GroupsEnd(f.opens, c, s.lines, k), LinesEnd(c, s.lines, k), k)
            && r.value.records == SurvivingLines(f.opens, c, s.lines, k) - 1
  {
    var m := WholeLines(EncodeAll(c, s.lines), k);
    var whole, cut := s.lines[..m], EncodeSegment(c, s).content[..k];
    EndsInOrder(f.opens, c, s.lines, k);
    var st := CutScan(f, c, acc, s, k);
    CutHoldsLines(c, s, k, m);
    var n := ClosedLines(f.opens, whole);
    FewerLines(s.lines, m, n);
    SettledNotes(c, s.ordinal, cut, whole, n, st);
  }

  lemma {:induction false} CutHoldsLines<R(!new)>(c: Codec<R>, s: Segment<R>, k: nat, m: nat)
    requires ValidCodec(c) && m <= |s.lines| && |Encoded(c, s.lines[..m])| <= k <= |EncodeSegment(c, s).content|
    ensures Encoded(c, s.lines[..m]) <= EncodeSegment(c, s).content[..k]
  {
    EncodedPrefix(c, s.lines, m);
  }

  lemma {:induction false} FewerLines<R>(lines: seq<R>, m: nat, n: nat)
    requires n <= m <= |lines|
    ensures lines[..m][..n] == lines[..n]
  {
  }

  /** The scan of a cut final file settles what its whole lines left open. */
  lemma {:induction false} CutScan<R(!new), A>(f: Format<R, A>, c: Codec<R>, acc: A, s: Segment<R>, k: nat)
    returns (st: Fold<R, A>)
    requires ValidCodec(c) && Shaped(f, s.lines) && FoldSegment(f, acc, s).Ok?
    requires |Encoded(c, s.lines[..1])| <= k <= |EncodeSegment(c, s).content|
    ensures var whole, cut := s.lines[..WholeLines(EncodeAll(c, s.lines), k)], EncodeSegment(c, s).content[..k];
            var n := ClosedLines(f.opens, whole);
            && |Encoded(c, whole)| <= k && 1 <= n && st.open == whole[n..] && (st.open != [] ==> st.since == n)
            && ScanFile(f, c, acc, File(s.ordinal, cut), true) ==
               Ok(Settle(File(s.ordinal, cut),
                         Read(EncodeAll(c, whole), whole, |Encoded(c, whole)|, k - |Encoded(c, whole)|), st))
  {
    var m := WholeLines(EncodeAll(c, s.lines), k);
    ReadCut(c, s, k);
    FoldCut(f, acc, s, m);
    st := FoldSegment(f, acc, Segment(s.ordinal, s.lines[..m])).value;
  }

  lemma {:induction false} SettledNotes<R(!new), A>(
    c: Codec<R>, ordinal: int, cut: bytes, whole: seq<R>, n: nat, st: Fold<R, A>)
    requires ValidCodec(c) && 1 <= n <= |whole| && st.open == whole[n..] && (st.open != [] ==> st.since == n)
    requires Encoded(c, whole) <= cut
    ensures |Encoded(c, whole[..n])| <= |Encoded(c, whole)| <= |cut|
    ensures var read := Read(EncodeAll(c, whole), whole, |Encoded(c, whole)|, |cut| - |Encoded(c, whole)|);
            var r := Settle(File(ordinal, cut), read, st);
            && r.repairs == Discarded(ordinal, |Encoded(c, whole[..n])|, |Encoded(c, whole)|, |cut|)
            && r.records == n - 1
  {
    EncodedPrefix(c, whole, n);
    assert n == |whole| ==> whole[..n] == whole;
    assert Take(EncodeAll(c, whole), n) == EncodeAll(c, whole[..n]);
  }

  // ------------------------------------------------------------------ sealed files

  lemma {:induction false} ReadSealedCut<R(!new)>(c: Codec<R>, s: Segment<R>, k: nat)
    requires ValidCodec(c) && s.lines != [] && 0 < k <= |EncodeSegment(c, s).content|
    ensures var m := WholeLines(EncodeAll(c, s.lines), k);
            var whole, r := s.lines[..m], ReadSegment(c, EncodeSegment(c, s).content[..k], false);
            && |Encoded(c, whole)| <= k
            && (|Encoded(c, whole)| < k ==> r == Err(TornMidLog))
            && (|Encoded(c, whole)| == k ==> m >= 1 && r == Ok(Read(EncodeAll(c, whole), whole, k, 0)))
  {
    WholeRecords(c, s.lines, k);
    CutRecords(c, s.lines, k);
    var m := WholeLines(EncodeAll(c, s.lines), k);
    if m == 0 { assert s.lines[..0] == [] && Encoded(c, s.lines[..0]) == []; }
  }

  /**
   A sealed file cut after `k` bytes, all its header among them: refused as torn inside
   a line, refused as incomplete inside a group, and read as the shorter file it then
   is where the cut falls between groups.
   */
  lemma {:induction false} SealedCut<R(!new), A>(f: Format<R, A>, c: Codec<R>, acc: A, s: Segment<R>, k: nat)
    requires ValidCodec(c) && Shaped(f, s.lines) && FoldSegment(f, acc, s).Ok?
    requires |Encoded(c, s.lines[..1])| <= k <= |EncodeSegment(c, s).content|
    ensures var r := ScanFile(f, c, acc, File(s.ordinal, EncodeSegment(c, s).content[..k]), false);
            var groups, whole := GroupsEnd(f.opens, c, s.lines, k), LinesEnd(c, s.lines, k);
            && groups <= whole <= k
            && (whole < k ==> r == Err(TornMidLog))
            && (groups < whole == k ==> r == Err(IncompleteMidLog))
            && (groups == whole == k ==>
                  r.Ok? && r.value.repairs == []
                  && FoldSegment(f, acc, Segment(s.ordinal, s.lines[..SurvivingLines(f.opens, c, s.lines, k)])).Ok?
                  && r.value.acc ==
                     FoldSegment(f, acc, Segment(s.ordinal,
                                                 s.lines[..SurvivingLines(f.opens, c, s.lines, k)])).value.acc)
  {
    var m := WholeLines(EncodeAll(c, s.lines), k);
    HeaderTakesBytes(c, s.lines);
    EndsInOrder(f.opens, c, s.lines, k);
    ReadSealedCut(c, s, k);
    if LinesEnd(c, s.lines, k) == k {
      FoldCut(f, acc, s, m);
      assert s.lines[..m][..ClosedLines(f.opens, s.lines[..m])] == s.lines[..ClosedLines(f.opens, s.lines[..m])];
    }
  }

  lemma {:induction false} HeaderTakesBytes<R(!new)>(c: Codec<R>, lines: seq<R>)
    requires ValidCodec(c) && lines != []
    ensures |Encoded(c, lines[..1])| > 0
  {
    EncodedLines(c, lines[..1]);
  }

  /** The same in a directory: whatever precedes the cut file loads, and whatever follows it makes it a sealed one. */
  lemma {:induction false} SealedCutRefuses<R(!new), A>(
    f: Format<R, A>, c: Codec<R>, acc: A, front: seq<Segment<R>>, mid: A, s: Segment<R>, k: nat, later: seq<File>)
    requires ValidCodec(c) && AllShaped(f, front) && FoldDisk(f, acc, front) == Ok(mid) && later != []
    requires Shaped(f, s.lines) && FoldSegment(f, mid, s).Ok?
    requires |Encoded(c, s.lines[..1])| <= k <= |EncodeSegment(c, s).content|
    ensures var cut := File(s.ordinal, EncodeSegment(c, s).content[..k]);
            var r := ScanFiles(f, c, acc, EncodeDisk(c, front) + [cut] + later);
            && (LinesEnd(c, s.lines, k) < k ==> r == Err(TornMidLog))
            && (GroupsEnd(f.opens, c, s.lines, k) < LinesEnd(c, s.lines, k) == k ==> r == Err(IncompleteMidLog))
  {
    var before, cut := EncodeDisk(c, front), File(s.ordinal, EncodeSegment(c, s).content[..k]);
    SealedCut(f, c, mid, s, k);
    ScanSealedDisk(f, c, acc, front, mid);
    if LinesEnd(c, s.lines, k) < k {
      RefusedFrom(f, c, acc, before, LogScan(mid, [], before), cut, later, TornMidLog);
    } else if GroupsEnd(f.opens, c, s.lines, k) < k {
      RefusedFrom(f, c, acc, before, LogScan(mid, [], before), cut, later, IncompleteMidLog);
    }
  }

  // -------------------------------------------------------------- unreadable and empty

  lemma {:induction false} DecodeStops<R>(c: Codec<R>, lines: seq<bytes>, i: nat)
    requires i < |lines| && c.decode(lines[i]).None?
    ensures DecodeAll(c, lines).None?
  {
    if i < |lines| - 1 { DecodeStops(c, lines[..|lines| - 1], i); }
  }

  lemma {:induction false} JoinEnds(lines: seq<bytes>)
    requires lines != []
    ensures Join(lines) != [] && Join(lines)[|Join(lines)| - 1] == NEWLINE
  {
  }

  /** A whole line that does not parse refuses its file, sealed or final. */
  lemma {:induction false} UnreadableLine<R, A>(
    f: Format<R, A>, c: Codec<R>, acc: A, ordinal: int, lines: seq<bytes>, i: nat, isLast: bool)
    requires i < |lines| && c.decode(lines[i]).None? && forall j :: 0 <= j < |lines| ==> IsLine(lines[j])
    ensures ScanFile(f, c, acc, File(ordinal, Join(lines)), isLast) == Err(CorruptRecord)
  {
    JoinEnds(lines);
    LinesOfJoin(lines);
    DecodeStops(c, lines, i);
  }

  /** An empty file is refused. */
  lemma {:induction false} EmptyFile<R, A>(f: Format<R, A>, c: Codec<R>, acc: A, ordinal: int, isLast: bool)
    ensures ScanFile(f, c, acc, File(ordinal, []), isLast) == Err(EmptySegment)
  {
  }

  /** So is one that begins with anything but a header. */
  lemma {:induction false} NoHeader<R(!new), A>(f: Format<R, A>, c: Codec<R>, acc: A, s: Segment<R>, isLast: bool)
    requires ValidCodec(c) && s.lines != [] && !f.header(s.lines[0])
    ensures ScanFile(f, c, acc, EncodeSegment(c, s), isLast) == Err(MissingHeader)
  {
    ReadWhole(c, s, isLast);
  }

  // --------------------------------------------------------- the assertion log's headers

  /** A renamed file, or one from another epoch, refuses the log wherever it stands. */
  lemma {:induction false} ForeignSegmentRefuses(
    c: Codec<Record>, front: seq<LogSegment>, epoch: string, s: LogSegment, later: seq<File>)
    requires ValidCodec(c) && WellFormedDisk(front, epoch) && s.lines != [] && s.lines[0].Header?
    ensures var r := ScanFiles(LOG_FORMAT, c, NOTHING, EncodeDisk(c, front) + [EncodeSegment(c, s)] + later);
            && (s.lines[0].ordinal != s.ordinal ==> r == Err(OrdinalMismatch))
            && (s.lines[0].ordinal == s.ordinal && front != [] && s.lines[0].epoch != epoch ==> r == Err(EpochMismatch))
  {
    FoldIsPlainReading(front, epoch);
    EpochOfFlat(front, epoch);
    var mid := Plain(Flat(front));
    if s.lines[0].ordinal != s.ordinal || (front != [] && s.lines[0].epoch != epoch) {
      CorruptSegmentRefuses(LOG_FORMAT, c, NOTHING, front, mid, s, later);
    }
  }

  /** A record that stands alone, written inside an open commit, refuses the log. */
  lemma {:induction false} InterleavedRefuses(
    c: Codec<Record>, front: seq<LogSegment>, epoch: string, s: LogSegment, more: seq<Record>, later: seq<File>)
    requires ValidCodec(c) && WellFormedDisk(front, epoch) && WellFormedLines(s.lines)
    requires s.lines[0].ordinal == s.ordinal && s.lines[0].epoch == epoch && OpensGroup(s.lines[|s.lines| - 1])
    requires more != [] && !more[0].Header? && !OpensGroup(more[0]) && !more[0].Submission?
    ensures ScanFiles(LOG_FORMAT, c, NOTHING,
                      EncodeDisk(c, front) + [EncodeSegment(c, Segment(s.ordinal, s.lines + more))] + later)
            == Err(IncompleteMidLog)
  {
    FoldIsPlainReading(front, epoch);
    EpochOfFlat(front, epoch);
    var mid, damaged := Plain(Flat(front)), Segment(s.ordinal, s.lines + more);
    AbsorbPlain(s.ordinal, Flat(front), s.lines[0]);
    InterleavedStops(s.ordinal, Flat(front), s.lines, more);
    assert damaged.lines[0] == s.lines[0];
    CorruptSegmentRefuses(LOG_FORMAT, c, NOTHING, front, mid, damaged, later);
  }

  lemma {:induction false} InterleavedStops(ordinal: int, prior: seq<Record>, lines: seq<Record>, more: seq<Record>)
    requires WellFormedLines(lines) && OpensGroup(lines[|lines| - 1])
    requires more != [] && !more[0].Header? && !OpensGroup(more[0]) && !more[0].Submission?
    ensures ScanLines(LOG_FORMAT, ordinal, Plain(prior + [lines[0]]), lines + more) == Err(IncompleteMidLog)
  {
    var begun, upTo := Plain(prior + [lines[0]]), lines + [more[0]];
    ScanAbsorbs(ordinal, prior, lines);
    FirstOfMore(lines, more);
    ScanErrorSticks(LOG_FORMAT, ordinal, begun, lines + more, |upTo|);
  }

  lemma {:induction false} FirstOfMore<T>(xs: seq<T>, ys: seq<T>)
    requires ys != []
    ensures (xs + ys)[..|xs| + 1] == xs + [ys[0]] && (xs + [ys[0]])[..|xs|] == xs
  {
  }
}
