/**
 Where a crash can cut a log that only appends whole groups: every cut that ends
 on a closed group is the disk as it stood after one of the appends, or that and
 the header of the segment the next append was rolling to.
 */
module GroupCuts {
  import opened Wrappers
  import opened LineFormat
  import opened SegmentScan
  import opened SegmentWriting

  ghost function ActiveLines<R>(disk: seq<Segment<R>>): seq<R>
    requires disk != []
  {
    LastSegment(disk).lines
  }

  /** A cut that ends with a closed group, `n` lines into the active segment. */
  ghost predicate ClosedCut<R>(opens: R -> bool, disk: seq<Segment<R>>, n: nat) {
    disk != [] && 1 <= n <= |ActiveLines(disk)| && !opens(ActiveLines(disk)[n - 1])
  }

  /** The cut of a longer disk lies in what an earlier one already held. */
  ghost predicate CutEarlier<R>(opens: R -> bool, disk: seq<Segment<R>>, before: seq<Segment<R>>, n: nat) {
    && ClosedCut(opens, disk, n) && ClosedCut(opens, before, n) && CutLines(disk, n) == CutLines(before, n)
    && LastSegment(before).ordinal == LastSegment(disk).ordinal
  }

  /** One append: from `before`, perhaps through `mid` where only a new header was written, to `disk`. */
  ghost predicate GrewFrom<R>(opens: R -> bool, before: seq<Segment<R>>, mid: seq<Segment<R>>, disk: seq<Segment<R>>) {
    forall n: nat :: ClosedCut(opens, disk, n) ==>
      CutLines(disk, n) == disk || CutLines(disk, n) == mid || CutEarlier(opens, disk, before, n)
  }

  lemma {:induction false} CutOfJoined<R>(settled: seq<Segment<R>>, ordinal: int, base: seq<R>, group: seq<R>, n: nat)
    requires n <= |base + group|
    ensures var cut := CutLines(settled + [Segment(ordinal, base + group)], n);
            && (n == |base| ==> cut == settled + [Segment(ordinal, base)])
            && (n == |base| + |group| ==> cut == settled + [Segment(ordinal, base + group)])
            && (n <= |base| ==> cut == CutLines(settled + [Segment(ordinal, base)], n))
  {
    if n <= |base| { assert (base + group)[..n] == base[..n]; }
    if n == |base| { assert base[..n] == base; }
    if n == |base + group| { assert (base + group)[..n] == base + group; }
  }

  lemma {:induction false} WholeCut<R>(disk: seq<Segment<R>>)
    requires disk != []
    ensures CutLines(disk, |ActiveLines(disk)|) == disk
  {
    assert ActiveLines(disk)[..|ActiveLines(disk)|] == ActiveLines(disk);
  }

  /** Appending a group that stays open until its last record. */
  lemma {:induction false} GroupGrows<R>(
    opens: R -> bool, before: seq<Segment<R>>, group: seq<R>, rolls: bool, header: R, disk: seq<Segment<R>>)
    requires before != [] && disk == (if group == [] then before else Intended(before, group, rolls, header))
    requires forall m :: 0 <= m < |group| - 1 ==> opens(group[m])
    ensures GrewFrom(opens, before, Intended(before, [], rolls, header), disk)
  {
    forall n: nat | ClosedCut(opens, disk, n)
      ensures CutLines(disk, n) == disk || CutLines(disk, n) == Intended(before, [], rolls, header)
              || CutEarlier(opens, disk, before, n)
    {
      if group != [] { CutOfGroup(opens, before, group, rolls, header, n); }
    }
  }

  lemma {:induction false} CutOfGroup<R>(
    opens: R -> bool, before: seq<Segment<R>>, group: seq<R>, rolls: bool, header: R, n: nat)
    requires before != [] && group != [] && ClosedCut(opens, Intended(before, group, rolls, header), n)
    requires forall m :: 0 <= m < |group| - 1 ==> opens(group[m])
    ensures var disk := Intended(before, group, rolls, header);
            CutLines(disk, n) == disk || CutLines(disk, n) == Intended(before, [], rolls, header)
              || CutEarlier(opens, disk, before, n)
  {
    var target := if rolls then Rolled(before, header) else before;
    var settled, last := target[..|target| - 1], LastSegment(target);
    var disk := Intended(before, group, rolls, header);
    CutOfJoined(settled, last.ordinal, last.lines, group, n);
    assert last.lines + [] == last.lines && target == settled + [last];
    assert n > |last.lines| ==> ActiveLines(disk)[n - 1] == group[n - 1 - |last.lines|];
    assert n <= |last.lines| ==> ActiveLines(disk)[n - 1] == last.lines[n - 1];
  }

  /** Disks each grown from the one before; `mids[i]` is where the append after `disks[i]` might have stopped. */
  ghost predicate Trace<R>(opens: R -> bool, disks: seq<seq<Segment<R>>>, mids: seq<seq<Segment<R>>>) {
    && |disks| == |mids| + 1
    && (mids != [] ==>
          && Trace(opens, disks[..|mids|], mids[..|mids| - 1])
          && GrewFrom(opens, disks[|mids| - 1], mids[|mids| - 1], disks[|mids|]))
  }

  lemma {:induction false} TraceSnoc<R>(
    opens: R -> bool, disks: seq<seq<Segment<R>>>, mids: seq<seq<Segment<R>>>, mid: seq<Segment<R>>,
    disk: seq<Segment<R>>)
    requires Trace(opens, disks, mids) && GrewFrom(opens, disks[|mids|], mid, disk)
    ensures Trace(opens, disks + [disk], mids + [mid])
  {
    assert (disks + [disk])[..|disks|] == disks && (mids + [mid])[..|mids|] == mids;
  }

  /** Every closed cut past what the trace started with is one of its disks, or one with only a header added. */
  lemma {:induction false} CutIsPastDisk<R>(
    opens: R -> bool, disks: seq<seq<Segment<R>>>, mids: seq<seq<Segment<R>>>, n: nat)
    returns (i: nat)
    requires Trace(opens, disks, mids) && disks[0] != [] && ClosedCut(opens, disks[|mids|], n)
    requires LastSegment(disks[|mids|]).ordinal == LastSegment(disks[0]).ordinal ==> |ActiveLines(disks[0])| <= n
    ensures i < |disks|
    ensures CutLines(disks[|mids|], n) == disks[i] || (i < |mids| && CutLines(disks[|mids|], n) == mids[i])
    decreases |mids|
  {
    i := |mids|;
    var disk := disks[i];
    if mids == [] {
      WholeCut(disk);
    } else if CutLines(disk, n) != disk {
      if CutLines(disk, n) == mids[i - 1] {
        i := i - 1;
      } else {
        CutOfGrown(opens, disks[i - 1], mids[i - 1], disk, n);
        i := CutIsPastDisk(opens, disks[..i], mids[..i - 1], n);
      }
    }
  }

  lemma {:induction false} CutOfGrown<R>(
    opens: R -> bool, before: seq<Segment<R>>, mid: seq<Segment<R>>, disk: seq<Segment<R>>, n: nat)
    requires GrewFrom(opens, before, mid, disk) && ClosedCut(opens, disk, n)
    ensures CutLines(disk, n) == disk || CutLines(disk, n) == mid || CutEarlier(opens, disk, before, n)
  {
  }

  // ---------------------------------------------------------- folding what is appended

  /** Members only pile up until their group closes. */
  lemma {:induction false} ScanMembers<R, A>(f: Format<R, A>, ordinal: int, acc: A, lines: seq<R>, members: seq<R>)
    requires ScanLines(f, ordinal, acc, lines).Ok? && ScanLines(f, ordinal, acc, lines).value.open == []
    requires forall i :: 0 <= i < |members| ==> !f.header(members[i]) && f.opens(members[i])
    ensures var st := ScanLines(f, ordinal, acc, lines + members);
            st.Ok? && st.value.open == members && st.value.acc == ScanLines(f, ordinal, acc, lines).value.acc
  {
    if members == [] {
      assert lines + members == lines;
    } else {
      var n := |members| - 1;
      ScanMembers(f, ordinal, acc, lines, members[..n]);
      assert (lines + members)[..|lines + members| - 1] == lines + members[..n];
      assert members == members[..n] + [members[n]];
    }
  }

  /** A group folds to what closing it makes of its members, refusals included. */
  lemma {:induction false} ScanGroup<R, A>(
    f: Format<R, A>, ordinal: int, acc: A, lines: seq<R>, members: seq<R>, marker: R)
    requires ScanLines(f, ordinal, acc, lines).Ok? && ScanLines(f, ordinal, acc, lines).value.open == []
    requires forall i :: 0 <= i < |members| ==> !f.header(members[i]) && f.opens(members[i])
    requires !f.header(marker) && !f.opens(marker) && f.closes(marker)
    ensures var st := ScanLines(f, ordinal, acc, lines + (members + [marker]));
            var closed := f.close(ScanLines(f, ordinal, acc, lines).value.acc, ordinal, members, marker);
            && (closed.Ok? ==> st.Ok? && st.value.open == [] && st.value.acc == closed.value)
            && (closed.Err? ==> st == Err(closed.error))
  {
    ScanMembers(f, ordinal, acc, lines, members);
    var all := lines + (members + [marker]);
    assert all[..|all| - 1] == lines + members;
  }

  /** A disk that folds, with a group appended to its active segment. */
  lemma {:induction false} FoldExtended<R, A>(
    f: Format<R, A>, acc: A, disk: seq<Segment<R>>, members: seq<R>, marker: R)
    requires disk != [] && AllShaped(f, disk) && FoldDisk(f, acc, disk).Ok?
    requires forall i :: 0 <= i < |members| ==> !f.header(members[i]) && f.opens(members[i])
    requires !f.header(marker) && !f.opens(marker) && f.closes(marker)
    requires f.close(FoldDisk(f, acc, disk).value, LastSegment(disk).ordinal, members, marker).Ok?
    ensures var next := Extended(disk, members + [marker]);
            && AllShaped(f, next)
            && FoldDisk(f, acc, next) ==
               f.close(FoldDisk(f, acc, disk).value, LastSegment(disk).ordinal, members, marker)
  {
    var front, last := disk[..|disk| - 1], LastSegment(disk);
    var mid := FoldDisk(f, acc, front).value;
    var begun := f.begin(mid, last.ordinal, last.lines[0]).value;
    var next := Extended(disk, members + [marker]);
    ScanGroup(f, last.ordinal, begun, last.lines, members, marker);
    assert next[..|next| - 1] == front && LastSegment(next).lines[0] == last.lines[0];
    assert forall i :: 0 <= i < |front| ==> next[i] == disk[i];
    ShapedExtended(f, last.lines, members, marker);
  }

  lemma {:induction false} ShapedExtended<R, A>(f: Format<R, A>, lines: seq<R>, members: seq<R>, marker: R)
    requires Shaped(f, lines) && !f.header(marker) && forall i :: 0 <= i < |members| ==> !f.header(members[i])
    ensures Shaped(f, lines + (members + [marker]))
  {
  }

  /** A disk that folds, with a new segment begun. */
  lemma {:induction false} FoldRolled<R, A>(f: Format<R, A>, acc: A, disk: seq<Segment<R>>, header: R)
    requires disk != [] && AllShaped(f, disk) && FoldDisk(f, acc, disk).Ok? && f.header(header) && !f.opens(header)
    requires f.begin(FoldDisk(f, acc, disk).value, LastSegment(disk).ordinal + 1, header).Ok?
    ensures AllShaped(f, Rolled(disk, header))
    ensures FoldDisk(f, acc, Rolled(disk, header)) ==
            f.begin(FoldDisk(f, acc, disk).value, LastSegment(disk).ordinal + 1, header)
  {
    var rolled := Rolled(disk, header);
    assert rolled[..|rolled| - 1] == disk;
    assert [header][..0] == [];
    var begun := f.begin(FoldDisk(f, acc, disk).value, LastSegment(disk).ordinal + 1, header).value;
    assert ScanLines(f, LastSegment(rolled).ordinal, begun, [header]) == Ok(Fold(begun, [], 1, 0));
  }

  lemma {:induction false} CorruptFile<R(!new), A>(f: Format<R, A>, c: Codec<R>, acc: A, s: Segment<R>, isLast: bool)
    requires ValidCodec(c) && s.lines != [] && f.header(s.lines[0]) && FoldSegment(f, acc, s).Err?
    ensures ScanFile(f, c, acc, EncodeSegment(c, s), isLast) == Err(FoldSegment(f, acc, s).error)
  {
    ReadWhole(c, s, isLast);
  }

  /** A segment that does not fold refuses the whole scan, wherever in the log it lies. */
  lemma {:induction false} CorruptSegmentRefuses<R(!new), A>(
    f: Format<R, A>, c: Codec<R>, acc: A, front: seq<Segment<R>>, mid: A, s: Segment<R>, later: seq<File>)
    requires ValidCodec(c) && AllShaped(f, front) && FoldDisk(f, acc, front) == Ok(mid)
    requires s.lines != [] && f.header(s.lines[0]) && FoldSegment(f, mid, s).Err?
    ensures ScanFiles(f, c, acc, EncodeDisk(c, front) + [EncodeSegment(c, s)] + later) ==
            Err(FoldSegment(f, mid, s).error)
  {
    var before, file := EncodeDisk(c, front), EncodeSegment(c, s);
    ScanSealedDisk(f, c, acc, front, mid);
    CorruptFile(f, c, mid, s, later == []);
    RefusedFrom(f, c, acc, before, LogScan(mid, [], before), file, later, FoldSegment(f, mid, s).error);
  }

  lemma {:induction false} RefusedFrom<R, A>(
    f: Format<R, A>, c: Codec<R>, acc: A, before: seq<File>, earlier: LogScan<A>, file: File, later: seq<File>,
    e: ScanError)
    requires ScanSealed(f, c, acc, before) == Ok(earlier) && ScanFile(f, c, earlier.acc, file, later == []) == Err(e)
    ensures ScanFiles(f, c, acc, before + [file] + later) == Err(e)
  {
    ScanSealedSnoc(f, c, acc, before, earlier, file);
    var files := before + [file] + later;
    if later == [] {
      assert files == before + [file];
    } else {
      assert files[..|files| - 1][..|before| + 1] == before + [file];
      SealedErrorSticks(f, c, acc, files[..|files| - 1], |before| + 1);
    }
  }
}
