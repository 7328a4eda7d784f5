/** What appending a group does to everything that is read off the disk. */
module Appending {
  import opened Wrappers
  import opened Sequences
  import opened LogRecords
  import opened Store
  import opened SegmentScan
  import opened Recovery
  import opened LogWorld

  /** The header a roll writes ahead of the group. */
  function Opening(disk: seq<LogSegment>, live: LogState, at: Landing): seq<Record>
    requires disk != []
  {
    if Rolls(disk, at) then [Header(disk[|disk| - 1].ordinal + 1, live.epoch, live.floor, at.clock)] else []
  }

  lemma {:induction false} FlatSnoc(front: seq<LogSegment>, s: LogSegment)
    ensures Flat(front + [s]) == Flat(front) + s.lines
  {
    FlatMapSnoc(front, s, LinesIn);
  }

  lemma {:induction false} LastSplit(disk: seq<LogSegment>)
    requires disk != []
    ensures disk == disk[..|disk| - 1] + [disk[|disk| - 1]]
  {
  }

  lemma {:induction false} Regroup<T>(a: seq<T>, b: seq<T>, c: seq<T>)
    ensures a + (b + c) == a + b + c
  {
  }

  lemma {:induction false} FlatAppend(disk: seq<LogSegment>, live: LogState, group: seq<Record>, at: Landing)
    requires disk != []
    ensures Flat(Append(disk, live, group, at)) == Flat(disk) + Opening(disk, live, at) + group
  {
    var front, last := disk[..|disk| - 1], disk[|disk| - 1];
    if Rolls(disk, at) {
      var header := Opening(disk, live, at);
      FlatSnoc(disk, Segment(last.ordinal + 1, header + group));
      Regroup(Flat(disk), header, group);
    } else {
      FlatSnoc(front, last.(lines := last.lines + group));
      LastSplit(disk);
      FlatSnoc(front, last);
      Regroup(Flat(front), last.lines, group);
      assert Flat(disk) + [] == Flat(disk);
    }
  }

  /** A list that headers add nothing to grows by exactly what the group holds. */
  lemma {:induction false} AppendList<B>(
    disk: seq<LogSegment>, live: LogState, group: seq<Record>, at: Landing, f: Record -> seq<B>)
    requires disk != [] && forall r: Record :: r.Header? ==> f(r) == []
    ensures FlatMap(Flat(Append(disk, live, group, at)), f) == FlatMap(Flat(disk), f) + FlatMap(group, f)
  {
    var opening := Opening(disk, live, at);
    FlatAppend(disk, live, group, at);
    FlatMapConcat(Flat(disk) + opening, group, f);
    FlatMapConcat(Flat(disk), opening, f);
    FlatMapEmpty(opening, f);
    assert FlatMap(Flat(disk), f) + [] == FlatMap(Flat(disk), f);
  }

  lemma {:induction false} AppendFloor(disk: seq<LogSegment>, live: LogState, group: seq<Record>, at: Landing)
    requires disk != [] && FloorOf(Flat(disk)) == Some(live.floor)
    ensures FloorOf(Flat(Append(disk, live, group, at))) == RaiseTo(Some(live.floor), FlatMap(group, FloorsIn))
  {
    var opening := Opening(disk, live, at);
    FlatAppend(disk, live, group, at);
    FlatMapConcat(Flat(disk) + opening, group, FloorsIn);
    FlatMapConcat(Flat(disk), opening, FloorsIn);
    FloorsConcat(FlatMap(Flat(disk), FloorsIn) + FlatMap(opening, FloorsIn), FlatMap(group, FloorsIn));
    FloorsConcat(FlatMap(Flat(disk), FloorsIn), FlatMap(opening, FloorsIn));
    if opening != [] { FlatMapOne(opening[0], FloorsIn); }
  }

  lemma {:induction false} AppendSeqs(disk: seq<LogSegment>, live: LogState, group: seq<Record>, at: Landing)
    requires disk != []
    ensures HighSeq(Flat(Append(disk, live, group, at))) == Highest(FlatMap(group, SeqsIn), HighSeq(Flat(disk)))
  {
    AppendList(disk, live, group, at, SeqsIn);
    HighestConcat(FlatMap(Flat(disk), SeqsIn), FlatMap(group, SeqsIn), 0);
  }

  lemma {:induction false} AppendWatermarks(disk: seq<LogSegment>, live: LogState, group: seq<Record>, at: Landing)
    requires disk != []
    ensures HighWatermark(Flat(Append(disk, live, group, at))) ==
            Highest(FlatMap(group, WatermarksIn), HighWatermark(Flat(disk)))
  {
    AppendList(disk, live, group, at, WatermarksIn);
    HighestConcat(FlatMap(Flat(disk), WatermarksIn), FlatMap(group, WatermarksIn), 0);
  }

  // ----------------------------------------------------------- well-formedness

  /** A group the writer may append: closed, contiguous, headerless. */
  ghost predicate WritableGroup(group: seq<Record>) {
    && (group != [] ==> !OpensGroup(group[|group| - 1]))
    && Grouped(group)
    && (forall i :: 0 <= i < |group| ==> !group[i].Header? && NamesItsSegments(group[i]))
  }

  lemma {:induction false} ExtendLines(lines: seq<Record>, group: seq<Record>)
    requires WellFormedLines(lines) && !OpensGroup(lines[|lines| - 1]) && WritableGroup(group)
    ensures WellFormedLines(lines + group) && !OpensGroup((lines + group)[|lines + group| - 1])
  {
  }

  lemma {:induction false} AppendWellFormed(disk: seq<LogSegment>, live: LogState, group: seq<Record>, at: Landing)
    requires disk != [] && WellFormedDisk(disk, live.epoch) && WritableGroup(group)
    ensures WellFormedDisk(Append(disk, live, group, at), live.epoch)
  {
    var last, appended := disk[|disk| - 1], Append(disk, live, group, at);
    if Rolls(disk, at) {
      ExtendLines(Opening(disk, live, at), group);
    } else {
      ExtendLines(last.lines, group);
    }
    forall i | 0 <= i < |appended| ensures WellFormedSegment(appended[i], live.epoch) {
      if i < |disk| - 1 { assert appended[i] == disk[i]; }
      if i == |disk| - 1 && Rolls(disk, at) { assert appended[i] == disk[i]; }
    }
    forall i, j | 0 <= i < j < |appended| ensures appended[i].ordinal < appended[j].ordinal {
      assert forall k :: 0 <= k < |disk| ==> appended[k].ordinal == disk[k].ordinal;
    }
  }

  // ------------------------------------------------------------- the commit group

  lemma {:induction false} CommitGroupParts(minted: seq<Assertion>, stamps: seq<Stamp>, receipt: Receipt)
    returns (bodies: seq<Record>, supersessions: seq<Record>)
    ensures CommitGroup(minted, stamps, receipt) == bodies + supersessions + [Submission(receipt)]
    ensures |bodies| == |minted| && forall i :: 0 <= i < |bodies| ==> bodies[i] == Body(receipt.submissionId, minted[i])
    ensures |supersessions| == |stamps| &&
            forall i :: 0 <= i < |supersessions| ==> supersessions[i] == Supersession(receipt.submissionId, stamps[i])
  {
    bodies := seq(|minted|, i requires 0 <= i < |minted| => Body(receipt.submissionId, minted[i]));
    supersessions := seq(|stamps|, i requires 0 <= i < |stamps| => Supersession(receipt.submissionId, stamps[i]));
  }

  lemma {:induction false} FlatMapThree<A, B>(a: seq<A>, b: seq<A>, c: A, f: A -> seq<B>)
    ensures FlatMap(a + b + [c], f) == FlatMap(a, f) + FlatMap(b, f) + f(c)
  {
    FlatMapConcat(a + b, [c], f);
    FlatMapConcat(a, b, f);
    FlatMapOne(c, f);
  }

  lemma {:induction false} CommitGroupLists(minted: seq<Assertion>, stamps: seq<Stamp>, receipt: Receipt)
    ensures var g := CommitGroup(minted, stamps, receipt);
            && Bodies(g) == minted && Stamps(g) == stamps && Receipts(g) == [receipt] && Compactions(g) == []
  {
    var bodies, supersessions := CommitGroupParts(minted, stamps, receipt);
    var last := Submission(receipt);
    FlatMapThree(bodies, supersessions, last, BodiesIn);
    FlatMapPointwise(bodies, BodiesIn, minted);
    FlatMapEmpty(supersessions, BodiesIn);
    FlatMapThree(bodies, supersessions, last, StampsIn);
    FlatMapPointwise(supersessions, StampsIn, stamps);
    FlatMapEmpty(bodies, StampsIn);
    FlatMapThree(bodies, supersessions, last, ReceiptsIn);
    FlatMapEmpty(bodies, ReceiptsIn);
    FlatMapEmpty(supersessions, ReceiptsIn);
    FlatMapThree(bodies, supersessions, last, CompactionsIn);
    FlatMapEmpty(bodies, CompactionsIn);
    FlatMapEmpty(supersessions, CompactionsIn);
  }

  lemma {:induction false} CommitGroupMarks(minted: seq<Assertion>, stamps: seq<Stamp>, receipt: Receipt)
    ensures var g := CommitGroup(minted, stamps, receipt);
            && FlatMap(g, SeqsIn) == SeqNos(minted) && FlatMap(g, WatermarksIn) == [] && FlatMap(g, FloorsIn) == []
  {
    var bodies, supersessions := CommitGroupParts(minted, stamps, receipt);
    var last := Submission(receipt);
    FlatMapThree(bodies, supersessions, last, SeqsIn);
    FlatMapPointwise(bodies, SeqsIn, SeqNos(minted));
    FlatMapEmpty(supersessions, SeqsIn);
    FlatMapThree(bodies, supersessions, last, WatermarksIn);
    FlatMapEmpty(bodies, WatermarksIn);
    FlatMapEmpty(supersessions, WatermarksIn);
    FlatMapThree(bodies, supersessions, last, FloorsIn);
    FlatMapEmpty(bodies, FloorsIn);
    FlatMapEmpty(supersessions, FloorsIn);
  }

  lemma {:induction false} CommitGroupWritable(minted: seq<Assertion>, stamps: seq<Stamp>, receipt: Receipt)
    ensures WritableGroup(CommitGroup(minted, stamps, receipt))
    ensures forall k :: 0 <= k < |CommitGroup(minted, stamps, receipt)| ==>
              Surviving(CommitGroup(minted, stamps, receipt), k) == []
  {
    var bodies, supersessions := CommitGroupParts(minted, stamps, receipt);
    var g := CommitGroup(minted, stamps, receipt);
    assert forall i :: 0 <= i < |g| - 1 ==> OpensGroup(g[i]);
  }
}
