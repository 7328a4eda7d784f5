/**
 A damaged identity log is refused, not read short: take any entity or alias line
 out of any segment that any run of registry operations left, and the load fails.
 */
module IdentityDamage {
  import opened Wrappers
  import opened Sequences
  import opened LineFormat
  import opened SegmentScan
  import opened SegmentWriting
  import opened GroupCuts
  import opened AliasLedger
  import opened IdentityRegistry
  import opened RegistryRuns
  import opened IdentityLog

  // --------------------------------------------------- segments are whole groups

  /** One group as it was appended. */
  datatype Written = Written(delta: Delta, groupSeq: int, at: Instant)

  function MembersOf(g: Written): seq<IdRecord> {
    Members(g.delta, g.groupSeq, g.at)
  }

  function LinesOf(g: Written): seq<IdRecord> {
    MembersOf(g) + [Marker(g.delta, g.groupSeq, g.at)]
  }

  ghost predicate AllDistinct(groups: seq<Written>) {
    forall i :: 0 <= i < |groups| ==> DistinctDelta(groups[i].delta)
  }

  /** After its first line, a segment is groups that operations wrote, end to end. */
  ghost predicate Grouped(s: IdSegment) {
    exists header, groups :: AllDistinct(groups) && HeadThenGroups(s.lines, header, groups)
  }

  ghost predicate HeadThenGroups(lines: seq<IdRecord>, header: IdRecord, groups: seq<Written>) {
    lines == [header] + FlatMap(groups, LinesOf)
  }

  ghost predicate AllGrouped(disk: seq<IdSegment>) {
    forall i :: 0 <= i < |disk| ==> Grouped(disk[i])
  }

  lemma {:induction false} OneMoreGroup(s: IdSegment, g: Written)
    requires Grouped(s) && DistinctDelta(g.delta)
    ensures Grouped(Segment(s.ordinal, s.lines + LinesOf(g)))
  {
    var header, groups :| AllDistinct(groups) && HeadThenGroups(s.lines, header, groups);
    FlatMapSnoc(groups, g, LinesOf);
    Attach([header], FlatMap(groups, LinesOf), LinesOf(g));
    assert HeadThenGroups(s.lines + LinesOf(g), header, groups + [g]);
  }

  lemma {:induction false} Attach<T>(a: seq<T>, b: seq<T>, c: seq<T>)
    ensures a + b + c == a + (b + c)
  {
  }

  lemma {:induction false} HeaderIsGrouped(ordinal: int, header: IdRecord)
    ensures Grouped(Segment(ordinal, [header]))
  {
    var none: seq<Written> := [];
    assert HeadThenGroups([header], header, none);
  }

  lemma {:induction false} RolledGrouped(disk: seq<IdSegment>, header: IdRecord)
    requires disk != [] && AllGrouped(disk)
    ensures AllGrouped(Rolled(disk, header))
  {
    HeaderIsGrouped(LastSegment(disk).ordinal + 1, header);
  }

  lemma {:induction false} ExtendedGrouped(disk: seq<IdSegment>, g: Written)
    requires disk != [] && AllGrouped(disk) && DistinctDelta(g.delta)
    ensures AllGrouped(Extended(disk, LinesOf(g)))
  {
    OneMoreGroup(LastSegment(disk), g);
  }

  lemma {:induction false} StepGrouped(w: IdWorld, h: Hash, cap: nat, e: IdEvent)
    requires w.disk != [] && AllGrouped(w.disk) && MintsDistinct(e.op)
    ensures IdStep(w, h, cap, e).disk != [] && AllGrouped(IdStep(w, h, cap, e).disk)
  {
    var d := DeltaOf(w.live, h, cap, e.op);
    if GroupOf(d, w.groupSeq, e.at) != [] {
      DeltaIsDistinct(w.live, h, cap, e.op);
      RolledGrouped(w.disk, NextHeader(w.disk, e.at));
      ExtendedGrouped(if e.rolls then Rolled(w.disk, NextHeader(w.disk, e.at)) else w.disk,
                      Written(d, w.groupSeq, e.at));
    }
  }

  lemma {:induction false} RunGrouped(start: IdWorld, h: Hash, cap: nat, events: seq<IdEvent>)
    requires start.disk != [] && AllGrouped(start.disk) && DistinctRun(events)
    ensures var w := IdWorlds(start, h, cap, events)[|events|]; w.disk != [] && AllGrouped(w.disk)
  {
    if events != [] {
      var n := |events| - 1;
      RunGrouped(start, h, cap, events[..n]);
      StepGrouped(IdWorlds(start, h, cap, events[..n])[n], h, cap, events[n]);
    }
  }

  // ------------------------------------------------------------- finding the group

  /** A member's line lies in some group: what comes before it ends on a whole group, and the rest follows. */
  ghost predicate Located(
    lines: seq<IdRecord>, i: nat, before: seq<IdRecord>, g: Written, k: nat, rest: seq<IdRecord>)
  {
    && DistinctDelta(g.delta) && k < |MembersOf(g)| && i == |before| + k
    && lines == before + LinesOf(g) + rest
    && (before == [] || !IsMember(before[|before| - 1]))
  }

  lemma {:induction false} Locate(groups: seq<Written>, i: nat)
    returns (before: seq<IdRecord>, g: Written, k: nat, rest: seq<IdRecord>)
    requires AllDistinct(groups) && i < |FlatMap(groups, LinesOf)| && IsMember(FlatMap(groups, LinesOf)[i])
    ensures Located(FlatMap(groups, LinesOf), i, before, g, k, rest)
  {
    var n := |groups| - 1;
    var front := FlatMap(groups[..n], LinesOf);
    if i < |front| {
      before, g, k, rest := Locate(groups[..n], i);
      Regrouped(before, LinesOf(g), rest, LinesOf(groups[n]));
      rest := rest + LinesOf(groups[n]);
    } else {
      EndsOnMarker(groups[..n]);
      before, g, k, rest := front, groups[n], i - |front|, [];
      assert front + LinesOf(g) + [] == front + LinesOf(g);
    }
  }

  lemma {:induction false} Regrouped<T>(a: seq<T>, b: seq<T>, c: seq<T>, d: seq<T>)
    ensures a + b + c + d == a + b + (c + d)
  {
  }

  lemma {:induction false} EndsOnMarker(groups: seq<Written>)
    ensures var lines := FlatMap(groups, LinesOf); lines == [] || !IsMember(lines[|lines| - 1])
  {
    if groups != [] {
      var n := |groups| - 1;
      var front, last := FlatMap(groups[..n], LinesOf), LinesOf(groups[n]);
      assert (front + last)[|front + last| - 1] == last[|last| - 1];
    }
  }

  // ----------------------------------------------------------------- the whole log

  /** In a log that loads, what precedes a segment loads, and the segment itself folds to whole groups. */
  lemma {:induction false} FoldAt(disk: seq<IdSegment>, j: nat) returns (mid: IdAcc)
    requires AllShaped(IDENTITY_FORMAT, disk) && FoldDisk(IDENTITY_FORMAT, NO_IDENTITY, disk).Ok? && j < |disk|
    ensures AllShaped(IDENTITY_FORMAT, disk[..j]) && FoldDisk(IDENTITY_FORMAT, NO_IDENTITY, disk[..j]) == Ok(mid)
    ensures FoldSegment(IDENTITY_FORMAT, mid, disk[j]).Ok?
  {
    var n := |disk| - 1;
    if j < n {
      assert disk[..n][..j] == disk[..j];
      mid := FoldAt(disk[..n], j);
    } else {
      mid := FoldDisk(IDENTITY_FORMAT, NO_IDENTITY, disk[..n]).value;
    }
  }

  /** What precedes a group in its segment folds to whole groups too. */
  lemma {:induction false} FoldBefore(mid: IdAcc, s: IdSegment, n: nat)
    requires Shaped(IDENTITY_FORMAT, s.lines) && FoldSegment(IDENTITY_FORMAT, mid, s).Ok?
    requires 1 <= n <= |s.lines| && !IsMember(s.lines[n - 1])
    ensures var part := Segment(s.ordinal, s.lines[..n]);
            && Shaped(IDENTITY_FORMAT, part.lines)
            && FoldSegment(IDENTITY_FORMAT, mid, part).Ok? && FoldSegment(IDENTITY_FORMAT, mid, part).value.open == []
  {
    var begun := BeginSegment(mid, s.ordinal, s.lines[0]).value;
    ScanPrefixOk(IDENTITY_FORMAT, s.ordinal, begun, s.lines, n);
    OpenIsTheRest(IDENTITY_FORMAT, s.ordinal, begun, s.lines[..n]);
  }

  /** The disk with one line of one segment taken out. */
  function WithoutLine(disk: seq<IdSegment>, j: nat, i: nat): seq<IdSegment>
    requires j < |disk| && i < |disk[j].lines|
  {
    disk[j := Segment(disk[j].ordinal, RemoveAt(disk[j].lines, i))]
  }

  lemma {:induction false} RemovedInside<T>(
    head: seq<T>, before: seq<T>, members: seq<T>, marker: seq<T>, rest: seq<T>, k: nat)
    requires k < |members|
    ensures var all, i := head + (before + (members + marker) + rest), |head| + |before| + k;
            && all[..|head| + |before|] == head + before && all[i] == members[k]
            && RemoveAt(all, i) == (head + before) + (RemoveAt(members, k) + marker) + rest
  {
    var all, i := head + (before + (members + marker) + rest), |head| + |before| + k;
    assert all[..i] == head + before + members[..k];
    assert all[i + 1..] == members[k + 1..] + marker + rest;
  }

  lemma {:induction false} EncodeAround(c: Codec<IdRecord>, disk: seq<IdSegment>, j: nat, s: IdSegment)
    requires j < |disk|
    ensures EncodeDisk(c, disk[j := s]) ==
            EncodeDisk(c, disk[..j]) + [EncodeSegment(c, s)] + EncodeDisk(c, disk[j + 1..])
  {
  }

  /** The segment less one member's line is the segment with that member taken out of its group. */
  lemma {:induction false} LocatedInSegment(s: IdSegment, i: nat)
    returns (n: nat, g: Written, k: nat, rest: seq<IdRecord>)
    requires Grouped(s) && 1 <= i < |s.lines| && IsMember(s.lines[i]) && !IsMember(s.lines[0])
    ensures DistinctDelta(g.delta) && k < |MembersOf(g)| && MembersOf(g)[k] == s.lines[i]
    ensures 1 <= n <= |s.lines| && !IsMember(s.lines[n - 1])
    ensures Segment(s.ordinal, RemoveAt(s.lines, i)) ==
            Damaged(s.ordinal, s.lines[..n], g.delta, g.groupSeq, g.at, k, rest)
  {
    var header, groups :| AllDistinct(groups) && HeadThenGroups(s.lines, header, groups);
    var before;
    before, g, k, rest := Locate(groups, i - 1);
    RemovedInside([header], before, MembersOf(g), [Marker(g.delta, g.groupSeq, g.at)], rest, k);
    n := 1 + |before|;
    LastOf(header, before);
    assert s.lines[..n][n - 1] == s.lines[n - 1];
  }

  lemma {:induction false} LastOf(header: IdRecord, before: seq<IdRecord>)
    ensures ([header] + before)[|before|] == if before == [] then header else before[|before| - 1]
  {
  }

  /** Any entity or alias line of any log that loads and is made of whole groups. */
  lemma {:induction false} RemovedLineRefuses(c: Codec<IdRecord>, disk: seq<IdSegment>, j: nat, i: nat)
    requires ValidCodec(c) && AllShaped(IDENTITY_FORMAT, disk) && FoldDisk(IDENTITY_FORMAT, NO_IDENTITY, disk).Ok?
    requires AllGrouped(disk) && j < |disk| && i < |disk[j].lines|
    requires disk[j].lines[i].EntityRecord? || disk[j].lines[i].AliasRecord?
    ensures ScanFiles(IDENTITY_FORMAT, c, NO_IDENTITY, EncodeDisk(c, WithoutLine(disk, j, i))) == Err(CorruptRecord)
  {
    var s := disk[j];
    HeaderFirst(disk, j);
    var n, g, k, rest := LocatedInSegment(s, i);
    var mid := FoldAt(disk, j);
    FoldBefore(mid, s, n);
    RemovedMemberRefusesLoad(c, disk[..j], mid, Segment(s.ordinal, s.lines[..n]), g.delta, g.groupSeq, g.at, k, rest,
                             EncodeDisk(c, disk[j + 1..]));
    EncodeAround(c, disk, j, Segment(s.ordinal, RemoveAt(s.lines, i)));
  }

  lemma {:induction false} HeaderFirst(disk: seq<IdSegment>, j: nat)
    requires AllShaped(IDENTITY_FORMAT, disk) && j < |disk|
    ensures Shaped(IDENTITY_FORMAT, disk[j].lines) && disk[j].lines[0].IdHeader?
  {
  }

  /**
   After any run of registry operations from an empty registry: take any entity or
   alias line out of any of the files, and loading them is refused as corrupt.
   */
  lemma {:induction false} RemovedLineRefusesLoad(
    clock: Instant, h: Hash, cap: nat, events: seq<IdEvent>, c: Codec<IdRecord>, j: nat, i: nat)
    requires DistinctRun(events) && ValidCodec(c)
    requires j < |IdWorlds(FreshIdWorld(clock), h, cap, events)[|events|].disk|
    requires i < |IdWorlds(FreshIdWorld(clock), h, cap, events)[|events|].disk[j].lines|
    ensures var disk := IdWorlds(FreshIdWorld(clock), h, cap, events)[|events|].disk;
            disk[j].lines[i].EntityRecord? || disk[j].lines[i].AliasRecord? ==>
              ScanFiles(IDENTITY_FORMAT, c, NO_IDENTITY, EncodeDisk(c, WithoutLine(disk, j, i))) == Err(CorruptRecord)
  {
    var start := FreshIdWorld(clock);
    var disk := IdWorlds(start, h, cap, events)[|events|].disk;
    FreshIdInv(clock);
    IdWorldInv(start, h, cap, events, |events|);
    HeaderIsGrouped(1, IdHeader(1, clock));
    RunGrouped(start, h, cap, events);
    if disk[j].lines[i].EntityRecord? || disk[j].lines[i].AliasRecord? { RemovedLineRefuses(c, disk, j, i); }
  }
}
