/**
 Crash-cut recovery of the assertion log: cut the final file at any byte past
 its header, and the repairing scan restores the store exactly as it stood after
 the last operation whose whole group survived.
 */
module CrashRecovery {
  import opened Wrappers
  import opened Sequences
  import opened LogRecords
  import opened Store
  import opened LineFormat
  import opened SegmentScan
  import opened SegmentWriting
  import opened GroupCuts
  import opened Recovery
  import opened LogWorld
  import opened Appending
  import opened LogInvariant
  import opened CommitSteps
  import opened LogRuns
  import opened Reopening
  import opened SyncedRuns
  import opened ExactlyOnce
  import opened RepeatableReads

  // ------------------------------------------------------------ cuts, by the line

  /**
   The assertion log's append is this writer's, with the header its journal makes and the
   size rule as the reason to roll.
   */
  lemma {:induction false} AppendIsIntended(disk: seq<LogSegment>, live: LogState, group: seq<Record>, at: Landing)
    requires disk != []
    ensures Append(disk, live, group, at) ==
            Intended(disk, group, Rolls(disk, at),
                     Header(LastSegment(disk).ordinal + 1, live.epoch, live.floor, at.clock))
  {
    var header := Header(LastSegment(disk).ordinal + 1, live.epoch, live.floor, at.clock);
    if Rolls(disk, at) {
      var rolled := Rolled(disk, header);
      assert rolled[..|rolled| - 1] == disk;
    }
  }

  /** Only finished appends: no crash, no compaction. */
  ghost predicate OnlyAppends(events: seq<Event>) {
    forall i :: 0 <= i < |events| ==> events[i].Finishes? && !events[i].op.DoCompact?
  }

  /** A group's records leave it open until its last. */
  lemma {:induction false} OpenUntilClosed(w: World, op: Operation, m: nat)
    requires w.disk != [] && Minting(w, op) && !op.DoCompact? && m < |EffectOf(w, op).group| - 1
    ensures OpensGroup(EffectOf(w, op).group[m])
  {
    match op
    case DoCommit(input, mint) =>
      CommitIsSound(w.live, input, mint);
      var c := PartsOf(w.live, input, mint);
      var bodies, supersessions := CommitGroupParts(c.minted, c.stamps, c.receipt);
    case DoFeed(_, _, _) => MarkEffect(w, op);
    case DoFloor(_, _) => MarkEffect(w, op);
  }

  /** The disk an operation leaves if it gets no further than a new segment's header. */
  function MidOf(w: World, at: Landing): seq<LogSegment> {
    if w.disk == [] then [] else Append(w.disk, w.live, [], at)
  }

  lemma {:induction false} AppendGrows(w: World, group: seq<Record>, at: Landing, next: seq<LogSegment>)
    requires w.disk != [] && next == (if group == [] then w.disk else Append(w.disk, w.live, group, at))
    requires forall m :: 0 <= m < |group| - 1 ==> OpensGroup(group[m])
    ensures GrewFrom(OpensGroup, w.disk, MidOf(w, at), next)
  {
    AppendIsIntended(w.disk, w.live, group, at);
    AppendIsIntended(w.disk, w.live, [], at);
    GroupGrows(OpensGroup, w.disk, group, Rolls(w.disk, at),
               Header(LastSegment(w.disk).ordinal + 1, w.live.epoch, w.live.floor, at.clock), next);
  }

  lemma {:induction false} OperationGrows(w: World, op: Operation, at: Landing)
    requires w.disk != [] && Minting(w, op) && !op.DoCompact?
    ensures GrewFrom(OpensGroup, w.disk, MidOf(w, at), Finish(w, op, at).disk)
  {
    var group := EffectOf(w, op).group;
    NoneDoomed(w, op);
    PlainFinish(w, op, at);
    forall m | 0 <= m < |group| - 1 ensures OpensGroup(group[m]) { OpenUntilClosed(w, op, m); }
    AppendGrows(w, group, at, Finish(w, op, at).disk);
  }

  /** Every world a run passes through, from its start to its end. */
  ghost function Worlds(start: World, events: seq<Event>): (worlds: seq<World>)
    requires PossibleRun(start, events)
    ensures |worlds| == |events| + 1 && worlds[0] == start && worlds[|events|] == Run(start, events)
  {
    if events == [] then [start] else Worlds(start, events[..|events| - 1]) + [Run(start, events)]
  }

  ghost function Disks(worlds: seq<World>): seq<seq<LogSegment>> {
    seq(|worlds|, i requires 0 <= i < |worlds| => worlds[i].disk)
  }

  ghost function Mids(worlds: seq<World>, events: seq<Event>): seq<seq<LogSegment>>
    requires |worlds| == |events| + 1
  {
    seq(|events|, i requires 0 <= i < |events| => MidOf(worlds[i], events[i].at))
  }

  lemma {:induction false} NoCompactionsInSync(start: World, events: seq<Event>)
    requires InSync(start) && PossibleRun(start, events) && OnlyAppends(events)
    ensures InSync(Run(start, events))
  {
    if events != [] {
      NoCompactionsInSync(start, events[..|events| - 1]);
      StepInSync(Run(start, events[..|events| - 1]), events[|events| - 1]);
    }
  }

  lemma {:induction false} WorldInSync(start: World, events: seq<Event>, i: nat)
    requires InSync(start) && PossibleRun(start, events) && OnlyAppends(events) && i <= |events|
    ensures InSync(Worlds(start, events)[i])
  {
    if i == |events| {
      NoCompactionsInSync(start, events);
    } else {
      WorldInSync(start, events[..|events| - 1], i);
    }
  }

  lemma {:induction false} LastGrows(start: World, events: seq<Event>)
    requires InSync(start) && events != [] && PossibleRun(start, events) && OnlyAppends(events)
    ensures var before, e := Run(start, events[..|events| - 1]), events[|events| - 1];
            GrewFrom(OpensGroup, before.disk, MidOf(before, e.at), Run(start, events).disk)
  {
    var front, e := events[..|events| - 1], events[|events| - 1];
    NoCompactionsInSync(start, front);
    OperationGrows(Run(start, front), e.op, e.at);
  }

  ghost predicate Traced(worlds: seq<World>, events: seq<Event>) {
    |worlds| == |events| + 1 && Trace(OpensGroup, Disks(worlds), Mids(worlds, events))
  }

  lemma {:induction false} DisksSnoc(worlds: seq<World>, w: World)
    ensures Disks(worlds + [w]) == Disks(worlds) + [w.disk]
  {
  }

  lemma {:induction false} MidsSnoc(worlds: seq<World>, events: seq<Event>, n: nat, w: World)
    requires |events| == n + 1 == |worlds|
    ensures Mids(worlds + [w], events) == Mids(worlds, events[..n]) + [MidOf(worlds[n], events[n].at)]
  {
  }

  lemma {:induction false} TracedSnoc(worlds: seq<World>, events: seq<Event>, n: nat, w: World)
    requires |events| == n + 1 && Traced(worlds, events[..n])
    requires GrewFrom(OpensGroup, worlds[n].disk, MidOf(worlds[n], events[n].at), w.disk)
    ensures Traced(worlds + [w], events)
  {
    DisksSnoc(worlds, w);
    MidsSnoc(worlds, events, n, w);
    TraceSnoc(OpensGroup, Disks(worlds), Mids(worlds, events[..n]), MidOf(worlds[n], events[n].at), w.disk);
  }

  /** The last world of a run grows the disk of the one before. */
  lemma {:induction false} LastWorld(start: World, events: seq<Event>) returns (earlier: seq<World>, w: World)
    requires InSync(start) && events != [] && PossibleRun(start, events) && OnlyAppends(events)
    ensures var n := |events| - 1;
            && earlier == Worlds(start, events[..n]) && Worlds(start, events) == earlier + [w]
            && GrewFrom(OpensGroup, earlier[n].disk, MidOf(earlier[n], events[n].at), w.disk)
  {
    earlier, w := Worlds(start, events[..|events| - 1]), Run(start, events);
    LastGrows(start, events);
  }

  lemma {:induction false} RunTraces(start: World, events: seq<Event>)
    requires InSync(start) && PossibleRun(start, events) && OnlyAppends(events)
    ensures Traced(Worlds(start, events), events)
  {
    if events != [] {
      var n := |events| - 1;
      RunTraces(start, events[..n]);
      var earlier, w := LastWorld(start, events);
      TracedSnoc(earlier, events, n, w);
    }
  }

  // ----------------------------------------------------------- cuts, by the byte

  lemma {:induction false} PastDiskRestores(w: World, at: Landing, disk: seq<LogSegment>)
    requires InSync(w) && (disk == w.disk || disk == Append(w.disk, w.live, [], at))
    ensures Alike(w.live, Restore(disk)) && WellFormedDisk(disk, w.live.epoch)
  {
    if disk == w.disk {
      ReopenIsInvisible(w);
    } else {
      RollKeepsSync(w, at);
      ReopenIsInvisible(w.(disk := disk));
    }
  }

  lemma {:induction false} HeaderSurvives(c: Codec<Record>, lines: seq<Record>, k: nat)
    requires ValidCodec(c) && lines != [] && lines[0].Header? && |Encoded(c, lines[..1])| <= k
    ensures 1 <= SurvivingLines(OpensGroup, c, lines, k) <= |lines|
    ensures !OpensGroup(lines[SurvivingLines(OpensGroup, c, lines, k) - 1])
  {
    SurvivingIsLongest(OpensGroup, c, lines, k, 1);
    var whole := lines[..WholeLines(EncodeAll(c, lines), k)];
    assert whole[ClosedLines(OpensGroup, whole) - 1] == lines[ClosedLines(OpensGroup, whole) - 1];
  }

  /** The line-level half: what survives a cut is the disk of a world the run passed through. */
  lemma {:induction false} SurvivorIsPast(start: World, events: seq<Event>, w: World, n: nat) returns (past: World)
    requires InSync(start) && PossibleRun(start, events) && OnlyAppends(events) && w == Run(start, events)
    requires ClosedCut(OpensGroup, w.disk, n)
    requires ActiveOrdinal(w.disk) == ActiveOrdinal(start.disk) ==> |ActiveLines(start.disk)| <= n
    ensures past in Worlds(start, events) && Alike(past.live, Restore(CutLines(w.disk, n)))
    ensures WellFormedDisk(CutLines(w.disk, n), past.live.epoch)
  {
    RunTraces(start, events);
    var worlds := Worlds(start, events);
    var i := PastWorld(worlds, events, n);
    past := worlds[i];
    WorldInSync(start, events, i);
    PastDiskRestores(past, if i < |events| then events[i].at else Landing(false, 0), CutLines(w.disk, n));
  }

  lemma {:induction false} PastWorld(worlds: seq<World>, events: seq<Event>, n: nat) returns (i: nat)
    requires Traced(worlds, events) && worlds[0].disk != [] && ClosedCut(OpensGroup, worlds[|events|].disk, n)
    requires ActiveOrdinal(worlds[|events|].disk) == ActiveOrdinal(worlds[0].disk) ==>
             |ActiveLines(worlds[0].disk)| <= n
    ensures i < |worlds|
    ensures CutLines(worlds[|events|].disk, n) == worlds[i].disk
            || (i < |events| && CutLines(worlds[|events|].disk, n) == MidOf(worlds[i], events[i].at))
  {
    i := CutIsPastDisk(OpensGroup, Disks(worlds), Mids(worlds, events), n);
  }

  /** The lines a cut at byte `k` of the final file leaves. */
  function LinesLeft(c: Codec<Record>, disk: seq<LogSegment>, k: nat): nat
    requires disk != []
  {
    SurvivingLines(OpensGroup, c, disk[|disk| - 1].lines, k)
  }

  /** A byte cut of the final file, at or after its header line. */
  ghost predicate CutPastHeader(c: Codec<Record>, disk: seq<LogSegment>, k: nat) {
    disk != [] && disk[|disk| - 1].lines != [] &&
    |Encoded(c, disk[|disk| - 1].lines[..1])| <= k <= |EncodeSegment(c, disk[|disk| - 1]).content|
  }

  /**
   Scanning the cut disk with repair folds to `acc`, leaves the surviving groups and
   nothing else, and need not repair again.
   */
  ghost predicate CutRecovers(c: Codec<Record>, disk: seq<LogSegment>, k: nat, acc: Acc) {
    && CutPastHeader(c, disk, k)
    && RecoversAs(LOG_FORMAT, c, NOTHING, CutTail(EncodeDisk(c, disk), k), CutLines(disk, LinesLeft(c, disk, k)), acc)
  }

  /** If a run has not rolled since it started, the cut is after what it started from. */
  ghost predicate StartSurvives(start: seq<LogSegment>, disk: seq<LogSegment>, c: Codec<Record>, k: nat) {
    && start != [] && disk != []
    && (ActiveOrdinal(disk) == ActiveOrdinal(start) ==> |ActiveLines(start)| <= LinesLeft(c, disk, k))
  }

  /**
   From any synced log, through any run of commits, feed pages, floor advances and
   rolls: cut the final file at any byte past its header that leaves what the run
   started from. The repairing scan restores the store as it stood after one of the
   run's operations, namely the last whose group is wholly before the cut; it leaves
   exactly the bytes of those groups, and a second scan repairs nothing.
   */
  lemma {:induction false} CrashCutRestores(start: World, events: seq<Event>, w: World, c: Codec<Record>, k: nat)
    returns (past: World, acc: Acc)
    requires InSync(start) && PossibleRun(start, events) && OnlyAppends(events) && w == Run(start, events)
    requires ValidCodec(c) && CutPastHeader(c, w.disk, k) && StartSurvives(start.disk, w.disk, c, k)
    ensures past in Worlds(start, events) && Alike(past.live, RestoredFrom(acc)) && CutRecovers(c, w.disk, k, acc)
  {
    NoCompactionsInSync(start, events);
    CutIsClosed(w.disk, w.live.epoch, c, k);
    past := SurvivorIsPast(start, events, w, LinesLeft(c, w.disk, k));
    acc := BytesRecover(w.disk, w.live.epoch, c, k, past.live.epoch);
  }

  lemma {:induction false} CutIsClosed(disk: seq<LogSegment>, epoch: string, c: Codec<Record>, k: nat)
    requires disk != [] && WellFormedDisk(disk, epoch) && ValidCodec(c) && CutPastHeader(c, disk, k)
    ensures ClosedCut(OpensGroup, disk, LinesLeft(c, disk, k))
  {
    assert WellFormedSegment(disk[|disk| - 1], epoch);
    HeaderSurvives(c, ActiveLines(disk), k);
  }

  /** The byte-level half: the scan of the cut files reads exactly the surviving lines. */
  lemma {:induction false} BytesRecover(disk: seq<LogSegment>, epoch: string, c: Codec<Record>, k: nat, again: string)
    returns (acc: Acc)
    requires disk != [] && WellFormedDisk(disk, epoch) && ValidCodec(c) && CutPastHeader(c, disk, k)
    requires WellFormedDisk(CutLines(disk, LinesLeft(c, disk, k)), again)
    ensures CutRecovers(c, disk, k, acc) && RestoredFrom(acc) == Restore(CutLines(disk, LinesLeft(c, disk, k)))
  {
    FoldIsPlainReading(disk, epoch);
    var kept, recovered := CrashCutRecovery(LOG_FORMAT, c, NOTHING, disk, k);
    FoldIsPlainReading(kept, again);
    acc := recovered;
  }

  /** From a new log nothing is assumed of the cut but that it is past the header. */
  lemma {:induction false} NewLogCrashCutRestores(
    epoch: string, floor: Instant, clock: Instant, events: seq<Event>, c: Codec<Record>, k: nat)
    returns (past: World, acc: Acc)
    requires PossibleRun(NewWorld(epoch, floor, clock), events) && OnlyAppends(events)
    requires ValidCodec(c) && CutPastHeader(c, Run(NewWorld(epoch, floor, clock), events).disk, k)
    ensures past in Worlds(NewWorld(epoch, floor, clock), events) && Alike(past.live, RestoredFrom(acc))
    ensures CutRecovers(c, Run(NewWorld(epoch, floor, clock), events).disk, k, acc)
  {
    var start := NewWorld(epoch, floor, clock);
    var w := Run(start, events);
    NewWorldInSync(epoch, floor, clock);
    NoCompactionsInSync(start, events);
    HeaderSurvives(c, ActiveLines(w.disk), k);
    past, acc := CrashCutRestores(start, events, w, c, k);
  }

  /** A cut inside the header of the final file is refused: never an empty or shortened log. */
  lemma {:induction false} CutInHeaderIsRefused(start: World, events: seq<Event>, c: Codec<Record>, k: nat)
    requires InSync(start) && PossibleRun(start, events) && OnlyAppends(events) && ValidCodec(c)
    requires Run(start, events).disk != []
    requires ActiveLines(Run(start, events).disk) != [] && k < |Encoded(c, ActiveLines(Run(start, events).disk)[..1])|
    ensures var files := EncodeDisk(c, Run(start, events).disk);
            && k <= |files[|files| - 1].content|
            && ScanFiles(LOG_FORMAT, c, NOTHING, CutTail(files, k)) ==
               Err(if k == 0 then EmptySegment else MissingHeader)
  {
    var w := Run(start, events);
    NoCompactionsInSync(start, events);
    FoldIsPlainReading(w.disk, w.live.epoch);
    CutInsideHeaderRefuses(LOG_FORMAT, c, NOTHING, w.disk, k);
  }
}
