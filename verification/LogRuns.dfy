/**
 Whole runs: any interleaving of commits, feed pages, floor advances,
 compactions and crashes keeps the invariant, and with it exactly-once.
 */
module LogRuns {
  import opened Wrappers
  import opened Sequences
  import opened LogRecords
  import opened Store
  import opened SegmentScan
  import opened Recovery
  import opened LogWorld
  import opened Appending
  import opened LogInvariant
  import opened CommitSteps
  import opened Unlinking
  import opened CompactionSteps

  // ------------------------------------------------------------------ reloading

  lemma {:induction false} RestoredAssertions(disk: seq<LogSegment>)
    requires SeqAscending(Bodies(Flat(disk)))
    ensures Restore(disk).assertions == ApplyStamps(Bodies(Flat(disk)), Stamps(Flat(disk)))
  {
    SortedAlready(ApplyStamps(Bodies(Flat(disk)), Stamps(Flat(disk))));
  }

  lemma {:induction false} FloorIsStated(disk: seq<LogSegment>, epoch: string)
    requires disk != [] && WellFormedDisk(disk, epoch)
    ensures FloorOf(Flat(disk)).Some?
  {
    var header := disk[0].lines[0];
    FlatMapMember(disk[0].lines, FloorsIn, header.floor);
    assert header in disk[0].lines && header.floor in FloorsIn(header);
    FlatMember(disk, FloorsIn, header.floor);
    assert disk[0] in disk;
  }

  /** Every durable receipt's instant is noted by a reload, so belief time cannot go back. */
  lemma {:induction false} InstantsNoted(disk: seq<LogSegment>, r: Receipt)
    requires r in Receipts(Flat(disk))
    ensures r.committedAt <= LastMillis(Flat(disk))
  {
    FlatMapMember(Flat(disk), ReceiptsIn, r);
    FlatMapMember(Flat(disk), InstantsIn, r.committedAt);
    var rec :| rec in Flat(disk) && r in ReceiptsIn(rec);
    assert r.committedAt in InstantsIn(rec);
  }

  lemma {:induction false} StampedShadows(bodies: seq<Assertion>, stamps: seq<Stamp>, used: set<AssertionId>)
    requires BodiesInv(bodies, used)
    ensures Shadows(ApplyStamps(bodies, stamps), bodies, stamps)
  {
  }

  /** A reload of a sound disk is a sound live store. */
  lemma {:induction false} ReloadIsLive(
    disk: seq<LogSegment>, epoch: string, used: set<AssertionId>, history: seq<Entry>)
    requires DiskInv(disk, epoch, used, history)
    ensures LiveInv(Restore(disk), disk, history) && Restore(disk).epoch == epoch
  {
    RestoredAssertions(disk);
    StampedShadows(Bodies(Flat(disk)), Stamps(Flat(disk)), used);
    ReceiptMapIndexes(Receipts(Flat(disk)), history);
    FloorIsStated(disk, epoch);
    EpochOfFlat(disk, epoch);
    forall i | 0 <= i < |history| ensures history[i].receipt.committedAt <= LastMillis(Flat(disk)) {
      assert InHistory(history, history[i].receipt);
      InstantsNoted(disk, history[i].receipt);
    }
  }

  lemma {:induction false} RepairsKeepInv(w: World, repairs: seq<(Record, Landing)>) returns (next: World)
    requires Inv(w) && AreRepairs(repairs)
    ensures next == w.(disk := AppendRepairs(w.disk, w.live, repairs)) && Inv(next)
  {
    if repairs == [] {
      next := w;
    } else {
      var front := RepairsKeepInv(w, repairs[..|repairs| - 1]);
      var last := repairs[|repairs| - 1];
      next := RepairKeepsInv(front, last.0, last.1);
    }
  }

  lemma {:induction false} RepairKeepsInv(w: World, r: Record, at: Landing) returns (next: World)
    requires Inv(w) && r.Repair?
    ensures next == w.(disk := Append(w.disk, w.live, [r], at)) && Inv(next)
  {
    next := w.(disk := Append(w.disk, w.live, [r], at));
    SingleIsQuiet(r, w.history);
    QuietKeepsDisk(w, [r], at);
    NoMark(w.live.floor, w.live.published);
    SameLists(w.live, w.disk, next.disk, w.history);
  }

  lemma {:induction false} NoMark(floor: Instant, published: int)
    ensures RaiseTo(Some(floor), []) == Some(floor) && Highest([], published) == published
  {
  }

  lemma {:induction false} SameLists(live: LogState, disk: seq<LogSegment>, next: seq<LogSegment>, history: seq<Entry>)
    requires LiveInv(live, disk, history)
    requires Bodies(Flat(next)) == Bodies(Flat(disk)) && Stamps(Flat(next)) == Stamps(Flat(disk))
    requires FloorOf(Flat(next)) == FloorOf(Flat(disk)) && HighWatermark(Flat(next)) == HighWatermark(Flat(disk))
    ensures LiveInv(live, next, history)
  {
  }

  /** Reopening a sound disk, whatever repairs it then notes. */
  lemma {:induction false} ReopenKeepsInv(
    disk: seq<LogSegment>, epoch: string, used: set<AssertionId>, history: seq<Entry>, repairs: seq<(Record, Landing)>)
    returns (next: World)
    requires DiskInv(disk, epoch, used, history) && AreRepairs(repairs)
    ensures next == World(AppendRepairs(disk, Restore(disk), repairs), Restore(disk), used, history) && Inv(next)
  {
    ReloadIsLive(disk, epoch, used, history);
    next := RepairsKeepInv(World(disk, Restore(disk), used, history), repairs);
  }

  // -------------------------------------------------------------------- crashes

  lemma {:induction false} EmptyIsQuiet(history: seq<Entry>)
    ensures Quiet([], history)
  {
  }

  lemma {:induction false} WholeGroupSurvives(group: seq<Record>)
    requires WritableGroup(group)
    ensures Surviving(group, |group|) == group && Surviving(group, 0) == []
  {
    assert group[..|group|] == group;
  }

  lemma {:induction false} QuietCrash(w: World, group: seq<Record>, at: Landing)
    requires Inv(w) && Quiet(group, w.history)
    ensures DiskInv(Unlink(Append(w.disk, w.live, group, at), OrdinalSet([])), w.live.epoch, w.used, w.history)
  {
    QuietKeepsDisk(w, group, at);
    NothingUnlinked(Append(w.disk, w.live, group, at));
  }

  /** The history a crash leaves: a commit counts once its whole group is on disk. */
  ghost function CrashHistory(w: World, e: Effect, p: Progress): seq<Entry> {
    Recorded(w.history, if p.written == |e.group| then e.entry else None)
  }

  lemma {:induction false} CommitCrash(w: World, input: CommitInput, mint: Mint, p: Progress, at: Landing)
    requires Inv(w) && Minting(w, DoCommit(input, mint)) && Reaches(EffectOf(w, DoCommit(input, mint)), p)
    ensures var e := EffectOf(w, DoCommit(input, mint));
            DiskInv(CrashedDisk(w, e, p, at), w.live.epoch, w.used + IdSet(mint.ids), CrashHistory(w, e, p))
  {
    var e := EffectOf(w, DoCommit(input, mint));
    if Commit(w.live, input, mint).outcome.Committed? {
      CommittedCrash(w, input, mint, p, at);
    } else {
      var _ := FinishRefused(w, input, mint, at);
      UsedGrows(w.disk, w.live.epoch, w.used, IdSet(mint.ids), w.history);
    }
  }

  lemma {:induction false} CommittedCrash(w: World, input: CommitInput, mint: Mint, p: Progress, at: Landing)
    requires Inv(w) && Minting(w, DoCommit(input, mint)) && Commit(w.live, input, mint).outcome.Committed?
    requires Reaches(EffectOf(w, DoCommit(input, mint)), p)
    ensures var e := EffectOf(w, DoCommit(input, mint));
            DiskInv(CrashedDisk(w, e, p, at), w.live.epoch, w.used + IdSet(mint.ids), CrashHistory(w, e, p))
  {
    var c := FinishCommitted(w, input, mint, at);
    CommitIsSound(w.live, input, mint);
    var group := CommitGroup(c.minted, c.stamps, c.receipt);
    CommitGroupWritable(c.minted, c.stamps, c.receipt);
    if p.written < |group| {
      TornCommit(w, at, IdSet(mint.ids));
    } else {
      WholeCommit(w, c, at);
    }
  }

  lemma {:induction false} WholeCommit(w: World, c: Committing, at: Landing)
    requires Inv(w) && Sound(w.live, c) && FreshParts(w, c)
    ensures var group := CommitGroup(c.minted, c.stamps, c.receipt);
            && Surviving(group, |group|) == group
            && DiskInv(Unlink(Append(w.disk, w.live, group, at), OrdinalSet([])), w.live.epoch,
                       w.used + IdSet(c.receipt.assertionIds), w.history + [Entry(c.receipt, w.live.nextSeq)])
  {
    var group := CommitGroup(c.minted, c.stamps, c.receipt);
    CommitGroupWritable(c.minted, c.stamps, c.receipt);
    WholeGroupSurvives(group);
    CommittedDiskInv(w, c, at);
    NothingUnlinked(Append(w.disk, w.live, group, at));
  }

  lemma {:induction false} TornCommit(w: World, at: Landing, more: set<AssertionId>)
    requires Inv(w)
    ensures DiskInv(Unlink(Append(w.disk, w.live, [], at), OrdinalSet([])), w.live.epoch, w.used + more, w.history)
  {
    EmptyIsQuiet(w.history);
    QuietCrash(w, [], at);
    UsedGrows(Unlink(Append(w.disk, w.live, [], at), OrdinalSet([])), w.live.epoch, w.used, more, w.history);
  }

  lemma {:induction false} MarkCrash(w: World, op: Operation, p: Progress, at: Landing)
    requires Inv(w) && (op.DoFeed? || op.DoFloor?) && Reaches(EffectOf(w, op), p)
    ensures DiskInv(CrashedDisk(w, EffectOf(w, op), p, at), w.live.epoch, w.used, w.history)
  {
    var e := EffectOf(w, op);
    if e.group != [] {
      SingleIsQuiet(e.group[0], w.history);
      EmptyIsQuiet(w.history);
      WholeGroupSurvives([e.group[0]]);
      QuietCrash(w, Surviving(e.group, p.written), at);
    }
  }

  lemma {:induction false} CompactCrash(w: World, clock: Instant, p: Progress, at: Landing)
    requires Inv(w) && Reaches(EffectOf(w, DoCompact(clock)), p)
    ensures DiskInv(CrashedDisk(w, EffectOf(w, DoCompact(clock)), p, at), w.live.epoch, w.used, w.history)
  {
    var doomed := Candidates(w.disk, w.live);
    if doomed != [] {
      var group := CompactionGroup(w.disk, w.live, doomed, clock);
      forall s | s in doomed ensures s in w.disk { DoomedAreCandidates(w, s); }
      CompactionGroupWritable(w.disk, w.live, doomed, clock, p.written);
      if p.written < |group| {
        CompactionPrefixQuiet(w, doomed, clock, p.written);
        QuietCrash(w, group[..p.written], at);
      } else {
        assert group[..p.written] == group;
        CompactedDisk(w, clock, at, OrdinalSet(doomed[..p.unlinked]));
      }
    }
  }

  lemma {:induction false} CrashedDiskInv(w: World, op: Operation, p: Progress, at: Landing)
    requires Inv(w) && Minting(w, op) && Reaches(EffectOf(w, op), p)
    ensures var e := EffectOf(w, op);
            DiskInv(CrashedDisk(w, e, p, at), w.live.epoch, w.used + MintedBy(op), CrashHistory(w, e, p))
  {
    match op
    case DoCommit(input, mint) => CommitCrash(w, input, mint, p, at);
    case DoFeed(_, _, _) => MarkCrash(w, op, p, at); assert w.used + {} == w.used;
    case DoFloor(_, _) => MarkCrash(w, op, p, at); assert w.used + {} == w.used;
    case DoCompact(clock) => CompactCrash(w, clock, p, at); assert w.used + {} == w.used;
  }

  lemma {:induction false} CrashKeepsInv(
    w: World, op: Operation, p: Progress, at: Landing, repairs: seq<(Record, Landing)>)
    returns (next: World)
    requires Inv(w) && Minting(w, op) && Reaches(EffectOf(w, op), p) && AreRepairs(repairs)
    ensures next == CrashAndReopen(w, op, p, at, repairs) && Inv(next)
  {
    var e := EffectOf(w, op);
    CrashedDiskInv(w, op, p, at);
    next :=
      ReopenKeepsInv(CrashedDisk(w, e, p, at), w.live.epoch, w.used + MintedBy(op), CrashHistory(w, e, p), repairs);
  }

  // ----------------------------------------------------------------------- runs

  lemma {:induction false} NewDisk(s: LogSegment, header: Record)
    requires s.lines == [header] && header.Header?
    ensures Flat([s]) == [header] && Bodies([header]) == [] && Stamps([header]) == [] && Receipts([header]) == []
    ensures HighSeq([header]) == 0 && HighWatermark([header]) == 0 && FloorOf([header]) == Some(header.floor)
    ensures BodySites([s]) == [] && Compactions([header]) == []
  {
    FlatMapOne(s, LinesIn);
    FlatMapOne(header, BodiesIn);
    FlatMapOne(header, StampsIn);
    FlatMapOne(header, ReceiptsIn);
    FlatMapOne(header, CompactionsIn);
    FlatMapOne(header, SeqsIn);
    FlatMapOne(header, FloorsIn);
    FlatMapOne(header, WatermarksIn);
    FlatMapOne(s, BodySitesIn);
    SitesOfHeader(s);
  }

  lemma {:induction false} NewWorldInv(epoch: string, floor: Instant, clock: Instant)
    ensures Inv(NewWorld(epoch, floor, clock))
  {
    var s := FreshSegment(1, epoch, floor, clock);
    NewDiskInv(s, Header(1, epoch, floor, clock), epoch);
    NewLiveInv(s, Header(1, epoch, floor, clock), epoch);
  }

  lemma {:induction false} NewLiveInv(s: LogSegment, header: Record, epoch: string)
    requires s.lines == [header] && header.Header?
    ensures LiveInv(FreshLog(epoch, header.floor), [s], [])
  {
    NewDisk(s, header);
    assert Flat([s]) == [header];
    assert Shadows([], [], []) && Indexes(map[], []);
  }

  lemma {:induction false} NewDiskInv(s: LogSegment, header: Record, epoch: string)
    requires s.lines == [header] && header.Header? && header.ordinal == s.ordinal && header.epoch == epoch
    ensures DiskInv([s], epoch, {}, [])
  {
    var disk := [s];
    NewDisk(s, header);
    assert WellFormedSegment(s, epoch);
    assert WellFormedDisk(disk, epoch);
    assert Bodies(Flat(disk)) == [] && Stamps(Flat(disk)) == [] && Receipts(Flat(disk)) == [];
    assert BodiesInv([], {}) && StampsInv([], {}) && ReceiptsInv([], []);
    assert StampsFollowBodies(disk);
  }

  lemma {:induction false} FinishKeepsInv(w: World, op: Operation, at: Landing) returns (next: World)
    requires Inv(w) && Minting(w, op)
    ensures next == Finish(w, op, at) && Inv(next)
  {
    match op
    case DoCommit(input, mint) => next := CommitKeepsInv(w, input, mint, at);
    case DoFeed(cursor, limit, clock) => next := FeedKeepsInv(w, cursor, limit, clock, at);
    case DoFloor(to, clock) => next := FloorKeepsInv(w, to, clock, at);
    case DoCompact(clock) => next := CompactKeepsInv(w, clock, at);
  }

  /** Every possible step keeps the invariant. */
  lemma {:induction false} StepKeepsInv(w: World, e: Event)
    requires Inv(w) && Possible(w, e)
    ensures Inv(Step(w, e))
  {
    match e
    case Finishes(op, at) => var next := FinishKeepsInv(w, op, at);
    case Crashes(op, p, at, repairs) => var next := CrashKeepsInv(w, op, p, at, repairs);
  }

  /** The invariant of every run, crashes and reopens included. */
  lemma {:induction false} RunKeepsInv(w: World, events: seq<Event>)
    requires Inv(w) && PossibleRun(w, events)
    ensures Inv(Run(w, events))
  {
    if events != [] {
      RunKeepsInv(w, events[..|events| - 1]);
      StepKeepsInv(Run(w, events[..|events| - 1]), events[|events| - 1]);
    }
  }
}
