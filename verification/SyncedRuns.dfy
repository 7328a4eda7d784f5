/**
 Over whole runs: reopening is invisible exactly as long as every compaction is clean, and
 always right after a reopen.
 */
module SyncedRuns {
  import opened Wrappers
  import opened Sequences
  import opened LogRecords
  import opened Store
  import opened SegmentScan
  import opened Recovery
  import opened LogWorld
  import opened Appending
  import opened LogInvariant
  import opened CommitSteps
  import opened Unlinking
  import opened CompactionSteps
  import opened LogRuns
  import opened Reopening
  import opened CompactedReopening

  // ------------------------------------------------------- what records may name

  ghost predicate NamesOnly(rs: seq<Record>, used: set<AssertionId>) {
    forall id :: id in Named(rs) ==> id in used
  }

  lemma {:induction false} AppendNames(
    disk: seq<LogSegment>, live: LogState, group: seq<Record>, at: Landing, used: set<AssertionId>)
    requires disk != [] && NamesOnly(Flat(disk), used) && NamesOnly(group, used)
    ensures NamesOnly(Flat(Append(disk, live, group, at)), used)
  {
    AppendList(disk, live, group, at, NamedIn);
  }

  lemma {:induction false} UnlinkNames(disk: seq<LogSegment>, gone: set<int>, used: set<AssertionId>)
    requires NamesOnly(Flat(disk), used)
    ensures NamesOnly(Flat(Unlink(disk, gone)), used)
  {
    UnlinkedSubset(disk, gone, NamedIn);
  }

  lemma {:induction false} NamelessGroup(group: seq<Record>, used: set<AssertionId>)
    requires forall i :: 0 <= i < |group| ==> !group[i].Compaction?
    ensures NamesOnly(group, used)
  {
    FlatMapEmpty(group, NamedIn);
  }

  lemma {:induction false} CompactionNames(w: World, clock: Instant)
    requires Inv(w)
    ensures NamesOnly(CompactionGroup(w.disk, w.live, Candidates(w.disk, w.live), clock), w.used)
  {
    var doomed := Candidates(w.disk, w.live);
    var carried, c := Submissions(Receipts(Flat(doomed))), CompactionRecord(w.disk, w.live, doomed, clock);
    FlatMapSnoc(carried, c, NamedIn);
    FlatMapEmpty(carried, NamedIn);
    forall id | id in NamedIn(c) ensures id in w.used {
      IdsMember(Bodies(Flat(doomed)), id);
      var b :| b in Bodies(Flat(doomed)) && b.id == id;
      DoomedBodyUsed(w, b);
    }
  }

  lemma {:induction false} DoomedBodyUsed(w: World, b: Assertion)
    requires Inv(w) && b in Bodies(Flat(Candidates(w.disk, w.live)))
    ensures b.id in w.used
  {
    FlatMember(Candidates(w.disk, w.live), BodiesIn, b);
    var s :| s in Candidates(w.disk, w.live) && b in FlatMap(s.lines, BodiesIn);
    DoomedAreCandidates(w, s);
    FlatMember(w.disk, BodiesIn, b);
    var i :| 0 <= i < |Bodies(Flat(w.disk))| && Bodies(Flat(w.disk))[i] == b;
  }

  lemma {:induction false} CommitNames(s: LogState, input: CommitInput, mint: Mint, used: set<AssertionId>)
    requires |mint.ids| == |input.drafts|
    ensures NamesOnly(Commit(s, input, mint).group, used)
  {
    if Commit(s, input, mint).outcome.Committed? {
      CommitIsSound(s, input, mint);
      var c := PartsOf(s, input, mint);
      CommitGroupNames(c.minted, c.stamps, c.receipt, used);
    } else {
      NamelessGroup([], used);
    }
  }

  lemma {:induction false} CommitGroupNames(
    minted: seq<Assertion>, stamps: seq<Stamp>, receipt: Receipt, used: set<AssertionId>)
    ensures NamesOnly(CommitGroup(minted, stamps, receipt), used)
  {
    NamelessGroup(CommitGroup(minted, stamps, receipt), used);
  }

  lemma {:induction false} MarkNames(w: World, op: Operation)
    requires w.disk != [] && (op.DoFeed? || op.DoFloor?)
    ensures NamesOnly(EffectOf(w, op).group, w.used)
  {
    MarkEffect(w, op);
    NamelessGroup(EffectOf(w, op).group, w.used);
  }

  lemma {:induction false} CompactionGroupNames(w: World, clock: Instant)
    requires Inv(w)
    ensures NamesOnly(EffectOf(w, DoCompact(clock)).group, w.used)
  {
    if Candidates(w.disk, w.live) == [] { NamelessGroup([], w.used); } else { CompactionNames(w, clock); }
  }

  lemma {:induction false} GroupNames(w: World, op: Operation)
    requires Inv(w) && Minting(w, op)
    ensures NamesOnly(EffectOf(w, op).group, w.used)
  {
    match op
    case DoCommit(input, mint) => CommitNames(w.live, input, mint, w.used);
    case DoFeed(_, _, _) => MarkNames(w, op);
    case DoFloor(_, _) => MarkNames(w, op);
    case DoCompact(clock) => CompactionGroupNames(w, clock);
  }

  lemma {:induction false} PrefixNames(group: seq<Record>, n: nat, used: set<AssertionId>)
    requires n <= |group| && NamesOnly(group, used)
    ensures NamesOnly(group[..n], used)
  {
    FlatMapPrefix(group, n, NamedIn);
  }

  lemma {:induction false} CrashedNames(w: World, e: Effect, p: Progress, at: Landing, used: set<AssertionId>)
    requires w.disk != [] && Reaches(e, p) && NamesOnly(Flat(w.disk), used) && NamesOnly(e.group, used)
    ensures NamesOnly(Flat(CrashedDisk(w, e, p, at)), used)
  {
    if e.group != [] {
      PrefixNames(e.group, ClosedLines(OpensGroup, e.group[..p.written]), used);
      var group := Surviving(e.group, p.written);
      AppendNames(w.disk, w.live, group, at, used);
      UnlinkNames(Append(w.disk, w.live, group, at), OrdinalSet(e.doomed[..p.unlinked]), used);
    }
  }

  lemma {:induction false} RepairNames(
    disk: seq<LogSegment>, live: LogState, repairs: seq<(Record, Landing)>, used: set<AssertionId>)
    requires disk != [] && NamesOnly(Flat(disk), used) && AreRepairs(repairs)
    ensures NamesOnly(Flat(AppendRepairs(disk, live, repairs)), used)
  {
    if repairs != [] {
      var front, last := AppendRepairs(disk, live, repairs[..|repairs| - 1]), repairs[|repairs| - 1];
      RepairNames(disk, live, repairs[..|repairs| - 1], used);
      NamelessGroup([last.0], used);
      AppendNames(front, live, [last.0], last.1, used);
    }
  }

  lemma {:induction false} StepNames(w: World, e: Event)
    requires Inv(w) && Possible(w, e) && NotesUsed(w)
    ensures NotesUsed(Step(w, e))
  {
    var effect := EffectOf(w, e.op);
    GroupNames(w, e.op);
    match e
    case Finishes(op, at) =>
      AppendNames(w.disk, w.live, effect.group, at, w.used);
      UnlinkNames(Append(w.disk, w.live, effect.group, at), OrdinalSet(effect.doomed), w.used);
    case Crashes(op, p, at, repairs) =>
      CrashedNames(w, effect, p, at, w.used);
      ActiveSegmentSurvives(w, op, p, at);
      RepairNames(CrashedDisk(w, effect, p, at), Restore(CrashedDisk(w, effect, p, at)), repairs, w.used);
  }

  // --------------------------------------------------------------- steps in sync

  /** In a sound world, being in sync is the same as a reload being invisible. */
  lemma {:induction false} InSyncIffReloadAlike(w: World)
    requires Inv(w) && NotesUsed(w)
    ensures InSync(w) <==> Alike(w.live, Restore(w.disk))
  {
    RestoredAssertions(w.disk);
    KnownStampsReload(w.live.assertions, Bodies(Flat(w.disk)), Stamps(Flat(w.disk)));
    RestoredNotes(w.disk);
    if InSync(w) {
      ReopenIsInvisible(w);
    }
    if Alike(w.live, Restore(w.disk)) { HighestNoteAgrees(w.live.reclaimed, Restore(w.disk).reclaimed); }
  }

  /** A compaction that drops no stamp of a surviving body and no note. */
  ghost predicate CleanCompaction(w: World)
    requires w.disk != []
  {
    var gone := OrdinalSet(Candidates(w.disk, w.live));
    StampsStay(w.disk, gone) && NotesStay(w, gone)
  }

  ghost predicate CleanStep(w: World, e: Event) {
    w.disk != [] && (e.Finishes? && e.op.DoCompact? ==> CleanCompaction(w))
  }

  /** A compaction that reclaims anything leaves a store in sync exactly when it is clean. */
  lemma {:induction false} CompactInSync(w: World, clock: Instant, at: Landing)
    requires InSync(w)
    ensures Candidates(w.disk, w.live) == [] ==> Finish(w, DoCompact(clock), at) == w
    ensures Candidates(w.disk, w.live) != [] ==> (InSync(Finish(w, DoCompact(clock), at)) <==> CleanCompaction(w))
  {
    FinishCompact(w, clock, at);
    if Candidates(w.disk, w.live) != [] {
      var next := CompactKeepsInv(w, clock, at);
      ReopenAfterCompaction(w, clock, at);
      StepNames(w, Finishes(DoCompact(clock), at));
      InSyncIffReloadAlike(next);
    }
  }

  lemma {:induction false} CommitInSync(w: World, input: CommitInput, mint: Mint, at: Landing)
    requires InSync(w) && Minting(w, DoCommit(input, mint))
    ensures InSync(Finish(w, DoCommit(input, mint), at))
  {
    if Commit(w.live, input, mint).outcome.Committed? {
      var c := FinishCommitted(w, input, mint, at);
      CommittedInSync(w, c, at);
    } else {
      var millis := FinishRefused(w, input, mint, at);
      var next := RefusedKeepsInv(w, millis, IdSet(mint.ids));
      QuietInSync(w, next);
    }
  }

  lemma {:induction false} MarkInSync(w: World, op: Operation, at: Landing)
    requires InSync(w) && (op.DoFeed? || op.DoFloor?)
    ensures InSync(Finish(w, op, at))
  {
    FinishMark(w, op, at);
    MarkEffect(w, op);
    var next := FinishKeepsInv(w, op, at);
    var e := EffectOf(w, op);
    if e.group == [] {
      QuietInSync(w, next);
    } else {
      AppendedMarkInSync(w, e.group[0], at, next);
    }
  }

  /** A feed page or a floor advance appends at most one mark and touches only marks. */
  lemma {:induction false} MarkEffect(w: World, op: Operation)
    requires w.disk != [] && (op.DoFeed? || op.DoFloor?)
    ensures var e := EffectOf(w, op);
            && e.live.assertions == w.live.assertions && e.live.reclaimed == w.live.reclaimed
            && e.live.retention == w.live.retention && e.live.epoch == w.live.epoch && w.live.floor <= e.live.floor
            && (e.group != [] ==>
                  |e.group| == 1 && e.group == [e.group[0]] && (e.group[0].Watermark? || e.group[0].HistoryFloor?))
  {
  }

  lemma {:induction false} RepairsInSync(w: World, repairs: seq<(Record, Landing)>)
    requires InSync(w) && AreRepairs(repairs)
    ensures w.disk != [] && InSync(w.(disk := AppendRepairs(w.disk, w.live, repairs)))
  {
    if repairs == [] {
      assert w.(disk := AppendRepairs(w.disk, w.live, repairs)) == w;
    } else {
      RepairsInSync(w, repairs[..|repairs| - 1]);
      var front := w.(disk := AppendRepairs(w.disk, w.live, repairs[..|repairs| - 1]));
      var last := repairs[|repairs| - 1];
      var next := RepairKeepsInv(front, last.0, last.1);
      AppendedMarkInSync(front, last.0, last.1, next);
    }
  }

  /** Whatever was dropped before, a store that has just been reopened is in sync. */
  lemma {:induction false} CrashInSync(
    w: World, op: Operation, p: Progress, at: Landing, repairs: seq<(Record, Landing)>)
    requires Inv(w) && NotesUsed(w) && Minting(w, op) && Reaches(EffectOf(w, op), p) && AreRepairs(repairs)
    ensures InSync(CrashAndReopen(w, op, p, at, repairs))
  {
    var e := EffectOf(w, op);
    var disk, used := CrashedDisk(w, e, p, at), w.used + MintedBy(op);
    CrashedDiskInv(w, op, p, at);
    GroupNames(w, op);
    CrashedNames(w, e, p, at, w.used);
    ReloadedIsInSync(disk, w.live.epoch, used, CrashHistory(w, e, p));
    RepairsInSync(World(disk, Restore(disk), used, CrashHistory(w, e, p)), repairs);
  }

  lemma {:induction false} StepInSync(w: World, e: Event)
    requires InSync(w) && Possible(w, e) && CleanStep(w, e)
    ensures InSync(Step(w, e))
  {
    match e
    case Finishes(op, at) =>
      match op {
        case DoCommit(input, mint) => CommitInSync(w, input, mint, at);
        case DoFeed(_, _, _) => MarkInSync(w, op, at);
        case DoFloor(_, _) => MarkInSync(w, op, at);
        case DoCompact(clock) => CompactInSync(w, clock, at);
      }
    case Crashes(op, p, at, repairs) => CrashInSync(w, op, p, at, repairs);
  }

  // ------------------------------------------------------------------- whole runs

  lemma {:induction false} RunNames(w: World, events: seq<Event>)
    requires Inv(w) && NotesUsed(w) && PossibleRun(w, events)
    ensures Inv(Run(w, events)) && NotesUsed(Run(w, events))
  {
    RunKeepsInv(w, events);
    if events != [] {
      var front := events[..|events| - 1];
      RunNames(w, front);
      StepNames(Run(w, front), events[|events| - 1]);
    }
  }

  ghost predicate CleanRun(w: World, events: seq<Event>)
    requires PossibleRun(w, events)
  {
    events == [] ||
    (CleanRun(w, events[..|events| - 1]) && CleanStep(Run(w, events[..|events| - 1]), events[|events| - 1]))
  }

  lemma {:induction false} CleanRunInSync(w: World, events: seq<Event>)
    requires InSync(w) && PossibleRun(w, events) && CleanRun(w, events)
    ensures InSync(Run(w, events))
  {
    if events != [] {
      CleanRunInSync(w, events[..|events| - 1]);
      StepInSync(Run(w, events[..|events| - 1]), events[|events| - 1]);
    }
  }

  lemma {:induction false} NewWorldInSync(epoch: string, floor: Instant, clock: Instant)
    ensures InSync(NewWorld(epoch, floor, clock))
  {
    var s := FreshSegment(1, epoch, floor, clock);
    var w := NewWorld(epoch, floor, clock);
    NewWorldInv(epoch, floor, clock);
    NewDisk(s, s.lines[0]);
    FlatMapOne(s.lines[0], NamedIn);
    NewIsAlike(w, s.lines[0]);
  }

  lemma {:induction false} NewIsAlike(w: World, header: Record)
    requires Inv(w) && w.live.assertions == [] && w.live.reclaimed == map[] && w.live.retention == 0
    requires Flat(w.disk) == [header] && Compactions([header]) == [] && Named([header]) == []
    ensures InSync(w)
  {
    NoNotes([header]);
  }

  lemma {:induction false} NoNotes(rs: seq<Record>)
    requires Compactions(rs) == []
    ensures NotesAgree(map[], Notes(rs) - BodyIds(rs)) && HighestNote(map[]) == 0
  {
    assert Notes(rs) == map[];
  }

  /**
   From a new log, through any clean run with any crashes, closing and opening the log
   changes nothing a caller sees.
   */
  lemma {:induction false} CleanRunsReopenUnchanged(epoch: string, floor: Instant, clock: Instant, events: seq<Event>)
    requires PossibleRun(NewWorld(epoch, floor, clock), events) && CleanRun(NewWorld(epoch, floor, clock), events)
    ensures var w := Run(NewWorld(epoch, floor, clock), events); Alike(w.live, Restore(w.disk))
  {
    NewWorldInSync(epoch, floor, clock);
    CleanRunInSync(NewWorld(epoch, floor, clock), events);
    ReopenIsInvisible(Run(NewWorld(epoch, floor, clock), events));
  }
}
