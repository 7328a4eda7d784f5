/**
 As-of answers are repeatable: once an instant is behind the last acknowledged
 commit, nothing but a compaction can change what a read at it returns.
 */
module RepeatableReads {
  import opened Wrappers
  import opened Sequences
  import opened LogRecords
  import opened Store
  import opened SegmentScan
  import opened Recovery
  import opened LogWorld
  import opened Appending
  import opened LogInvariant
  import opened CommitSteps
  import opened Unlinking
  import opened CompactionSteps
  import opened LogRuns
  import opened Reopening
  import opened SyncedRuns
  import opened ExactlyOnce

  /** An instant no later than some acknowledged commit. */
  ghost predicate Acknowledged(history: seq<Entry>, t: Instant) {
    exists i :: 0 <= i < |history| && t <= history[i].receipt.committedAt
  }

  ghost predicate Grew(s: LogState, later: LogState, t: Instant) {
    GrewAfter(s.assertions, later.assertions, t) && s.floor <= later.floor
  }

  lemma {:induction false} NothingGrew(assertions: seq<Assertion>, t: Instant)
    ensures GrewAfter(assertions, assertions, t)
  {
  }

  /** A commit's stamps and bodies all lie after every acknowledged instant. */
  lemma {:induction false} CommittedGrows(s: LogState, c: Committing, t: Instant)
    requires Sound(s, c) && t <= s.lastMillis
    ensures GrewAfter(s.assertions, CommittedLive(s, c).assertions, t)
  {
    var before, after := s.assertions, CommittedLive(s, c).assertions;
    var all := before + c.minted;
    forall i | 0 <= i < |after| ensures LaterForm(all[i], after[i], t) {
      assert after[i] == Stamped(all[i], c.stamps);
      FirstStampFound(c.stamps, all[i].id);
    }
    forall i | |before| <= i < |after| ensures after[i].recordedAt > t {
      assert all[i] == c.minted[i - |before|];
    }
  }

  lemma {:induction false} AcknowledgedIsPast(w: World, t: Instant)
    requires Inv(w) && Acknowledged(w.history, t)
    ensures t <= w.live.lastMillis
  {
  }

  lemma {:induction false} FinishGrows(w: World, op: Operation, at: Landing, t: Instant)
    requires Inv(w) && Minting(w, op) && !op.DoCompact? && t <= w.live.lastMillis
    ensures Grew(w.live, Finish(w, op, at).live, t)
  {
    match op
    case DoCommit(input, mint) => CommitGrows(w, input, mint, at, t);
    case DoFeed(_, _, _) => MarkGrows(w, op, at, t);
    case DoFloor(_, _) => MarkGrows(w, op, at, t);
  }

  lemma {:induction false} MarkGrows(w: World, op: Operation, at: Landing, t: Instant)
    requires w.disk != [] && (op.DoFeed? || op.DoFloor?)
    ensures Grew(w.live, Finish(w, op, at).live, t)
  {
    FinishMark(w, op, at);
    MarkEffect(w, op);
    NothingGrew(w.live.assertions, t);
  }

  lemma {:induction false} CommitGrows(w: World, input: CommitInput, mint: Mint, at: Landing, t: Instant)
    requires Inv(w) && Minting(w, DoCommit(input, mint)) && t <= w.live.lastMillis
    ensures Grew(w.live, Finish(w, DoCommit(input, mint), at).live, t)
  {
    if Commit(w.live, input, mint).outcome.Committed? {
      var c := FinishCommitted(w, input, mint, at);
      CommittedGrows(w.live, c, t);
    } else {
      var millis := FinishRefused(w, input, mint, at);
      NothingGrew(w.live.assertions, t);
    }
  }

  // --------------------------------------------------------------------- crashes

  /**
   Without compactions, a crash leaves the disk as it was, a roll perhaps aside, or as the
   finished operation leaves it.
   */
  lemma {:induction false} CrashIsAllOrNothing(w: World, op: Operation, p: Progress, at: Landing)
    requires Inv(w) && Minting(w, op) && !op.DoCompact? && Reaches(EffectOf(w, op), p)
    ensures var disk := CrashedDisk(w, EffectOf(w, op), p, at);
            disk == w.disk || disk == Append(w.disk, w.live, [], at) || disk == Finish(w, op, at).disk
  {
    var e := EffectOf(w, op);
    NoneDoomed(w, op);
    PlainCrash(w, e, p, at);
    PlainFinish(w, op, at);
    if p.written < |e.group| {
      PartialIsNothing(w, op, p.written);
    } else {
      GroupIsClosed(w, op);
    }
  }

  lemma {:induction false} NoneDoomed(w: World, op: Operation)
    requires w.disk != [] && Minting(w, op) && !op.DoCompact?
    ensures EffectOf(w, op).doomed == []
  {
  }

  lemma {:induction false} PlainCrash(w: World, e: Effect, p: Progress, at: Landing)
    requires w.disk != [] && Reaches(e, p) && e.doomed == []
    ensures CrashedDisk(w, e, p, at) ==
            if e.group == [] then w.disk else Append(w.disk, w.live, Surviving(e.group, p.written), at)
  {
    assert e.doomed[..p.unlinked] == [];
    NothingUnlinked(Append(w.disk, w.live, Surviving(e.group, p.written), at));
  }

  lemma {:induction false} PlainFinish(w: World, op: Operation, at: Landing)
    requires w.disk != [] && Minting(w, op) && EffectOf(w, op).doomed == []
    ensures Finish(w, op, at).disk ==
            if EffectOf(w, op).group == [] then w.disk else Append(w.disk, w.live, EffectOf(w, op).group, at)
  {
    NothingUnlinked(Append(w.disk, w.live, EffectOf(w, op).group, at));
  }

  lemma {:induction false} PartialIsNothing(w: World, op: Operation, n: nat)
    requires w.disk != [] && Minting(w, op) && !op.DoCompact? && n < |EffectOf(w, op).group|
    ensures Surviving(EffectOf(w, op).group, n) == []
  {
    match op
    case DoCommit(input, mint) =>
      CommitIsSound(w.live, input, mint);
      var c := PartsOf(w.live, input, mint);
      CommitGroupWritable(c.minted, c.stamps, c.receipt);
    case DoFeed(_, _, _) => MarkEffect(w, op);
    case DoFloor(_, _) => MarkEffect(w, op);
  }

  /** A roll alone changes nothing a caller sees. */
  lemma {:induction false} RollKeepsSync(w: World, at: Landing)
    requires InSync(w)
    ensures InSync(w.(disk := Append(w.disk, w.live, [], at)))
  {
    var next := w.(disk := Append(w.disk, w.live, [], at));
    EmptyIsQuiet(w.history);
    QuietKeepsDisk(w, [], at);
    NoMark(w.live.floor, w.live.published);
    SameLists(w.live, w.disk, next.disk, w.history);
    Reopening.NoCompactions(w.disk, w.live, [], at);
    QuietInSync(w, next);
  }

  lemma {:induction false} CrashGrows(
    w: World, op: Operation, p: Progress, at: Landing, repairs: seq<(Record, Landing)>, t: Instant)
    requires InSync(w) && Minting(w, op) && !op.DoCompact? && Reaches(EffectOf(w, op), p) && t <= w.live.lastMillis
    ensures Grew(w.live, CrashAndReopen(w, op, p, at, repairs).live, t)
  {
    var disk := CrashedDisk(w, EffectOf(w, op), p, at);
    NothingGrew(w.live.assertions, t);
    CrashIsAllOrNothing(w, op, p, at);
    if disk == w.disk {
      ReopenIsInvisible(w);
    } else if disk == Append(w.disk, w.live, [], at) {
      RollKeepsSync(w, at);
      ReopenIsInvisible(w.(disk := disk));
    } else {
      StepInSync(w, Finishes(op, at));
      ReopenIsInvisible(Finish(w, op, at));
      FinishGrows(w, op, at, t);
    }
  }

  // ------------------------------------------------------------------------ runs

  ghost predicate NoCompactions(events: seq<Event>) {
    forall i :: 0 <= i < |events| ==> !events[i].op.DoCompact?
  }

  lemma {:induction false} RunGrows(w: World, events: seq<Event>, t: Instant)
    requires InSync(w) && PossibleRun(w, events) && NoCompactions(events) && Acknowledged(w.history, t)
    ensures InSync(Run(w, events)) && Grew(w.live, Run(w, events).live, t)
  {
    if events == [] {
      NothingGrew(w.live.assertions, t);
    } else {
      var front, e := events[..|events| - 1], events[|events| - 1];
      var before := Run(w, front);
      RunGrows(w, front, t);
      RunExtends(w, front);
      StillAcknowledged(w.history, before.history, t);
      AcknowledgedIsPast(before, t);
      StepInSync(before, e);
      match e {
        case Finishes(op, at) => FinishGrows(before, op, at, t);
        case Crashes(op, p, at, repairs) => CrashGrows(before, op, p, at, repairs, t);
      }
      GrewAfterTransitive(w.live.assertions, before.live.assertions, Step(before, e).live.assertions, t);
    }
  }

  lemma {:induction false} StillAcknowledged(earlier: seq<Entry>, later: seq<Entry>, t: Instant)
    requires Acknowledged(earlier, t) && Extends(later, earlier)
    ensures Acknowledged(later, t)
  {
    var i :| 0 <= i < |earlier| && t <= earlier[i].receipt.committedAt;
    assert later[i] == earlier[i];
  }

  /**
   For an instant no later than some acknowledged commit and still at or above the
   floor, any later compaction-free run, crashes and reopens included, gives the
   same hit ids with the same fidelities and match qualities.
   */
  lemma {:induction false} AsOfReadsAreRepeatable(w: World, events: seq<Event>, q: Query, t: Instant)
    requires InSync(w) && PossibleRun(w, events) && NoCompactions(events)
    requires q.asOfRecorded == Some(t) && Acknowledged(w.history, t) && Run(w, events).live.floor <= t
    ensures var before, after := RunQuery(w.live, q), RunQuery(Run(w, events).live, q);
            before.Answer? && after.Answer? && SameHits(before.page.hits, after.page.hits)
  {
    RunGrows(w, events, t);
    AsOfReadsRepeat(q, w.live.assertions, Run(w, events).live.assertions, t);
  }
}
