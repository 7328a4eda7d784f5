/**
 The change feed has no silent gaps: in one process, whatever commits, pages,
 floor advances and compactions come between, a page that is not flagged as
 before the retention floor holds exactly the seqs after its cursor.
 */
module Feed {
  import opened Wrappers
  import opened Sequences
  import opened LogRecords
  import opened Store
  import opened SegmentScan
  import opened Recovery
  import opened LogWorld
  import opened LogInvariant
  import opened CommitSteps
  import opened Unlinking
  import opened CompactionSteps
  import opened LogRuns
  import opened Reopening
  import opened CompactedReopening
  import opened SyncedRuns

  predicate Holds(assertions: seq<Assertion>, q: int) {
    exists a :: a in assertions && a.seqNo == q
  }

  /** Seqs ascend within those issued, and every one above the retention floor is held. */
  ghost predicate FeedInv(s: LogState) {
    && SeqAscending(s.assertions) && s.retention >= 0 && s.nextSeq >= 1
    && (forall i :: 0 <= i < |s.assertions| ==> 1 <= s.assertions[i].seqNo < s.nextSeq)
    && (forall q :: s.retention < q < s.nextSeq ==> Holds(s.assertions, q))
  }

  // ------------------------------------------------------------------- one page

  lemma {:induction false} AfterCursorMember(assertions: seq<Assertion>, cursor: int, a: Assertion)
    ensures a in AfterCursor(assertions, cursor) <==> a in assertions && a.seqNo > cursor
  {
    if assertions != [] {
      assert assertions == assertions[..|assertions| - 1] + [assertions[|assertions| - 1]];
      AfterCursorMember(assertions[..|assertions| - 1], cursor, a);
    }
  }

  lemma {:induction false} AfterCursorAscends(assertions: seq<Assertion>, cursor: int)
    requires SeqAscending(assertions)
    ensures SeqAscending(AfterCursor(assertions, cursor))
  {
    if assertions != [] {
      var front, last := assertions[..|assertions| - 1], assertions[|assertions| - 1];
      AfterCursorAscends(front, cursor);
      forall a | a in AfterCursor(front, cursor) ensures a.seqNo < last.seqNo {
        AfterCursorMember(front, cursor, a);
        var i :| 0 <= i < |front| && front[i] == a;
        assert assertions[i] == a;
      }
    }
  }

  /** An ascending list that holds every seq of a range and nothing else is that range. */
  lemma {:induction false} AscendingRange(xs: seq<Assertion>, lo: int, hi: int)
    requires SeqAscending(xs) && lo <= hi
    requires forall a :: a in xs ==> lo < a.seqNo <= hi
    requires forall q :: lo < q <= hi ==> Holds(xs, q)
    ensures |xs| == hi - lo && forall i :: 0 <= i < |xs| ==> xs[i].seqNo == lo + 1 + i
  {
    EmptyOrInhabited(xs);
    if lo < hi {
      assert Holds(xs, hi);
      var a :| a in xs && a.seqNo == hi;
      var k :| 0 <= k < |xs| && xs[k] == a;
      var last := |xs| - 1;
      assert xs[last] in xs;
      assert k == last;
      var front := xs[..last];
      forall q | lo < q <= hi - 1 ensures Holds(front, q) {
        assert Holds(xs, q);
        var b :| b in xs && b.seqNo == q;
        assert b in front;
      }
      forall b | b in front ensures b.seqNo <= hi - 1 {
        var i :| 0 <= i < last && xs[i] == b;
      }
      AscendingRange(front, lo, hi - 1);
      assert forall i :: 0 <= i < |front| ==> xs[i] == front[i];
    }
  }

  /** What follows a cursor at or above the retention floor is every seq issued after it. */
  lemma {:induction false} NothingMissing(s: LogState, cursor: int)
    requires FeedInv(s) && s.retention <= cursor < s.nextSeq
    ensures var later := AfterCursor(s.assertions, cursor);
            && |later| == s.nextSeq - 1 - cursor
            && forall i :: 0 <= i < |later| ==> later[i].seqNo == cursor + 1 + i
  {
    var later := AfterCursor(s.assertions, cursor);
    AfterCursorAscends(s.assertions, cursor);
    forall a | a in later ensures cursor < a.seqNo < s.nextSeq {
      AfterCursorMember(s.assertions, cursor, a);
      var k :| 0 <= k < |s.assertions| && s.assertions[k] == a;
    }
    forall q | cursor < q <= s.nextSeq - 1 ensures Holds(later, q) {
      assert Holds(s.assertions, q);
      var a :| a in s.assertions && a.seqNo == q;
      AfterCursorMember(s.assertions, cursor, a);
    }
    AscendingRange(later, cursor, s.nextSeq - 1);
  }

  lemma {:induction false} NothingAfter(s: LogState, cursor: int)
    requires FeedInv(s) && cursor >= s.nextSeq - 1
    ensures AfterCursor(s.assertions, cursor) == []
  {
    var later := AfterCursor(s.assertions, cursor);
    if later != [] {
      AfterCursorMember(s.assertions, cursor, later[0]);
      assert false;
    }
  }

  /** Exactly the seqs cursor + 1 to next cursor, and the truth about whether more follow. */
  ghost predicate NoGap(s: LogState, cursor: int, page: FeedPage) {
    && page.nextCursor == cursor + |page.changes|
    && (forall i :: 0 <= i < |page.changes| ==> page.changes[i].seqNo == cursor + 1 + i)
    && (forall i :: 0 <= i < |page.changes| ==> page.changes[i] in s.assertions)
    && (page.hasMore <==> page.nextCursor < s.nextSeq - 1)
  }

  /**
   A page not flagged as before the retention floor has no gap, and stops short of its
   limit only when nothing is left.
   */
  lemma {:induction false} PageHasNoGap(s: LogState, cursor: int, limit: nat, clock: Instant)
    requires FeedInv(s) && cursor >= 0
    ensures var page := ChangesSince(s, cursor, limit, clock).page;
            !page.beforeRetention ==>
              && NoGap(s, cursor, page)
              && |page.changes| == (if s.nextSeq - 1 <= cursor then 0
                                    else if limit < s.nextSeq - 1 - cursor then limit
                                    else s.nextSeq - 1 - cursor)
  {
    var r := ChangesSince(s, cursor, limit, clock);
    if s.retention <= cursor {
      if cursor < s.nextSeq { NothingMissing(s, cursor); } else { NothingAfter(s, cursor); }
      HasMoreIsTrue(s, r.page.nextCursor);
      forall i | 0 <= i < |r.page.changes| ensures r.page.changes[i] in s.assertions {
        AfterCursorMember(s.assertions, cursor, r.page.changes[i]);
      }
    }
  }

  lemma {:induction false} HasMoreIsTrue(s: LogState, next: int)
    requires FeedInv(s) && next >= s.retention
    ensures (exists a :: a in s.assertions && a.seqNo > next) <==> next < s.nextSeq - 1
  {
    if next < s.nextSeq - 1 {
      assert Holds(s.assertions, next + 1);
    }
    if a :| a in s.assertions && a.seqNo > next {
      var i :| 0 <= i < |s.assertions| && s.assertions[i] == a;
    }
  }

  // ------------------------------------------------------------ every step keeps it

  lemma {:induction false} CommitFeedInv(s: LogState, c: Committing)
    requires FeedInv(s) && Sound(s, c)
    ensures FeedInv(CommittedLive(s, c))
  {
    var next := CommittedLive(s, c);
    var all := s.assertions + c.minted;
    assert forall i :: 0 <= i < |next.assertions| ==> next.assertions[i].seqNo == all[i].seqNo;
    assert forall i :: |s.assertions| <= i < |all| ==> all[i].seqNo == s.nextSeq + (i - |s.assertions|);
    forall q | next.retention < q < next.nextSeq ensures Holds(next.assertions, q) {
      if q < s.nextSeq {
        assert Holds(s.assertions, q);
        var a :| a in s.assertions && a.seqNo == q;
        var i :| 0 <= i < |s.assertions| && s.assertions[i] == a;
        assert next.assertions[i] in next.assertions && all[i] == a;
      } else {
        var i := |s.assertions| + (q - s.nextSeq);
        assert next.assertions[i] in next.assertions;
      }
    }
  }

  lemma {:induction false} WithoutAscends(assertions: seq<Assertion>, gone: set<AssertionId>)
    requires SeqAscending(assertions)
    ensures SeqAscending(Without(assertions, gone))
  {
    if assertions != [] {
      var front, last := assertions[..|assertions| - 1], assertions[|assertions| - 1];
      WithoutAscends(front, gone);
      forall a | a in Without(front, gone) ensures a.seqNo < last.seqNo {
        WithoutMember(front, gone, a);
        var i :| 0 <= i < |front| && front[i] == a;
        assert assertions[i] == a;
      }
    }
  }

  /** Dropping assertions no higher than the notes that replace them leaves no gap above the new floor. */
  lemma {:induction false} ReclaimFeedInv(s: LogState, notes: map<AssertionId, Note>)
    requires FeedInv(s) && forall a :: a in s.assertions && a.id in notes ==> a.seqNo <= notes[a.id].seqNo
    ensures FeedInv(ApplyReclamation(s, notes))
  {
    ReclaimedFields(s, notes);
    var next := ApplyReclamation(s, notes);
    WithoutAscends(s.assertions, notes.Keys);
    forall i | 0 <= i < |next.assertions| ensures 1 <= next.assertions[i].seqNo < next.nextSeq {
      WithoutMember(s.assertions, notes.Keys, next.assertions[i]);
      var k :| 0 <= k < |s.assertions| && s.assertions[k] == next.assertions[i];
    }
    forall q | next.retention < q < next.nextSeq ensures Holds(next.assertions, q) {
      assert Holds(s.assertions, q);
      var a :| a in s.assertions && a.seqNo == q;
      WithoutMember(s.assertions, notes.Keys, a);
    }
  }

  /** A live note carries the seq of the assertion it replaces. */
  lemma {:induction false} NotesCarrySeqs(w: World, clock: Instant, a: Assertion)
    requires Inv(w) && a in w.live.assertions && a.id in ReclamationNotes(Candidates(w.disk, w.live), clock)
    ensures ReclamationNotes(Candidates(w.disk, w.live), clock)[a.id].seqNo == a.seqNo
  {
    var doomed, bodies := Candidates(w.disk, w.live), Bodies(Flat(w.disk));
    LiveNoteSays(doomed, clock, a.id);
    var b :| b in Bodies(Flat(doomed)) && b.id == a.id && b.seqNo == ReclamationNotes(doomed, clock)[a.id].seqNo;
    DoomedBodyOnDisk(w, b);
    var i :| 0 <= i < |w.live.assertions| && w.live.assertions[i] == a;
    var j :| 0 <= j < |bodies| && bodies[j] == b;
    assert Unstamped(a) == bodies[i];
  }

  lemma {:induction false} DoomedBodyOnDisk(w: World, b: Assertion)
    requires w.disk != [] && b in Bodies(Flat(Candidates(w.disk, w.live)))
    ensures b in Bodies(Flat(w.disk))
  {
    FlatMember(Candidates(w.disk, w.live), BodiesIn, b);
    var s :| s in Candidates(w.disk, w.live) && b in FlatMap(s.lines, BodiesIn);
    DoomedAreCandidates(w, s);
    FlatMember(w.disk, BodiesIn, b);
  }

  lemma {:induction false} FinishFeedInv(w: World, op: Operation, at: Landing)
    requires Inv(w) && Minting(w, op) && FeedInv(w.live)
    ensures FeedInv(Finish(w, op, at).live)
  {
    match op
    case DoCommit(input, mint) => CommitStepFeedInv(w, input, mint, at);
    case DoFeed(_, _, _) => MarkStepFeedInv(w, op, at);
    case DoFloor(_, _) => MarkStepFeedInv(w, op, at);
    case DoCompact(clock) => CompactFeedInv(w, clock, at);
  }

  lemma {:induction false} CommitStepFeedInv(w: World, input: CommitInput, mint: Mint, at: Landing)
    requires Inv(w) && Minting(w, DoCommit(input, mint)) && FeedInv(w.live)
    ensures FeedInv(Finish(w, DoCommit(input, mint), at).live)
  {
    if Commit(w.live, input, mint).outcome.Committed? {
      var c := FinishCommitted(w, input, mint, at);
      CommitFeedInv(w.live, c);
    } else {
      var millis := FinishRefused(w, input, mint, at);
    }
  }

  lemma {:induction false} MarkStepFeedInv(w: World, op: Operation, at: Landing)
    requires w.disk != [] && (op.DoFeed? || op.DoFloor?) && FeedInv(w.live)
    ensures FeedInv(Finish(w, op, at).live)
  {
    MarkEffect(w, op);
    SameNextSeq(w, op);
  }

  lemma {:induction false} SameNextSeq(w: World, op: Operation)
    requires w.disk != [] && (op.DoFeed? || op.DoFloor?)
    ensures EffectOf(w, op).live.nextSeq == w.live.nextSeq
    ensures op.DoFloor? ==> EffectOf(w, op).live.published == w.live.published
  {
  }

  lemma {:induction false} CompactFeedInv(w: World, clock: Instant, at: Landing)
    requires Inv(w) && FeedInv(w.live)
    ensures FeedInv(Finish(w, DoCompact(clock), at).live)
  {
    FinishCompact(w, clock, at);
    var notes := ReclamationNotes(Candidates(w.disk, w.live), clock);
    forall a | a in w.live.assertions && a.id in notes ensures a.seqNo <= notes[a.id].seqNo {
      NotesCarrySeqs(w, clock, a);
    }
    ReclaimFeedInv(w.live, notes);
  }

  /** One process: nothing crashes. */
  ghost predicate InProcess(events: seq<Event>) {
    forall i :: 0 <= i < |events| ==> events[i].Finishes?
  }

  lemma {:induction false} RunFeedInv(w: World, events: seq<Event>)
    requires Inv(w) && FeedInv(w.live) && PossibleRun(w, events) && InProcess(events)
    ensures Inv(Run(w, events)) && FeedInv(Run(w, events).live)
  {
    RunKeepsInv(w, events);
    if events != [] {
      var front, e := events[..|events| - 1], events[|events| - 1];
      RunFeedInv(w, front);
      FinishFeedInv(Run(w, front), e.op, e.at);
    }
  }

  /** Reopening a synced log keeps the feed whole too. */
  lemma {:induction false} ReopenFeedInv(w: World)
    requires InSync(w) && FeedInv(w.live)
    ensures FeedInv(Restore(w.disk))
  {
    ReopenIsInvisible(w);
  }

  /** From a new log, after any run in one process, no unflagged page has a gap. */
  lemma {:induction false} FeedHasNoSilentGaps(
    epoch: string, floor: Instant, clock: Instant, events: seq<Event>, cursor: int, limit: nat, now: Instant)
    requires PossibleRun(NewWorld(epoch, floor, clock), events) && InProcess(events) && cursor >= 0
    ensures var live := Run(NewWorld(epoch, floor, clock), events).live;
            var page := ChangesSince(live, cursor, limit, now).page;
            !page.beforeRetention ==> NoGap(live, cursor, page)
  {
    NewWorldInv(epoch, floor, clock);
    NewWatermark(epoch, floor, clock);
    RunFeedInv(NewWorld(epoch, floor, clock), events);
    PageHasNoGap(Run(NewWorld(epoch, floor, clock), events).live, cursor, limit, now);
  }

  // --------------------------------------------------------------- the watermark

  /** A page raises the watermark past every issued seq exactly when its cursor was already past them. */
  lemma {:induction false} WatermarkStaysWithin(s: LogState, cursor: int, limit: nat, clock: Instant)
    requires FeedInv(s) && s.published < s.nextSeq
    ensures ChangesSince(s, cursor, limit, clock).state.published < s.nextSeq <==> cursor < s.nextSeq
    ensures cursor < s.nextSeq ==> ChangesSince(s, cursor, limit, clock).page.nextCursor < s.nextSeq
  {
    var changes := Take(AfterCursor(s.assertions, cursor), limit);
    if cursor >= s.nextSeq {
      NothingAfter(s, cursor);
    } else if changes != [] {
      var last := changes[|changes| - 1];
      assert last in AfterCursor(s.assertions, cursor);
      AfterCursorMember(s.assertions, cursor, last);
      var k :| 0 <= k < |s.assertions| && s.assertions[k] == last;
    }
  }

  /** Cursors a client may hold: 0, and whatever earlier pages of the run returned. */
  ghost function Cursors(w: World, events: seq<Event>): set<int>
    requires PossibleRun(w, events)
  {
    if events == [] then {0}
    else
      var front, op := events[..|events| - 1], events[|events| - 1].op;
      Cursors(w, front) +
      if op.DoFeed? then {ChangesSince(Run(w, front).live, op.cursor, op.limit, op.clock).page.nextCursor} else {}
  }

  /** Every page asked for a cursor the client held. */
  ghost predicate HeldCursors(w: World, events: seq<Event>)
    requires PossibleRun(w, events)
  {
    events == [] ||
    var front, op := events[..|events| - 1], events[|events| - 1].op;
    HeldCursors(w, front) && (op.DoFeed? ==> op.cursor in Cursors(w, front))
  }

  ghost predicate WatermarkInv(s: LogState, cursors: set<int>) {
    FeedInv(s) && s.published < s.nextSeq && forall c :: c in cursors ==> c < s.nextSeq
  }

  lemma {:induction false} StepNextSeq(w: World, op: Operation, at: Landing)
    requires Inv(w) && Minting(w, op)
    ensures var live := Finish(w, op, at).live;
            w.live.nextSeq <= live.nextSeq && (!op.DoFeed? ==> live.published == w.live.published)
  {
    match op
    case DoCommit(input, mint) => CommitNextSeq(w.live, input, mint);
    case DoFeed(_, _, _) => SameNextSeq(w, op);
    case DoFloor(_, _) => SameNextSeq(w, op);
    case DoCompact(clock) => CompactNextSeq(w, clock, at);
  }

  lemma {:induction false} CompactNextSeq(w: World, clock: Instant, at: Landing)
    requires w.disk != []
    ensures var live := Finish(w, DoCompact(clock), at).live;
            live.nextSeq == w.live.nextSeq && live.published == w.live.published
  {
    FinishCompact(w, clock, at);
  }

  lemma {:induction false} CommitNextSeq(s: LogState, input: CommitInput, mint: Mint)
    requires |mint.ids| == |input.drafts|
    ensures s.nextSeq <= Commit(s, input, mint).state.nextSeq && Commit(s, input, mint).state.published == s.published
  {
  }

  lemma {:induction false} StepWatermark(w: World, op: Operation, at: Landing, cursors: set<int>, next: set<int>)
    requires Inv(w) && Minting(w, op) && WatermarkInv(w.live, cursors) && (op.DoFeed? ==> op.cursor in cursors)
    requires next ==
             cursors + if op.DoFeed? then {ChangesSince(w.live, op.cursor, op.limit, op.clock).page.nextCursor} else {}
    ensures WatermarkInv(Finish(w, op, at).live, next)
  {
    FinishFeedInv(w, op, at);
    StepNextSeq(w, op, at);
    if op.DoFeed? { WatermarkStaysWithin(w.live, op.cursor, op.limit, op.clock); }
  }

  lemma {:induction false} RunWatermark(w: World, events: seq<Event>)
    requires Inv(w) && WatermarkInv(w.live, {0}) && PossibleRun(w, events) && InProcess(events)
             && HeldCursors(w, events)
    ensures WatermarkInv(Run(w, events).live, Cursors(w, events))
  {
    if events != [] {
      var front, e := events[..|events| - 1], events[|events| - 1];
      RunWatermark(w, front);
      RunKeepsInv(w, front);
      StepWatermark(Run(w, front), e.op, e.at, Cursors(w, front), Cursors(w, events));
    }
  }

  /** While clients only use cursors they were given, the watermark never passes the highest issued seq. */
  lemma {:induction false} WatermarkNeverRunsAhead(epoch: string, floor: Instant, clock: Instant, events: seq<Event>)
    requires PossibleRun(NewWorld(epoch, floor, clock), events) && InProcess(events)
    requires HeldCursors(NewWorld(epoch, floor, clock), events)
    ensures var w := Run(NewWorld(epoch, floor, clock), events);
            w.live.published <= w.live.nextSeq - 1 == Issued(w.history)
  {
    NewWorldInv(epoch, floor, clock);
    NewWatermark(epoch, floor, clock);
    WatermarkHolds(NewWorld(epoch, floor, clock), events);
  }

  lemma {:induction false} NewWatermark(epoch: string, floor: Instant, clock: Instant)
    ensures WatermarkInv(NewWorld(epoch, floor, clock).live, {0})
  {
  }

  lemma {:induction false} WatermarkHolds(start: World, events: seq<Event>)
    requires Inv(start) && WatermarkInv(start.live, {0}) && PossibleRun(start, events) && InProcess(events)
             && HeldCursors(start, events)
    ensures Run(start, events).live.published <= Run(start, events).live.nextSeq - 1 ==
            Issued(Run(start, events).history)
  {
    RunWatermark(start, events);
    RunKeepsInv(start, events);
    WatermarkBound(Run(start, events), Cursors(start, events));
  }

  lemma {:induction false} WatermarkBound(w: World, cursors: set<int>)
    requires Inv(w) && WatermarkInv(w.live, cursors)
    ensures w.live.published <= w.live.nextSeq - 1 == Issued(w.history)
  {
  }

  /** A made-up cursor does run ahead: the very first page of an empty log can publish seqs nobody was given. */
  lemma {:induction false} MadeUpCursorRunsAhead()
    ensures var s := FreshLog("e", 0); ChangesSince(s, 1000, 1, 0).state.published == 1000 && s.nextSeq == 1
  {
    assert AfterCursor([], 1000) == [];
  }
}
