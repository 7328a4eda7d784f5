/**
 What a feed page holds, wherever its cursor lies, and exactly when it is flagged: a
 page is flagged as before the retention floor when, and only when, some seq issued
 after its cursor is no longer held.
 */
module FeedMeaning {
  import opened Wrappers
  import opened Sequences
  import opened LogRecords
  import opened Store
  import opened SegmentScan
  import opened Recovery
  import opened LogWorld
  import opened LogInvariant
  import opened CommitSteps
  import opened Unlinking
  import opened CompactionSteps
  import opened LogRuns
  import opened Reopening
  import opened CompactedReopening
  import opened SyncedRuns
  import opened Feed

  // ---------------------------------------------------------------------- one page

  /** These rows are all that lie after the cursor, in log order. */
  ghost predicate RowsAfter(assertions: seq<Assertion>, cursor: int, rows: seq<nat>) {
    && (forall j, k :: 0 <= j < k < |rows| ==> rows[j] < rows[k])
    && (forall i: nat :: i in rows <==> i < |assertions| && assertions[i].seqNo > cursor)
  }

  ghost predicate Lists(xs: seq<Assertion>, assertions: seq<Assertion>, rows: seq<nat>) {
    |xs| == |rows| && forall k :: 0 <= k < |rows| ==> rows[k] < |assertions| && xs[k] == assertions[rows[k]]
  }

  lemma {:induction false} AfterRows(assertions: seq<Assertion>, cursor: int) returns (rows: seq<nat>)
    ensures RowsAfter(assertions, cursor, rows) && Lists(AfterCursor(assertions, cursor), assertions, rows)
  {
    if assertions == [] {
      rows := [];
    } else {
      var n := |assertions| - 1;
      rows := AfterRows(assertions[..n], cursor);
      OneRowMore(assertions, cursor, rows);
      if assertions[n].seqNo > cursor { rows := rows + [n]; }
    }
  }

  lemma {:induction false} OneRowMore(assertions: seq<Assertion>, cursor: int, rows: seq<nat>)
    requires assertions != [] && RowsAfter(assertions[..|assertions| - 1], cursor, rows)
    ensures var n := |assertions| - 1;
            RowsAfter(assertions, cursor, if assertions[n].seqNo > cursor then rows + [n] else rows)
  {
    var n := |assertions| - 1;
    var next := if assertions[n].seqNo > cursor then rows + [n] else rows;
    forall i: nat ensures i in next <==> i < |assertions| && assertions[i].seqNo > cursor {
      assert i in rows <==> i < n && assertions[..n][i].seqNo > cursor;
    }
    forall k | 0 <= k < |rows| ensures rows[k] < n { assert rows[k] in rows; }
  }

  /**
   A page holds the first `limit` of all assertions after its cursor, in log order; its
   next cursor is the last of their seqs; it says truly whether more follow; and it
   raises the watermark to its next cursor, on the record, or leaves the store alone.
   */
  lemma {:induction false} PageMeans(s: LogState, cursor: int, limit: nat, clock: Instant) returns (rows: seq<nat>)
    ensures RowsAfter(s.assertions, cursor, rows)
    ensures var r := ChangesSince(s, cursor, limit, clock);
            var n := if limit < |rows| then limit else |rows|;
            && Lists(r.page.changes, s.assertions, rows[..n])
            && r.page.nextCursor == (if n == 0 then cursor else s.assertions[rows[n - 1]].seqNo)
            && (r.page.hasMore <==> exists i :: 0 <= i < |s.assertions| && s.assertions[i].seqNo > r.page.nextCursor)
            && r.page.retention == s.retention
            && (r.page.nextCursor <= s.published ==> r.state == s && r.group == [])
            && (r.page.nextCursor > s.published ==>
                  && r.state == s.(published := r.page.nextCursor, lastMillis := r.state.lastMillis)
                  && r.state.lastMillis > s.lastMillis && r.state.lastMillis >= clock
                  && (r.state.lastMillis == clock || r.state.lastMillis == s.lastMillis + 1)
                  && r.group == [Watermark(r.page.nextCursor, r.state.lastMillis)])
  {
    rows := AfterRows(s.assertions, cursor);
    MoreByIndex(s.assertions, ChangesSince(s, cursor, limit, clock).page.nextCursor);
  }

  lemma {:induction false} MoreByIndex(assertions: seq<Assertion>, cursor: int)
    ensures (exists a :: a in assertions && a.seqNo > cursor) <==>
            exists i :: 0 <= i < |assertions| && assertions[i].seqNo > cursor
  {
    if i :| 0 <= i < |assertions| && assertions[i].seqNo > cursor { assert assertions[i] in assertions; }
  }

  // ----------------------------------------------------------------- the retention floor

  /** The retention floor is the seq of something gone, or nothing is. */
  ghost predicate FloorIsGone(s: LogState) {
    s.retention == 0 || (1 <= s.retention < s.nextSeq && !Holds(s.assertions, s.retention))
  }

  ghost predicate Missing(s: LogState, q: int) {
    0 < q < s.nextSeq && !Holds(s.assertions, q)
  }

  /** A page is flagged exactly when something issued after its cursor is gone; the floor it names is the last such. */
  lemma {:induction false} FlaggedIffMissing(s: LogState, cursor: nat, limit: nat, clock: Instant)
    requires FeedInv(s) && FloorIsGone(s)
    ensures var page := ChangesSince(s, cursor, limit, clock).page;
            && (page.beforeRetention <==> exists q :: Missing(s, q) && q > cursor)
            && (page.retention != 0 ==> Missing(s, page.retention))
            && (forall q :: Missing(s, q) ==> q <= page.retention)
  {
    forall q | Missing(s, q) ensures q <= s.retention {
      assert s.retention < q < s.nextSeq ==> Holds(s.assertions, q);
    }
    if cursor < s.retention { assert Missing(s, s.retention); }
  }

  lemma {:induction false} CommitFloorIsGone(s: LogState, c: Committing)
    requires FloorIsGone(s) && Sound(s, c)
    ensures FloorIsGone(CommittedLive(s, c))
  {
    var next, all := CommittedLive(s, c), s.assertions + c.minted;
    forall a | a in next.assertions ensures s.retention != 0 ==> a.seqNo != s.retention {
      var i :| 0 <= i < |next.assertions| && next.assertions[i] == a;
      assert next.assertions[i].seqNo == all[i].seqNo;
      if i < |s.assertions| { assert s.assertions[i] in s.assertions; }
    }
  }

  /** A compaction's notes speak for assertions the live store held. */
  lemma {:induction false} NoteWasHeld(w: World, clock: Instant, id: AssertionId) returns (a: Assertion)
    requires Inv(w) && id in ReclamationNotes(Candidates(w.disk, w.live), clock)
    ensures a in w.live.assertions && a.id == id
    ensures a.seqNo == ReclamationNotes(Candidates(w.disk, w.live), clock)[id].seqNo
  {
    var doomed := Candidates(w.disk, w.live);
    LiveNoteSays(doomed, clock, id);
    var b :| b in Bodies(Flat(doomed)) && b.id == id && b.seqNo == ReclamationNotes(doomed, clock)[id].seqNo;
    DoomedBodyOnDisk(w, b);
    var bodies := Bodies(Flat(w.disk));
    var i :| 0 <= i < |bodies| && bodies[i] == b;
    a := w.live.assertions[i];
    assert Unstamped(a) == bodies[i];
  }

  lemma {:induction false} ReclaimFloorIsGone(s: LogState, notes: map<AssertionId, Note>)
    requires FeedInv(s) && FloorIsGone(s)
    requires forall id :: id in notes ==> exists a :: a in s.assertions && a.id == id && a.seqNo == notes[id].seqNo
    ensures FloorIsGone(ApplyReclamation(s, notes))
  {
    ReclaimedFields(s, notes);
    var next := ApplyReclamation(s, notes);
    if next.retention == s.retention {
      forall a | a in next.assertions ensures next.retention != 0 ==> a.seqNo != next.retention {
        WithoutMember(s.assertions, notes.Keys, a);
      }
    } else {
      var id :| id in notes && notes[id].seqNo == next.retention;
      var b :| b in s.assertions && b.id == id && b.seqNo == notes[id].seqNo;
      var i :| 0 <= i < |s.assertions| && s.assertions[i] == b;
      forall a | a in next.assertions ensures a.seqNo != next.retention {
        WithoutMember(s.assertions, notes.Keys, a);
        SeqTellsApart(s, a, b);
      }
    }
  }

  lemma {:induction false} SeqTellsApart(s: LogState, a: Assertion, b: Assertion)
    requires FeedInv(s) && a in s.assertions && b in s.assertions && a != b
    ensures a.seqNo != b.seqNo
  {
    var i :| 0 <= i < |s.assertions| && s.assertions[i] == a;
    var j :| 0 <= j < |s.assertions| && s.assertions[j] == b;
  }

  lemma {:induction false} CompactFloorIsGone(w: World, clock: Instant, at: Landing)
    requires Inv(w) && FeedInv(w.live) && FloorIsGone(w.live)
    ensures FloorIsGone(Finish(w, DoCompact(clock), at).live)
  {
    FinishCompact(w, clock, at);
    var notes := ReclamationNotes(Candidates(w.disk, w.live), clock);
    forall id | id in notes ensures exists a :: a in w.live.assertions && a.id == id && a.seqNo == notes[id].seqNo {
      var a := NoteWasHeld(w, clock, id);
    }
    ReclaimFloorIsGone(w.live, notes);
  }

  lemma {:induction false} FinishFloorIsGone(w: World, op: Operation, at: Landing)
    requires Inv(w) && Minting(w, op) && FeedInv(w.live) && FloorIsGone(w.live)
    ensures FloorIsGone(Finish(w, op, at).live)
  {
    match op
    case DoCommit(input, mint) =>
      if Commit(w.live, input, mint).outcome.Committed? {
        var c := FinishCommitted(w, input, mint, at);
        CommitFloorIsGone(w.live, c);
      } else {
        var millis := FinishRefused(w, input, mint, at);
      }
    case DoFeed(_, _, _) => MarkFloorIsGone(w, op, at);
    case DoFloor(_, _) => MarkFloorIsGone(w, op, at);
    case DoCompact(clock) => CompactFloorIsGone(w, clock, at);
  }

  lemma {:induction false} MarkFloorIsGone(w: World, op: Operation, at: Landing)
    requires w.disk != [] && (op.DoFeed? || op.DoFloor?) && FloorIsGone(w.live)
    ensures FloorIsGone(Finish(w, op, at).live)
  {
    MarkEffect(w, op);
    SameNextSeq(w, op);
  }

  lemma {:induction false} RunFloorIsGone(w: World, events: seq<Event>)
    requires Inv(w) && FeedInv(w.live) && FloorIsGone(w.live) && PossibleRun(w, events) && InProcess(events)
    ensures FloorIsGone(Run(w, events).live) && FeedInv(Run(w, events).live)
  {
    RunFeedInv(w, events);
    if events != [] {
      var front, e := events[..|events| - 1], events[|events| - 1];
      RunFloorIsGone(w, front);
      RunKeepsInv(w, front);
      FinishFloorIsGone(Run(w, front), e.op, e.at);
    }
  }

  /** From a new log, in one process: a page is flagged exactly when something issued after its cursor is gone. */
  lemma {:induction false} FlagTellsTheTruth(
    epoch: string, floor: Instant, clock: Instant, events: seq<Event>, cursor: nat, limit: nat, now: Instant)
    requires PossibleRun(NewWorld(epoch, floor, clock), events) && InProcess(events)
    ensures var live := Run(NewWorld(epoch, floor, clock), events).live;
            var page := ChangesSince(live, cursor, limit, now).page;
            && (page.beforeRetention <==> exists q :: Missing(live, q) && q > cursor)
            && (page.retention != 0 ==> Missing(live, page.retention))
            && (forall q :: Missing(live, q) ==> q <= page.retention)
  {
    NewWorldInv(epoch, floor, clock);
    NewWatermark(epoch, floor, clock);
    RunFloorIsGone(NewWorld(epoch, floor, clock), events);
    FlaggedIffMissing(Run(NewWorld(epoch, floor, clock), events).live, cursor, limit, now);
  }

  // -------------------------------------------------------------- the history floor

  /** The floor moves forward or not at all, and a move is on the record. */
  lemma {:induction false} FloorMeans(s: LogState, to: Instant, clock: Instant)
    ensures var r := AdvanceFloor(s, to, clock);
            && (r.outcome.CannotRegress? <==> to < s.floor) && (r.outcome.FloorUnchanged? <==> to == s.floor)
            && (to <= s.floor ==> r.state == s && r.group == [])
            && (to > s.floor ==>
                  && r.state == s.(floor := to, lastMillis := r.state.lastMillis)
                  && r.state.lastMillis > s.lastMillis && r.state.lastMillis >= clock
                  && (r.state.lastMillis == clock || r.state.lastMillis == s.lastMillis + 1)
                  && r.group == [HistoryFloor(to, r.state.lastMillis)])
            && (forall q: Query :: q.asOfRecorded.Some? ==>
                  (RunQuery(r.state, q).BeforeHistoryFloor? <==>
                     q.asOfRecorded.value < s.floor || q.asOfRecorded.value < to))
  {
  }
}
