/**
 Exactly-once for the life of the log: over any run of commits, feed pages,
 floor advances, compactions and crashes, a submission commits at most once, its
 receipt stays findable, no seq is issued twice and belief time only moves on.
 */
module ExactlyOnce {
  import opened Wrappers
  import opened Sequences
  import opened LogRecords
  import opened Store
  import opened SegmentScan
  import opened Recovery
  import opened LogWorld
  import opened Appending
  import opened LogInvariant
  import opened CommitSteps
  import opened Unlinking
  import opened CompactionSteps
  import opened LogRuns

  // -------------------------------------------------------- the history only grows

  ghost predicate Extends(later: seq<Entry>, earlier: seq<Entry>) {
    |earlier| <= |later| && forall i :: 0 <= i < |earlier| ==> later[i] == earlier[i]
  }

  lemma {:induction false} StepExtends(w: World, e: Event)
    requires Possible(w, e)
    ensures Extends(Step(w, e).history, w.history)
  {
  }

  lemma {:induction false} RunExtends(w: World, events: seq<Event>)
    requires PossibleRun(w, events)
    ensures Extends(Run(w, events).history, w.history)
  {
    if events != [] {
      RunExtends(w, events[..|events| - 1]);
      StepExtends(Run(w, events[..|events| - 1]), events[|events| - 1]);
    }
  }

  // ---------------------------------------------------------------------- retries

  /**
   How a live store answers a retry of a durable submission: the original receipt, or a
   conflict if the payload moved.
   */
  lemma {:induction false} KnownSubmission(s: LogState, history: seq<Entry>, i: nat, input: CommitInput, mint: Mint)
    requires Indexes(s.submissions, history) && i < |history| && |mint.ids| == |input.drafts|
    requires history[i].receipt.clientId == input.clientId && history[i].receipt.key == input.key
    requires forall d :: d in input.drafts ==> ValidLineage(d)
    ensures var r, original := Commit(s, input, mint), history[i].receipt;
            && r.state == s && r.group == []
            && r.outcome == if original.digest == Digest(input.clientId, input.key, input.drafts)
                            then Replayed(original) else Conflict(original)
  {
    assert KeyOf(history[i].receipt) == SubmissionKey(input.clientId, input.key);
  }

  /** Once committed, a submission is replayed with its original receipt after any later run whatsoever. */
  lemma {:induction false} RetryReplays(
    w: World, input: CommitInput, mint: Mint, at: Landing, events: seq<Event>, retry: CommitInput, again: Mint)
    requires Inv(w) && Minting(w, DoCommit(input, mint)) && Commit(w.live, input, mint).outcome.Committed?
    requires PossibleRun(Finish(w, DoCommit(input, mint), at), events)
    requires retry.clientId == input.clientId && retry.key == input.key && |again.ids| == |retry.drafts|
    requires forall d :: d in retry.drafts ==> ValidLineage(d)
    ensures var receipt := Commit(w.live, input, mint).outcome.receipt;
            var later := Run(Finish(w, DoCommit(input, mint), at), events);
            && Commit(later.live, retry, again).state == later.live && Commit(later.live, retry, again).group == []
            && Commit(later.live, retry, again).outcome ==
               if retry.drafts == input.drafts then Replayed(receipt) else Conflict(receipt)
  {
    var next := Finish(w, DoCommit(input, mint), at);
    var c := FinishCommitted(w, input, mint, at);
    CommitIsSound(w.live, input, mint);
    CommittedKeepsInv(w, c, at);
    RunKeepsInv(next, events);
    RunExtends(next, events);
    var later := Run(next, events);
    assert next.history[|w.history|].receipt == c.receipt;
    assert later.history[|w.history|].receipt == c.receipt;
    KnownSubmission(later.live, later.history, |w.history|, retry, again);
  }

  // ------------------------------------------------------------- seqs and instants

  lemma {:induction false} RangesInOrder(history: seq<Entry>, i: nat, j: nat)
    requires HistoryInv(history) && i < j < |history|
    ensures history[i].first + |history[i].receipt.assertionIds| <= history[j].first
  {
    if i + 1 < j {
      RangesInOrder(history, i, j - 1);
      assert history[j].first == history[j - 1].first + |history[j - 1].receipt.assertionIds|;
    }
  }

  /** The entry and the place in it that an assertion was acknowledged by. */
  ghost predicate IssuedBy(a: Assertion, e: Entry, k: nat) {
    && k < |e.receipt.assertionIds|
    && a.id == e.receipt.assertionIds[k] && a.seqNo == e.first + k
    && a.recordedAt == e.receipt.committedAt && a.clientId == e.receipt.clientId
  }

  ghost predicate Attributed(a: Assertion, history: seq<Entry>) {
    exists i: nat, k: nat :: i < |history| && IssuedBy(a, history[i], k)
  }

  ghost predicate AllAttributed(w: World) {
    forall a :: a in Bodies(Flat(w.disk)) ==> Attributed(a, w.history)
  }

  lemma {:induction false} AttributedLater(a: Assertion, earlier: seq<Entry>, later: seq<Entry>)
    requires Attributed(a, earlier) && Extends(later, earlier)
    ensures Attributed(a, later)
  {
    var i: nat, k: nat :| i < |earlier| && IssuedBy(a, earlier[i], k);
    assert IssuedBy(a, later[i], k);
  }

  lemma {:induction false} MintedAttributed(w: World, input: CommitInput, mint: Mint, a: Assertion)
    requires |mint.ids| == |input.drafts| && Commit(w.live, input, mint).outcome.Committed?
    requires a in PartsOf(w.live, input, mint).minted
    ensures Attributed(a, w.history + [Entry(PartsOf(w.live, input, mint).receipt, w.live.nextSeq)])
  {
    var c := PartsOf(w.live, input, mint);
    var k :| 0 <= k < |c.minted| && c.minted[k] == a;
    var history := w.history + [Entry(c.receipt, w.live.nextSeq)];
    assert IssuedBy(a, history[|w.history|], k);
  }

  /** Nothing but a whole commit group ever brings a body, and then the receipt is in the history with it. */
  lemma {:induction false} GroupBodies(w: World, op: Operation, n: nat)
    requires Inv(w) && Minting(w, op) && n <= |EffectOf(w, op).group|
    ensures var e := EffectOf(w, op);
            forall a :: a in Bodies(Surviving(e.group, n)) ==>
              n == |e.group| && op.DoCommit? && Commit(w.live, op.input, op.mint).outcome.Committed?
              && a in PartsOf(w.live, op.input, op.mint).minted
  {
    match op
    case DoCommit(input, mint) => CommitBodiesSurvive(w, input, mint, n);
    case DoFeed(cursor, limit, clock) => MarkBodies(w, op, n);
    case DoFloor(to, clock) => MarkBodies(w, op, n);
    case DoCompact(clock) => CompactBodies(w, clock, n);
  }

  lemma {:induction false} CommitBodiesSurvive(w: World, input: CommitInput, mint: Mint, n: nat)
    requires |mint.ids| == |input.drafts| && n <= |Commit(w.live, input, mint).group|
    ensures var r := Commit(w.live, input, mint);
            forall a :: a in Bodies(Surviving(r.group, n)) ==>
              n == |r.group| && r.outcome.Committed? && a in PartsOf(w.live, input, mint).minted
  {
    if Commit(w.live, input, mint).outcome.Committed? {
      CommitIsSound(w.live, input, mint);
      var c := PartsOf(w.live, input, mint);
      var group := CommitGroup(c.minted, c.stamps, c.receipt);
      CommitGroupLists(c.minted, c.stamps, c.receipt);
      CommitGroupWritable(c.minted, c.stamps, c.receipt);
      WholeGroupSurvives(group);
    }
  }

  lemma {:induction false} MarkBodies(w: World, op: Operation, n: nat)
    requires w.disk != [] && (op.DoFeed? || op.DoFloor?) && n <= |EffectOf(w, op).group|
    ensures Bodies(Surviving(EffectOf(w, op).group, n)) == []
  {
    var e := EffectOf(w, op);
    if e.group != [] { SingleIsQuiet(e.group[0], w.history); }
    FlatMapEmpty(Surviving(e.group, n), BodiesIn);
  }

  lemma {:induction false} CompactBodies(w: World, clock: Instant, n: nat)
    requires w.disk != [] && n <= |EffectOf(w, DoCompact(clock)).group|
    ensures Bodies(Surviving(EffectOf(w, DoCompact(clock)).group, n)) == []
  {
    CompactionGroupLists(w.disk, w.live, Candidates(w.disk, w.live), clock);
    BodilessPrefix(EffectOf(w, DoCompact(clock)).group, n);
  }

  lemma {:induction false} BodilessPrefix(group: seq<Record>, n: nat)
    requires n <= |group| && Bodies(group) == []
    ensures Bodies(Surviving(group, n)) == []
  {
    FlatMapPrefix(group, ClosedLines(OpensGroup, group[..n]), BodiesIn);
    EmptyOrInhabited(Bodies(Surviving(group, n)));
  }

  /** Every body on disk after a step was there before, or came with a whole committed group. */
  lemma {:induction false} StepBodies(w: World, e: Event, a: Assertion)
    requires Inv(w) && Possible(w, e) && a in Bodies(Flat(Step(w, e).disk))
    ensures a in Bodies(Flat(w.disk)) || Attributed(a, Step(w, e).history)
  {
    var effect := EffectOf(w, e.op);
    var n := if e.Finishes? then |effect.group| else e.progress.written;
    if effect.group == [] {
      if e.Crashes? { ReopenBodies(w, e, a); }
    } else {
      var group := Surviving(effect.group, n);
      if e.Finishes? {
        GroupIsClosed(w, e.op);
        UnlinkedSubset(Append(w.disk, w.live, group, e.at), OrdinalSet(effect.doomed), BodiesIn);
      } else {
        ReopenBodies(w, e, a);
        UnlinkedSubset(Append(w.disk, w.live, group, e.at), OrdinalSet(effect.doomed[..e.progress.unlinked]), BodiesIn);
      }
      AppendList(w.disk, w.live, group, e.at, BodiesIn);
      if a in Bodies(group) {
        GroupBodies(w, e.op, n);
        CommitStepHistory(w, e);
        MintedAttributed(w, e.op.input, e.op.mint, a);
      }
    }
  }

  lemma {:induction false} GroupIsClosed(w: World, op: Operation)
    requires Inv(w) && Minting(w, op)
    ensures Surviving(EffectOf(w, op).group, |EffectOf(w, op).group|) == EffectOf(w, op).group
  {
    var g := EffectOf(w, op).group;
    if g != [] {
      LastCloses(w, op);
      assert g[..|g|] == g;
    }
  }

  lemma {:induction false} LastCloses(w: World, op: Operation)
    requires w.disk != [] && Minting(w, op)
    ensures var g := EffectOf(w, op).group; g != [] ==> !OpensGroup(g[|g| - 1])
  {
  }

  lemma {:induction false} CommitStepHistory(w: World, e: Event)
    requires Inv(w) && Possible(w, e) && e.op.DoCommit? && Commit(w.live, e.op.input, e.op.mint).outcome.Committed?
    requires e.Crashes? ==> e.progress.written == |EffectOf(w, e.op).group|
    ensures Step(w, e).history == w.history + [Entry(PartsOf(w.live, e.op.input, e.op.mint).receipt, w.live.nextSeq)]
  {
    CommitIsSound(w.live, e.op.input, e.op.mint);
  }

  lemma {:induction false} ReopenBodies(w: World, e: Event, a: Assertion)
    requires Inv(w) && e.Crashes? && Possible(w, e) && a in Bodies(Flat(Step(w, e).disk))
    ensures a in Bodies(Flat(CrashedDisk(w, EffectOf(w, e.op), e.progress, e.at)))
  {
    var disk := CrashedDisk(w, EffectOf(w, e.op), e.progress, e.at);
    ActiveSegmentSurvives(w, e.op, e.progress, e.at);
    RepairsHoldNoBodies(disk, Restore(disk), e.repairs);
  }

  lemma {:induction false} RepairsHoldNoBodies(disk: seq<LogSegment>, live: LogState, repairs: seq<(Record, Landing)>)
    requires disk != [] && AreRepairs(repairs)
    ensures Bodies(Flat(AppendRepairs(disk, live, repairs))) == Bodies(Flat(disk))
  {
    if repairs != [] {
      var front, last := AppendRepairs(disk, live, repairs[..|repairs| - 1]), repairs[|repairs| - 1];
      RepairsHoldNoBodies(disk, live, repairs[..|repairs| - 1]);
      SingleIsQuiet(last.0, []);
      AppendList(front, live, [last.0], last.1, BodiesIn);
      assert Bodies(Flat(front)) + [] == Bodies(Flat(front));
    }
  }

  lemma {:induction false} RunAttributed(w: World, events: seq<Event>)
    requires Inv(w) && AllAttributed(w) && PossibleRun(w, events)
    ensures Inv(Run(w, events)) && AllAttributed(Run(w, events))
  {
    RunKeepsInv(w, events);
    if events != [] {
      var before, e := Run(w, events[..|events| - 1]), events[|events| - 1];
      RunAttributed(w, events[..|events| - 1]);
      StepExtends(before, e);
      forall a | a in Bodies(Flat(Step(before, e).disk)) ensures Attributed(a, Step(before, e).history) {
        StepBodies(before, e, a);
        if a in Bodies(Flat(before.disk)) { AttributedLater(a, before.history, Step(before, e).history); }
      }
    }
  }

  // ------------------------------------------------------------------ the theorem

  /** Two durable commits of one history: different submissions, later instants, disjoint and ascending seqs. */
  ghost predicate InOrder(e: Entry, f: Entry) {
    && !(e.receipt.clientId == f.receipt.clientId && e.receipt.key == f.receipt.key)
    && e.receipt.committedAt < f.receipt.committedAt
    && e.first + |e.receipt.assertionIds| <= f.first
  }

  /** The receipt is found under its key, in the live store and by any reload. */
  ghost predicate Findable(w: World, r: Receipt) {
    && KeyOf(r) in w.live.submissions && w.live.submissions[KeyOf(r)] == r
    && KeyOf(r) in Restore(w.disk).submissions && Restore(w.disk).submissions[KeyOf(r)] == r
  }

  lemma {:induction false} CommitsAreOrdered(w: World)
    requires Inv(w)
    ensures forall i, j :: 0 <= i < j < |w.history| ==> InOrder(w.history[i], w.history[j])
    ensures forall i :: 0 <= i < |w.history| ==> Findable(w, w.history[i].receipt)
    ensures forall i :: 0 <= i < |w.history| ==>
              w.history[i].first + |w.history[i].receipt.assertionIds| <= w.live.nextSeq == Restore(w.disk).nextSeq
  {
    forall i, j | 0 <= i < j < |w.history| ensures InOrder(w.history[i], w.history[j]) {
      RangesInOrder(w.history, i, j);
    }
    ReloadIsLive(w.disk, w.live.epoch, w.used, w.history);
    forall i | 0 <= i < |w.history| ensures w.history[i].first + |w.history[i].receipt.assertionIds| <= w.live.nextSeq {
      if i < |w.history| - 1 { RangesInOrder(w.history, i, |w.history| - 1); }
    }
  }

  /**
   Exactly-once: whatever the run, each submission was committed at most once, every
   acknowledged receipt is findable live and after a reload, instants strictly
   increase and seqs never overlap from commit to commit, nothing acknowledged is
   forgotten, and every assertion the log still holds carries the seq and the
   instant it was acknowledged with.
   */
  lemma {:induction false} ExactlyOnceForLife(
    epoch: string, floor: Instant, clock: Instant, events: seq<Event>, more: seq<Event>)
    requires PossibleRun(NewWorld(epoch, floor, clock), events)
    requires PossibleRun(Run(NewWorld(epoch, floor, clock), events), more)
    ensures var w := Run(NewWorld(epoch, floor, clock), events);
            var later := Run(w, more);
            && Extends(later.history, w.history)
            && (forall i, j :: 0 <= i < j < |later.history| ==> InOrder(later.history[i], later.history[j]))
            && (forall i :: 0 <= i < |later.history| ==> Findable(later, later.history[i].receipt))
            && AllAttributed(later)
  {
    var start := NewWorld(epoch, floor, clock);
    NewWorldInv(epoch, floor, clock);
    NewDisk(start.disk[0], start.disk[0].lines[0]);
    RunAttributed(start, events);
    RunAttributed(Run(start, events), more);
    RunExtends(Run(start, events), more);
    CommitsAreOrdered(Run(Run(start, events), more));
  }

  /** With NUL-free client ids, the store recognises exactly the submissions it has committed. */
  lemma {:induction false} RecognisesExactly(w: World, input: CommitInput)
    requires Inv(w) && NulFree(input.clientId) && forall i :: 0 <= i < |w.history| ==>
             NulFree(w.history[i].receipt.clientId)
    ensures SubmissionKey(input.clientId, input.key) in w.live.submissions <==>
            exists i :: 0 <= i < |w.history| && w.history[i].receipt.clientId == input.clientId
                        && w.history[i].receipt.key == input.key
  {
    var key := SubmissionKey(input.clientId, input.key);
    if key in w.live.submissions {
      var r := w.live.submissions[key];
      var i :| 0 <= i < |w.history| && w.history[i].receipt == r;
      SubmissionKeyInjective(r.clientId, r.key, input.clientId, input.key);
    }
    if i :| 0 <= i < |w.history|
            && w.history[i].receipt.clientId == input.clientId && w.history[i].receipt.key == input.key
    {
      assert KeyOf(w.history[i].receipt) == key;
    }
  }

  // --------------------------------------------------- reads across compactions

  ghost predicate OnlyCompacts(events: seq<Event>) {
    forall i :: 0 <= i < |events| ==> events[i].Finishes? && events[i].op.DoCompact?
  }

  /** After any number of compactions, permitted reads return what they returned before, in the same order. */
  lemma {:induction false} CompactionsPreserveReads(w: World, events: seq<Event>, q: Query)
    requires Inv(w) && PossibleRun(w, events) && OnlyCompacts(events) && !q.includeSuperseded
    ensures var before, after := RunQuery(w.live, q), RunQuery(Run(w, events).live, q);
            && (before.BeforeHistoryFloor? ==> after == before)
            && (before.Answer? ==> after.Answer? && after.page.hits == before.page.hits
                                   && after.page == before.page.(evaluated := after.page.evaluated)
                                   && after.page.evaluated <= before.page.evaluated)
  {
    if events != [] {
      var front, e := events[..|events| - 1], events[|events| - 1];
      CompactionsPreserveReads(w, front, q);
      RunKeepsInv(w, front);
      CompactionPreservesReads(Run(w, front), e.op.clock, e.at, q);
    }
  }
}
