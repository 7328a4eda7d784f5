/**
 What compaction may and must reclaim, said of the segments themselves. Evidence of
 damage outlives every run; and a segment is unlinked exactly when it is sealed,
 holds no such evidence, and everything in it was published and given up by the floor.
 */
module Reclaiming {
  import opened Wrappers
  import opened Sequences
  import opened LogRecords
  import opened Store
  import opened SegmentScan
  import opened Recovery
  import opened LogWorld
  import opened Appending
  import opened LogInvariant
  import opened CommitSteps
  import opened Unlinking
  import opened CompactionSteps
  import opened LogRuns
  import opened Reopening
  import opened CompactedReopening
  import opened SyncedRuns

  // ------------------------------------------------------------- evidence of damage

  function RepairsIn(r: Record): seq<Record> { if r.Repair? then [r] else [] }

  /** Every repair record, in log order. */
  function Repairs(rs: seq<Record>): seq<Record> { FlatMap(rs, RepairsIn) }

  ghost predicate WritesNone(group: seq<Record>) {
    forall r :: r in group ==> !r.Repair?
  }

  lemma {:induction false} NoRepairs(rs: seq<Record>)
    requires WritesNone(rs)
    ensures Repairs(rs) == []
  {
    forall i | 0 <= i < |rs| ensures RepairsIn(rs[i]) == [] { assert rs[i] in rs; }
    FlatMapEmpty(rs, RepairsIn);
  }

  /** Unlinking segments that hold no evidence loses none. */
  lemma {:induction false} UnlinkKeepsRepairs(disk: seq<LogSegment>, gone: set<int>)
    requires forall s :: s in disk && s.ordinal in gone ==> forall r :: r in s.lines ==> !r.Repair?
    ensures Repairs(Flat(Unlink(disk, gone))) == Repairs(Flat(disk))
  {
    if disk != [] {
      var front, last := disk[..|disk| - 1], disk[|disk| - 1];
      LastSplit(disk);
      UnlinkKeepsRepairs(front, gone);
      FlatMapConcat(Flat(front), last.lines, RepairsIn);
      if last.ordinal in gone {
        assert last in disk;
        NoRepairs(last.lines);
      } else {
        FlatSnoc(Unlink(front, gone), last);
        FlatMapConcat(Flat(Unlink(front, gone)), last.lines, RepairsIn);
      }
    }
  }

  /** No segment a compaction picks holds evidence, and no other bears its ordinal. */
  lemma {:induction false} PickedHoldNone(w: World, gone: set<int>, s: LogSegment)
    requires Inv(w) && gone <= OrdinalSet(Candidates(w.disk, w.live)) && s in w.disk && s.ordinal in gone
    ensures forall r :: r in s.lines ==> !r.Repair?
  {
    var t :| t in Candidates(w.disk, w.live) && t.ordinal == s.ordinal;
    DoomedAreCandidates(w, t);
    SameOrdinal(w.disk, w.live.epoch, s, t);
  }

  lemma {:induction false} SameOrdinal(disk: seq<LogSegment>, epoch: string, s: LogSegment, t: LogSegment)
    requires WellFormedDisk(disk, epoch) && s in disk && t in disk && s.ordinal == t.ordinal
    ensures s == t
  {
    var i :| 0 <= i < |disk| && disk[i] == s;
    var j :| 0 <= j < |disk| && disk[j] == t;
  }

  /** Appending, then unlinking picked segments, adds the group's evidence and loses none. */
  lemma {:induction false} AppendUnlinkRepairs(w: World, group: seq<Record>, at: Landing, gone: set<int>)
    requires Inv(w) && gone <= OrdinalSet(Candidates(w.disk, w.live))
    ensures Repairs(Flat(Unlink(Append(w.disk, w.live, group, at), gone))) == Repairs(Flat(w.disk)) + Repairs(group)
  {
    KeeperStays(w, at, group, gone);
    ActiveIsKept(w, gone);
    AppendThenUnlink(w.disk, w.live, group, at, gone);
    forall s | s in w.disk && s.ordinal in gone ensures forall r :: r in s.lines ==> !r.Repair? {
      PickedHoldNone(w, gone, s);
    }
    UnlinkKeepsRepairs(w.disk, gone);
    AppendList(Unlink(w.disk, gone), w.live, group, at, RepairsIn);
  }

  lemma {:induction false} ActiveIsKept(w: World, gone: set<int>)
    requires w.disk != [] && gone <= OrdinalSet(Candidates(w.disk, w.live))
    ensures ActiveOrdinal(w.disk) !in gone
  {
    forall s | s in Candidates(w.disk, w.live) ensures s.ordinal != ActiveOrdinal(w.disk) { DoomedAreCandidates(w, s); }
  }

  lemma {:induction false} CommitWritesNone(s: LogState, input: CommitInput, mint: Mint)
    requires |mint.ids| == |input.drafts|
    ensures WritesNone(Commit(s, input, mint).group)
  {
    var r := Commit(s, input, mint);
    if r.outcome.Committed? {
      var c := PartsOf(s, input, mint);
      assert r.group == CommitGroup(c.minted, c.stamps, c.receipt);
    } else {
      assert r.group == [];
    }
  }

  lemma {:induction false} CompactionWritesNone(
    disk: seq<LogSegment>, live: LogState, doomed: seq<LogSegment>, clock: Instant)
    ensures WritesNone(CompactionGroup(disk, live, doomed, clock))
  {
  }

  lemma {:induction false} MarkWritesNone(w: World, op: Operation)
    requires w.disk != [] && (op.DoFeed? || op.DoFloor?)
    ensures WritesNone(EffectOf(w, op).group) && EffectOf(w, op).doomed == []
  {
    MarkEffect(w, op);
  }

  /** An operation writes no evidence, and what it picks it picks from the candidates. */
  lemma {:induction false} OperationRepairs(w: World, op: Operation)
    requires w.disk != [] && Minting(w, op)
    ensures WritesNone(EffectOf(w, op).group)
    ensures EffectOf(w, op).doomed == [] || EffectOf(w, op).doomed == Candidates(w.disk, w.live)
  {
    match op
    case DoCommit(input, mint) => CommitWritesNone(w.live, input, mint);
    case DoFeed(_, _, _) => MarkWritesNone(w, op);
    case DoFloor(_, _) => MarkWritesNone(w, op);
    case DoCompact(clock) => CompactionWritesNone(w.disk, w.live, Candidates(w.disk, w.live), clock);
  }

  lemma {:induction false} PartOrdinals(doomed: seq<LogSegment>, n: nat)
    requires n <= |doomed|
    ensures OrdinalSet(doomed[..n]) <= OrdinalSet(doomed)
  {
    assert forall s :: s in doomed[..n] ==> s in doomed;
  }

  lemma {:induction false} FinishRepairs(w: World, op: Operation, at: Landing)
    requires Inv(w) && Minting(w, op)
    ensures Repairs(Flat(Finish(w, op, at).disk)) == Repairs(Flat(w.disk))
  {
    var e := EffectOf(w, op);
    OperationRepairs(w, op);
    NoRepairs(e.group);
    AppendUnlinkRepairs(w, e.group, at, OrdinalSet(e.doomed));
  }

  lemma {:induction false} CrashedRepairs(w: World, op: Operation, p: Progress, at: Landing)
    requires Inv(w) && Minting(w, op) && Reaches(EffectOf(w, op), p)
    ensures Repairs(Flat(CrashedDisk(w, EffectOf(w, op), p, at))) == Repairs(Flat(w.disk))
  {
    var e := EffectOf(w, op);
    OperationRepairs(w, op);
    var group := Surviving(e.group, p.written);
    assert forall r :: r in group ==> r in e.group;
    NoRepairs(group);
    PartOrdinals(e.doomed, p.unlinked);
    AppendUnlinkRepairs(w, group, at, OrdinalSet(e.doomed[..p.unlinked]));
  }

  /** What a reopen noted. */
  function Noted(repairs: seq<(Record, Landing)>): seq<Record> {
    seq(|repairs|, i requires 0 <= i < |repairs| => repairs[i].0)
  }

  lemma {:induction false} AppendedRepairs(disk: seq<LogSegment>, live: LogState, repairs: seq<(Record, Landing)>)
    requires disk != [] && AreRepairs(repairs)
    ensures Repairs(Flat(AppendRepairs(disk, live, repairs))) == Repairs(Flat(disk)) + Noted(repairs)
  {
    if repairs == [] {
      assert Repairs(Flat(disk)) + Noted(repairs) == Repairs(Flat(disk));
    } else {
      var n := |repairs| - 1;
      var front := AppendRepairs(disk, live, repairs[..n]);
      AppendedRepairs(disk, live, repairs[..n]);
      OneMoreRepair(front, live, repairs[n].0, repairs[n].1);
      NotedSnoc(repairs);
      Regroup(Repairs(Flat(disk)), Noted(repairs[..n]), [repairs[n].0]);
    }
  }

  lemma {:induction false} OneMoreRepair(disk: seq<LogSegment>, live: LogState, r: Record, at: Landing)
    requires disk != [] && r.Repair?
    ensures Repairs(Flat(Append(disk, live, [r], at))) == Repairs(Flat(disk)) + [r]
  {
    AppendList(disk, live, [r], at, RepairsIn);
    FlatMapOne(r, RepairsIn);
  }

  lemma {:induction false} NotedSnoc(repairs: seq<(Record, Landing)>)
    requires repairs != []
    ensures Noted(repairs) == Noted(repairs[..|repairs| - 1]) + [repairs[|repairs| - 1].0]
  {
  }

  /** One step adds to the evidence exactly what a reopen notes. */
  lemma {:induction false} StepKeepsRepairs(w: World, e: Event)
    requires Inv(w) && Possible(w, e)
    ensures Repairs(Flat(Step(w, e).disk)) == Repairs(Flat(w.disk)) + (if e.Crashes? then Noted(e.repairs) else [])
  {
    match e
    case Finishes(op, at) =>
      FinishRepairs(w, op, at);
      assert Repairs(Flat(w.disk)) + [] == Repairs(Flat(w.disk));
    case Crashes(op, p, at, repairs) =>
      var disk := CrashedDisk(w, EffectOf(w, op), p, at);
      CrashedRepairs(w, op, p, at);
      ActiveSegmentSurvives(w, op, p, at);
      AppendedRepairs(disk, Restore(disk), repairs);
      assert Step(w, e).disk == AppendRepairs(disk, Restore(disk), repairs);
  }

  /** Everything noted by the reopens of a run. */
  function NotedIn(events: seq<Event>): seq<Record> {
    if events == [] then []
    else
      var e := events[|events| - 1];
      NotedIn(events[..|events| - 1]) + if e.Crashes? then Noted(e.repairs) else []
  }

  /**
   Through any run, compactions and partial unlinks included, the evidence of damage on
   disk is what it was and then exactly what the reopens of the run noted, in order.
   */
  lemma {:induction false} RepairsOutliveRuns(w: World, events: seq<Event>)
    requires Inv(w) && PossibleRun(w, events)
    ensures Repairs(Flat(Run(w, events).disk)) == Repairs(Flat(w.disk)) + NotedIn(events)
  {
    if events == [] {
      assert Repairs(Flat(w.disk)) + [] == Repairs(Flat(w.disk));
    } else {
      var front, e := events[..|events| - 1], events[|events| - 1];
      RepairsOutliveRuns(w, front);
      RunKeepsInv(w, front);
      StepKeepsRepairs(Run(w, front), e);
      Regroup(Repairs(Flat(w.disk)), NotedIn(front), if e.Crashes? then Noted(e.repairs) else []);
    }
  }

  // ----------------------------------------------------------- what is reclaimed, exactly

  /** The disk says this assertion stopped being believed by the instant. */
  ghost predicate GivenUpBy(disk: seq<LogSegment>, id: AssertionId, floor: Instant) {
    exists st :: st in Stamps(Flat(disk)) && st.target == id && st.at <= floor
  }

  /** Sealed, free of evidence, and all of it published and given up by the floor. */
  ghost predicate Spent(w: World, s: LogSegment)
    requires w.disk != []
  {
    && s.ordinal != w.disk[|w.disk| - 1].ordinal
    && (forall r :: r in s.lines ==> !r.Repair?)
    && (forall b :: b in Bodies(s.lines) ==> b.seqNo <= w.live.published && GivenUpBy(w.disk, b.id, w.live.floor))
  }

  lemma {:induction false} EndOnDisk(disk: seq<LogSegment>, used: set<AssertionId>, b: Assertion, floor: Instant)
    requires StampsInv(Stamps(Flat(disk)), used) && b.supersededAt.None?
    ensures GivenUpBy(disk, b.id, floor) <==> ScannedEnd(disk, b).Some? && ScannedEnd(disk, b).value <= floor
  {
    var stamps := Stamps(Flat(disk));
    FirstStampFound(stamps, b.id);
    if st :| st in stamps && st.target == b.id && st.at <= floor {
      var first := FirstStamp(stamps, b.id).value;
      var i :| 0 <= i < |stamps| && stamps[i] == st;
      var j :| 0 <= j < |stamps| && stamps[j] == first;
      assert i == j;
    }
  }

  lemma {:induction false} BodyOnDisk(w: World, s: LogSegment, b: Assertion)
    requires Inv(w) && s in w.disk && b in Bodies(s.lines)
    ensures b.supersededAt.None?
  {
    FlatMember(w.disk, BodiesIn, b);
    var bodies := Bodies(Flat(w.disk));
    var i :| 0 <= i < |bodies| && bodies[i] == b;
    assert Unstamped(bodies[i]) == bodies[i];
  }

  lemma {:induction false} PickedIffSpent(w: World, s: LogSegment)
    requires Inv(w) && s in w.disk
    ensures s in Candidates(w.disk, w.live) <==> Spent(w, s)
  {
    assert w.disk[..|w.disk|] == w.disk;
    CandidateMember(w.disk, w.live, |w.disk|, s);
    forall b | b in Bodies(s.lines)
      ensures GivenUpBy(w.disk, b.id, w.live.floor) <==>
              ScannedEnd(w.disk, b).Some? && ScannedEnd(w.disk, b).value <= w.live.floor
    {
      BodyOnDisk(w, s, b);
      EndOnDisk(w.disk, w.used, b, w.live.floor);
    }
  }

  /** Some stamp on disk names this id. */
  ghost predicate Ended(disk: seq<LogSegment>, id: AssertionId) {
    exists st :: st in Stamps(Flat(disk)) && st.target == id
  }

  /** Why a segment is kept: the first that holds of these, in the compactor's order. */
  lemma {:induction false} KeptForTheFirstReason(w: World, s: LogSegment)
    requires Inv(w) && s in w.disk
    ensures var bodies, why := Bodies(s.lines),
            Verdict(w.disk, s, w.live.published, w.live.floor, ActiveOrdinal(w.disk));
            var active, repaired := s.ordinal == ActiveOrdinal(w.disk), exists r :: r in s.lines && r.Repair?;
            var unread := exists b :: b in bodies && b.seqNo > w.live.published;
            var believed := exists b :: b in bodies && !Ended(w.disk, b.id);
            && (why == Some(ActiveSegment) <==> active)
            && (why == Some(HoldsRepair) <==> !active && repaired)
            && (why == Some(AboveWatermark) <==> !active && !repaired && unread)
            && (why == Some(StillBelieved) <==> !active && !repaired && !unread && believed)
            && (why == Some(WithinFloor) <==>
                  !active && !repaired && !unread && !believed
                  && exists b :: b in bodies && !GivenUpBy(w.disk, b.id, w.live.floor))
  {
    forall b | b in Bodies(s.lines)
      ensures GivenUpBy(w.disk, b.id, w.live.floor) <==>
              ScannedEnd(w.disk, b).Some? && ScannedEnd(w.disk, b).value <= w.live.floor
      ensures Ended(w.disk, b.id) <==> ScannedEnd(w.disk, b).Some?
    {
      BodyOnDisk(w, s, b);
      EndOnDisk(w.disk, w.used, b, w.live.floor);
      FirstStampFound(Stamps(Flat(w.disk)), b.id);
    }
  }

  lemma {:induction false} GoneIffPicked(w: World, s: LogSegment)
    requires Inv(w) && s in w.disk
    ensures s.ordinal in OrdinalSet(Candidates(w.disk, w.live)) <==> s in Candidates(w.disk, w.live)
  {
    if s.ordinal in OrdinalSet(Candidates(w.disk, w.live)) {
      var t :| t in Candidates(w.disk, w.live) && t.ordinal == s.ordinal;
      DoomedAreCandidates(w, t);
      SameOrdinal(w.disk, w.live.epoch, s, t);
    }
  }

  ghost predicate OnDisk(disk: seq<LogSegment>, ordinal: int) {
    exists s :: s in disk && s.ordinal == ordinal
  }

  lemma {:induction false} AppendKeepsOrdinals(
    disk: seq<LogSegment>, live: LogState, group: seq<Record>, at: Landing, i: nat)
    requires disk != [] && i < |disk|
    ensures OnDisk(Append(disk, live, group, at), disk[i].ordinal)
  {
    var appended := Append(disk, live, group, at);
    assert appended[i].ordinal == disk[i].ordinal && appended[i] in appended;
  }

  lemma {:induction false} UnlinkedOrdinals(disk: seq<LogSegment>, gone: set<int>, ordinal: int)
    ensures OnDisk(Unlink(disk, gone), ordinal) <==> OnDisk(disk, ordinal) && ordinal !in gone
  {
    if s :| s in Unlink(disk, gone) && s.ordinal == ordinal { UnlinkMember(disk, gone, s); }
    if s :| s in disk && s.ordinal == ordinal { UnlinkMember(disk, gone, s); }
  }

  /** A finished compaction unlinks a segment exactly when it is spent. */
  lemma {:induction false} UnlinkedExactlyWhenSpent(w: World, clock: Instant, at: Landing, s: LogSegment)
    requires Inv(w) && s in w.disk
    ensures OnDisk(Finish(w, DoCompact(clock), at).disk, s.ordinal) <==> !Spent(w, s)
  {
    var doomed := Candidates(w.disk, w.live);
    FinishCompact(w, clock, at);
    PickedIffSpent(w, s);
    if doomed != [] {
      GoneIffPicked(w, s);
      var group := CompactionGroup(w.disk, w.live, doomed, clock);
      var i :| 0 <= i < |w.disk| && w.disk[i] == s;
      AppendKeepsOrdinals(w.disk, w.live, group, at, i);
      UnlinkedOrdinals(Append(w.disk, w.live, group, at), OrdinalSet(doomed), s.ordinal);
    }
  }

  /** In sync, what the disk says of an assertion's end is what the live store says. */
  lemma {:induction false} GivenUpInSync(w: World, a: Assertion)
    requires InSync(w) && a in w.live.assertions
    ensures GivenUpBy(w.disk, a.id, w.live.floor) <==> a.supersededAt.Some? && a.supersededAt.value <= w.live.floor
  {
    var bodies, stamps := Bodies(Flat(w.disk)), Stamps(Flat(w.disk));
    KnownStampsReload(w.live.assertions, bodies, stamps);
    var i :| 0 <= i < |w.live.assertions| && w.live.assertions[i] == a;
    assert a == Stamped(bodies[i], stamps) && Unstamped(bodies[i]) == bodies[i];
    EndOnDisk(w.disk, w.used, bodies[i], w.live.floor);
  }
}
