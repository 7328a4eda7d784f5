/** Compaction keeps the invariant, whole or interrupted, and takes nothing a permitted read can see. */
module CompactionSteps {
  import opened Wrappers
  import opened Sequences
  import opened LogRecords
  import opened Store
  import opened SegmentScan
  import opened Recovery
  import opened LogWorld
  import opened Appending
  import opened LogInvariant
  import opened CommitSteps
  import opened Unlinking

  // ------------------------------------------------------------ the appended group

  /** What a list reads from carried receipts it reads nothing of, and one record after them. */
  lemma {:induction false} CarriedThen<B>(receipts: seq<Receipt>, c: Record, f: Record -> seq<B>)
    requires forall r: Receipt :: f(Submission(r)) == []
    ensures FlatMap(Submissions(receipts) + [c], f) == f(c)
  {
    FlatMapSnoc(Submissions(receipts), c, f);
    FlatMapEmpty(Submissions(receipts), f);
  }

  lemma {:induction false} CarriedReceipts(receipts: seq<Receipt>, c: Record)
    requires c.Compaction?
    ensures Receipts(Submissions(receipts) + [c]) == receipts
  {
    FlatMapSnoc(Submissions(receipts), c, ReceiptsIn);
    FlatMapPointwise(Submissions(receipts), ReceiptsIn, receipts);
  }

  lemma {:induction false} CompactionGroupLists(
    disk: seq<LogSegment>, live: LogState, doomed: seq<LogSegment>, clock: Instant)
    ensures var g := CompactionGroup(disk, live, doomed, clock);
            && Bodies(g) == [] && Stamps(g) == [] && Receipts(g) == Receipts(Flat(doomed))
            && Compactions(g) == [CompactionRecord(disk, live, doomed, clock)]
  {
    var receipts, c := Receipts(Flat(doomed)), CompactionRecord(disk, live, doomed, clock);
    CarriedThen(receipts, c, BodiesIn);
    CarriedThen(receipts, c, StampsIn);
    CarriedThen(receipts, c, CompactionsIn);
    CarriedReceipts(receipts, c);
  }

  lemma {:induction false} CompactionGroupMarks(
    disk: seq<LogSegment>, live: LogState, doomed: seq<LogSegment>, clock: Instant)
    ensures var g := CompactionGroup(disk, live, doomed, clock);
            && FlatMap(g, SeqsIn) == [HighSeq(Flat(disk))] && FlatMap(g, WatermarksIn) == [live.published]
            && FlatMap(g, FloorsIn) == [live.floor]
  {
    var receipts, c := Receipts(Flat(doomed)), CompactionRecord(disk, live, doomed, clock);
    CarriedThen(receipts, c, SeqsIn);
    CarriedThen(receipts, c, WatermarksIn);
    CarriedThen(receipts, c, FloorsIn);
  }

  lemma {:induction false} FlatMapPrefix<A, B>(xs: seq<A>, n: nat, f: A -> seq<B>)
    requires n <= |xs|
    ensures forall y :: y in FlatMap(xs[..n], f) ==> y in FlatMap(xs, f)
  {
    assert xs == xs[..n] + xs[n..];
    FlatMapConcat(xs[..n], xs[n..], f);
  }

  lemma {:induction false} CompactionGroupWritable(
    disk: seq<LogSegment>, live: LogState, doomed: seq<LogSegment>, clock: Instant, n: nat)
    requires doomed != [] && n <= |CompactionGroup(disk, live, doomed, clock)|
    ensures WritableGroup(CompactionGroup(disk, live, doomed, clock)[..n])
    ensures Surviving(CompactionGroup(disk, live, doomed, clock), n) == CompactionGroup(disk, live, doomed, clock)[..n]
  {
    var g := CompactionGroup(disk, live, doomed, clock);
    assert forall i :: 0 <= i < |g| ==> !OpensGroup(g[i]) && !g[i].Header? && NamesItsSegments(g[i]);
    assert g[..n][..n] == g[..n];
  }

  /** However far a compaction's append got, what is there repeats only what the disk already states. */
  lemma {:induction false} CompactionPrefixQuiet(w: World, doomed: seq<LogSegment>, clock: Instant, n: nat)
    requires Inv(w) && doomed != [] && (forall s :: s in doomed ==> s in w.disk)
    requires n <= |CompactionGroup(w.disk, w.live, doomed, clock)|
    ensures Quiet(CompactionGroup(w.disk, w.live, doomed, clock)[..n], w.history)
  {
    var g := CompactionGroup(w.disk, w.live, doomed, clock);
    CompactionGroupWritable(w.disk, w.live, doomed, clock, n);
    CompactionGroupLists(w.disk, w.live, doomed, clock);
    CompactionGroupMarks(w.disk, w.live, doomed, clock);
    FlatMapPrefix(g, n, BodiesIn);
    FlatMapPrefix(g, n, StampsIn);
    FlatMapPrefix(g, n, ReceiptsIn);
    FlatMapPrefix(g, n, SeqsIn);
    EmptyOrInhabited(Bodies(g[..n]));
    EmptyOrInhabited(Stamps(g[..n]));
    forall r | r in Receipts(Flat(doomed)) ensures InHistory(w.history, r) {
      FlatMember(doomed, ReceiptsIn, r);
      FlatMember(w.disk, ReceiptsIn, r);
    }
  }

  lemma {:induction false} EmptyOrInhabited<T>(xs: seq<T>)
    ensures xs == [] || exists x :: x in xs
  {
    if xs != [] { assert xs[0] in xs; }
  }

  // -------------------------------------------------------------- the survivor

  /** What a group holds, the active segment holds after the append. */
  lemma {:induction false} ActiveHolds<B>(
    disk: seq<LogSegment>, live: LogState, group: seq<Record>, at: Landing, f: Record -> seq<B>, x: B)
    requires disk != [] && x in FlatMap(group, f)
    ensures var appended := Append(disk, live, group, at); x in FlatMap(appended[|appended| - 1].lines, f)
  {
    var lines := if Rolls(disk, at) then Opening(disk, live, at) else disk[|disk| - 1].lines;
    FlatMapConcat(lines, group, f);
  }

  lemma {:induction false} AppendedSegments(disk: seq<LogSegment>, live: LogState, group: seq<Record>, at: Landing)
    requires disk != []
    ensures var appended := Append(disk, live, group, at);
            && |disk| <= |appended|
            && (forall k :: 0 <= k < |disk| ==> appended[k].ordinal == disk[k].ordinal)
            && (forall k :: 0 <= k < |disk| - 1 ==> appended[k] == disk[k])
            && (forall k :: |disk| <= k < |appended| ==> appended[k].ordinal == ActiveOrdinal(disk) + 1)
  {
  }

  /** Every doomed segment is an older one, untouched by the append. */
  lemma {:induction false} DoomedAreOlder(w: World, at: Landing, group: seq<Record>, s: LogSegment)
    requires w.disk != [] && WellFormedDisk(w.disk, w.live.epoch)
    requires s in Append(w.disk, w.live, group, at) && s.ordinal in OrdinalSet(Candidates(w.disk, w.live))
    ensures s in Candidates(w.disk, w.live)
  {
    var appended := Append(w.disk, w.live, group, at);
    var d :| d in Candidates(w.disk, w.live) && d.ordinal == s.ordinal;
    DoomedAreCandidates(w, d);
    AppendedSegments(w.disk, w.live, group, at);
    SameOrdinalSameSegment(w.disk, w.live.epoch, appended, d, s);
  }

  lemma {:induction false} SameOrdinalSameSegment(
    disk: seq<LogSegment>, epoch: string, appended: seq<LogSegment>, d: LogSegment, s: LogSegment)
    requires disk != [] && WellFormedDisk(disk, epoch) && |disk| <= |appended|
    requires forall k :: 0 <= k < |disk| ==> appended[k].ordinal == disk[k].ordinal
    requires forall k :: 0 <= k < |disk| - 1 ==> appended[k] == disk[k]
    requires forall k :: |disk| <= k < |appended| ==> appended[k].ordinal == ActiveOrdinal(disk) + 1
    requires d in disk && s in appended && d.ordinal == s.ordinal && d.ordinal != ActiveOrdinal(disk)
    ensures s == d
  {
    var i :| 0 <= i < |disk| && disk[i] == d;
    var j :| 0 <= j < |appended| && appended[j] == s;
    assert disk[i].ordinal <= disk[|disk| - 1].ordinal;
  }

  lemma {:induction false} DoomedAreCandidates(w: World, s: LogSegment)
    requires w.disk != [] && s in Candidates(w.disk, w.live)
    ensures s in w.disk && s.ordinal != ActiveOrdinal(w.disk)
    ensures Verdict(w.disk, s, w.live.published, w.live.floor, ActiveOrdinal(w.disk)).None?
  {
    assert w.disk[..|w.disk|] == w.disk;
    CandidateMember(w.disk, w.live, |w.disk|, s);
  }

  /** The segment the group landed in is not doomed. */
  lemma {:induction false} KeeperStays(w: World, at: Landing, group: seq<Record>, gone: set<int>)
    requires w.disk != [] && WellFormedDisk(w.disk, w.live.epoch) && gone <= OrdinalSet(Candidates(w.disk, w.live))
    ensures ActiveOrdinal(Append(w.disk, w.live, group, at)) !in gone
  {
    var n := |w.disk|;
    forall s | s in Candidates(w.disk, w.live) ensures s.ordinal < ActiveOrdinal(w.disk) {
      DoomedAreCandidates(w, s);
      var i :| 0 <= i < n && w.disk[i] == s;
    }
  }

  lemma {:induction false} KeeperCarries(w: World, clock: Instant, at: Landing, gone: set<int>)
    requires Inv(w) && Candidates(w.disk, w.live) != [] && gone <= OrdinalSet(Candidates(w.disk, w.live))
    ensures var appended := Append(w.disk, w.live,
                                   CompactionGroup(w.disk, w.live, Candidates(w.disk, w.live), clock), at);
            Carries(appended[|appended| - 1], appended, gone)
  {
    var doomed := Candidates(w.disk, w.live);
    var group := CompactionGroup(w.disk, w.live, doomed, clock);
    var appended := Append(w.disk, w.live, group, at);
    var keeper := appended[|appended| - 1];
    CompactionGroupLists(w.disk, w.live, doomed, clock);
    CompactionGroupMarks(w.disk, w.live, doomed, clock);
    forall s, r | s in appended && s.ordinal in gone && r in Receipts(s.lines) ensures r in Receipts(keeper.lines) {
      DoomedAreOlder(w, at, group, s);
      FlatMember(doomed, ReceiptsIn, r);
      ActiveHolds(w.disk, w.live, group, at, ReceiptsIn, r);
    }
    AppendSeqs(w.disk, w.live, group, at);
    assert Highest([HighSeq(Flat(w.disk))], HighSeq(Flat(w.disk))) == HighSeq(Flat(w.disk));
    ActiveHolds(w.disk, w.live, group, at, SeqsIn, HighSeq(Flat(w.disk)));
  }

  /** The disk after a compaction's append and any part of its unlinking. */
  lemma {:induction false} CompactedDisk(w: World, clock: Instant, at: Landing, gone: set<int>)
    requires Inv(w) && Candidates(w.disk, w.live) != [] && gone <= OrdinalSet(Candidates(w.disk, w.live))
    ensures var appended := Append(w.disk, w.live,
                                   CompactionGroup(w.disk, w.live, Candidates(w.disk, w.live), clock), at);
            var disk := Unlink(appended, gone);
            && DiskInv(appended, w.live.epoch, w.used, w.history)
            && DiskInv(disk, w.live.epoch, w.used, w.history)
            && Bodies(Flat(appended)) == Bodies(Flat(w.disk)) && Stamps(Flat(appended)) == Stamps(Flat(w.disk))
            && Bodies(Flat(disk)) == Without(Bodies(Flat(w.disk)), GoneIds(appended, gone))
            && FloorOf(Flat(disk)) == Some(w.live.floor) && HighWatermark(Flat(disk)) == w.live.published
  {
    var doomed := Candidates(w.disk, w.live);
    var group := CompactionGroup(w.disk, w.live, doomed, clock);
    var appended := Append(w.disk, w.live, group, at);
    var keeper := appended[|appended| - 1];
    assert group[..|group|] == group;
    forall s | s in doomed ensures s in w.disk { DoomedAreCandidates(w, s); }
    CompactionPrefixQuiet(w, doomed, clock, |group|);
    QuietKeepsDisk(w, group, at);
    KeeperStays(w, at, group, gone);
    KeeperCarries(w, clock, at, gone);
    UnlinkKeepsDisk(appended, w.live.epoch, w.used, w.history, gone, keeper);
    CompactionMarks(w, doomed, clock, at, gone);
  }

  lemma {:induction false} CompactionMarks(
    w: World, doomed: seq<LogSegment>, clock: Instant, at: Landing, gone: set<int>)
    requires w.disk != [] && LiveInv(w.live, w.disk, w.history)
    requires ActiveOrdinal(Append(w.disk, w.live, CompactionGroup(w.disk, w.live, doomed, clock), at)) !in gone
    ensures var disk := Unlink(Append(w.disk, w.live, CompactionGroup(w.disk, w.live, doomed, clock), at), gone);
            FloorOf(Flat(disk)) == Some(w.live.floor) && HighWatermark(Flat(disk)) == w.live.published
  {
    var group := CompactionGroup(w.disk, w.live, doomed, clock);
    var appended := Append(w.disk, w.live, group, at);
    var keeper := appended[|appended| - 1];
    CompactionGroupMarks(w.disk, w.live, doomed, clock);
    AppendFloor(w.disk, w.live, group, at);
    AppendWatermarks(w.disk, w.live, group, at);
    assert Highest([w.live.floor], w.live.floor) == w.live.floor;
    assert Highest([w.live.published], w.live.published) == w.live.published;
    ActiveHolds(w.disk, w.live, group, at, FloorsIn, w.live.floor);
    ActiveHolds(w.disk, w.live, group, at, WatermarksIn, w.live.published);
    FloorSurvives(appended, gone, w.live.floor, keeper);
    HighestSurvives(appended, gone, WatermarksIn, 0, keeper);
  }

  // --------------------------------------------------------------- the live side

  lemma {:induction false} SegmentNotesKeys(bodies: seq<Assertion>, ordinal: int, clock: Instant)
    ensures forall id :: id in SegmentNotes(bodies, ordinal, clock) <==> exists b :: b in bodies && b.id == id
  {
    if bodies != [] {
      assert bodies == bodies[..|bodies| - 1] + [bodies[|bodies| - 1]];
      SegmentNotesKeys(bodies[..|bodies| - 1], ordinal, clock);
    }
  }

  lemma {:induction false} NotesKeys(doomed: seq<LogSegment>, clock: Instant)
    ensures forall id :: id in ReclamationNotes(doomed, clock) <==>
              exists s, b :: s in doomed && b in Bodies(s.lines) && b.id == id
  {
    if doomed != [] {
      var front, last := doomed[..|doomed| - 1], doomed[|doomed| - 1];
      LastSplit(doomed);
      NotesKeys(front, clock);
      SegmentNotesKeys(Bodies(last.lines), last.ordinal, clock);
    }
  }

  /** The ids the live store drops are exactly the ids whose bodies leave the disk. */
  lemma {:induction false} NotesAreGoneIds(w: World, clock: Instant, at: Landing)
    requires Inv(w) && Candidates(w.disk, w.live) != []
    ensures var doomed := Candidates(w.disk, w.live);
            var appended := Append(w.disk, w.live, CompactionGroup(w.disk, w.live, doomed, clock), at);
            ReclamationNotes(doomed, clock).Keys == GoneIds(appended, OrdinalSet(doomed))
  {
    var doomed := Candidates(w.disk, w.live);
    var group := CompactionGroup(w.disk, w.live, doomed, clock);
    var appended := Append(w.disk, w.live, group, at);
    var gone := OrdinalSet(doomed);
    NotesKeys(doomed, clock);
    forall id | id in ReclamationNotes(doomed, clock) ensures id in GoneIds(appended, gone) {
      var s, b :| s in doomed && b in Bodies(s.lines) && b.id == id;
      BodyHasSite(w, at, group, s, b);
    }
    forall id | id in GoneIds(appended, gone) ensures id in ReclamationNotes(doomed, clock) {
      var site :| site in BodySites(appended) && site.ordinal in gone && site.id == id;
      FlatMapMember(appended, BodySitesIn, site);
      var s :| s in appended && site in BodySitesIn(s);
      SitesOfGroup(s, site);
      DoomedAreOlder(w, at, group, s);
    }
  }

  lemma {:induction false} BodyHasSite(w: World, at: Landing, group: seq<Record>, s: LogSegment, b: Assertion)
    requires w.disk != [] && s in Candidates(w.disk, w.live) && b in Bodies(s.lines)
    ensures Site(b.id, s.ordinal) in BodySites(Append(w.disk, w.live, group, at))
  {
    DoomedAreCandidates(w, s);
    AppendSites(w.disk, w.live, group, at);
    var i :| 0 <= i < |Bodies(s.lines)| && Bodies(s.lines)[i] == b;
    assert BodySitesIn(s)[i] == Site(b.id, s.ordinal);
    FlatMapMember(w.disk, BodySitesIn, Site(b.id, s.ordinal));
  }

  lemma {:induction false} ShadowsWithout(
    live: seq<Assertion>, bodies: seq<Assertion>, stamps: seq<Stamp>, fewer: seq<Stamp>, gone: set<AssertionId>)
    requires Shadows(live, bodies, stamps)
    requires forall i :: 0 <= i < |bodies| && FirstStamp(fewer, bodies[i].id).Some? ==>
               FirstStamp(fewer, bodies[i].id) == FirstStamp(stamps, bodies[i].id)
    ensures Shadows(Without(live, gone), Without(bodies, gone), fewer)
  {
    if live != [] {
      var n := |live| - 1;
      assert forall i :: 0 <= i < n ==> live[..n][i] == live[i] && bodies[..n][i] == bodies[i];
      ShadowsWithout(live[..n], bodies[..n], stamps, fewer, gone);
      assert live[n].id == bodies[n].id;
    }
  }

  lemma {:induction false} ReclaimedLive(live: LogState, notes: map<AssertionId, Note>)
    ensures ApplyReclamation(live, notes).assertions == Without(live.assertions, notes.Keys)
  {
    WithoutNoneOrAll(live.assertions, notes.Keys);
    if notes == map[] { assert notes.Keys == {}; }
  }

  lemma {:induction false} FinishCompact(w: World, clock: Instant, at: Landing)
    requires w.disk != []
    ensures var doomed := Candidates(w.disk, w.live);
            Finish(w, DoCompact(clock), at) ==
            if doomed == [] then w
            else World(Unlink(Append(w.disk, w.live, CompactionGroup(w.disk, w.live, doomed, clock), at),
                              OrdinalSet(doomed)),
                       ApplyReclamation(w.live, ReclamationNotes(doomed, clock)), w.used, w.history)
  {
    assert w.used + {} == w.used;
  }

  /** The live assertions after a compaction shadow the bodies and stamps that are left. */
  lemma {:induction false} CompactedShadows(w: World, appended: seq<LogSegment>, gone: set<int>, ids: set<AssertionId>)
    requires LiveInv(w.live, w.disk, w.history) && StampsInv(Stamps(Flat(appended)), w.used)
    requires Stamps(Flat(appended)) == Stamps(Flat(w.disk))
    requires Bodies(Flat(Unlink(appended, gone))) == Without(Bodies(Flat(w.disk)), ids)
    ensures Shadows(Without(w.live.assertions, ids), Bodies(Flat(Unlink(appended, gone))),
                    Stamps(Flat(Unlink(appended, gone))))
  {
    var fewer := Stamps(Flat(Unlink(appended, gone)));
    forall id ensures FirstStamp(fewer, id).Some? ==> FirstStamp(fewer, id) == FirstStamp(Stamps(Flat(w.disk)), id) {
      UnlinkedStamp(appended, w.used, gone, id);
    }
    ShadowsWithout(w.live.assertions, Bodies(Flat(w.disk)), Stamps(Flat(w.disk)), fewer, ids);
  }

  lemma {:induction false} CompactionKeepsLive(w: World, clock: Instant, at: Landing)
    requires Inv(w) && Candidates(w.disk, w.live) != []
    ensures var doomed := Candidates(w.disk, w.live);
            var disk :=
              Unlink(Append(w.disk, w.live, CompactionGroup(w.disk, w.live, doomed, clock), at), OrdinalSet(doomed));
            LiveInv(ApplyReclamation(w.live, ReclamationNotes(doomed, clock)), disk, w.history)
  {
    var doomed := Candidates(w.disk, w.live);
    var appended := Append(w.disk, w.live, CompactionGroup(w.disk, w.live, doomed, clock), at);
    var gone, notes := OrdinalSet(doomed), ReclamationNotes(doomed, clock);
    CompactedDisk(w, clock, at, gone);
    NotesAreGoneIds(w, clock, at);
    ReclaimedLive(w.live, notes);
    CompactedShadows(w, appended, gone, notes.Keys);
  }

  lemma {:induction false} CompactKeepsInv(w: World, clock: Instant, at: Landing) returns (next: World)
    requires Inv(w)
    ensures next == Finish(w, DoCompact(clock), at) && Inv(next)
  {
    FinishCompact(w, clock, at);
    var doomed := Candidates(w.disk, w.live);
    if doomed == [] {
      next := w;
    } else {
      next := CompactedKeepsInv(w, clock, at);
    }
  }

  lemma {:induction false} CompactedKeepsInv(w: World, clock: Instant, at: Landing) returns (next: World)
    requires Inv(w) && Candidates(w.disk, w.live) != []
    ensures var doomed := Candidates(w.disk, w.live);
            next == World(
              Unlink(Append(w.disk, w.live, CompactionGroup(w.disk, w.live, doomed, clock), at), OrdinalSet(doomed)),
              ApplyReclamation(w.live, ReclamationNotes(doomed, clock)), w.used, w.history)
    ensures Inv(next)
  {
    var doomed := Candidates(w.disk, w.live);
    CompactedDisk(w, clock, at, OrdinalSet(doomed));
    CompactionKeepsLive(w, clock, at);
    next := World(
      Unlink(Append(w.disk, w.live, CompactionGroup(w.disk, w.live, doomed, clock), at), OrdinalSet(doomed)),
      ApplyReclamation(w.live, ReclamationNotes(doomed, clock)), w.used, w.history);
  }

  // -------------------------------------------------- compaction preserves reads

  /** A live assertion whose body the disk knows a stamp for carries that stamp. */
  lemma {:induction false} LiveKnowsStamp(
    live: seq<Assertion>, bodies: seq<Assertion>, stamps: seq<Stamp>, used: set<AssertionId>,
                       a: Assertion, b: Assertion)
    requires Shadows(live, bodies, stamps) && BodiesInv(bodies, used)
    requires a in live && b in bodies && a.id == b.id && Stamped(b, stamps).supersededAt.Some?
    ensures a == Stamped(b, stamps)
  {
    var i :| 0 <= i < |live| && live[i] == a;
    var j :| 0 <= j < |bodies| && bodies[j] == b;
    assert bodies[i].id == bodies[j].id;
  }

  /** Everything a compaction drops stopped being believed by the floor, in the live store too. */
  lemma {:induction false} DoomedOutOfReach(w: World, clock: Instant, a: Assertion)
    requires Inv(w) && a in w.live.assertions && a.id in ReclamationNotes(Candidates(w.disk, w.live), clock)
    ensures OutOfReach(a, w.live.floor)
  {
    NotesKeys(Candidates(w.disk, w.live), clock);
    var s, b :| s in Candidates(w.disk, w.live) && b in Bodies(s.lines) && b.id == a.id;
    DoomedAreCandidates(w, s);
    DoomedEnd(w.disk, s, w.live.published, w.live.floor, ActiveOrdinal(w.disk), b);
    FlatMember(w.disk, BodiesIn, b);
    assert b in FlatMap(s.lines, BodiesIn) && b in Bodies(Flat(w.disk));
    LiveKnowsStamp(w.live.assertions, Bodies(Flat(w.disk)), Stamps(Flat(w.disk)), w.used, a, b);
  }

  lemma {:induction false} DoomedEnd(
    disk: seq<LogSegment>, s: LogSegment, watermark: int, floor: Instant, active: int, b: Assertion)
    requires Verdict(disk, s, watermark, floor, active).None? && b in Bodies(s.lines)
    ensures ScannedEnd(disk, b).Some? && ScannedEnd(disk, b).value <= floor && b.seqNo <= watermark
  {
  }

  /**
   Compaction preserves reads: every query that does not ask for superseded
   records, present-tense or at an instant at or above the floor, returns the
   same hits in the same order; only the count of rows evaluated may fall.
   */
  lemma {:induction false} CompactionPreservesReads(w: World, clock: Instant, at: Landing, q: Query)
    requires Inv(w) && !q.includeSuperseded
    ensures var before, after := RunQuery(w.live, q), RunQuery(Finish(w, DoCompact(clock), at).live, q);
            && (before.BeforeHistoryFloor? ==> after == before)
            && (before.Answer? ==> after.Answer? && after.page.hits == before.page.hits
                                   && after.page == before.page.(evaluated := after.page.evaluated)
                                   && after.page.evaluated <= before.page.evaluated)
  {
    FinishCompact(w, clock, at);
    var notes := ReclamationNotes(Candidates(w.disk, w.live), clock);
    if Candidates(w.disk, w.live) != [] && RunQuery(w.live, q).Answer? {
      ReclaimedLive(w.live, notes);
      forall a | a in w.live.assertions && a.id in notes.Keys ensures OutOfReach(a, w.live.floor) {
        DoomedOutOfReach(w, clock, a);
      }
      WithoutKeepsHits(q, w.live.assertions, notes.Keys, w.live.floor);
    }
  }
}
