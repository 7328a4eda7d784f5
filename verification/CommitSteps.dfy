/** Operations that only append keep the invariant: commits, feed pages, floor advances, repairs. */
module CommitSteps {
  import opened Wrappers
  import opened Sequences
  import opened LogRecords
  import opened Store
  import opened SegmentScan
  import opened Recovery
  import opened LogWorld
  import opened Appending
  import opened LogInvariant

  lemma {:induction false} BodySeqBounded(rs: seq<Record>, b: Assertion)
    requires b in Bodies(rs)
    ensures b.seqNo <= HighSeq(rs)
  {
    FlatMapMember(rs, BodiesIn, b);
    var r :| r in rs && b in BodiesIn(r);
    assert b.seqNo in SeqsIn(r);
    FlatMapMember(rs, SeqsIn, b.seqNo);
  }

  lemma {:induction false} UsedGrows(
    disk: seq<LogSegment>, epoch: string, used: set<AssertionId>, more: set<AssertionId>, history: seq<Entry>)
    requires DiskInv(disk, epoch, used, history)
    ensures DiskInv(disk, epoch, used + more, history)
  {
  }

  // ------------------------------------------------------------- quiet groups

  /** A group that adds no body, stamp, receipt or seq the disk does not already account for. */
  ghost predicate Quiet(group: seq<Record>, history: seq<Entry>) {
    && WritableGroup(group)
    && Bodies(group) == [] && Stamps(group) == []
    && (forall r :: r in Receipts(group) ==> InHistory(history, r))
    && (forall q :: q in FlatMap(group, SeqsIn) ==> q <= Issued(history))
  }

  function ActiveOrdinal(disk: seq<LogSegment>): int
    requires disk != []
  {
    disk[|disk| - 1].ordinal
  }

  lemma {:induction false} SitesConcat(ordinal: int, lines: seq<Record>, group: seq<Record>)
    ensures BodySitesIn(Segment(ordinal, lines + group)) ==
            BodySitesIn(Segment(ordinal, lines)) + BodySitesIn(Segment(ordinal, group))
    ensures StampSitesIn(Segment(ordinal, lines + group)) ==
            StampSitesIn(Segment(ordinal, lines)) + StampSitesIn(Segment(ordinal, group))
  {
    FlatMapConcat(lines, group, BodiesIn);
    FlatMapConcat(lines, group, StampsIn);
  }

  lemma {:induction false} SitesOfHeader(s: LogSegment)
    requires |s.lines| == 1 && s.lines[0].Header?
    ensures BodySitesIn(s) == [] && StampSitesIn(s) == []
  {
    assert s.lines == [s.lines[0]];
    FlatMapOne(s.lines[0], BodiesIn);
    FlatMapOne(s.lines[0], StampsIn);
  }

  /** The segment a group lands in, before the group: the active one, or a new one holding its header. */
  function Target(disk: seq<LogSegment>, live: LogState, at: Landing): LogSegment
    requires disk != []
  {
    if Rolls(disk, at) then Segment(ActiveOrdinal(disk) + 1, Opening(disk, live, at)) else disk[|disk| - 1]
  }

  /** A per-segment list that splits with the lines grows by what the group puts in the active segment. */
  lemma {:induction false} AppendPerSegment<B>(
    disk: seq<LogSegment>, live: LogState, group: seq<Record>, at: Landing, f: LogSegment -> seq<B>, target: LogSegment)
    requires disk != [] && target == Target(disk, live, at)
    requires Rolls(disk, at) ==> f(target) == []
    requires f(Segment(target.ordinal, target.lines + group)) == f(target) + f(Segment(target.ordinal, group))
    ensures ActiveOrdinal(Append(disk, live, group, at)) == target.ordinal
    ensures FlatMap(Append(disk, live, group, at), f) == FlatMap(disk, f) + f(Segment(target.ordinal, group))
  {
    var landed := Segment(target.ordinal, target.lines + group);
    if Rolls(disk, at) {
      FlatMapSnoc(disk, landed, f);
      assert f(landed) == f(Segment(target.ordinal, group));
    } else {
      var front := disk[..|disk| - 1];
      LastSplit(disk);
      FlatMapSnoc(front, target, f);
      FlatMapSnoc(front, landed, f);
      Regroup(FlatMap(front, f), f(target), f(Segment(target.ordinal, group)));
    }
  }

  lemma {:induction false} AppendSites(disk: seq<LogSegment>, live: LogState, group: seq<Record>, at: Landing)
    requires disk != []
    ensures var appended := Append(disk, live, group, at);
            var landed := Segment(ActiveOrdinal(appended), group);
            && BodySites(appended) == BodySites(disk) + BodySitesIn(landed)
            && StampSites(appended) == StampSites(disk) + StampSitesIn(landed)
  {
    var target := Target(disk, live, at);
    SitesConcat(target.ordinal, target.lines, group);
    if Rolls(disk, at) { SitesOfHeader(target); }
    AppendPerSegment(disk, live, group, at, BodySitesIn, target);
    AppendPerSegment(disk, live, group, at, StampSitesIn, target);
  }

  lemma {:induction false} SitesWithin(disk: seq<LogSegment>, epoch: string, site: Site)
    requires disk != [] && WellFormedDisk(disk, epoch) && site in BodySites(disk)
    ensures site.ordinal <= ActiveOrdinal(disk)
  {
    FlatMapMember(disk, BodySitesIn, site);
    var s :| s in disk && site in BodySitesIn(s);
    var i :| 0 <= i < |disk| && disk[i] == s;
  }

  lemma {:induction false} StampSiteHasStamp(disk: seq<LogSegment>, site: Site)
    requires site in StampSites(disk)
    ensures exists st :: st in Stamps(Flat(disk)) && st.target == site.id
  {
    var front, last := disk[..|disk| - 1], disk[|disk| - 1];
    FlatMapConcat(Flat(front), last.lines, StampsIn);
    if site in StampSites(front) {
      StampSiteHasStamp(front, site);
      var st :| st in Stamps(Flat(front)) && st.target == site.id;
      assert st in Stamps(Flat(disk));
    } else {
      var i :| 0 <= i < |Stamps(last.lines)| && site.id == Stamps(last.lines)[i].target;
      assert Stamps(last.lines)[i] in Stamps(Flat(disk));
    }
  }

  lemma {:induction false} SitesOfGroup(s: LogSegment, site: Site)
    ensures site in BodySitesIn(s) ==> exists a :: a in Bodies(s.lines) && a.id == site.id
    ensures site in StampSitesIn(s) ==>
            site.ordinal == s.ordinal && exists st :: st in Stamps(s.lines) && st.target == site.id
  {
    if site in BodySitesIn(s) {
      var i :| 0 <= i < |Bodies(s.lines)| && site.id == Bodies(s.lines)[i].id;
      assert Bodies(s.lines)[i] in Bodies(s.lines);
    }
    if site in StampSitesIn(s) {
      var i :| 0 <= i < |Stamps(s.lines)| && site.id == Stamps(s.lines)[i].target;
      assert Stamps(s.lines)[i] in Stamps(s.lines);
    }
  }

  /** New stamps land in the active segment, and new bodies carry ids no stamp names. */
  lemma {:induction false} StampsStillFollow(disk: seq<LogSegment>, live: LogState, group: seq<Record>, at: Landing)
    requires disk != [] && WellFormedDisk(disk, live.epoch) && StampsFollowBodies(disk)
    requires forall a, st :: a in Bodies(group) && (st in Stamps(Flat(disk)) || st in Stamps(group)) ==>
             a.id != st.target
    ensures StampsFollowBodies(Append(disk, live, group, at))
  {
    var appended := Append(disk, live, group, at);
    var landed := Segment(ActiveOrdinal(appended), group);
    AppendSites(disk, live, group, at);
    forall b, st | b in BodySites(appended) && st in StampSites(appended) && b.id == st.id
      ensures b.ordinal <= st.ordinal
    {
      if st in StampSites(disk) { StampSiteHasStamp(disk, st); }
      SitesOfGroup(landed, b);
      SitesOfGroup(landed, st);
      if b in BodySites(disk) { SitesWithin(disk, live.epoch, b); }
    }
  }

  /** A quiet group leaves everything but the marks alone. */
  lemma {:induction false} QuietKeepsDisk(w: World, group: seq<Record>, at: Landing)
    requires Inv(w) && Quiet(group, w.history)
    ensures var disk := Append(w.disk, w.live, group, at);
            && DiskInv(disk, w.live.epoch, w.used, w.history)
            && Bodies(Flat(disk)) == Bodies(Flat(w.disk)) && Stamps(Flat(disk)) == Stamps(Flat(w.disk))
            && Receipts(Flat(disk)) == Receipts(Flat(w.disk)) + Receipts(group)
            && FloorOf(Flat(disk)) == RaiseTo(Some(w.live.floor), FlatMap(group, FloorsIn))
            && HighWatermark(Flat(disk)) == Highest(FlatMap(group, WatermarksIn), w.live.published)
  {
    AppendWellFormed(w.disk, w.live, group, at);
    AppendList(w.disk, w.live, group, at, BodiesIn);
    AppendList(w.disk, w.live, group, at, StampsIn);
    AppendList(w.disk, w.live, group, at, ReceiptsIn);
    AppendSeqs(w.disk, w.live, group, at);
    AppendWatermarks(w.disk, w.live, group, at);
    AppendFloor(w.disk, w.live, group, at);
    StampsStillFollow(w.disk, w.live, group, at);
    assert Bodies(Flat(w.disk)) + [] == Bodies(Flat(w.disk));
    assert Stamps(Flat(w.disk)) + [] == Stamps(Flat(w.disk));
  }

  lemma {:induction false} SingleIsQuiet(r: Record, history: seq<Entry>)
    requires r.Watermark? || r.HistoryFloor? || r.Repair?
    ensures Quiet([r], history)
    ensures FlatMap([r], FloorsIn) == FloorsIn(r) && FlatMap([r], WatermarksIn) == WatermarksIn(r)
    ensures Compactions([r]) == []
  {
    FlatMapOne(r, BodiesIn);
    FlatMapOne(r, StampsIn);
    FlatMapOne(r, ReceiptsIn);
    FlatMapOne(r, SeqsIn);
    FlatMapOne(r, FloorsIn);
    FlatMapOne(r, WatermarksIn);
    FlatMapOne(r, CompactionsIn);
  }

  /** Appending one record that states at most a mark keeps the invariant for the live state that states it too. */
  lemma {:induction false} MarkKeepsInv(
    w: World, r: Record, at: Landing, floor: Instant, published: int, millis: Instant)
    returns (next: World)
    requires Inv(w) && (r.Watermark? || r.HistoryFloor? || r.Repair?)
    requires RaiseTo(Some(w.live.floor), FloorsIn(r)) == Some(floor)
    requires Highest(WatermarksIn(r), w.live.published) == published
    requires millis >= w.live.lastMillis
    ensures next == World(Append(w.disk, w.live, [r], at),
                          w.live.(floor := floor, published := published, lastMillis := millis), w.used, w.history)
    ensures Inv(next)
  {
    SingleIsQuiet(r, w.history);
    QuietKeepsDisk(w, [r], at);
    next := World(Append(w.disk, w.live, [r], at),
                  w.live.(floor := floor, published := published, lastMillis := millis), w.used, w.history);
  }

  /** An operation that appends one such record and unlinks nothing. */
  lemma {:induction false} FinishMark(w: World, op: Operation, at: Landing)
    requires w.disk != [] && !op.DoCommit? && !op.DoCompact?
    ensures var e := EffectOf(w, op);
            Finish(w, op, at) ==
            World(if e.group == [] then w.disk else Append(w.disk, w.live, e.group, at), e.live, w.used, w.history)
  {
    var e := EffectOf(w, op);
    NothingUnlinked(Append(w.disk, w.live, e.group, at));
    assert w.used + {} == w.used;
  }

  lemma {:induction false} FeedKeepsInv(w: World, cursor: int, limit: nat, clock: Instant, at: Landing)
    returns (next: World)
    requires Inv(w)
    ensures next == Finish(w, DoFeed(cursor, limit, clock), at) && Inv(next)
  {
    var r := ChangesSince(w.live, cursor, limit, clock);
    FinishMark(w, DoFeed(cursor, limit, clock), at);
    if r.group == [] {
      next := w;
    } else {
      next := MarkKeepsInv(w, r.group[0], at, w.live.floor, r.state.published, r.state.lastMillis);
    }
  }

  lemma {:induction false} FloorKeepsInv(w: World, to: Instant, clock: Instant, at: Landing) returns (next: World)
    requires Inv(w)
    ensures next == Finish(w, DoFloor(to, clock), at) && Inv(next)
  {
    FinishFloor(w, to, clock, at);
    if to <= w.live.floor {
      next := w;
    } else {
      next := RaiseKeepsInv(w, to, StampNow(w.live, clock), at);
    }
  }

  lemma {:induction false} FinishFloor(w: World, to: Instant, clock: Instant, at: Landing)
    requires w.disk != []
    ensures var millis := StampNow(w.live, clock);
            Finish(w, DoFloor(to, clock), at) ==
            if to <= w.live.floor then w
            else World(Append(w.disk, w.live, [HistoryFloor(to, millis)], at),
                       w.live.(floor := to, lastMillis := millis), w.used, w.history)
  {
    FinishMark(w, DoFloor(to, clock), at);
  }

  lemma {:induction false} RaiseKeepsInv(w: World, to: Instant, millis: Instant, at: Landing) returns (next: World)
    requires Inv(w) && to > w.live.floor && millis >= w.live.lastMillis
    ensures next == World(Append(w.disk, w.live, [HistoryFloor(to, millis)], at),
                          w.live.(floor := to, lastMillis := millis), w.used, w.history)
    ensures Inv(next)
  {
    assert RaiseTo(Some(w.live.floor), [to]) == Some(to) && Highest([], w.live.published) == w.live.published;
    next := MarkKeepsInv(w, HistoryFloor(to, millis), at, to, w.live.published, millis);
  }

  lemma {:induction false} NothingUnlinked(disk: seq<LogSegment>)
    ensures Unlink(disk, OrdinalSet([])) == disk
  {
    assert OrdinalSet([]) == {};
    if disk != [] {
      NothingUnlinked(disk[..|disk| - 1]);
      assert disk == disk[..|disk| - 1] + [disk[|disk| - 1]];
    }
  }

  // ------------------------------------------------------------------- commits

  /** The parts a successful commit is made of. */
  datatype Committing = Committing(minted: seq<Assertion>, stamps: seq<Stamp>, receipt: Receipt)

  function PartsOf(s: LogState, input: CommitInput, mint: Mint): Committing
    requires |mint.ids| == |input.drafts|
  {
    var at := StampNow(s, mint.clock);
    Committing(Minted(s, input, mint.ids, at), Effective(s.assertions, Requested(input.drafts, mint.ids, at)),
               ReceiptOf(input, mint, at))
  }

  function CommittedLive(s: LogState, c: Committing): LogState {
    s.(assertions := ApplyStamps(s.assertions + c.minted, c.stamps),
       submissions := s.submissions[KeyOf(c.receipt) := c.receipt],
       nextSeq := s.nextSeq + |c.receipt.assertionIds|,
       lastMillis := c.receipt.committedAt)
  }

  /** What a successful commit has established about its parts. */
  ghost predicate Sound(s: LogState, c: Committing) {
    && |c.minted| == |c.receipt.assertionIds|
    && (forall i :: 0 <= i < |c.minted| ==>
          && c.minted[i].id == c.receipt.assertionIds[i] && c.minted[i].seqNo == s.nextSeq + i
          && Unstamped(c.minted[i]) == c.minted[i] && c.minted[i].recordedAt == c.receipt.committedAt)
    && (forall i, j :: 0 <= i < j < |c.stamps| ==> c.stamps[i].target != c.stamps[j].target)
    && (forall st :: st in c.stamps ==> Believed(s.assertions, st.target) && st.at == c.receipt.committedAt)
    && c.receipt.committedAt > s.lastMillis
    && KeyOf(c.receipt) !in s.submissions
  }

  lemma {:induction false} CommitIsSound(s: LogState, input: CommitInput, mint: Mint)
    requires |mint.ids| == |input.drafts| && Commit(s, input, mint).outcome.Committed?
    ensures var c := PartsOf(s, input, mint);
            && Sound(s, c) && c.receipt.assertionIds == mint.ids
            && Commit(s, input, mint) ==
               CommitResult(CommittedLive(s, c), Committed(c.receipt), CommitGroup(c.minted, c.stamps, c.receipt))
  {
    var at := StampNow(s, mint.clock);
    RequestedAt(input.drafts, mint.ids, at);
    EffectiveStamps(s.assertions, Requested(input.drafts, mint.ids, at));
  }

  lemma {:induction false} FinishCommit(w: World, input: CommitInput, mint: Mint, at: Landing)
    requires w.disk != [] && Minting(w, DoCommit(input, mint))
    ensures var r, used := Commit(w.live, input, mint), w.used + IdSet(mint.ids);
            Finish(w, DoCommit(input, mint), at) ==
            if r.outcome.Committed? then
              World(Append(w.disk, w.live, r.group, at), r.state, used,
                    w.history + [Entry(r.outcome.receipt, w.live.nextSeq)])
            else World(w.disk, r.state, used, w.history)
  {
    NothingUnlinked(Append(w.disk, w.live, Commit(w.live, input, mint).group, at));
  }

  lemma {:induction false} CommitBodies(
    bodies: seq<Assertion>, used: set<AssertionId>, high: int, s: LogState, c: Committing)
    requires BodiesInv(bodies, used) && Sound(s, c)
    requires s.nextSeq == high + 1 && forall i :: 0 <= i < |bodies| ==> bodies[i].seqNo <= high
    requires forall i :: 0 <= i < |c.minted| ==> c.minted[i].id !in used
    requires forall i, j :: 0 <= i < j < |c.minted| ==> c.minted[i].id != c.minted[j].id
    ensures BodiesInv(bodies + c.minted, used + IdSet(c.receipt.assertionIds))
  {
  }

  /** A target the live store still believes has no stamp anywhere on disk. */
  lemma {:induction false} BelievedIsUnstamped(
    live: seq<Assertion>, bodies: seq<Assertion>, stamps: seq<Stamp>, id: AssertionId)
    requires Shadows(live, bodies, stamps) && Believed(live, id)
    ensures FirstStamp(stamps, id).None? && Known(bodies, id)
  {
    var a :| a in live && a.id == id && a.supersededAt.None?;
    var i :| 0 <= i < |live| && live[i] == a;
    assert bodies[i].id == id && bodies[i] in bodies;
  }

  lemma {:induction false} CommitStamps(
    live: seq<Assertion>, bodies: seq<Assertion>, stamps: seq<Stamp>, used: set<AssertionId>, more: seq<Stamp>)
    requires Shadows(live, bodies, stamps) && BodiesInv(bodies, used) && StampsInv(stamps, used)
    requires forall st :: st in more ==> Believed(live, st.target)
    requires forall i, j :: 0 <= i < j < |more| ==> more[i].target != more[j].target
    ensures StampsInv(stamps + more, used)
  {
    forall st | st in more
      ensures st.target in used && forall k :: 0 <= k < |stamps| ==> stamps[k].target != st.target
    {
      BelievedIsUnstamped(live, bodies, stamps, st.target);
      FirstStampFound(stamps, st.target);
      var b :| b in bodies && b.id == st.target;
      var i :| 0 <= i < |bodies| && bodies[i] == b;
    }
  }

  /** One older assertion, after the commit's stamps. */
  lemma {:induction false} ShadowStamped(a: Assertion, body: Assertion, stamps: seq<Stamp>, more: seq<Stamp>)
    requires Unstamped(a) == body == Unstamped(body)
    requires a.supersededAt.None? ==> a == body
    requires FirstStamp(stamps, body.id).Some? ==> a == Stamped(body, stamps)
    requires FirstStamp(more, body.id).Some? ==> a.supersededAt.None?
    ensures var b := Stamped(a, more);
            && Unstamped(b) == body && (b.supersededAt.None? ==> b == body)
            && (FirstStamp(stamps + more, body.id).Some? ==> b == Stamped(body, stamps + more))
  {
    FirstStampConcat(stamps, more, body.id);
  }

  lemma {:induction false} CommitShadows(
    live: seq<Assertion>, bodies: seq<Assertion>, stamps: seq<Stamp>, used: set<AssertionId>,
    minted: seq<Assertion>, more: seq<Stamp>)
    requires Shadows(live, bodies, stamps) && BodiesInv(bodies, used) && StampsInv(stamps, used)
    requires StampsInv(stamps + more, used)
    requires forall st :: st in more ==> Believed(live, st.target)
    requires forall i :: 0 <= i < |minted| ==> Unstamped(minted[i]) == minted[i] && minted[i].id !in used
    ensures Shadows(ApplyStamps(live + minted, more), bodies + minted, stamps + more)
  {
    var after, all := ApplyStamps(live + minted, more), stamps + more;
    forall i | 0 <= i < |after|
      ensures var body := (bodies + minted)[i];
              && Unstamped(after[i]) == body && (after[i].supersededAt.None? ==> after[i] == body)
              && (FirstStamp(all, body.id).Some? ==> after[i] == Stamped(body, all))
    {
      if i < |live| {
        FirstStampFound(more, bodies[i].id);
        if FirstStamp(more, bodies[i].id).Some? { OnlyOneIsBelieved(live, bodies, used, i); }
        ShadowStamped(live[i], bodies[i], stamps, more);
      } else {
        FirstStampFound(all, minted[i - |live|].id);
        FirstStampConcat(stamps, more, minted[i - |live|].id);
      }
    }
  }

  lemma {:induction false} OnlyOneIsBelieved(
    live: seq<Assertion>, bodies: seq<Assertion>, used: set<AssertionId>, i: nat)
    requires |live| == |bodies| && BodiesInv(bodies, used) && i < |live|
    requires forall k :: 0 <= k < |live| ==> Unstamped(live[k]) == bodies[k]
    requires Believed(live, bodies[i].id)
    ensures live[i].supersededAt.None?
  {
    var a :| a in live && a.id == bodies[i].id && a.supersededAt.None?;
    var k :| 0 <= k < |live| && live[k] == a;
    assert bodies[k].id == bodies[i].id;
  }

  lemma {:induction false} CommitHighSeq(s: LogState, c: Committing, high: int)
    requires Sound(s, c) && s.nextSeq == high + 1 && high >= 0
    ensures Highest(SeqNos(c.minted), high) == high + |c.minted|
  {
    if c.minted != [] { assert SeqNos(c.minted)[|c.minted| - 1] == high + |c.minted|; }
  }

  lemma {:induction false} CommitDisk(w: World, c: Committing, at: Landing)
    requires DiskInv(w.disk, w.live.epoch, w.used, w.history) && LiveInv(w.live, w.disk, w.history) && Sound(w.live, c)
    requires forall i :: 0 <= i < |c.minted| ==> c.minted[i].id !in w.used
    requires forall i, j :: 0 <= i < j < |c.minted| ==> c.minted[i].id != c.minted[j].id
    ensures var disk := Append(w.disk, w.live, CommitGroup(c.minted, c.stamps, c.receipt), at);
            var used := w.used + IdSet(c.receipt.assertionIds);
            && WellFormedDisk(disk, w.live.epoch)
            && Bodies(Flat(disk)) == Bodies(Flat(w.disk)) + c.minted
            && Stamps(Flat(disk)) == Stamps(Flat(w.disk)) + c.stamps
            && Receipts(Flat(disk)) == Receipts(Flat(w.disk)) + [c.receipt]
            && BodiesInv(Bodies(Flat(disk)), used) && StampsInv(Stamps(Flat(disk)), used)
            && StampsInv(Stamps(Flat(disk)), w.used)
            && HighSeq(Flat(disk)) == Issued(w.history) + |c.minted|
  {
    var group := CommitGroup(c.minted, c.stamps, c.receipt);
    CommitGroupLists(c.minted, c.stamps, c.receipt);
    CommitGroupMarks(c.minted, c.stamps, c.receipt);
    CommitGroupWritable(c.minted, c.stamps, c.receipt);
    AppendWellFormed(w.disk, w.live, group, at);
    AppendList(w.disk, w.live, group, at, BodiesIn);
    AppendList(w.disk, w.live, group, at, StampsIn);
    AppendList(w.disk, w.live, group, at, ReceiptsIn);
    AppendSeqs(w.disk, w.live, group, at);
    forall b | b in Bodies(Flat(w.disk)) ensures b.seqNo <= HighSeq(Flat(w.disk)) { BodySeqBounded(Flat(w.disk), b); }
    CommitBodies(Bodies(Flat(w.disk)), w.used, HighSeq(Flat(w.disk)), w.live, c);
    CommitStamps(w.live.assertions, Bodies(Flat(w.disk)), Stamps(Flat(w.disk)), w.used, c.stamps);
    CommitHighSeq(w.live, c, HighSeq(Flat(w.disk)));
  }

  lemma {:induction false} CommitFollows(w: World, c: Committing, at: Landing)
    requires DiskInv(w.disk, w.live.epoch, w.used, w.history) && LiveInv(w.live, w.disk, w.history) && Sound(w.live, c)
    requires forall i :: 0 <= i < |c.minted| ==> c.minted[i].id !in w.used
    ensures StampsFollowBodies(Append(w.disk, w.live, CommitGroup(c.minted, c.stamps, c.receipt), at))
  {
    CommitGroupLists(c.minted, c.stamps, c.receipt);
    CommitStamps(w.live.assertions, Bodies(Flat(w.disk)), Stamps(Flat(w.disk)), w.used, c.stamps);
    forall a, st | a in c.minted && (st in Stamps(Flat(w.disk)) || st in c.stamps) ensures a.id != st.target {
      assert st in Stamps(Flat(w.disk)) + c.stamps;
    }
    StampsStillFollow(w.disk, w.live, CommitGroup(c.minted, c.stamps, c.receipt), at);
  }

  lemma {:induction false} CommitMarks(w: World, c: Committing, at: Landing)
    requires LiveInv(w.live, w.disk, w.history) && w.disk != []
    ensures var disk := Append(w.disk, w.live, CommitGroup(c.minted, c.stamps, c.receipt), at);
            FloorOf(Flat(disk)) == Some(w.live.floor) && HighWatermark(Flat(disk)) == w.live.published
  {
    CommitGroupMarks(c.minted, c.stamps, c.receipt);
    AppendFloor(w.disk, w.live, CommitGroup(c.minted, c.stamps, c.receipt), at);
    AppendWatermarks(w.disk, w.live, CommitGroup(c.minted, c.stamps, c.receipt), at);
  }

  lemma {:induction false} CommitHistory(w: World, c: Committing)
    requires DiskInv(w.disk, w.live.epoch, w.used, w.history) && LiveInv(w.live, w.disk, w.history) && Sound(w.live, c)
    ensures var history := w.history + [Entry(c.receipt, w.live.nextSeq)];
            && HistoryInv(history) && Issued(history) == Issued(w.history) + |c.minted|
            && ReceiptsInv(Receipts(Flat(w.disk)) + [c.receipt], history)
            && Indexes(w.live.submissions[KeyOf(c.receipt) := c.receipt], history)
            && forall i :: 0 <= i < |history| ==> history[i].receipt.committedAt <= c.receipt.committedAt
  {
    HistorySnoc(w.history, Entry(c.receipt, w.live.nextSeq));
    IndexesSnoc(w.live.submissions, w.history, Entry(c.receipt, w.live.nextSeq));
  }

  function CommittedWorld(w: World, c: Committing, at: Landing): World
    requires w.disk != []
  {
    World(Append(w.disk, w.live, CommitGroup(c.minted, c.stamps, c.receipt), at), CommittedLive(w.live, c),
          w.used + IdSet(c.receipt.assertionIds), w.history + [Entry(c.receipt, w.live.nextSeq)])
  }

  ghost predicate FreshParts(w: World, c: Committing) {
    && (forall i :: 0 <= i < |c.minted| ==> c.minted[i].id !in w.used)
    && (forall i, j :: 0 <= i < j < |c.minted| ==> c.minted[i].id != c.minted[j].id)
  }

  lemma {:induction false} CommittedDiskInv(w: World, c: Committing, at: Landing)
    requires DiskInv(w.disk, w.live.epoch, w.used, w.history) && LiveInv(w.live, w.disk, w.history)
    requires Sound(w.live, c) && FreshParts(w, c)
    ensures var next := CommittedWorld(w, c, at); DiskInv(next.disk, next.live.epoch, next.used, next.history)
  {
    CommitDisk(w, c, at);
    CommitFollows(w, c, at);
    CommitHistory(w, c);
  }

  lemma {:induction false} CommittedLiveInv(w: World, c: Committing, at: Landing)
    requires DiskInv(w.disk, w.live.epoch, w.used, w.history) && LiveInv(w.live, w.disk, w.history)
    requires Sound(w.live, c) && FreshParts(w, c)
    ensures var next := CommittedWorld(w, c, at); LiveInv(next.live, next.disk, next.history)
  {
    CommitDisk(w, c, at);
    CommitMarks(w, c, at);
    CommitHistory(w, c);
    CommitShadows(w.live.assertions, Bodies(Flat(w.disk)), Stamps(Flat(w.disk)), w.used, c.minted, c.stamps);
  }

  lemma {:induction false} CommittedKeepsInv(w: World, c: Committing, at: Landing)
    requires Inv(w) && Sound(w.live, c) && FreshParts(w, c)
    ensures Inv(CommittedWorld(w, c, at))
  {
    CommittedDiskInv(w, c, at);
    CommittedLiveInv(w, c, at);
  }

  lemma {:induction false} CommitKeepsInv(w: World, input: CommitInput, mint: Mint, at: Landing) returns (next: World)
    requires Inv(w) && Minting(w, DoCommit(input, mint))
    ensures next == Finish(w, DoCommit(input, mint), at) && Inv(next)
  {
    if Commit(w.live, input, mint).outcome.Committed? {
      var c := FinishCommitted(w, input, mint, at);
      CommittedKeepsInv(w, c, at);
      next := CommittedWorld(w, c, at);
    } else {
      var millis := FinishRefused(w, input, mint, at);
      next := RefusedKeepsInv(w, millis, IdSet(mint.ids));
    }
  }

  lemma {:induction false} FinishCommitted(w: World, input: CommitInput, mint: Mint, at: Landing)
    returns (c: Committing)
    requires w.disk != [] && Minting(w, DoCommit(input, mint)) && Commit(w.live, input, mint).outcome.Committed?
    ensures c == PartsOf(w.live, input, mint) && Sound(w.live, c) && FreshParts(w, c)
    ensures Finish(w, DoCommit(input, mint), at) == CommittedWorld(w, c, at)
  {
    c := PartsOf(w.live, input, mint);
    CommitIsSound(w.live, input, mint);
    FinishCommit(w, input, mint, at);
  }

  lemma {:induction false} FinishRefused(w: World, input: CommitInput, mint: Mint, at: Landing)
    returns (millis: Instant)
    requires w.disk != [] && Minting(w, DoCommit(input, mint)) && !Commit(w.live, input, mint).outcome.Committed?
    ensures millis >= w.live.lastMillis && Commit(w.live, input, mint).group == []
    ensures Commit(w.live, input, mint).state == w.live.(lastMillis := millis)
    ensures Finish(w, DoCommit(input, mint), at) ==
            World(w.disk, w.live.(lastMillis := millis), w.used + IdSet(mint.ids), w.history)
  {
    FinishCommit(w, input, mint, at);
    millis := Commit(w.live, input, mint).state.lastMillis;
  }

  /** A commit that appends nothing still burns its minted ids, and perhaps an instant. */
  lemma {:induction false} RefusedKeepsInv(w: World, millis: Instant, more: set<AssertionId>) returns (next: World)
    requires Inv(w) && millis >= w.live.lastMillis
    ensures next == World(w.disk, w.live.(lastMillis := millis), w.used + more, w.history) && Inv(next)
  {
    UsedGrows(w.disk, w.live.epoch, w.used, more, w.history);
    next := World(w.disk, w.live.(lastMillis := millis), w.used + more, w.history);
  }
}
