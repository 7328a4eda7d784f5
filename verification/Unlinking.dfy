/** What unlinking whole segments does to everything that is read off the disk. */
module Unlinking {
  import opened Wrappers
  import opened Sequences
  import opened LogRecords
  import opened Store
  import opened SegmentScan
  import opened Recovery
  import opened LogWorld
  import opened Appending
  import opened LogInvariant

  // ------------------------------------------------------------------ membership

  lemma {:induction false} FlatMember<B>(disk: seq<LogSegment>, f: Record -> seq<B>, x: B)
    ensures x in FlatMap(Flat(disk), f) <==> exists s :: s in disk && x in FlatMap(s.lines, f)
  {
    if disk != [] {
      var front, last := disk[..|disk| - 1], disk[|disk| - 1];
      LastSplit(disk);
      FlatMember(front, f, x);
      FlatMapConcat(Flat(front), last.lines, f);
    }
  }

  /** What the surviving segments hold is what the disk still holds. */
  lemma {:induction false} UnlinkedMember<B>(disk: seq<LogSegment>, gone: set<int>, f: Record -> seq<B>, x: B)
    ensures x in FlatMap(Flat(Unlink(disk, gone)), f) <==>
            exists s :: s in disk && s.ordinal !in gone && x in FlatMap(s.lines, f)
  {
    FlatMember(Unlink(disk, gone), f, x);
    forall s | s in disk ensures s in Unlink(disk, gone) <==> s.ordinal !in gone { UnlinkMember(disk, gone, s); }
    forall s | s in Unlink(disk, gone) ensures s in disk { UnlinkMember(disk, gone, s); }
  }

  lemma {:induction false} UnlinkedSubset<B>(disk: seq<LogSegment>, gone: set<int>, f: Record -> seq<B>)
    ensures forall x :: x in FlatMap(Flat(Unlink(disk, gone)), f) ==> x in FlatMap(Flat(disk), f)
  {
    forall x | x in FlatMap(Flat(Unlink(disk, gone)), f) ensures x in FlatMap(Flat(disk), f) {
      UnlinkedMember(disk, gone, f, x);
      FlatMember(disk, f, x);
    }
  }

  // ------------------------------------------------------------- highest marks

  /** A mark stated in a surviving segment outlives the rest. */
  lemma {:induction false} HighestSurvives(
    disk: seq<LogSegment>, gone: set<int>, f: Record -> seq<int>, base: int, keeper: LogSegment)
    requires keeper in disk && keeper.ordinal !in gone
    requires Highest(FlatMap(Flat(disk), f), base) in FlatMap(keeper.lines, f)
    ensures Highest(FlatMap(Flat(Unlink(disk, gone)), f), base) == Highest(FlatMap(Flat(disk), f), base)
  {
    var high := Highest(FlatMap(Flat(disk), f), base);
    UnlinkedMember(disk, gone, f, high);
    UnlinkedSubset(disk, gone, f);
  }

  lemma {:induction false} FloorIsHighest(rs: seq<Record>, floor: Instant)
    ensures FloorOf(rs) == Some(floor) <==>
            floor in FlatMap(rs, FloorsIn) && forall x :: x in FlatMap(rs, FloorsIn) ==> x <= floor
  {
    var floors := FlatMap(rs, FloorsIn);
    if floors != [] {
      var high := Highest(floors, floors[0]);
      assert high in floors && FloorOf(rs) == Some(high);
    }
  }

  lemma {:induction false} FloorSurvives(disk: seq<LogSegment>, gone: set<int>, floor: Instant, keeper: LogSegment)
    requires keeper in disk && keeper.ordinal !in gone
    requires FloorOf(Flat(disk)) == Some(floor) && floor in FlatMap(keeper.lines, FloorsIn)
    ensures FloorOf(Flat(Unlink(disk, gone))) == Some(floor)
  {
    FloorIsHighest(Flat(disk), floor);
    FloorIsHighest(Flat(Unlink(disk, gone)), floor);
    UnlinkedMember(disk, gone, FloorsIn, floor);
    UnlinkedSubset(disk, gone, FloorsIn);
  }

  // ---------------------------------------------------------- well-formedness

  lemma {:induction false} UnlinkWellFormed(disk: seq<LogSegment>, epoch: string, gone: set<int>)
    requires WellFormedDisk(disk, epoch)
    ensures WellFormedDisk(Unlink(disk, gone), epoch)
  {
    var kept := Unlink(disk, gone);
    if disk != [] {
      var front, last := disk[..|disk| - 1], disk[|disk| - 1];
      UnlinkWellFormed(front, epoch, gone);
      forall s | s in Unlink(front, gone) ensures s.ordinal < last.ordinal {
        UnlinkMember(front, gone, s);
        var i :| 0 <= i < |front| && front[i] == s;
        assert disk[i] == s;
      }
    }
  }

  // ------------------------------------------------------------------- bodies

  lemma {:induction false} WithoutConcat(xs: seq<Assertion>, ys: seq<Assertion>, gone: set<AssertionId>)
    ensures Without(xs + ys, gone) == Without(xs, gone) + Without(ys, gone)
  {
    if ys == [] {
      assert xs + ys == xs;
    } else {
      assert (xs + ys)[..|xs + ys| - 1] == xs + ys[..|ys| - 1];
      WithoutConcat(xs, ys[..|ys| - 1], gone);
    }
  }

  lemma {:induction false} WithoutNoneOrAll(xs: seq<Assertion>, gone: set<AssertionId>)
    ensures (forall i :: 0 <= i < |xs| ==> xs[i].id !in gone) ==> Without(xs, gone) == xs
    ensures (forall i :: 0 <= i < |xs| ==> xs[i].id in gone) ==> Without(xs, gone) == []
  {
    if xs != [] {
      WithoutNoneOrAll(xs[..|xs| - 1], gone);
      assert xs == xs[..|xs| - 1] + [xs[|xs| - 1]];
    }
  }

  lemma {:induction false} WithoutMember(xs: seq<Assertion>, gone: set<AssertionId>, a: Assertion)
    ensures a in Without(xs, gone) <==> a in xs && a.id !in gone
  {
    if xs != [] {
      assert xs == xs[..|xs| - 1] + [xs[|xs| - 1]];
      WithoutMember(xs[..|xs| - 1], gone, a);
    }
  }

  lemma {:induction false} WithoutBodiesInv(bodies: seq<Assertion>, used: set<AssertionId>, gone: set<AssertionId>)
    requires BodiesInv(bodies, used)
    ensures BodiesInv(Without(bodies, gone), used)
  {
    if bodies != [] {
      var front, last := bodies[..|bodies| - 1], bodies[|bodies| - 1];
      WithoutBodiesInv(front, used, gone);
      forall a | a in Without(front, gone) ensures a.seqNo < last.seqNo && a.id != last.id {
        WithoutMember(front, gone, a);
        var i :| 0 <= i < |front| && front[i] == a;
        assert bodies[i] == a;
      }
      assert last.id in used && Unstamped(last) == last;
    }
  }

  /** Sites run parallel to bodies: same ids in the same order. */
  lemma {:induction false} SitesParallel(disk: seq<LogSegment>)
    ensures |BodySites(disk)| == |Bodies(Flat(disk))|
    ensures forall i :: 0 <= i < |BodySites(disk)| ==> BodySites(disk)[i].id == Bodies(Flat(disk))[i].id
  {
    if disk != [] {
      var front, last := disk[..|disk| - 1], disk[|disk| - 1];
      SitesParallel(front);
      FlatMapConcat(Flat(front), last.lines, BodiesIn);
    }
  }

  /** The ids whose bodies go with the unlinked segments. */
  function GoneIds(disk: seq<LogSegment>, gone: set<int>): set<AssertionId> {
    set site | site in BodySites(disk) && site.ordinal in gone :: site.id
  }

  lemma {:induction false} GoneIdsExact(disk: seq<LogSegment>, used: set<AssertionId>, gone: set<int>)
    requires BodiesInv(Bodies(Flat(disk)), used)
    ensures forall site :: site in BodySites(disk) ==> (site.id in GoneIds(disk, gone) <==> site.ordinal in gone)
  {
    SitesParallel(disk);
    var sites, bodies := BodySites(disk), Bodies(Flat(disk));
    forall site, other | site in sites && other in sites && site.id == other.id ensures site == other {
      var i :| 0 <= i < |sites| && sites[i] == site;
      var j :| 0 <= j < |sites| && sites[j] == other;
      assert bodies[i].id == bodies[j].id;
    }
  }

  lemma {:induction false} UnlinkBodies(disk: seq<LogSegment>, gone: set<int>, ids: set<AssertionId>)
    requires forall site :: site in BodySites(disk) ==> (site.id in ids <==> site.ordinal in gone)
    ensures Bodies(Flat(Unlink(disk, gone))) == Without(Bodies(Flat(disk)), ids)
  {
    if disk != [] {
      var front, last := disk[..|disk| - 1], disk[|disk| - 1];
      UnlinkBodies(front, gone, ids);
      FlatMapConcat(Flat(front), last.lines, BodiesIn);
      WithoutConcat(Bodies(Flat(front)), Bodies(last.lines), ids);
      forall i | 0 <= i < |Bodies(last.lines)| ensures Bodies(last.lines)[i].id in ids <==> last.ordinal in gone {
        assert BodySitesIn(last)[i] in BodySites(disk);
      }
      WithoutNoneOrAll(Bodies(last.lines), ids);
      if last.ordinal !in gone {
        FlatSnoc(Unlink(front, gone), last);
        FlatMapConcat(Flat(Unlink(front, gone)), last.lines, BodiesIn);
      }
    }
  }

  // ------------------------------------------------------------------- stamps

  lemma {:induction false} UnlinkStamps(disk: seq<LogSegment>, used: set<AssertionId>, gone: set<int>)
    requires StampsInv(Stamps(Flat(disk)), used)
    ensures StampsInv(Stamps(Flat(Unlink(disk, gone))), used)
  {
    if disk != [] {
      var front, last := disk[..|disk| - 1], disk[|disk| - 1];
      FlatMapConcat(Flat(front), last.lines, StampsIn);
      var earlier, later := Stamps(Flat(front)), Stamps(last.lines);
      DistinctParts(earlier, later, used);
      UnlinkStamps(front, used, gone);
      UnlinkedSubset(front, gone, StampsIn);
      if last.ordinal !in gone {
        FlatSnoc(Unlink(front, gone), last);
        FlatMapConcat(Flat(Unlink(front, gone)), last.lines, StampsIn);
        DistinctWhole(Stamps(Flat(Unlink(front, gone))), later, used);
      }
    }
  }

  lemma {:induction false} DistinctParts(xs: seq<Stamp>, ys: seq<Stamp>, used: set<AssertionId>)
    requires StampsInv(xs + ys, used)
    ensures StampsInv(xs, used) && StampsInv(ys, used)
    ensures forall x, y :: x in xs && y in ys ==> x.target != y.target
  {
    var all := xs + ys;
    assert forall i :: 0 <= i < |xs| ==> all[i] == xs[i];
    assert forall i :: 0 <= i < |ys| ==> all[|xs| + i] == ys[i];
  }

  lemma {:induction false} DistinctWhole(xs: seq<Stamp>, ys: seq<Stamp>, used: set<AssertionId>)
    requires StampsInv(xs, used) && StampsInv(ys, used)
    requires forall x, y :: x in xs && y in ys ==> x.target != y.target
    ensures StampsInv(xs + ys, used)
  {
  }

  /** With one stamp per target, a lookup is membership. */
  lemma {:induction false} FirstStampIsThe(stamps: seq<Stamp>, used: set<AssertionId>, st: Stamp)
    requires StampsInv(stamps, used) && st in stamps
    ensures FirstStamp(stamps, st.target) == Some(st)
  {
    FirstStampFound(stamps, st.target);
    var found := FirstStamp(stamps, st.target).value;
    var i :| 0 <= i < |stamps| && stamps[i] == st;
    var j :| 0 <= j < |stamps| && stamps[j] == found;
  }

  /** A lookup after unlinking finds what it found before, or nothing. */
  lemma {:induction false} UnlinkedStamp(disk: seq<LogSegment>, used: set<AssertionId>, gone: set<int>, id: AssertionId)
    requires StampsInv(Stamps(Flat(disk)), used)
    ensures FirstStamp(Stamps(Flat(Unlink(disk, gone))), id).Some? ==>
            FirstStamp(Stamps(Flat(Unlink(disk, gone))), id) == FirstStamp(Stamps(Flat(disk)), id)
  {
    var after := Stamps(Flat(Unlink(disk, gone)));
    FirstStampFound(after, id);
    UnlinkedSubset(disk, gone, StampsIn);
    if FirstStamp(after, id).Some? { FirstStampIsThe(Stamps(Flat(disk)), used, FirstStamp(after, id).value); }
  }

  // ------------------------------------------------------------ sites and receipts

  lemma {:induction false} UnlinkedSites(disk: seq<LogSegment>, gone: set<int>)
    ensures forall site :: site in BodySites(Unlink(disk, gone)) <==> site in BodySites(disk) && site.ordinal !in gone
    ensures forall site :: site in StampSites(Unlink(disk, gone)) <==> site in StampSites(disk) && site.ordinal !in gone
  {
    forall s ensures s in Unlink(disk, gone) <==> s in disk && s.ordinal !in gone { UnlinkMember(disk, gone, s); }
    forall site ensures site in BodySites(Unlink(disk, gone)) <==> site in BodySites(disk) && site.ordinal !in gone {
      FlatMapMember(Unlink(disk, gone), BodySitesIn, site);
      FlatMapMember(disk, BodySitesIn, site);
    }
    forall site ensures site in StampSites(Unlink(disk, gone)) <==> site in StampSites(disk) && site.ordinal !in gone {
      FlatMapMember(Unlink(disk, gone), StampSitesIn, site);
      FlatMapMember(disk, StampSitesIn, site);
    }
  }

  /** A segment carries what the doomed ones hold: their receipts, and the highest seq. */
  ghost predicate Carries(keeper: LogSegment, disk: seq<LogSegment>, gone: set<int>) {
    && (forall s, r :: s in disk && s.ordinal in gone && r in Receipts(s.lines) ==> r in Receipts(keeper.lines))
    && HighSeq(Flat(disk)) in FlatMap(keeper.lines, SeqsIn)
  }

  lemma {:induction false} UnlinkedReceipts(
    disk: seq<LogSegment>, gone: set<int>, keeper: LogSegment, history: seq<Entry>)
    requires keeper in disk && keeper.ordinal !in gone && Carries(keeper, disk, gone)
    requires ReceiptsInv(Receipts(Flat(disk)), history)
    ensures ReceiptsInv(Receipts(Flat(Unlink(disk, gone))), history)
  {
    forall r ensures r in Receipts(Flat(Unlink(disk, gone))) <==> InHistory(history, r) {
      UnlinkedMember(disk, gone, ReceiptsIn, r);
      FlatMember(disk, ReceiptsIn, r);
      if r in Receipts(Flat(disk)) {
        var s :| s in disk && r in FlatMap(s.lines, ReceiptsIn);
        var holder := if s.ordinal in gone then keeper else s;
        assert r in Receipts(s.lines) && r in Receipts(holder.lines);
        assert Receipts(holder.lines) == FlatMap(holder.lines, ReceiptsIn);
      }
    }
  }

  /** Unlinking segments whose receipts and marks a survivor carries keeps the disk invariant. */
  lemma {:induction false} UnlinkKeepsDisk(
    disk: seq<LogSegment>, epoch: string, used: set<AssertionId>, history: seq<Entry>, gone: set<int>,
    keeper: LogSegment)
    requires DiskInv(disk, epoch, used, history)
    requires keeper in disk && keeper.ordinal !in gone && Carries(keeper, disk, gone)
    ensures DiskInv(Unlink(disk, gone), epoch, used, history)
    ensures Bodies(Flat(Unlink(disk, gone))) == Without(Bodies(Flat(disk)), GoneIds(disk, gone))
  {
    UnlinkWellFormed(disk, epoch, gone);
    UnlinkMember(disk, gone, keeper);
    GoneIdsExact(disk, used, gone);
    UnlinkBodies(disk, gone, GoneIds(disk, gone));
    WithoutBodiesInv(Bodies(Flat(disk)), used, GoneIds(disk, gone));
    UnlinkStamps(disk, used, gone);
    UnlinkedSites(disk, gone);
    UnlinkedReceipts(disk, gone, keeper, history);
    HighestSurvives(disk, gone, SeqsIn, 0, keeper);
  }
}
