/**
 Reopening after a compaction, whole or interrupted: exactly when the reload is
 still the live store, and what a reload gives either way.

 A compaction carries receipts and marks forward, but neither stamps nor the
 notes of earlier compactions. So a reload believes the same assertions exactly
 when no stamp is unlinked while the body it stamps stays, remembers the same
 reclaimed ids exactly when each is named by a surviving record, and says the same
 of them exactly when the latest surviving record does.
 */
module CompactedReopening {
  import opened Wrappers
  import opened Sequences
  import opened LogRecords
  import opened Store
  import opened SegmentScan
  import opened Recovery
  import opened LogWorld
  import opened Appending
  import opened LogInvariant
  import opened CommitSteps
  import opened Unlinking
  import opened CompactionSteps
  import opened LogRuns
  import opened Reopening

  /** No stamp is unlinked while the body it stamps stays. */
  ghost predicate StampsStay(disk: seq<LogSegment>, gone: set<int>) {
    forall b, st :: b in BodySites(disk) && st in StampSites(disk) && b.id == st.id && st.ordinal in gone ==>
      b.ordinal in gone
  }

  /** Every id already reclaimed is named by a record that stays. */
  ghost predicate StillNamed(w: World, gone: set<int>) {
    forall id :: id in w.live.reclaimed ==> id in Named(Flat(Unlink(w.disk, gone)))
  }

  /** What the latest surviving record says of every id already reclaimed is what a reader is told now. */
  ghost predicate NotesStay(w: World, gone: set<int>) {
    Recalls(Notes(Flat(Unlink(w.disk, gone))), w.live.reclaimed)
  }

  ghost predicate Recalls(kept: map<AssertionId, Note>, live: map<AssertionId, Note>) {
    forall id :: id in live.Keys ==>
      id in kept && kept[id].seqNo == live[id].seqNo && kept[id].reclaimedAt == live[id].reclaimedAt
  }

  /** No record that goes names an id already reclaimed. */
  ghost predicate NamesNoReclaimed(w: World, gone: set<int>) {
    forall s, id :: s in w.disk && s.ordinal in gone && id in Named(s.lines) ==> id !in w.live.reclaimed
  }

  // -------------------------------------------------------------- stamps and sites

  lemma {:induction false} StampSitesParallel(disk: seq<LogSegment>)
    ensures |StampSites(disk)| == |Stamps(Flat(disk))|
    ensures forall i :: 0 <= i < |StampSites(disk)| ==> StampSites(disk)[i].id == Stamps(Flat(disk))[i].target
  {
    if disk != [] {
      var front, last := disk[..|disk| - 1], disk[|disk| - 1];
      StampSitesParallel(front);
      FlatMapConcat(Flat(front), last.lines, StampsIn);
    }
  }

  lemma {:induction false} StampHasSite(disk: seq<LogSegment>, id: AssertionId)
    ensures FirstStamp(Stamps(Flat(disk)), id).Some? <==> exists site :: site in StampSites(disk) && site.id == id
  {
    StampSitesParallel(disk);
    FirstStampFound(Stamps(Flat(disk)), id);
    if FirstStamp(Stamps(Flat(disk)), id).Some? {
      var st := FirstStamp(Stamps(Flat(disk)), id).value;
      var i :| 0 <= i < |Stamps(Flat(disk))| && Stamps(Flat(disk))[i] == st;
      assert StampSites(disk)[i] in StampSites(disk);
    }
    if site :| site in StampSites(disk) && site.id == id {
      StampSiteHasStamp(disk, site);
    }
  }

  lemma {:induction false} OneStampSite(disk: seq<LogSegment>, used: set<AssertionId>, s: Site, t: Site)
    requires StampsInv(Stamps(Flat(disk)), used) && s in StampSites(disk) && t in StampSites(disk) && s.id == t.id
    ensures s == t
  {
    StampSitesParallel(disk);
    var i :| 0 <= i < |StampSites(disk)| && StampSites(disk)[i] == s;
    var j :| 0 <= j < |StampSites(disk)| && StampSites(disk)[j] == t;
  }

  lemma {:induction false} BodyHasItsSite(disk: seq<LogSegment>, b: Assertion) returns (site: Site)
    requires b in Bodies(Flat(disk))
    ensures site in BodySites(disk) && site.id == b.id
  {
    SitesParallel(disk);
    var i :| 0 <= i < |Bodies(Flat(disk))| && Bodies(Flat(disk))[i] == b;
    site := BodySites(disk)[i];
  }

  lemma {:induction false} SiteHasItsBody(disk: seq<LogSegment>, site: Site) returns (b: Assertion)
    requires site in BodySites(disk)
    ensures b in Bodies(Flat(disk)) && site.id == b.id
  {
    SitesParallel(disk);
    var i :| 0 <= i < |BodySites(disk)| && BodySites(disk)[i] == site;
    b := Bodies(Flat(disk))[i];
  }

  /** Every surviving body still finds its stamp. */
  ghost predicate StampsFound(disk: seq<LogSegment>, gone: set<int>) {
    forall b :: b in Bodies(Flat(disk)) && b.id !in GoneIds(disk, gone) ==>
      FirstStamp(Stamps(Flat(Unlink(disk, gone))), b.id) == FirstStamp(Stamps(Flat(disk)), b.id)
  }

  lemma {:induction false} StayMeansFound(disk: seq<LogSegment>, used: set<AssertionId>, gone: set<int>)
    requires BodiesInv(Bodies(Flat(disk)), used) && StampsInv(Stamps(Flat(disk)), used) && StampsStay(disk, gone)
    ensures StampsFound(disk, gone)
  {
    GoneIdsExact(disk, used, gone);
    UnlinkedSites(disk, gone);
    forall b | b in Bodies(Flat(disk)) && b.id !in GoneIds(disk, gone)
      ensures FirstStamp(Stamps(Flat(Unlink(disk, gone))), b.id) == FirstStamp(Stamps(Flat(disk)), b.id)
    {
      var site := BodyHasItsSite(disk, b);
      StampHasSite(disk, b.id);
      StampHasSite(Unlink(disk, gone), b.id);
      UnlinkedStamp(disk, used, gone, b.id);
    }
  }

  lemma {:induction false} FoundMeansStay(disk: seq<LogSegment>, used: set<AssertionId>, gone: set<int>)
    requires BodiesInv(Bodies(Flat(disk)), used) && StampsInv(Stamps(Flat(disk)), used) && StampsFound(disk, gone)
    ensures StampsStay(disk, gone)
  {
    GoneIdsExact(disk, used, gone);
    UnlinkedSites(disk, gone);
    forall b, st | b in BodySites(disk) && st in StampSites(disk) && b.id == st.id && b.ordinal !in gone
      ensures st.ordinal !in gone
    {
      var body := SiteHasItsBody(disk, b);
      StampHasSite(disk, b.id);
      StampHasSite(Unlink(disk, gone), b.id);
      var other :| other in StampSites(Unlink(disk, gone)) && other.id == b.id;
      OneStampSite(disk, used, st, other);
    }
  }

  lemma {:induction false} WithoutStamped(bodies: seq<Assertion>, stamps: seq<Stamp>, gone: set<AssertionId>)
    ensures Without(ApplyStamps(bodies, stamps), gone) == ApplyStamps(Without(bodies, gone), stamps)
  {
    if bodies != [] {
      var front, last := bodies[..|bodies| - 1], bodies[|bodies| - 1];
      WithoutStamped(front, stamps, gone);
      assert ApplyStamps(bodies, stamps) == ApplyStamps(front, stamps) + [Stamped(last, stamps)];
      assert ApplyStamps(bodies, stamps)[..|front|] == ApplyStamps(front, stamps);
      var kept := Without(front, gone);
      assert ApplyStamps(kept + [last], stamps) == ApplyStamps(kept, stamps) + [Stamped(last, stamps)];
    }
  }

  /** Unstamped bodies read the same under two lists of stamps exactly when each finds the same stamp. */
  lemma {:induction false} SameStamps(bodies: seq<Assertion>, s: seq<Stamp>, t: seq<Stamp>)
    requires forall i :: 0 <= i < |bodies| ==> Unstamped(bodies[i]) == bodies[i]
    requires forall id :: FirstStamp(s, id).Some? ==> FirstStamp(s, id) == FirstStamp(t, id)
    ensures ApplyStamps(bodies, s) == ApplyStamps(bodies, t) <==>
            forall b :: b in bodies ==> FirstStamp(s, b.id) == FirstStamp(t, b.id)
  {
    if ApplyStamps(bodies, s) == ApplyStamps(bodies, t) {
      forall b | b in bodies ensures FirstStamp(s, b.id) == FirstStamp(t, b.id) {
        var i :| 0 <= i < |bodies| && bodies[i] == b;
        assert Stamped(b, s) == ApplyStamps(bodies, s)[i] == ApplyStamps(bodies, t)[i] == Stamped(b, t);
        assert b.supersededAt.None?;
      }
    }
    if forall b :: b in bodies ==> FirstStamp(s, b.id) == FirstStamp(t, b.id) {
      forall i | 0 <= i < |bodies| ensures ApplyStamps(bodies, s)[i] == ApplyStamps(bodies, t)[i] {
        assert bodies[i] in bodies;
      }
    }
  }

  /** A reload after any unlinking: the live assertions less the bodies unlinked, exactly when the stamps stay. */
  lemma {:induction false} ReloadAfterUnlink(
    disk: seq<LogSegment>, epoch: string, used: set<AssertionId>, history: seq<Entry>, gone: set<int>)
    requires DiskInv(disk, epoch, used, history)
    requires Bodies(Flat(Unlink(disk, gone))) == Without(Bodies(Flat(disk)), GoneIds(disk, gone))
    ensures ApplyStamps(Bodies(Flat(Unlink(disk, gone))), Stamps(Flat(Unlink(disk, gone)))) ==
            Without(ApplyStamps(Bodies(Flat(disk)), Stamps(Flat(disk))), GoneIds(disk, gone))
            <==> StampsStay(disk, gone)
  {
    var ids, fewer, stamps := GoneIds(disk, gone), Stamps(Flat(Unlink(disk, gone))), Stamps(Flat(disk));
    var kept := Without(Bodies(Flat(disk)), ids);
    WithoutStamped(Bodies(Flat(disk)), stamps, ids);
    WithoutBodiesInv(Bodies(Flat(disk)), used, ids);
    forall id ensures FirstStamp(fewer, id).Some? ==> FirstStamp(fewer, id) == FirstStamp(stamps, id) {
      UnlinkedStamp(disk, used, gone, id);
    }
    SameStamps(kept, fewer, stamps);
    forall b ensures b in kept <==> b in Bodies(Flat(disk)) && b.id !in ids {
      WithoutMember(Bodies(Flat(disk)), ids, b);
    }
    if StampsStay(disk, gone) { StayMeansFound(disk, used, gone); }
    if StampsFound(disk, gone) { FoundMeansStay(disk, used, gone); }
  }

  /** Unlinking in ascending order never drops a stamp before the body it stamps. */
  lemma {:induction false} AscendingUnlinkKeepsStamps(disk: seq<LogSegment>, whole: set<int>, part: set<int>)
    requires StampsFollowBodies(disk) && StampsStay(disk, whole) && part <= whole
    requires forall o, p :: o in whole && p in part && o <= p ==> o in part
    ensures StampsStay(disk, part)
  {
  }

  // ------------------------------------------------------------------------ notes

  /** Unlinking older segments and appending to the active one commute. */
  lemma {:induction false} AppendThenUnlink(
    disk: seq<LogSegment>, live: LogState, group: seq<Record>, at: Landing, gone: set<int>)
    requires disk != [] && ActiveOrdinal(disk) !in gone && ActiveOrdinal(Append(disk, live, group, at)) !in gone
    ensures Unlink(disk, gone) != []
    ensures Unlink(Append(disk, live, group, at), gone) == Append(Unlink(disk, gone), live, group, at)
  {
    var appended := Append(disk, live, group, at);
    var n := |disk|;
    assert Unlink(disk, gone) == Unlink(disk[..n - 1], gone) + [disk[n - 1]];
    if Rolls(disk, at) {
      assert appended[..n] == disk;
    } else {
      assert appended[..n - 1] == disk[..n - 1];
    }
  }

  lemma {:induction false} NotesConcat(rs: seq<Record>, more: seq<Record>)
    ensures Notes(rs + more) == Notes(rs) + Notes(more)
  {
    if more == [] {
      assert rs + more == rs;
    } else {
      var front, last := more[..|more| - 1], more[|more| - 1];
      NotesConcat(rs, front);
      assert rs + more == (rs + front) + [last] && more == front + [last];
      NotesSnoc(rs + front, last);
      NotesSnoc(front, last);
      if last.Compaction? { MapRegroup(Notes(rs), Notes(front), AllNotesOf(last, 0)); }
    }
  }

  lemma {:induction false} MapRegroup<K, V>(a: map<K, V>, b: map<K, V>, c: map<K, V>)
    ensures a + (b + c) == a + b + c
  {
  }

  /** A note no unlinked record names reads the same afterwards. */
  lemma {:induction false} UnlinkedNote(disk: seq<LogSegment>, gone: set<int>, id: AssertionId)
    requires forall s :: s in disk && s.ordinal in gone ==> id !in Named(s.lines)
    ensures id in Notes(Flat(Unlink(disk, gone))) <==> id in Notes(Flat(disk))
    ensures id in Notes(Flat(disk)) ==> Notes(Flat(Unlink(disk, gone)))[id] == Notes(Flat(disk))[id]
  {
    if disk != [] {
      var front, last := disk[..|disk| - 1], disk[|disk| - 1];
      LastSplit(disk);
      UnlinkedNote(front, gone, id);
      NotesConcat(Flat(front), last.lines);
      NotesAreNamed(last.lines, id);
      if last.ordinal !in gone {
        FlatSnoc(Unlink(front, gone), last);
        NotesConcat(Flat(Unlink(front, gone)), last.lines);
      } else {
        assert last in disk;
      }
    }
  }

  /** What a compaction record says of each id: the seq of its body, and the compaction's instant. */
  lemma {:induction false} RecordedNotes(c: Record, bodies: seq<Assertion>, n: nat, id: AssertionId)
    requires c.Compaction? && c.ids == Ids(bodies) && c.seqNos == SeqNos(bodies) && n <= |bodies|
    ensures id in NotesOf(c, 0, n) ==>
            NotesOf(c, 0, n)[id].reclaimedAt == c.compactedAt
            && exists b :: b in bodies && b.id == id && b.seqNo == NotesOf(c, 0, n)[id].seqNo
  {
    if n > 0 {
      RecordedNotes(c, bodies, n - 1, id);
      assert bodies[n - 1] in bodies;
    }
  }

  lemma {:induction false} SegmentNoteSays(bodies: seq<Assertion>, ordinal: int, clock: Instant, id: AssertionId)
    ensures var notes := SegmentNotes(bodies, ordinal, clock);
            id in notes ==>
              notes[id].reclaimedAt == clock && exists b :: b in bodies && b.id == id && b.seqNo == notes[id].seqNo
  {
    if bodies != [] {
      assert bodies == bodies[..|bodies| - 1] + [bodies[|bodies| - 1]];
      SegmentNoteSays(bodies[..|bodies| - 1], ordinal, clock, id);
    }
  }

  /** The live store is told the same. */
  lemma {:induction false} LiveNoteSays(doomed: seq<LogSegment>, clock: Instant, id: AssertionId)
    ensures var notes := ReclamationNotes(doomed, clock);
            && (id in notes <==> exists b :: b in Bodies(Flat(doomed)) && b.id == id)
            && (id in notes ==> notes[id].reclaimedAt == clock
                                && exists b :: b in Bodies(Flat(doomed)) && b.id == id && b.seqNo == notes[id].seqNo)
  {
    if doomed != [] {
      var front, last := doomed[..|doomed| - 1], doomed[|doomed| - 1];
      LiveNoteSays(front, clock, id);
      SegmentNotesKeys(Bodies(last.lines), last.ordinal, clock);
      SegmentNoteSays(Bodies(last.lines), last.ordinal, clock, id);
      FlatMapConcat(Flat(front), last.lines, BodiesIn);
      assert forall b :: b in Bodies(Flat(doomed)) <==> b in Bodies(Flat(front)) || b in Bodies(last.lines);
    }
  }

  ghost predicate OneBodyPerId(bodies: seq<Assertion>) {
    forall a, b :: a in bodies && b in bodies && a.id == b.id ==> a == b
  }

  /** The record on disk and the live notes agree. */
  lemma {:induction false} RecordAgreesWithLive(
    disk: seq<LogSegment>, live: LogState, doomed: seq<LogSegment>, clock: Instant)
    requires OneBodyPerId(Bodies(Flat(doomed)))
    ensures NotesAgree(ReclamationNotes(doomed, clock), AllNotesOf(CompactionRecord(disk, live, doomed, clock), 0))
  {
    var bodies, c := Bodies(Flat(doomed)), CompactionRecord(disk, live, doomed, clock);
    var notes, told := AllNotesOf(c, 0), ReclamationNotes(doomed, clock);
    forall id ensures id in told <==> id in notes {
      LiveNoteSays(doomed, clock, id);
      RecordNotesNamed(c, id);
      IdsMember(bodies, id);
    }
    forall id | id in told ensures told[id].seqNo == notes[id].seqNo && told[id].reclaimedAt == notes[id].reclaimedAt {
      LiveNoteSays(doomed, clock, id);
      RecordedNotes(c, bodies, |bodies|, id);
    }
  }

  lemma {:induction false} IdsMember(bodies: seq<Assertion>, id: AssertionId)
    ensures id in Ids(bodies) <==> exists b :: b in bodies && b.id == id
  {
    if id in Ids(bodies) {
      var i :| 0 <= i < |bodies| && Ids(bodies)[i] == id;
      assert bodies[i] in bodies;
    }
    if b :| b in bodies && b.id == id {
      var i :| 0 <= i < |bodies| && bodies[i] == b;
      assert Ids(bodies)[i] == id;
    }
  }

  // ------------------------------------------------------------------ the theorems

  ghost function Appended(w: World, clock: Instant, at: Landing): seq<LogSegment>
    requires w.disk != []
  {
    Append(w.disk, w.live, CompactionGroup(w.disk, w.live, Candidates(w.disk, w.live), clock), at)
  }

  /** The ordinals of the first `n` segments a compaction unlinks. */
  ghost function FirstUnlinked(w: World, n: nat): set<int>
    requires w.disk != [] && n <= |Candidates(w.disk, w.live)|
  {
    OrdinalSet(Candidates(w.disk, w.live)[..n])
  }

  lemma {:induction false} CompactionSites(w: World, clock: Instant, at: Landing)
    requires w.disk != []
    ensures BodySites(Appended(w, clock, at)) == BodySites(w.disk)
            && StampSites(Appended(w, clock, at)) == StampSites(w.disk)
  {
    var group := CompactionGroup(w.disk, w.live, Candidates(w.disk, w.live), clock);
    CompactionGroupLists(w.disk, w.live, Candidates(w.disk, w.live), clock);
    AppendSites(w.disk, w.live, group, at);
    assert BodySites(w.disk) + [] == BodySites(w.disk) && StampSites(w.disk) + [] == StampSites(w.disk);
  }

  lemma {:induction false} OneCompaction(rs: seq<Record>, c: Record)
    requires c.Compaction? && Compactions(rs) == [c]
    ensures Notes(rs) == AllNotesOf(c, 0)
  {
    var none: seq<Record> := [];
    assert [c][..0] == none && NoteMap(none) == map[];
    assert map[] + AllNotesOf(c, 0) == AllNotesOf(c, 0);
  }

  lemma {:induction false} GroupNotes(disk: seq<LogSegment>, live: LogState, doomed: seq<LogSegment>, clock: Instant)
    ensures Notes(CompactionGroup(disk, live, doomed, clock)) ==
            AllNotesOf(CompactionRecord(disk, live, doomed, clock), 0)
  {
    CompactionGroupLists(disk, live, doomed, clock);
    OneCompaction(CompactionGroup(disk, live, doomed, clock), CompactionRecord(disk, live, doomed, clock));
  }

  lemma {:induction false} OpeningNotes(disk: seq<LogSegment>, live: LogState, at: Landing)
    requires disk != []
    ensures Notes(Opening(disk, live, at)) == map[]
  {
    FlatMapEmpty(Opening(disk, live, at), CompactionsIn);
  }

  /** The notes on disk afterwards: those of the surviving records, overridden by the new record's. */
  lemma {:induction false} CompactedNotes(w: World, clock: Instant, at: Landing, gone: set<int>)
    requires w.disk != [] && WellFormedDisk(w.disk, w.live.epoch) && gone <= OrdinalSet(Candidates(w.disk, w.live))
    ensures Notes(Flat(Unlink(Appended(w, clock, at), gone))) ==
            Notes(Flat(Unlink(w.disk, gone))) +
              AllNotesOf(CompactionRecord(w.disk, w.live, Candidates(w.disk, w.live), clock), 0)
  {
    var doomed := Candidates(w.disk, w.live);
    var group := CompactionGroup(w.disk, w.live, doomed, clock);
    KeeperStays(w, at, group, gone);
    forall s | s in doomed ensures s.ordinal != ActiveOrdinal(w.disk) { DoomedAreCandidates(w, s); }
    AppendThenUnlink(w.disk, w.live, group, at, gone);
    AppendedNotes(Unlink(w.disk, gone), w.live, group, at);
    GroupNotes(w.disk, w.live, doomed, clock);
  }

  lemma {:induction false} AppendedNotes(disk: seq<LogSegment>, live: LogState, group: seq<Record>, at: Landing)
    requires disk != []
    ensures Notes(Flat(Append(disk, live, group, at))) == Notes(Flat(disk)) + Notes(group)
  {
    FlatAppend(disk, live, group, at);
    NotesConcat(Flat(disk) + Opening(disk, live, at), group);
    NotesConcat(Flat(disk), Opening(disk, live, at));
    OpeningNotes(disk, live, at);
    assert Notes(Flat(disk)) + map[] == Notes(Flat(disk));
  }

  /** However far the unlinking got, a reload has every receipt and every mark of the live store. */
  lemma {:induction false} ReloadKeepsMarks(w: World, clock: Instant, at: Landing, gone: set<int>)
    requires Inv(w) && Candidates(w.disk, w.live) != [] && gone <= OrdinalSet(Candidates(w.disk, w.live))
    ensures var r := Restore(Unlink(Appended(w, clock, at), gone));
            && r.epoch == w.live.epoch && r.submissions == w.live.submissions && r.floor == w.live.floor
            && r.nextSeq == w.live.nextSeq && r.published == w.live.published
  {
    CompactedDisk(w, clock, at, gone);
    ReloadIsLive(Unlink(Appended(w, clock, at), gone), w.live.epoch, w.used, w.history);
    IndexesUnique(w.live.submissions, Restore(Unlink(Appended(w, clock, at), gone)).submissions, w.history);
  }

  /** A reload has the live assertions less the bodies unlinked so far, exactly when no stamp went before its body. */
  lemma {:induction false} ReloadKeepsBeliefs(w: World, clock: Instant, at: Landing, gone: set<int>)
    requires InSync(w) && Candidates(w.disk, w.live) != [] && gone <= OrdinalSet(Candidates(w.disk, w.live))
    ensures Restore(Unlink(Appended(w, clock, at), gone)).assertions ==
            Without(w.live.assertions, GoneIds(w.disk, gone))
            <==> StampsStay(w.disk, gone)
  {
    var appended := Appended(w, clock, at);
    CompactedDisk(w, clock, at, gone);
    CompactionSites(w, clock, at);
    KnownStampsReload(w.live.assertions, Bodies(Flat(w.disk)), Stamps(Flat(w.disk)));
    ReloadAfterUnlink(appended, w.live.epoch, w.used, w.history, gone);
    RestoredAssertions(Unlink(appended, gone));
  }

  // ------------------------------------------------------------------ interruption

  ghost predicate Ascending(segments: seq<LogSegment>) {
    forall i, j :: 0 <= i < j < |segments| ==> segments[i].ordinal < segments[j].ordinal
  }

  lemma {:induction false} CandidatesAscend(disk: seq<LogSegment>, live: LogState, n: nat)
    requires disk != [] && n <= |disk| && Ascending(disk)
    ensures Ascending(CandidatesAmong(disk, live, n))
    ensures forall s :: s in CandidatesAmong(disk, live, n) && n < |disk| ==> s.ordinal < disk[n].ordinal
  {
    if n > 0 {
      CandidatesAscend(disk, live, n - 1);
      var earlier, s := CandidatesAmong(disk, live, n - 1), disk[n - 1];
      AscendingSnoc(earlier, s);
      assert n < |disk| ==> s.ordinal < disk[n].ordinal;
      assert forall t :: t in earlier + [s] ==> t in earlier || t == s;
    }
  }

  lemma {:induction false} AscendingSnoc(segments: seq<LogSegment>, s: LogSegment)
    requires Ascending(segments) && forall t :: t in segments ==> t.ordinal < s.ordinal
    ensures Ascending(segments + [s])
  {
    assert forall i :: 0 <= i < |segments| ==> segments[i] in segments;
  }

  /** At any point of the unlinking, whatever is to go and is no later than something gone is gone too. */
  lemma {:induction false} UnlinkedInOrder(w: World, n: nat)
    requires Inv(w) && n <= |Candidates(w.disk, w.live)|
    ensures var whole, part := OrdinalSet(Candidates(w.disk, w.live)), FirstUnlinked(w, n);
            part <= whole && forall o, p :: o in whole && p in part && o <= p ==> o in part
  {
    var doomed := Candidates(w.disk, w.live);
    CandidatesAscend(w.disk, w.live, |w.disk|);
    assert forall s :: s in doomed[..n] ==> s in doomed;
    assert Ascending(doomed);
    forall o, p | o in OrdinalSet(doomed) && p in FirstUnlinked(w, n) && o <= p ensures o in FirstUnlinked(w, n) {
      AscendingPrefix(doomed, n, o, p);
    }
  }

  lemma {:induction false} AscendingPrefix(segments: seq<LogSegment>, n: nat, o: int, p: int)
    requires Ascending(segments) && n <= |segments|
    requires o in OrdinalSet(segments) && p in OrdinalSet(segments[..n]) && o <= p
    ensures o in OrdinalSet(segments[..n])
  {
    var s :| s in segments && s.ordinal == o;
    var t :| t in segments[..n] && t.ordinal == p;
    var i :| 0 <= i < |segments| && segments[i] == s;
    var j :| 0 <= j < n && segments[j] == t;
    assert segments[..n][i] == s;
  }

  /** Unlinked in ascending order, no stamp goes before its body at any point, if none does in the end. */
  lemma {:induction false} EveryPrefixStays(w: World, n: nat)
    requires Inv(w) && n <= |Candidates(w.disk, w.live)| && StampsStay(w.disk, OrdinalSet(Candidates(w.disk, w.live)))
    ensures FirstUnlinked(w, n) <= OrdinalSet(Candidates(w.disk, w.live)) && StampsStay(w.disk, FirstUnlinked(w, n))
  {
    UnlinkedInOrder(w, n);
    AscendingUnlinkKeepsStamps(w.disk, OrdinalSet(Candidates(w.disk, w.live)), FirstUnlinked(w, n));
  }

  lemma {:induction false} GoneWithin(w: World, clock: Instant, at: Landing, part: set<int>)
    requires Inv(w) && Candidates(w.disk, w.live) != [] && part <= OrdinalSet(Candidates(w.disk, w.live))
    ensures GoneIds(w.disk, part) <= ReclamationNotes(Candidates(w.disk, w.live), clock).Keys
    ensures GoneIds(w.disk, OrdinalSet(Candidates(w.disk, w.live))) ==
            ReclamationNotes(Candidates(w.disk, w.live), clock).Keys
  {
    NotesAreGoneIds(w, clock, at);
    CompactionSites(w, clock, at);
  }

  lemma {:induction false} PartlyCompactedReads(w: World, clock: Instant, at: Landing, part: set<int>, q: Query)
    requires Inv(w) && Candidates(w.disk, w.live) != [] && part <= OrdinalSet(Candidates(w.disk, w.live))
    requires !q.includeSuperseded && (q.asOfRecorded.Some? ==> q.asOfRecorded.value >= w.live.floor)
    ensures Hits(q, Without(w.live.assertions, GoneIds(w.disk, part))) == Hits(q, w.live.assertions)
  {
    GoneWithin(w, clock, at, part);
    forall a | a in w.live.assertions && a.id in GoneIds(w.disk, part) ensures OutOfReach(a, w.live.floor) {
      DoomedOutOfReach(w, clock, a);
    }
    WithoutKeepsHits(q, w.live.assertions, GoneIds(w.disk, part), w.live.floor);
  }

  lemma {:induction false} StampedKnown(bodies: seq<Assertion>, stamps: seq<Stamp>, id: AssertionId)
    ensures Known(ApplyStamps(bodies, stamps), id) <==> Known(bodies, id)
  {
    var live := ApplyStamps(bodies, stamps);
    if Known(live, id) {
      var a :| a in live && a.id == id;
      var i :| 0 <= i < |live| && live[i] == a;
      assert bodies[i] in bodies;
    }
    if Known(bodies, id) {
      var b :| b in bodies && b.id == id;
      var i :| 0 <= i < |bodies| && bodies[i] == b;
      assert live[i] in live;
    }
  }

  lemma {:induction false} KnownIsBody(disk: seq<LogSegment>, id: AssertionId)
    requires SeqAscending(Bodies(Flat(disk)))
    ensures Known(Restore(disk).assertions, id) <==> id in BodyIds(Flat(disk))
  {
    RestoredAssertions(disk);
    StampedKnown(Bodies(Flat(disk)), Stamps(Flat(disk)), id);
  }

  /** Every id the new record names is found as a live body or as a note, and never as both. */
  lemma {:induction false} BodyOrNote(w: World, clock: Instant, at: Landing, gone: set<int>, id: AssertionId)
    requires Inv(w) && Candidates(w.disk, w.live) != [] && gone <= OrdinalSet(Candidates(w.disk, w.live))
    requires id in CompactionRecord(w.disk, w.live, Candidates(w.disk, w.live), clock).ids
    ensures var r := Restore(Unlink(Appended(w, clock, at), gone)); Known(r.assertions, id) <==> id !in r.reclaimed
  {
    var c := CompactionRecord(w.disk, w.live, Candidates(w.disk, w.live), clock);
    CompactedNotes(w, clock, at, gone);
    RecordNotesNamed(c, id);
    CompactedDisk(w, clock, at, gone);
    KnownIsBody(Unlink(Appended(w, clock, at), gone), id);
    RestoredNotes(Unlink(Appended(w, clock, at), gone));
  }

  /**
   A compaction interrupted after any number of unlinks: the reload gives every
   named id a live body or a note and never both, and answers every permitted
   read, every retry and every commit as the live store would.
   */
  lemma {:induction false} InterruptedCompaction(w: World, clock: Instant, at: Landing, n: nat)
    requires InSync(w) && Candidates(w.disk, w.live) != [] && n <= |Candidates(w.disk, w.live)|
    requires StampsStay(w.disk, OrdinalSet(Candidates(w.disk, w.live)))
    ensures var r := Restore(Unlink(Appended(w, clock, at), FirstUnlinked(w, n)));
            && r.assertions == Without(w.live.assertions, GoneIds(w.disk, FirstUnlinked(w, n)))
            && (forall id :: id in CompactionRecord(w.disk, w.live, Candidates(w.disk, w.live), clock).ids ==>
                  (Known(r.assertions, id) <==> id !in r.reclaimed))
            && (forall q: Query ::
                  !q.includeSuperseded && (q.asOfRecorded.Some? ==> q.asOfRecorded.value >= w.live.floor) ==>
                  Hits(q, r.assertions) == Hits(q, w.live.assertions))
            && r.submissions == w.live.submissions && r.nextSeq == w.live.nextSeq
            && r.floor == w.live.floor && r.published == w.live.published
  {
    var gone := FirstUnlinked(w, n);
    EveryPrefixStays(w, n);
    ReloadKeepsMarks(w, clock, at, gone);
    ReloadKeepsBeliefs(w, clock, at, gone);
    forall id | id in CompactionRecord(w.disk, w.live, Candidates(w.disk, w.live), clock).ids
      ensures var r := Restore(Unlink(Appended(w, clock, at), gone)); Known(r.assertions, id) <==> id !in r.reclaimed
    {
      BodyOrNote(w, clock, at, gone, id);
    }
    forall q: Query | !q.includeSuperseded && (q.asOfRecorded.Some? ==> q.asOfRecorded.value >= w.live.floor)
      ensures Hits(q, Without(w.live.assertions, GoneIds(w.disk, gone))) == Hits(q, w.live.assertions)
    {
      PartlyCompactedReads(w, clock, at, gone, q);
    }
  }

  // ------------------------------------------------------------- after a compaction

  /** Notes before and after, as sets of ids and as what each says. */
  lemma {:induction false} NotesArithmetic(
    live: map<AssertionId, Note>, told: map<AssertionId, Note>, before: map<AssertionId, Note>, kept: map<AssertionId,
    Note>,
    record: map<AssertionId, Note>, bodies: set<AssertionId>)
    requires NotesAgree(live, before - bodies) && NotesAgree(told, record)
    requires told.Keys <= bodies && kept.Keys <= before.Keys
    ensures (kept + record - (bodies - told.Keys)).Keys == (live + told).Keys <==> live.Keys <= kept.Keys
    ensures NotesAgree(live + told, kept + record - (bodies - told.Keys)) <==> Recalls(kept, live)
  {
    var after, now := kept + record - (bodies - told.Keys), live + told;
    assert forall id :: id in after.Keys <==> (id in told.Keys || (id in kept && id !in bodies));
    assert forall id :: id in now.Keys <==> (id in told.Keys || (id in before && id !in bodies));
    assert forall id :: id in live.Keys && id in kept ==> now[id] == live[id] && id in after && after[id] == kept[id];
    if NotesAgree(now, after) {
      forall id | id in live.Keys
        ensures id in kept && kept[id].seqNo == live[id].seqNo && kept[id].reclaimedAt == live[id].reclaimedAt
      {
        assert id in now.Keys && id in after.Keys;
      }
    }
  }

  lemma {:induction false} HighestNoteUnion(m: map<AssertionId, Note>, n: map<AssertionId, Note>)
    requires m.Keys !! n.Keys
    ensures HighestNote(m + n) == Max(HighestNote(m), HighestNote(n))
  {
    var h, k, both := HighestNote(m), HighestNote(n), HighestNote(m + n);
    if h != 0 { var id :| id in m && m[id].seqNo == h; assert (m + n)[id].seqNo == h; }
    if k != 0 { var id :| id in n && n[id].seqNo == k; assert (m + n)[id].seqNo == k; }
    if both != 0 { var id :| id in m + n && (m + n)[id].seqNo == both; assert id in n || id in m; }
    assert forall id :: id in m ==> (m + n)[id] == m[id];
  }

  lemma {:induction false} BodiesLeft(
    bodies: seq<Assertion>, rs: seq<Record>, next: seq<Record>, gone: set<AssertionId>)
    requires bodies == Bodies(rs) && Bodies(next) == Without(bodies, gone)
    ensures BodyIds(next) == BodyIds(rs) - gone
  {
    forall a ensures a in Bodies(next) <==> a in bodies && a.id !in gone { WithoutMember(bodies, gone, a); }
    forall id | id in BodyIds(rs) - gone ensures id in BodyIds(next) {
      var a :| a in bodies && a.id == id;
      assert a in Bodies(next);
    }
  }

  lemma {:induction false} GoneAreBodies(disk: seq<LogSegment>, gone: set<int>)
    ensures GoneIds(disk, gone) <= BodyIds(Flat(disk))
  {
    forall id | id in GoneIds(disk, gone) ensures id in BodyIds(Flat(disk)) {
      var site :| site in BodySites(disk) && site.ordinal in gone && site.id == id;
      var b := SiteHasItsBody(disk, site);
    }
  }

  lemma {:induction false} KeptNotes(w: World, gone: set<int>)
    ensures Notes(Flat(Unlink(w.disk, gone))).Keys <= Notes(Flat(w.disk)).Keys
    ensures w.live.reclaimed.Keys <= Notes(Flat(Unlink(w.disk, gone))).Keys <==> StillNamed(w, gone)
  {
    forall id ensures id in Notes(Flat(Unlink(w.disk, gone))) <==> id in Named(Flat(Unlink(w.disk, gone))) {
      NotesAreNamed(Flat(Unlink(w.disk, gone)), id);
    }
    forall id ensures id in Notes(Flat(w.disk)) <==> id in Named(Flat(w.disk)) { NotesAreNamed(Flat(w.disk), id); }
    UnlinkedSubset(w.disk, gone, NamedIn);
  }

  /** It is enough that no record that goes names an id already reclaimed. */
  lemma {:induction false} UnnamedNotesStay(w: World, gone: set<int>)
    requires InSync(w) && NamesNoReclaimed(w, gone)
    ensures NotesStay(w, gone)
  {
    forall id | id in w.live.reclaimed.Keys
      ensures id in Notes(Flat(Unlink(w.disk, gone)))
      ensures Notes(Flat(Unlink(w.disk, gone)))[id].seqNo == w.live.reclaimed[id].seqNo
      ensures Notes(Flat(Unlink(w.disk, gone)))[id].reclaimedAt == w.live.reclaimed[id].reclaimedAt
    {
      UnlinkedNote(w.disk, gone, id);
    }
  }

  lemma {:induction false} DoomedBodies(w: World)
    requires Inv(w)
    ensures OneBodyPerId(Bodies(Flat(Candidates(w.disk, w.live))))
  {
    var doomed, bodies := Candidates(w.disk, w.live), Bodies(Flat(w.disk));
    forall b | b in Bodies(Flat(doomed)) ensures b in bodies {
      FlatMember(doomed, BodiesIn, b);
      var s :| s in doomed && b in FlatMap(s.lines, BodiesIn);
      DoomedAreCandidates(w, s);
      FlatMember(w.disk, BodiesIn, b);
    }
    forall a, b | a in bodies && b in bodies && a.id == b.id ensures a == b {
      var i :| 0 <= i < |bodies| && bodies[i] == a;
      var j :| 0 <= j < |bodies| && bodies[j] == b;
    }
  }

  /** The reload remembers the same reclaimed ids exactly when a surviving record names each. */
  lemma {:induction false} ReloadKeepsNotes(w: World, clock: Instant, at: Landing)
    requires InSync(w) && Candidates(w.disk, w.live) != []
    ensures var gone := OrdinalSet(Candidates(w.disk, w.live));
            var r, told :=
              Restore(Unlink(Appended(w, clock, at), gone)), ReclamationNotes(Candidates(w.disk, w.live), clock);
            && (r.reclaimed.Keys == (w.live.reclaimed + told).Keys <==> StillNamed(w, gone))
            && (NotesStay(w, gone) <==> NotesAgree(w.live.reclaimed + told, r.reclaimed))
  {
    var doomed := Candidates(w.disk, w.live);
    var gone, told := OrdinalSet(doomed), ReclamationNotes(doomed, clock);
    var disk := Unlink(Appended(w, clock, at), gone);
    CompactedDisk(w, clock, at, gone);
    GoneWithin(w, clock, at, gone);
    CompactionSites(w, clock, at);
    BodiesLeft(Bodies(Flat(w.disk)), Flat(w.disk), Flat(disk), told.Keys);
    GoneAreBodies(w.disk, gone);
    KeptNotes(w, gone);
    DoomedBodies(w);
    RecordAgreesWithLive(w.disk, w.live, doomed, clock);
    CompactedNotes(w, clock, at, gone);
    RestoredNotes(disk);
    NotesArithmetic(w.live.reclaimed, told, Notes(Flat(w.disk)), Notes(Flat(Unlink(w.disk, gone))),
                    AllNotesOf(CompactionRecord(w.disk, w.live, doomed, clock), 0), BodyIds(Flat(w.disk)));
  }

  lemma {:induction false} ReloadKeepsRetention(w: World, clock: Instant, at: Landing)
    requires InSync(w) && Candidates(w.disk, w.live) != []
    ensures var told := ReclamationNotes(Candidates(w.disk, w.live), clock);
            Max(w.live.retention, HighestNote(told)) == HighestNote(w.live.reclaimed + told)
  {
    var told := ReclamationNotes(Candidates(w.disk, w.live), clock);
    GoneWithin(w, clock, at, {});
    GoneAreBodies(w.disk, OrdinalSet(Candidates(w.disk, w.live)));
    HighestNoteUnion(w.live.reclaimed, told);
  }

  /** The live store a compaction leaves, field by field. */
  lemma {:induction false} ReclaimedFields(live: LogState, notes: map<AssertionId, Note>)
    requires live.retention >= 0
    ensures ApplyReclamation(live, notes) ==
            live.(assertions := Without(live.assertions, notes.Keys), reclaimed := live.reclaimed + notes,
                  retention := Max(live.retention, HighestNote(notes)))
  {
    ReclaimedLive(live, notes);
    if notes == map[] { assert live.reclaimed + notes == live.reclaimed; }
  }

  /**
   Receipts, floor, watermark and next seq come back after any compaction. The
   reload is the live store exactly when no stamp goes before its body and every
   note already given is still told by a record that stays.
   */
  lemma {:induction false} ReopenAfterCompaction(w: World, clock: Instant, at: Landing)
    requires InSync(w) && Candidates(w.disk, w.live) != []
    ensures var gone, next := OrdinalSet(Candidates(w.disk, w.live)), Finish(w, DoCompact(clock), at);
            var r := Restore(next.disk);
            && r.epoch == next.live.epoch && r.submissions == next.live.submissions && r.floor == next.live.floor
            && r.nextSeq == next.live.nextSeq && r.published == next.live.published
            && (r.assertions == next.live.assertions <==> StampsStay(w.disk, gone))
            && (r.reclaimed.Keys == next.live.reclaimed.Keys <==> StillNamed(w, gone))
            && (Alike(next.live, r) <==> StampsStay(w.disk, gone) && NotesStay(w, gone))
  {
    var doomed := Candidates(w.disk, w.live);
    var gone, told := OrdinalSet(doomed), ReclamationNotes(doomed, clock);
    FinishCompact(w, clock, at);
    ReclaimedFields(w.live, told);
    GoneWithin(w, clock, at, gone);
    ReloadKeepsMarks(w, clock, at, gone);
    ReloadKeepsBeliefs(w, clock, at, gone);
    ReloadKeepsNotes(w, clock, at);
    ReloadKeepsRetention(w, clock, at);
    RestoredNotes(Unlink(Appended(w, clock, at), gone));
    var now, later := w.live.reclaimed + told, Restore(Unlink(Appended(w, clock, at), gone)).reclaimed;
    if NotesAgree(now, later) { HighestNoteAgrees(now, later); }
  }
}
