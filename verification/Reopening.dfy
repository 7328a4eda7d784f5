/**
 Reopening is invisible: reloading the segments gives back the live store.

 This is stronger than the invariant, because a compaction may drop stamps and
 notes. `InSync` says nothing has been dropped; every operation but compaction
 keeps it, a crash restores it, and a compaction keeps it exactly when no stamp
 of a surviving body and no note lives only in a segment it unlinks.
 */
module Reopening {
  import opened Wrappers
  import opened Sequences
  import opened LogRecords
  import opened Store
  import opened SegmentScan
  import opened Recovery
  import opened LogWorld
  import opened Appending
  import opened LogInvariant
  import opened CommitSteps
  import opened Unlinking
  import opened CompactionSteps
  import opened LogRuns

  // ------------------------------------------------------------- what is compared

  /** Notes are compared on the seq and the instant; which segment they name is another matter. */
  ghost predicate NotesAgree(m: map<AssertionId, Note>, n: map<AssertionId, Note>) {
    && m.Keys == n.Keys
    && forall id :: id in m.Keys ==> m[id].seqNo == n[id].seqNo && m[id].reclaimedAt == n[id].reclaimedAt
  }

  /** Two stores no caller can tell apart. */
  ghost predicate Alike(s: LogState, t: LogState) {
    && s.epoch == t.epoch && s.assertions == t.assertions && s.submissions == t.submissions
    && NotesAgree(s.reclaimed, t.reclaimed)
    && s.floor == t.floor && s.nextSeq == t.nextSeq && s.published == t.published && s.retention == t.retention
  }

  function BodyIds(rs: seq<Record>): set<AssertionId> {
    set a | a in Bodies(rs) :: a.id
  }

  /** Every live stamp is still on disk. */
  ghost predicate StampsKnown(live: seq<Assertion>, stamps: seq<Stamp>) {
    forall i :: 0 <= i < |live| && live[i].supersededAt.Some? ==> FirstStamp(stamps, live[i].id).Some?
  }

  /** The live notes are those on disk whose bodies are gone, and the retention floor is theirs. */
  ghost predicate NotesKnown(live: LogState, rs: seq<Record>) {
    NotesAgree(live.reclaimed, Notes(rs) - BodyIds(rs)) && live.retention == HighestNote(live.reclaimed)
  }

  /** The ids a compaction record names. */
  function NamedIn(r: Record): seq<AssertionId> {
    if r.Compaction? then (if |r.ids| <= |r.seqNos| then r.ids else r.ids[..|r.seqNos|]) else []
  }

  function Named(rs: seq<Record>): seq<AssertionId> { FlatMap(rs, NamedIn) }

  /** Compaction records only ever name minted ids. */
  ghost predicate NotesUsed(w: World) {
    forall id :: id in Named(Flat(w.disk)) ==> id in w.used
  }

  ghost const IN_SYNC: World -> bool :=
    (w: World) => StampsKnown(w.live.assertions, Stamps(Flat(w.disk))) && NotesKnown(w.live, Flat(w.disk))
      && NotesUsed(w)

  ghost predicate InSync(w: World) {
    Inv(w) && IN_SYNC(w)
  }

  lemma {:induction false} NotesOfNamed(c: Record, n: nat, id: AssertionId)
    requires c.Compaction? && n <= |c.ids| && n <= |c.seqNos|
    ensures id in NotesOf(c, 0, n) <==> id in c.ids[..n]
  {
    if n > 0 {
      NotesOfNamed(c, n - 1, id);
      assert c.ids[..n] == c.ids[..n - 1] + [c.ids[n - 1]];
    }
  }

  lemma {:induction false} RecordNotesNamed(c: Record, id: AssertionId)
    requires c.Compaction?
    ensures id in AllNotesOf(c, 0) <==> id in NamedIn(c)
  {
    NotesOfNamed(c, if |c.ids| <= |c.seqNos| then |c.ids| else |c.seqNos|, id);
    assert c.ids[..|c.ids|] == c.ids;
  }

  /** The disk has a note for exactly the ids its compaction records name. */
  lemma {:induction false} NotesAreNamed(rs: seq<Record>, id: AssertionId)
    ensures id in Notes(rs) <==> id in Named(rs)
  {
    if rs != [] {
      var front, last := rs[..|rs| - 1], rs[|rs| - 1];
      assert rs == front + [last];
      NotesAreNamed(front, id);
      NotesSnoc(front, last);
      FlatMapSnoc(front, last, NamedIn);
      if last.Compaction? { RecordNotesNamed(last, id); }
    }
  }

  // ----------------------------------------------------------- reload equals live

  lemma {:induction false} HighestNoteAgrees(m: map<AssertionId, Note>, n: map<AssertionId, Note>)
    requires NotesAgree(m, n)
    ensures HighestNote(m) == HighestNote(n)
  {
    var h, k := HighestNote(m), HighestNote(n);
    if h != 0 {
      var id :| id in m && m[id].seqNo == h;
      assert id in m.Keys && n[id].seqNo == h;
    }
    if k != 0 {
      var id :| id in n && n[id].seqNo == k;
      assert id in m.Keys && m[id].seqNo == k;
    }
  }

  lemma {:induction false} KnownStampsReload(live: seq<Assertion>, bodies: seq<Assertion>, stamps: seq<Stamp>)
    requires Shadows(live, bodies, stamps)
    ensures StampsKnown(live, stamps) <==> live == ApplyStamps(bodies, stamps)
  {
    if live == ApplyStamps(bodies, stamps) {
      forall i | 0 <= i < |live| && live[i].supersededAt.Some? ensures FirstStamp(stamps, live[i].id).Some? {
        assert live[i] == Stamped(bodies[i], stamps) && Unstamped(live[i]) == bodies[i];
      }
    } else if StampsKnown(live, stamps) {
      forall i | 0 <= i < |live| ensures live[i] == Stamped(bodies[i], stamps) {
        assert Unstamped(live[i]) == bodies[i];
      }
    }
  }

  /** In sync, a reload cannot be told from the live store. */
  lemma {:induction false} ReopenIsInvisible(w: World)
    requires InSync(w)
    ensures Alike(w.live, Restore(w.disk))
  {
    RestoredAssertions(w.disk);
    KnownStampsReload(w.live.assertions, Bodies(Flat(w.disk)), Stamps(Flat(w.disk)));
    ReloadIsLive(w.disk, w.live.epoch, w.used, w.history);
    IndexesUnique(w.live.submissions, Restore(w.disk).submissions, w.history);
    RestoredNotes(w.disk);
    HighestNoteAgrees(w.live.reclaimed, Restore(w.disk).reclaimed);
  }

  lemma {:induction false} RestoredNotes(disk: seq<LogSegment>)
    ensures Restore(disk).reclaimed == Notes(Flat(disk)) - BodyIds(Flat(disk))
    ensures Restore(disk).retention == HighestNote(Restore(disk).reclaimed)
  {
  }

  /** A store that was just reloaded is in sync with its disk. */
  lemma {:induction false} ReloadedIsInSync(
    disk: seq<LogSegment>, epoch: string, used: set<AssertionId>, history: seq<Entry>)
    requires DiskInv(disk, epoch, used, history) && forall id :: id in Named(Flat(disk)) ==> id in used
    ensures InSync(World(disk, Restore(disk), used, history))
  {
    ReloadIsLive(disk, epoch, used, history);
    RestoredAssertions(disk);
    KnownStampsReload(Restore(disk).assertions, Bodies(Flat(disk)), Stamps(Flat(disk)));
    RestoredNotes(disk);
  }

  // ------------------------------------------------------------------- commits

  lemma {:induction false} NoCompactions(disk: seq<LogSegment>, live: LogState, group: seq<Record>, at: Landing)
    requires disk != [] && Compactions(group) == []
    ensures Notes(Flat(Append(disk, live, group, at))) == Notes(Flat(disk))
    ensures Named(group) == [] && Named(Flat(Append(disk, live, group, at))) == Named(Flat(disk))
  {
    AppendList(disk, live, group, at, CompactionsIn);
    assert Compactions(Flat(disk)) + [] == Compactions(Flat(disk));
    forall i | 0 <= i < |group| ensures NamedIn(group[i]) == [] {
      FlatMapMember(group, CompactionsIn, group[i]);
      assert group[i] in group && group[i] !in Compactions(group);
    }
    FlatMapEmpty(group, NamedIn);
    AppendList(disk, live, group, at, NamedIn);
    assert Named(Flat(disk)) + [] == Named(Flat(disk));
  }

  lemma {:induction false} StampedTwice(
    live: seq<Assertion>, minted: seq<Assertion>, stamps: seq<Stamp>, more: seq<Stamp>)
    requires StampsKnown(live, stamps) && forall i :: 0 <= i < |minted| ==> minted[i].supersededAt.None?
    ensures StampsKnown(ApplyStamps(live + minted, more), stamps + more)
  {
    var after := ApplyStamps(live + minted, more);
    forall i | 0 <= i < |after| && after[i].supersededAt.Some? ensures FirstStamp(stamps + more, after[i].id).Some? {
      FirstStampConcat(stamps, more, after[i].id);
      assert after[i] == Stamped((live + minted)[i], more);
    }
  }

  lemma {:induction false} FreshNotes(
    live: LogState, rs: seq<Record>, next: seq<Record>, minted: seq<Assertion>, used: set<AssertionId>)
    requires NotesKnown(live, rs) && Notes(next) == Notes(rs) && forall id :: id in Named(rs) ==> id in used
    requires Bodies(next) == Bodies(rs) + minted && forall i :: 0 <= i < |minted| ==> minted[i].id !in used
    ensures Notes(next) - BodyIds(next) == Notes(rs) - BodyIds(rs)
  {
    assert forall a :: a in minted ==> a.id !in used;
    forall id | id in Notes(rs) ensures id in BodyIds(next) <==> id in BodyIds(rs) {
      NotesAreNamed(rs, id);
      if id in BodyIds(next) {
        var a :| a in Bodies(next) && a.id == id;
        assert a in Bodies(rs);
      }
      if id in BodyIds(rs) {
        var a :| a in Bodies(rs) && a.id == id;
        assert a in Bodies(next);
      }
    }
  }

  lemma {:induction false} CommittedStamps(w: World, c: Committing, at: Landing)
    requires InSync(w) && Sound(w.live, c) && FreshParts(w, c)
    ensures StampsKnown(CommittedLive(w.live, c).assertions, Stamps(Flat(CommittedWorld(w, c, at).disk)))
  {
    CommitGroupLists(c.minted, c.stamps, c.receipt);
    AppendList(w.disk, w.live, CommitGroup(c.minted, c.stamps, c.receipt), at, StampsIn);
    forall i | 0 <= i < |c.minted| ensures c.minted[i].supersededAt.None? {
      assert Unstamped(c.minted[i]) == c.minted[i];
    }
    StampedTwice(w.live.assertions, c.minted, Stamps(Flat(w.disk)), c.stamps);
  }

  lemma {:induction false} CommittedNotes(w: World, c: Committing, at: Landing)
    requires InSync(w) && FreshParts(w, c)
    ensures NotesKnown(CommittedLive(w.live, c), Flat(CommittedWorld(w, c, at).disk))
            && NotesUsed(CommittedWorld(w, c, at))
  {
    CommitGroupLists(c.minted, c.stamps, c.receipt);
    AppendList(w.disk, w.live, CommitGroup(c.minted, c.stamps, c.receipt), at, BodiesIn);
    NoCompactions(w.disk, w.live, CommitGroup(c.minted, c.stamps, c.receipt), at);
    FreshNotes(w.live, Flat(w.disk), Flat(CommittedWorld(w, c, at).disk), c.minted, w.used);
  }

  lemma {:induction false} CommittedInSync(w: World, c: Committing, at: Landing)
    requires InSync(w) && Sound(w.live, c) && FreshParts(w, c)
    ensures InSync(CommittedWorld(w, c, at))
  {
    CommittedKeepsInv(w, c, at);
    CommittedStamps(w, c, at);
    CommittedNotes(w, c, at);
  }

  // ---------------------------------------------------------------- quiet steps

  /** A step that changes no body, stamp or note on either side. */
  lemma {:induction false} QuietInSync(w: World, next: World)
    requires InSync(w) && Inv(next) && w.used <= next.used
    requires Bodies(Flat(next.disk)) == Bodies(Flat(w.disk)) && Stamps(Flat(next.disk)) == Stamps(Flat(w.disk))
    requires Notes(Flat(next.disk)) == Notes(Flat(w.disk)) && Named(Flat(next.disk)) == Named(Flat(w.disk))
    requires next.live.assertions == w.live.assertions && next.live.reclaimed == w.live.reclaimed
    requires next.live.retention == w.live.retention
    ensures InSync(next)
  {
  }

  lemma {:induction false} AppendedMarkInSync(w: World, r: Record, at: Landing, next: World)
    requires InSync(w) && Inv(next) && next.disk == Append(w.disk, w.live, [r], at) && next.used == w.used
    requires r.Watermark? || r.HistoryFloor? || r.Repair?
    requires next.live.assertions == w.live.assertions && next.live.reclaimed == w.live.reclaimed
    requires next.live.retention == w.live.retention
    ensures InSync(next)
  {
    SingleIsQuiet(r, w.history);
    QuietKeepsDisk(w, [r], at);
    NoCompactions(w.disk, w.live, [r], at);
    QuietInSync(w, next);
  }
}
