/**
 What every step keeps, whatever mix of commits, feed pages, floor advances,
 compactions and crashes came before.

 `DiskInv` is about the records alone and survives the loss of any reclaimable
 segment; `LiveInv` ties the live store to them. Stamps are the one place the
 two may differ: a compaction can drop a stamp whose target survives, so the
 disk may know fewer stamps than the live store, and never different ones.
 */
module LogInvariant {
  import opened Wrappers
  import opened Sequences
  import opened LogRecords
  import opened Store
  import opened SegmentScan
  import opened Recovery
  import opened LogWorld
  import opened Appending

  // --------------------------------------------------------------- the history

  ghost predicate InHistory(history: seq<Entry>, r: Receipt) {
    exists i :: 0 <= i < |history| && history[i].receipt == r
  }

  /** Seqs issued so far: commits take contiguous runs starting at 1. */
  function Issued(history: seq<Entry>): int {
    if history == [] then 0
    else history[|history| - 1].first + |history[|history| - 1].receipt.assertionIds| - 1
  }

  ghost predicate HistoryInv(history: seq<Entry>) {
    && (history != [] ==> history[0].first == 1)
    && (forall i, j :: 0 <= i < |history| && j == i + 1 && j < |history| ==>
          history[j].first == history[i].first + |history[i].receipt.assertionIds|)
    && (forall i, j :: 0 <= i < j < |history| ==>
          history[i].receipt.committedAt < history[j].receipt.committedAt
          && KeyOf(history[i].receipt) != KeyOf(history[j].receipt))
  }

  /** The submission map holds exactly the durable receipts, each under its own key. */
  ghost predicate Indexes(submissions: map<string, Receipt>, history: seq<Entry>) {
    && (forall i :: 0 <= i < |history| ==>
          KeyOf(history[i].receipt) in submissions && submissions[KeyOf(history[i].receipt)] == history[i].receipt)
    && (forall k :: k in submissions ==> InHistory(history, submissions[k]) && KeyOf(submissions[k]) == k)
  }

  // ------------------------------------------------------------------ the disk

  ghost predicate BodiesInv(bodies: seq<Assertion>, used: set<AssertionId>) {
    && SeqAscending(bodies)
    && (forall i :: 0 <= i < |bodies| ==> Unstamped(bodies[i]) == bodies[i] && bodies[i].id in used)
    && (forall i, j :: 0 <= i < j < |bodies| ==> bodies[i].id != bodies[j].id)
  }

  /** No target is stamped twice: the write-once rule, as it shows on disk. */
  ghost predicate StampsInv(stamps: seq<Stamp>, used: set<AssertionId>) {
    && (forall i :: 0 <= i < |stamps| ==> stamps[i].target in used)
    && (forall i, j :: 0 <= i < j < |stamps| ==> stamps[i].target != stamps[j].target)
  }

  /** Which segment holds a body, or a stamp, for which id. */
  datatype Site = Site(id: AssertionId, ordinal: int)

  function BodySitesIn(s: LogSegment): seq<Site> {
    var bodies := Bodies(s.lines);
    seq(|bodies|, i requires 0 <= i < |bodies| => Site(bodies[i].id, s.ordinal))
  }

  function StampSitesIn(s: LogSegment): seq<Site> {
    var stamps := Stamps(s.lines);
    seq(|stamps|, i requires 0 <= i < |stamps| => Site(stamps[i].target, s.ordinal))
  }

  function BodySites(disk: seq<LogSegment>): seq<Site> { FlatMap(disk, BodySitesIn) }
  function StampSites(disk: seq<LogSegment>): seq<Site> { FlatMap(disk, StampSitesIn) }

  /** A stamp never sits in an earlier segment than the body it stamps. */
  ghost predicate StampsFollowBodies(disk: seq<LogSegment>) {
    forall b, st :: b in BodySites(disk) && st in StampSites(disk) && b.id == st.id ==> b.ordinal <= st.ordinal
  }

  ghost predicate ReceiptsInv(receipts: seq<Receipt>, history: seq<Entry>) {
    forall r :: r in receipts <==> InHistory(history, r)
  }

  ghost predicate DiskInv(disk: seq<LogSegment>, epoch: string, used: set<AssertionId>, history: seq<Entry>) {
    && disk != [] && WellFormedDisk(disk, epoch)
    && BodiesInv(Bodies(Flat(disk)), used)
    && StampsInv(Stamps(Flat(disk)), used)
    && StampsFollowBodies(disk)
    && HistoryInv(history)
    && ReceiptsInv(Receipts(Flat(disk)), history)
    && HighSeq(Flat(disk)) == Issued(history)
  }

  // ------------------------------------------------------------ the live store

  /** Live assertions are the bodies on disk, in order, and agree with every stamp the disk still knows. */
  ghost predicate Shadows(live: seq<Assertion>, bodies: seq<Assertion>, stamps: seq<Stamp>) {
    && |live| == |bodies|
    && (forall i :: 0 <= i < |live| ==> Unstamped(live[i]) == bodies[i])
    && (forall i :: 0 <= i < |live| && live[i].supersededAt.None? ==> live[i] == bodies[i])
    && (forall i :: 0 <= i < |live| && FirstStamp(stamps, bodies[i].id).Some? ==> live[i] == Stamped(bodies[i], stamps))
  }

  ghost predicate LiveInv(live: LogState, disk: seq<LogSegment>, history: seq<Entry>) {
    && Shadows(live.assertions, Bodies(Flat(disk)), Stamps(Flat(disk)))
    && Indexes(live.submissions, history)
    && FloorOf(Flat(disk)) == Some(live.floor)
    && HighWatermark(Flat(disk)) == live.published
    && live.nextSeq == Issued(history) + 1
    && (forall i :: 0 <= i < |history| ==> history[i].receipt.committedAt <= live.lastMillis)
  }

  ghost const INVARIANT: World -> bool :=
    (w: World) => DiskInv(w.disk, w.live.epoch, w.used, w.history) && LiveInv(w.live, w.disk, w.history)

  /** The invariant of every reachable world, passed between lemmas as one fact. */
  ghost predicate Inv(w: World) {
    INVARIANT(w)
  }

  // --------------------------------------------------------- maps and histories

  lemma {:induction false} IndexesUnique(m: map<string, Receipt>, n: map<string, Receipt>, history: seq<Entry>)
    requires Indexes(m, history) && Indexes(n, history)
    ensures m == n
  {
  }

  lemma {:induction false} ReceiptMapEntries(receipts: seq<Receipt>)
    ensures forall k :: k in ReceiptMap(receipts) ==>
              ReceiptMap(receipts)[k] in receipts && KeyOf(ReceiptMap(receipts)[k]) == k
    ensures forall r :: r in receipts ==> KeyOf(r) in ReceiptMap(receipts)
  {
    if receipts != [] {
      var front, last := receipts[..|receipts| - 1], receipts[|receipts| - 1];
      assert receipts == front + [last];
      ReceiptMapEntries(front);
    }
  }

  /** The fold's map, whatever repeats the disk holds, indexes the history. */
  lemma {:induction false} ReceiptMapIndexes(receipts: seq<Receipt>, history: seq<Entry>)
    requires HistoryInv(history) && ReceiptsInv(receipts, history)
    ensures Indexes(ReceiptMap(receipts), history)
  {
    ReceiptMapEntries(receipts);
    var m := ReceiptMap(receipts);
    forall i | 0 <= i < |history|
      ensures KeyOf(history[i].receipt) in m && m[KeyOf(history[i].receipt)] == history[i].receipt
    {
      var r := history[i].receipt;
      assert InHistory(history, r);
      var found := m[KeyOf(r)];
      assert InHistory(history, found);
      var j :| 0 <= j < |history| && history[j].receipt == found;
      assert KeyOf(history[j].receipt) == KeyOf(history[i].receipt);
    }
  }

  lemma {:induction false} HistorySnoc(history: seq<Entry>, e: Entry)
    requires HistoryInv(history) && e.first == Issued(history) + 1
    requires forall i :: 0 <= i < |history| ==>
               history[i].receipt.committedAt < e.receipt.committedAt && KeyOf(history[i].receipt) != KeyOf(e.receipt)
    ensures HistoryInv(history + [e])
    ensures Issued(history + [e]) == Issued(history) + |e.receipt.assertionIds|
    ensures forall r :: InHistory(history + [e], r) <==> InHistory(history, r) || r == e.receipt
  {
    var all := history + [e];
    forall r | InHistory(history, r) || r == e.receipt ensures InHistory(all, r) {
      if InHistory(history, r) {
        var i :| 0 <= i < |history| && history[i].receipt == r;
        assert all[i].receipt == r;
      } else {
        assert all[|history|].receipt == r;
      }
    }
  }

  lemma {:induction false} IndexesSnoc(m: map<string, Receipt>, history: seq<Entry>, e: Entry)
    requires Indexes(m, history) && KeyOf(e.receipt) !in m
    ensures Indexes(m[KeyOf(e.receipt) := e.receipt], history + [e])
  {
    var all, n := history + [e], m[KeyOf(e.receipt) := e.receipt];
    forall k | k in n ensures InHistory(all, n[k]) {
      if k in m && k != KeyOf(e.receipt) {
        var i :| 0 <= i < |history| && history[i].receipt == m[k];
        assert all[i].receipt == n[k];
      } else {
        assert all[|history|].receipt == n[k];
      }
    }
    forall i | 0 <= i < |all|
      ensures KeyOf(all[i].receipt) in n && n[KeyOf(all[i].receipt)] == all[i].receipt
    {
      if i < |history| { assert all[i] == history[i]; }
    }
  }

  // ------------------------------------------------------- what a commit stamps

  lemma {:induction false} RequestedAt(drafts: seq<Draft>, ids: seq<AssertionId>, at: Instant)
    requires |ids| == |drafts|
    ensures forall st :: st in Requested(drafts, ids, at) ==> st.at == at
  {
    if drafts != [] { RequestedAt(drafts[..|drafts| - 1], ids[..|drafts| - 1], at); }
  }

  lemma {:induction false} NoneUnknown(assertions: seq<Assertion>, requested: seq<Stamp>)
    requires FirstUnknown(assertions, requested).None?
    ensures forall st :: st in requested ==> Known(assertions, st.target)
  {
    if requested != [] {
      assert requested == requested[..|requested| - 1] + [requested[|requested| - 1]];
      NoneUnknown(assertions, requested[..|requested| - 1]);
    }
  }

  /** A commit stamps each target once, only where it is still believed, and misses none it was asked for. */
  lemma {:induction false} EffectiveStamps(assertions: seq<Assertion>, requested: seq<Stamp>)
    ensures var stamps := Effective(assertions, requested);
            && (forall st :: st in stamps ==> st in requested && Believed(assertions, st.target))
            && (forall i, j :: 0 <= i < j < |stamps| ==> stamps[i].target != stamps[j].target)
            && (forall id :: Believed(assertions, id) ==> FirstStamp(stamps, id) == FirstStamp(requested, id))
  {
    if requested != [] {
      var front, last := requested[..|requested| - 1], requested[|requested| - 1];
      assert requested == front + [last];
      EffectiveStamps(assertions, front);
      var earlier := Effective(assertions, front);
      FirstStampFound(earlier, last.target);
      forall id ensures FirstStamp(earlier + [last], id) ==
                        if FirstStamp(earlier, id).Some? then FirstStamp(earlier, id)
                        else if last.target == id then Some(last) else None
      {
        assert (earlier + [last])[..|earlier|] == earlier;
      }
    }
  }
}
