/**
 `AssertionLog` as it runs: records are heap cells that the log, its id map and
 any index share, and a supersession stamps the one cell in place. Every method
 is proved to do to the log's view what the value-level operation says.
 */
module LiveLog {
  import opened Wrappers
  import opened Sequences
  import opened WorldTime
  import opened LogRecords
  import opened Store
  import opened LogWorld
  import CommitMeaning
  import QueryMeaning

  /** One committed record. Its id, seq and claim never change; its two supersession fields may, once. */
  class Cell {
    var value: Assertion

    constructor (a: Assertion)
      ensures value == a
    {
      value := a;
    }

    /** Write-once: the first supersession stays. */
    method Supersede(stamp: Stamp)
      modifies this
      ensures value == if old(value).supersededAt.Some? then old(value)
                       else old(value).(supersededAt := Some(stamp.at), supersededBy := Some(stamp.superseder))
      ensures value.id == old(value.id)
    {
      if value.supersededAt.None? {
        value := value.(supersededAt := Some(stamp.at), supersededBy := Some(stamp.superseder));
      }
    }
  }

  /** The cells hold these values, in order. */
  ghost predicate Shows(cells: seq<Cell>, values: seq<Assertion>)
    reads cells
  {
    |cells| == |values| && forall i :: 0 <= i < |cells| ==> cells[i].value == values[i]
  }

  /**
   Distinct cells with distinct ids, and the id map finds exactly them. Says nothing about
   what else the cells hold.
   */
  ghost predicate Wired(byId: map<AssertionId, Cell>, cells: seq<Cell>, ids: seq<AssertionId>)
    decreases |cells|
  {
    && |ids| == |cells|
    && if cells == [] then byId == map[]
       else
         var n := |cells| - 1;
         && cells[n] !in cells[..n] && ids[n] in byId && byId[ids[n]] == cells[n]
         && Wired(byId - {ids[n]}, cells[..n], ids[..n])
  }

  lemma {:induction false} WiredFacts(byId: map<AssertionId, Cell>, cells: seq<Cell>, ids: seq<AssertionId>)
    requires Wired(byId, cells, ids)
    ensures forall i :: 0 <= i < |cells| ==> ids[i] in byId && byId[ids[i]] == cells[i]
    ensures forall i, j :: 0 <= i < j < |cells| ==> cells[i] != cells[j] && ids[i] != ids[j]
    ensures forall id :: id in byId ==> id in ids
    decreases |cells|
  {
    if cells != [] {
      var n := |cells| - 1;
      WiredFacts(byId - {ids[n]}, cells[..n], ids[..n]);
      forall i | 0 <= i < n
        ensures ids[i] in byId && ids[i] != ids[n] && byId[ids[i]] == cells[i] && cells[i] != cells[n]
      {
        assert ids[..n][i] == ids[i] && cells[..n][i] == cells[i];
      }
      forall i, j | 0 <= i < j < |cells| ensures cells[i] != cells[j] && ids[i] != ids[j] {
        if j < n { assert cells[..n][i] != cells[..n][j] && ids[..n][i] != ids[..n][j]; }
      }
      assert ids == ids[..n] + [ids[n]];
    }
  }

  lemma {:induction false} Lookup(
    byId: map<AssertionId, Cell>, cells: seq<Cell>, ids: seq<AssertionId>, id: AssertionId)
    returns (k: nat)
    requires Wired(byId, cells, ids) && id in byId
    ensures k < |cells| == |ids| && ids[k] == id && cells[k] == byId[id]
    ensures forall i :: 0 <= i < |cells| && i != k ==> ids[i] != id && cells[i] != cells[k]
  {
    WiredFacts(byId, cells, ids);
    k :| 0 <= k < |ids| && ids[k] == id;
  }

  // ---------------------------------------------------------------- small facts

  lemma {:induction false} FoundMeansKnown(
    byId: map<AssertionId, Cell>, cells: seq<Cell>, values: seq<Assertion>, id: AssertionId)
    requires Shows(cells, values) && Wired(byId, cells, Ids(values))
    ensures Known(values, id) <==> id in byId
    ensures Believed(values, id) <==> id in byId && byId[id].value.supersededAt.None?
  {
    WiredFacts(byId, cells, Ids(values));
    if id in byId {
      var k := Lookup(byId, cells, Ids(values), id);
      assert values[k] in values;
    }
    if a :| a in values && a.id == id {
      var i :| 0 <= i < |values| && values[i] == a;
      assert Ids(values)[i] in byId;
    }
  }

  lemma {:induction false} FirstUnknownSticks(assertions: seq<Assertion>, requested: seq<Stamp>, more: seq<Stamp>)
    requires FirstUnknown(assertions, requested).Some?
    ensures FirstUnknown(assertions, requested + more) == FirstUnknown(assertions, requested)
  {
    if more == [] {
      assert requested + more == requested;
    } else {
      var all := requested + more;
      assert all[..|all| - 1] == requested + more[..|more| - 1];
      FirstUnknownSticks(assertions, requested, more[..|more| - 1]);
    }
  }

  lemma {:induction false} RequestSnoc(assertions: seq<Assertion>, requested: seq<Stamp>, s: Stamp)
    requires FirstUnknown(assertions, requested) == None
    ensures FirstUnknown(assertions, requested + [s]) == if Known(assertions, s.target) then None else Some(s.target)
    ensures Effective(assertions, requested + [s]) ==
            Effective(assertions, requested) +
            if Believed(assertions, s.target) && FirstStamp(Effective(assertions, requested), s.target).None?
            then [s] else []
  {
    assert (requested + [s])[..|requested|] == requested;
  }

  /** Everything requested up to the `k`th target of draft `i`. */
  ghost function RequestedUpTo(drafts: seq<Draft>, ids: seq<AssertionId>, at: Instant, i: nat, k: nat): seq<Stamp>
    requires |ids| == |drafts| && i < |drafts| && k <= |drafts[i].supersedes|
  {
    Requested(drafts[..i], ids[..i], at) + StampAll(drafts[i].supersedes[..k], at, ids[i])
  }

  lemma {:induction false} RequestedStep(drafts: seq<Draft>, ids: seq<AssertionId>, at: Instant, i: nat, k: nat)
    requires |ids| == |drafts| && i < |drafts| && k < |drafts[i].supersedes|
    ensures RequestedUpTo(drafts, ids, at, i, k + 1) ==
            RequestedUpTo(drafts, ids, at, i, k) + [Stamp(drafts[i].supersedes[k], at, ids[i])]
  {
  }

  lemma {:induction false} RequestedDraft(drafts: seq<Draft>, ids: seq<AssertionId>, at: Instant, i: nat)
    requires |ids| == |drafts| && i < |drafts|
    ensures RequestedUpTo(drafts, ids, at, i, 0) == Requested(drafts[..i], ids[..i], at)
    ensures RequestedUpTo(drafts, ids, at, i, |drafts[i].supersedes|) == Requested(drafts[..i + 1], ids[..i + 1], at)
  {
    assert drafts[..i + 1][..i] == drafts[..i] && ids[..i + 1][..i] == ids[..i];
    assert drafts[i].supersedes[..|drafts[i].supersedes|] == drafts[i].supersedes;
  }

  /** What has been requested so far is a prefix of what will be. */
  lemma {:induction false} RequestedExtends(drafts: seq<Draft>, ids: seq<AssertionId>, at: Instant, i: nat)
    returns (rest: seq<Stamp>)
    requires |ids| == |drafts| && i <= |drafts|
    ensures Requested(drafts, ids, at) == Requested(drafts[..i], ids[..i], at) + rest
  {
    if i == |drafts| {
      assert drafts[..i] == drafts && ids[..i] == ids;
      rest := [];
    } else {
      var n := |drafts| - 1;
      rest := RequestedExtends(drafts[..n], ids[..n], at, i);
      assert drafts[..n][..i] == drafts[..i] && ids[..n][..i] == ids[..i];
      rest := rest + StampAll(drafts[n].supersedes, at, ids[n]);
    }
  }

  /** A request that fails part-way fails with the same id as the whole. */
  lemma {:induction false} UnknownIsFinal(
    assertions: seq<Assertion>, drafts: seq<Draft>, ids: seq<AssertionId>, at: Instant, i: nat, k: nat)
    requires |ids| == |drafts| && i < |drafts| && k < |drafts[i].supersedes|
    requires FirstUnknown(assertions, RequestedUpTo(drafts, ids, at, i, k)) == None
    requires !Known(assertions, drafts[i].supersedes[k])
    ensures FirstUnknown(assertions, Requested(drafts, ids, at)) == Some(drafts[i].supersedes[k])
  {
    var targets := drafts[i].supersedes;
    var upTo := RequestedUpTo(drafts, ids, at, i, k + 1);
    RequestedStep(drafts, ids, at, i, k);
    RequestSnoc(assertions, RequestedUpTo(drafts, ids, at, i, k), Stamp(targets[k], at, ids[i]));
    var within := StampAll(targets[k + 1..], at, ids[i]);
    RequestedDraft(drafts, ids, at, i);
    assert upTo + within == Requested(drafts[..i + 1], ids[..i + 1], at);
    FirstUnknownSticks(assertions, upTo, within);
    var rest := RequestedExtends(drafts, ids, at, i + 1);
    FirstUnknownSticks(assertions, upTo + within, rest);
  }

  // ------------------------------------------------------------------ the class

  class AssertionLog {
    const epoch: string
    var assertions: seq<Cell>
    var byId: map<AssertionId, Cell>
    var submissions: map<string, Receipt>
    var reclaimed: map<AssertionId, Note>
    var floor: Instant
    var nextSeq: int
    var lastMillis: Instant
    var published: int
    var retention: int
    /** What the cells hold. */
    ghost var values: seq<Assertion>

    ghost predicate Valid()
      reads this, assertions
    {
      Shows(assertions, values) && Wired(byId, assertions, Ids(values))
    }

    /** The log's state as a value. */
    ghost function View(): LogState
      reads this
    {
      LogState(epoch, values, submissions, reclaimed, floor, nextSeq, lastMillis, published, retention)
    }

    /** Open on a restored state: one new cell per record. */
    constructor (restored: LogState)
      requires forall i, j :: 0 <= i < j < |restored.assertions| ==>
               restored.assertions[i].id != restored.assertions[j].id
      ensures Valid() && View() == restored.(retention := retention) && fresh(assertions)
      ensures retention == HighestNote(restored.reclaimed)
    {
      epoch := restored.epoch;
      assertions, byId, values := [], map[], [];
      submissions, reclaimed := restored.submissions, restored.reclaimed;
      floor, nextSeq, lastMillis := restored.floor, restored.nextSeq, restored.lastMillis;
      published, retention := restored.published, 0;
      new;
      ghost var made := Push(restored.assertions);
      RaiseRetention();
    }

    method StampNow(clock: Instant) returns (at: Instant)
      modifies this`lastMillis
      ensures at == lastMillis == Store.StampNow(old(View()), clock)
    {
      at := Max(clock, lastMillis + 1);
      lastMillis := at;
    }

    /**
     Resolve what the drafts supersede against the live records, in order: the first
     unknown target refuses, and otherwise each still-believed target gets one stamp.
     */
    method PlanStamps(drafts: seq<Draft>, ids: seq<AssertionId>, at: Instant)
      returns (unknown: Option<AssertionId>, stamps: seq<Stamp>)
      requires Valid() && |ids| == |drafts|
      ensures unknown == FirstUnknown(values, Requested(drafts, ids, at))
      ensures unknown.None? ==> stamps == Effective(values, Requested(drafts, ids, at))
    {
      stamps := [];
      var i := 0;
      assert drafts[..0] == [] && ids[..0] == [];
      while i < |drafts|
        invariant 0 <= i <= |drafts|
        invariant FirstUnknown(values, Requested(drafts[..i], ids[..i], at)) == None
        invariant stamps == Effective(values, Requested(drafts[..i], ids[..i], at))
      {
        RequestedDraft(drafts, ids, at, i);
        var targets := drafts[i].supersedes;
        var k := 0;
        while k < |targets|
          invariant 0 <= k <= |targets|
          invariant FirstUnknown(values, RequestedUpTo(drafts, ids, at, i, k)) == None
          invariant stamps == Effective(values, RequestedUpTo(drafts, ids, at, i, k))
        {
          FoundMeansKnown(byId, assertions, values, targets[k]);
          if targets[k] !in byId {
            UnknownIsFinal(values, drafts, ids, at, i, k);
            return Some(targets[k]), [];
          }
          RequestedStep(drafts, ids, at, i, k);
          RequestSnoc(values, RequestedUpTo(drafts, ids, at, i, k), Stamp(targets[k], at, ids[i]));
          FirstStampFound(stamps, targets[k]);
          if byId[targets[k]].value.supersededAt.None? && !(exists s :: s in stamps && s.target == targets[k]) {
            stamps := stamps + [Stamp(targets[k], at, ids[i])];
          }
          k := k + 1;
        }
        i := i + 1;
      }
      assert drafts[..i] == drafts && ids[..i] == ids;
      unknown := None;
    }

    method PushOne(a: Assertion) returns (cell: Cell)
      requires Valid() && a.id !in byId
      modifies this`assertions, this`byId, this`values
      ensures Valid() && fresh(cell) && assertions == old(assertions) + [cell] && byId == old(byId)[a.id := cell]
      ensures values == old(values) + [a]
    {
      cell := new Cell(a);
      PushKeeps(byId, assertions, values, cell, a);
      assertions, byId, values := assertions + [cell], byId[a.id := cell], values + [a];
    }

    /** Make the minted records visible: push each, and map its id. */
    method Push(minted: seq<Assertion>) returns (ghost made: seq<Cell>)
      requires Valid()
      requires forall i :: 0 <= i < |minted| ==> minted[i].id !in byId
      requires forall i, j :: 0 <= i < j < |minted| ==> minted[i].id != minted[j].id
      modifies this`assertions, this`byId, this`values
      ensures Valid() && fresh(made) && assertions == old(assertions) + made && values == old(values) + minted
    {
      made := [];
      var i := 0;
      while i < |minted|
        invariant 0 <= i <= |minted| && Valid() && fresh(made)
        invariant assertions == old(assertions) + made && values == old(values) + minted[..i]
        invariant forall k :: i <= k < |minted| ==> minted[k].id !in byId
      {
        var cell := PushOne(minted[i]);
        made := made + [cell];
        i := i + 1;
      }
      assert minted[..i] == minted;
    }

    /** Stamp one record, unless it already stopped being believed. The only write to a committed record. */
    method ApplyStamp(stamp: Stamp)
      requires Valid()
      modifies this`values, assertions
      ensures Valid() && values == ApplyStamps(old(values), [stamp])
    {
      if stamp.target in byId {
        var cell := byId[stamp.target];
        ghost var k := Lookup(byId, assertions, Ids(values), stamp.target);
        StampOne(values, k, stamp);
        cell.Supersede(stamp);
        values := values[k := cell.value];
      } else {
        WiredFacts(byId, assertions, Ids(values));
        StampNone(values, stamp);
      }
      assert Ids(values) == Ids(old(values));
    }

    method ApplyAll(stamps: seq<Stamp>)
      requires Valid()
      modifies this`values, assertions
      ensures Valid() && values == ApplyStamps(old(values), stamps)
    {
      var i := 0;
      StampNothing(values);
      while i < |stamps|
        invariant 0 <= i <= |stamps| && Valid() && values == ApplyStamps(old(values), stamps[..i])
      {
        ApplyStamp(stamps[i]);
        ApplyStampsConcat(old(values), stamps[..i], [stamps[i]]);
        assert stamps[..i + 1] == stamps[..i] + [stamps[i]];
        i := i + 1;
      }
      assert stamps[..i] == stamps;
    }

    /** Make a durable commit visible: push, stamp, number on, and remember the receipt. */
    method Publish(minted: seq<Assertion>, stamps: seq<Stamp>, receipt: Receipt) returns (ghost made: seq<Cell>)
      requires Valid()
      requires forall i :: 0 <= i < |minted| ==> minted[i].id !in byId
      requires forall i, j :: 0 <= i < j < |minted| ==> minted[i].id != minted[j].id
      modifies this`assertions, this`byId, this`values, this`nextSeq, this`submissions, assertions
      ensures Valid() && fresh(made) && assertions == old(assertions) + made
      ensures values == ApplyStamps(old(values) + minted, stamps)
      ensures submissions == old(submissions)[KeyOf(receipt) := receipt] && nextSeq == old(nextSeq) + |minted|
    {
      made := Push(minted);
      ApplyAll(stamps);
      Remember(|minted|, receipt);
    }

    method Remember(count: nat, receipt: Receipt)
      requires Valid()
      modifies this`nextSeq, this`submissions
      ensures Valid() && nextSeq == old(nextSeq) + count && submissions == old(submissions)[KeyOf(receipt) := receipt]
    {
      nextSeq := nextSeq + count;
      submissions := submissions[KeyOf(receipt) := receipt];
    }

    /** One record per draft, numbered from the next seq on. */
    method MintAll(input: CommitInput, ids: seq<AssertionId>, at: Instant) returns (minted: seq<Assertion>)
      requires |ids| == |input.drafts|
      ensures minted == Minted(View(), input, ids, at)
      ensures forall i :: 0 <= i < |minted| ==> minted[i].id == ids[i]
    {
      minted := [];
      var q := nextSeq;
      for i := 0 to |ids|
        invariant q == nextSeq + i && |minted| == i
        invariant forall k :: 0 <= k < i ==>
                  minted[k] == MintOne(View(), input, input.drafts[k], ids[k], nextSeq + k, at)
      {
        var d := input.drafts[i];
        minted := minted +
          [Assertion(ids[i], q, epoch, d.subject, d.relation, d.validTime, at, None, None, d.supersedes,
                                      input.clientId, input.fidelity, input.withheld, d.content)];
        q := q + 1;
      }
    }

    /** A submission not seen before: resolve, append durably (the group goes to the journal), then make it visible. */
    method CommitNew(input: CommitInput, mint: Mint)
      returns (outcome: CommitOutcome, group: seq<Record>, ghost made: seq<Cell>)
      requires Valid() && |mint.ids| == |input.drafts|
      requires forall i :: 0 <= i < |mint.ids| ==> mint.ids[i] !in byId
      requires forall i, j :: 0 <= i < j < |mint.ids| ==> mint.ids[i] != mint.ids[j]
      requires (forall d :: d in input.drafts ==> ValidLineage(d))
               && SubmissionKey(input.clientId, input.key) !in submissions
      modifies this`assertions, this`byId, this`values, this`nextSeq, this`submissions, this`lastMillis, assertions
      ensures Valid() && fresh(made) && assertions == old(assertions) + made
      ensures CommitResult(View(), outcome, group) == Store.Commit(old(View()), input, mint)
    {
      ghost var s := View();
      group, made := [], [];
      var at := StampNow(mint.clock);
      var unknown, stamps := PlanStamps(input.drafts, mint.ids, at);
      if unknown.Some? {
        outcome := UnknownSupersedes(unknown.value);
      } else {
        outcome, group, made := Accept(s, input, mint, at, stamps);
      }
    }

    /** A submission whose every target is known. */
    method Accept(ghost s: LogState, input: CommitInput, mint: Mint, at: Instant, stamps: seq<Stamp>)
      returns (outcome: CommitOutcome, group: seq<Record>, ghost made: seq<Cell>)
      requires Valid() && |mint.ids| == |input.drafts|
      requires forall i :: 0 <= i < |mint.ids| ==> mint.ids[i] !in byId
      requires forall i, j :: 0 <= i < j < |mint.ids| ==> mint.ids[i] != mint.ids[j]
      requires (forall d :: d in input.drafts ==> ValidLineage(d))
               && SubmissionKey(input.clientId, input.key) !in submissions
      requires at == Store.StampNow(s, mint.clock) && View() == s.(lastMillis := at)
      requires FirstUnknown(values, Requested(input.drafts, mint.ids, at)).None?
      requires stamps == Effective(values, Requested(input.drafts, mint.ids, at))
      modifies this`assertions, this`byId, this`values, this`nextSeq, this`submissions, assertions
      ensures Valid() && fresh(made) && assertions == old(assertions) + made
      ensures CommitResult(View(), outcome, group) == Store.Commit(s, input, mint)
    {
      var minted := MintAll(input, mint.ids, at);
      CommitValue(s, input, mint, minted, stamps);
      var receipt := ReceiptOf(input, mint, at);
      group := CommitGroup(minted, stamps, receipt);
      made := Publish(minted, stamps, receipt);
      outcome := Committed(receipt);
    }

    /** Commit once per (client, key): a retry gets its original receipt, a changed payload a conflict. */
    method Commit(input: CommitInput, mint: Mint)
      returns (outcome: CommitOutcome, group: seq<Record>, ghost made: seq<Cell>)
      requires Valid() && |mint.ids| == |input.drafts|
      requires forall i :: 0 <= i < |mint.ids| ==> mint.ids[i] !in byId
      requires forall i, j :: 0 <= i < j < |mint.ids| ==> mint.ids[i] != mint.ids[j]
      modifies this, assertions
      ensures Valid() && fresh(made) && assertions == old(assertions) + made
      ensures CommitResult(View(), outcome, group) == Store.Commit(old(View()), input, mint)
      ensures outcome.Committed? ==> CommitMeaning.Adds(old(values), values, input, mint.ids)
    {
      ghost var s := View();
      group, made := [], [];
      var key := SubmissionKey(input.clientId, input.key);
      if exists d :: d in input.drafts && !ValidLineage(d) {
        outcome := InvalidLineage;
      } else if key in submissions {
        var prior := submissions[key];
        outcome := if prior.digest ==
          Digest(input.clientId, input.key, input.drafts) then Replayed(prior) else Conflict(prior);
      } else {
        outcome, group, made := CommitNew(input, mint);
        if outcome.Committed? { CommitMeaning.AddedInOrder(s, input, mint); }
      }
    }

    /** Move the floor forward; it never moves back. */
    method AdvanceHistoryFloor(to: Instant, clock: Instant) returns (outcome: FloorOutcome, group: seq<Record>)
      requires Valid()
      modifies this`floor, this`lastMillis
      ensures Valid() && FloorResult(View(), outcome, group) == AdvanceFloor(old(View()), to, clock)
    {
      if to < floor { return CannotRegress, []; }
      if to == floor { return FloorUnchanged, []; }
      var at := StampNow(clock);
      group := [HistoryFloor(to, at)];
      floor := to;
      outcome := FloorAdvanced;
    }

    /** Everything above the cursor, in log order. */
    method After(cursor: int) returns (changes: seq<Assertion>)
      requires Valid()
      ensures changes == AfterCursor(values, cursor)
    {
      changes := [];
      var i := 0;
      assert values[..0] == [];
      while i < |assertions|
        invariant 0 <= i <= |assertions| && changes == AfterCursor(values[..i], cursor)
      {
        assert values[..i + 1][..i] == values[..i];
        if assertions[i].value.seqNo > cursor { changes := changes + [assertions[i].value]; }
        i := i + 1;
      }
      assert values[..i] == values;
    }

    method AnyAfter(cursor: int) returns (found: bool)
      requires Valid()
      ensures found <==> exists a :: a in values && a.seqNo > cursor
    {
      var i := 0;
      while i < |assertions|
        invariant 0 <= i <= |assertions| && forall k :: 0 <= k < i ==> values[k].seqNo <= cursor
      {
        if assertions[i].value.seqNo > cursor {
          assert values[i] in values;
          return true;
        }
        i := i + 1;
      }
      return false;
    }

    /** One page of the feed; what it delivers is published. */
    method ChangesSince(cursor: int, limit: nat, clock: Instant) returns (page: FeedPage, group: seq<Record>)
      requires Valid()
      modifies this`published, this`lastMillis
      ensures Valid() && FeedResult(View(), page, group) == Store.ChangesSince(old(View()), cursor, limit, clock)
    {
      var after := After(cursor);
      var changes := Take(after, limit);
      var next := if changes == [] then cursor else changes[|changes| - 1].seqNo;
      var more := AnyAfter(next);
      page := FeedPage(changes, next, more, retention, cursor < retention);
      group := RaiseWatermark(next, clock);
    }

    /** Raise the watermark, if the page moved past it. */
    method RaiseWatermark(next: int, clock: Instant) returns (group: seq<Record>)
      modifies this`published, this`lastMillis
      ensures var s := old(View());
              var at := Store.StampNow(s, clock);
              && View() == (if next > s.published then s.(published := next, lastMillis := at) else s)
              && group == if next > s.published then [Watermark(next, at)] else []
    {
      group := [];
      if next > published {
        var at := StampNow(clock);
        group := [Watermark(next, at)];
        published := next;
      }
    }

    /** The bitemporal read: one pass with counters over the rows either axis lets through. */
    method Query(q: Query) returns (answer: QueryAnswer)
      requires Valid()
      ensures answer == RunQuery(View(), q)
      ensures answer.BeforeHistoryFloor? <==> q.asOfRecorded.Some? && q.asOfRecorded.value < floor
      ensures answer.Answer? ==> exists rows :: QueryMeaning.Answers(q, values, rows, answer.page.hits)
    {
      if q.asOfRecorded.Some? && q.asOfRecorded.value < floor { return BeforeHistoryFloor(floor); }
      var evaluated, withheld, withValidTime := 0, 0, 0;
      var hits: seq<Hit> := [];
      var i := 0;
      assert values[..0] == [];
      while i < |assertions|
        invariant 0 <= i <= |assertions|
        invariant hits == Hits(q, values[..i]) && evaluated == CountEvaluated(q, values[..i])
        invariant withheld == CountWithheld(hits) && withValidTime == CountWithValidTime(hits)
      {
        var a := assertions[i].value;
        assert values[..i + 1][..i] == values[..i] && a == values[i];
        i := i + 1;
        var seen, found := Examine(q, a);
        if seen { evaluated := evaluated + 1; }
        if found.Some? {
          CountsSnoc(hits, found.value);
          if found.value.fidelity.ExactTime? || found.value.fidelity.ApproximateTime? {
            withValidTime := withValidTime + 1;
          }
          if a.withheld { withheld := withheld + 1; }
          hits := hits + [found.value];
        }
      }
      assert values[..i] == values;
      answer := Answer(Page(hits, evaluated, |hits|, withheld, withValidTime, |hits| - withValidTime,
                            MixesFidelity(hits), floor, epoch));
      ghost var rows := QueryMeaning.HitRows(q, values);
    }

    /** The retention floor is the highest seq any note speaks for. */
    method RaiseRetention()
      requires retention == 0
      modifies this`retention
      ensures retention == HighestNote(reclaimed)
    {
      var left := reclaimed.Keys;
      ghost var noted: map<AssertionId, Note> := map[];
      while left != {}
        invariant left !! noted.Keys && left + noted.Keys == reclaimed.Keys && forall id :: id in noted ==>
                  noted[id] == reclaimed[id]
        invariant retention == HighestNote(noted)
        decreases left
      {
        var id :| id in left;
        HighestNoteGrows(noted, id, reclaimed[id]);
        retention := Max(retention, reclaimed[id].seqNo);
        noted, left := noted[id := reclaimed[id]], left - {id};
      }
      assert noted == reclaimed;
    }

    method ForgetOne(id: AssertionId, note: Note)
      modifies this`byId, this`reclaimed, this`retention
      ensures byId == old(byId) - {id} && reclaimed == old(reclaimed)[id := note]
              && retention == Max(old(retention), note.seqNo)
    {
      reclaimed := reclaimed[id := note];
      byId := byId - {id};
      retention := Max(retention, note.seqNo);
    }

    /** Record every note and unmap its id; a map iterates in no order the result could depend on. */
    method Forget(notes: map<AssertionId, Note>)
      requires retention >= 0
      modifies this`byId, this`reclaimed, this`retention
      ensures byId == old(byId) - notes.Keys && reclaimed == old(reclaimed) + notes
      ensures retention == Max(old(retention), HighestNote(notes))
    {
      var left := notes.Keys;
      ghost var noted: map<AssertionId, Note> := map[];
      assert old(byId) - {} == byId && old(reclaimed) + map[] == reclaimed;
      while left != {}
        invariant left !! noted.Keys && left + noted.Keys == notes.Keys && forall id :: id in noted ==>
                  noted[id] == notes[id]
        invariant byId == old(byId) - noted.Keys && reclaimed == old(reclaimed) + noted
        invariant retention == Max(old(retention), HighestNote(noted))
        decreases left
      {
        var id :| id in left;
        ForgetOne(id, notes[id]);
        HighestNoteGrows(noted, id, notes[id]);
        ForgetStep(old(byId), old(reclaimed), noted, id, notes[id]);
        noted, left := noted[id := notes[id]], left - {id};
      }
      assert noted == notes;
    }

    /** Cut the reclaimed records out, from the end so that earlier positions stay put. */
    method Splice(notes: map<AssertionId, Note>)
      requires Shows(assertions, values)
      modifies this`assertions, this`values
      ensures assertions == CellsWithout(old(assertions), old(values), notes.Keys)
              && values == Without(old(values), notes.Keys)
    {
      ghost var cells, all := assertions, values;
      var index := |assertions|;
      while index > 0
        invariant values == all
        invariant 0 <= index <= |cells| == |all|
                  && assertions == cells[..index] + CellsWithout(cells[index..], all[index..], notes.Keys)
      {
        index := index - 1;
        CellsWithoutCons(cells, all, index, notes.Keys);
        SpliceStep(cells, index, CellsWithout(cells[index + 1..], all[index + 1..], notes.Keys));
        if assertions[index].value.id in notes {
          assertions := assertions[..index] + assertions[index + 1..];
        }
      }
      assert cells[0..] == cells && all[0..] == all && cells[..0] == [];
      assert assertions == CellsWithout(cells, all, notes.Keys);
      values := Without(values, notes.Keys);
    }

    /** Drop reclaimed records so that memory agrees with the segments that survive. */
    method ApplyReclamation(notes: map<AssertionId, Note>)
      requires Valid() && retention >= 0
      modifies this`assertions, this`byId, this`values, this`reclaimed, this`retention
      ensures Valid() && View() == Store.ApplyReclamation(old(View()), notes) && retention >= 0
      ensures byId == old(byId) - notes.Keys && forall c :: c in assertions ==> c in old(assertions)
    {
      if notes == map[] { return; }
      Reclaim(notes);
    }

    method Reclaim(notes: map<AssertionId, Note>)
      requires Valid() && retention >= 0
      modifies this`assertions, this`byId, this`values, this`reclaimed, this`retention
      ensures Valid() && values == Without(old(values), notes.Keys) && reclaimed == old(reclaimed) + notes
      ensures retention == Max(old(retention), HighestNote(notes))
      ensures byId == old(byId) - notes.Keys && forall c :: c in assertions ==> c in old(assertions)
    {
      WiredWithout(byId, assertions, values, notes.Keys);
      Forget(notes);
      Splice(notes);
      ShowsWithout(old(assertions), old(values), notes.Keys);
    }
  }

  lemma {:induction false} ForgetStep(
    byId: map<AssertionId, Cell>, reclaimed: map<AssertionId, Note>, noted: map<AssertionId, Note>, id: AssertionId,
    note: Note)
    ensures var more := noted[id := note];
            && more.Keys == noted.Keys + {id}
            && byId - noted.Keys - {id} == byId - more.Keys && (reclaimed + noted)[id := note] == reclaimed + more
  {
  }

  lemma {:induction false} SpliceStep(cells: seq<Cell>, i: nat, rest: seq<Cell>)
    requires i < |cells|
    ensures var all := cells[..i + 1] + rest;
            && i < |all| && all[i] == cells[i] && all == cells[..i] + ([cells[i]] + rest)
            && all[..i] + all[i + 1..] == cells[..i] + ([] + rest)
  {
  }

  /** The cells whose values stay. */
  ghost function CellsWithout(cells: seq<Cell>, values: seq<Assertion>, gone: set<AssertionId>): seq<Cell>
    requires |cells| == |values|
  {
    if cells == [] then []
    else
      var n := |cells| - 1;
      CellsWithout(cells[..n], values[..n], gone) + if values[n].id in gone then [] else [cells[n]]
  }

  lemma {:induction false} CellsWithoutCons(cells: seq<Cell>, values: seq<Assertion>, i: nat, gone: set<AssertionId>)
    requires |cells| == |values| && i < |cells|
    ensures CellsWithout(cells[i..], values[i..], gone) ==
            (if values[i].id in gone then [] else [cells[i]]) + CellsWithout(cells[i + 1..], values[i + 1..], gone)
    decreases |cells|
  {
    var n := |cells| - 1;
    if i < n {
      CellsWithoutCons(cells[..n], values[..n], i, gone);
      assert cells[i..][..n - i] == cells[..n][i..] && values[i..][..n - i] == values[..n][i..];
      assert cells[i + 1..][..n - i - 1] == cells[..n][i + 1..] && values[i + 1..][..n - i - 1] == values[..n][i + 1..];
    } else {
      assert cells[i..] == [cells[i]] && values[i..] == [values[i]];
      assert cells[i..][..0] == [] && cells[i + 1..] == [];
    }
  }

  lemma {:induction false} ShowsWithout(cells: seq<Cell>, values: seq<Assertion>, gone: set<AssertionId>)
    requires Shows(cells, values)
    ensures Shows(CellsWithout(cells, values, gone), Without(values, gone))
    ensures forall c :: c in CellsWithout(cells, values, gone) ==> c in cells
  {
    if cells != [] {
      var n := |cells| - 1;
      ShowsWithout(cells[..n], values[..n], gone);
    }
  }

  lemma {:induction false} WiredWithout(
    byId: map<AssertionId, Cell>, cells: seq<Cell>, values: seq<Assertion>, gone: set<AssertionId>)
    requires Shows(cells, values) && Wired(byId, cells, Ids(values))
    ensures Wired(byId - gone, CellsWithout(cells, values, gone), Ids(Without(values, gone)))
  {
    if cells == [] {
      assert byId - gone == map[];
    } else {
      var n := |cells| - 1;
      var fewer, kept, left :=
        byId - {values[n].id}, CellsWithout(cells[..n], values[..n], gone), Without(values[..n], gone);
      assert Ids(values)[..n] == Ids(values[..n]);
      WiredWithout(fewer, cells[..n], values[..n], gone);
      ShowsWithout(cells[..n], values[..n], gone);
      if values[n].id in gone {
        assert byId - gone == fewer - gone && kept + [] == kept;
      } else {
        assert byId - gone == (fewer - gone)[values[n].id := cells[n]];
        PushKeeps(fewer - gone, kept, left, cells[n], values[n]);
      }
    }
  }

  lemma {:induction false} HighestNoteGrows(notes: map<AssertionId, Note>, id: AssertionId, note: Note)
    requires id !in notes
    ensures HighestNote(notes[id := note]) == Max(HighestNote(notes), note.seqNo)
  {
    var more := notes[id := note];
    var h, k := HighestNote(notes), HighestNote(more);
    assert more[id] == note && forall x :: x in notes ==> more[x] == notes[x];
    if k != 0 { var x :| x in more && more[x].seqNo == k; assert x == id || x in notes; }
    if h != 0 { var x :| x in notes && notes[x].seqNo == h; assert more[x].seqNo == h; }
  }

  /** What one row contributes: whether the filters select it, and its hit if both axes let it through. */
  method Examine(q: Query, a: Assertion) returns (seen: bool, found: Option<Hit>)
    ensures seen == Evaluates(q, a)
    ensures found == if Visible(q, a) then Some(HitFor(q, a)) else None
    ensures seen <==> QueryMeaning.Asked(q, a)
    ensures found.Some? <==> QueryMeaning.Wanted(q, a)
    ensures found.Some? ==> QueryMeaning.Describes(q, a, found.value)
  {
    QueryMeaning.HitDescribes(q, a);
    if q.subject.Some? && q.subject.value != "" && a.subject != q.subject.value { return false, None; }
    if q.relation.Some? && q.relation.value != "" && a.relation != q.relation.value { return false, None; }
    if q.asOfRecorded.Some? {
      if a.recordedAt > q.asOfRecorded.value { return true, None; }
      if !q.includeSuperseded && a.supersededAt.Some? && a.supersededAt.value <= q.asOfRecorded.value {
        return true, None;
      }
    } else if !q.includeSuperseded && a.supersededAt.Some? {
      return true, None;
    }
    var quality: Option<Quality> := None;
    if q.asOfValid.Some? {
      var world := IntervalContains(a.validTime, q.asOfValid.value);
      if world.NoMatch? { return true, None; }
      quality := Some(world.quality);
    }
    return true, Some(Hit(a, ValidTimeFidelity(a.validTime), quality));
  }

  lemma {:induction false} CountsSnoc(hits: seq<Hit>, hit: Hit)
    ensures CountWithheld(hits + [hit]) == CountWithheld(hits) + if hit.assertion.withheld then 1 else 0
    ensures CountWithValidTime(hits + [hit]) ==
            CountWithValidTime(hits) + if CarriesValidTime(hit.fidelity) then 1 else 0
  {
    assert (hits + [hit])[..|hits|] == hits;
  }

  lemma {:induction false} CommitValue(
    s: LogState, input: CommitInput, mint: Mint, minted: seq<Assertion>, stamps: seq<Stamp>)
    requires |mint.ids| == |input.drafts| && forall d :: d in input.drafts ==> ValidLineage(d)
    requires SubmissionKey(input.clientId, input.key) !in s.submissions
    requires FirstUnknown(s.assertions, Requested(input.drafts, mint.ids, StampNow(s, mint.clock))).None?
    requires minted == Minted(s, input, mint.ids, StampNow(s, mint.clock))
    requires stamps == Effective(s.assertions, Requested(input.drafts, mint.ids, StampNow(s, mint.clock)))
    ensures var receipt := ReceiptOf(input, mint, StampNow(s, mint.clock));
            Commit(s, input, mint) == CommitResult(
              s.(assertions := ApplyStamps(s.assertions + minted, stamps),
                 submissions := s.submissions[SubmissionKey(input.clientId, input.key) := receipt],
                 nextSeq := s.nextSeq + |mint.ids|, lastMillis := receipt.committedAt),
              Committed(receipt), CommitGroup(minted, stamps, receipt))
  {
  }

  lemma {:induction false} OneStampOnly(stamp: Stamp, id: AssertionId)
    ensures FirstStamp([stamp], id) == if stamp.target == id then Some(stamp) else None
  {
    assert [stamp][..0] == [];
  }

  lemma {:induction false} StampNothing(assertions: seq<Assertion>)
    ensures ApplyStamps(assertions, []) == assertions
  {
  }

  lemma {:induction false} StampOne(assertions: seq<Assertion>, k: nat, stamp: Stamp)
    requires k < |assertions| && assertions[k].id == stamp.target
    requires forall i :: 0 <= i < |assertions| && i != k ==> assertions[i].id != stamp.target
    ensures ApplyStamps(assertions, [stamp]) ==
            assertions[k := if assertions[k].supersededAt.Some? then assertions[k]
                            else assertions[k].(supersededAt := Some(stamp.at), supersededBy := Some(stamp.superseder))]
  {
    forall i | 0 <= i < |assertions| && i != k ensures Stamped(assertions[i], [stamp]) == assertions[i] {
      OneStampOnly(stamp, assertions[i].id);
    }
    OneStampOnly(stamp, assertions[k].id);
  }

  lemma {:induction false} StampNone(assertions: seq<Assertion>, stamp: Stamp)
    requires forall i :: 0 <= i < |assertions| ==> assertions[i].id != stamp.target
    ensures ApplyStamps(assertions, [stamp]) == assertions
  {
    forall i | 0 <= i < |assertions| ensures Stamped(assertions[i], [stamp]) == assertions[i] {
      OneStampOnly(stamp, assertions[i].id);
    }
  }

  lemma {:induction false} PushKeeps(
    byId: map<AssertionId, Cell>, cells: seq<Cell>, values: seq<Assertion>, cell: Cell, a: Assertion)
    requires Wired(byId, cells, Ids(values)) && cell !in cells && a.id !in byId
    ensures Wired(byId[a.id := cell], cells + [cell], Ids(values + [a]))
  {
    var ids := Ids(values);
    assert Ids(values + [a]) == ids + [a.id];
    assert byId[a.id := cell] - {a.id} == byId;
    assert (cells + [cell])[..|cells|] == cells && (ids + [a.id])[..|ids|] == ids;
  }
}
