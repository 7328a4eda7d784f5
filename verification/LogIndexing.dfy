/**
 The read index beside the log. It is never told about supersession: it stays
 right because it holds the very cells the log stamps. A compaction rebuilds it
 from a fresh scan, so from then on it holds copies, and the next superseding
 commit leaves them behind.
 */
module LogIndexing {
  import opened Wrappers
  import opened Sequences
  import opened LogRecords
  import opened Store
  import opened LogWorld
  import opened LogInvariant
  import opened Unlinking
  import opened LiveLog

  /** What an index files a record under; a supersession changes none of it. */
  datatype Label = Label(id: AssertionId, seqNo: int, key: string)

  /** NUL separates, as in submission keys. */
  function IndexKey(subject: string, relation: string): string {
    SubmissionKey(subject, relation)
  }

  function LabelOf(a: Assertion): Label {
    Label(a.id, a.seqNo, IndexKey(a.subject, a.relation))
  }

  ghost predicate Labelled(cells: seq<Cell>, labels: seq<Label>)
    reads cells
  {
    |cells| == |labels| && forall i :: 0 <= i < |cells| ==> LabelOf(cells[i].value) == labels[i]
  }

  // --------------------------------------------------- what an index should hold

  ghost function IdMap(cells: seq<Cell>, labels: seq<Label>): map<AssertionId, Cell>
    requires |cells| == |labels|
  {
    if cells == [] then map[]
    else
      var n := |cells| - 1;
      IdMap(cells[..n], labels[..n])[labels[n].id := cells[n]]
  }

  ghost function SeqMap(cells: seq<Cell>, labels: seq<Label>): map<int, Cell>
    requires |cells| == |labels|
  {
    if cells == [] then map[]
    else
      var n := |cells| - 1;
      SeqMap(cells[..n], labels[..n])[labels[n].seqNo := cells[n]]
  }

  function BucketAt(buckets: map<string, seq<Cell>>, key: string): seq<Cell> {
    if key in buckets then buckets[key] else []
  }

  /** The cells filed under a key, in the order they were added. */
  ghost function Filed(cells: seq<Cell>, labels: seq<Label>, key: string): seq<Cell>
    requires |cells| == |labels|
  {
    if cells == [] then []
    else
      var n := |cells| - 1;
      Filed(cells[..n], labels[..n], key) + if labels[n].key == key then [cells[n]] else []
  }

  /** What a scan of the log would select. */
  ghost function Selected(cells: seq<Cell>, values: seq<Assertion>, subject: string, relation: string): seq<Cell>
    requires |cells| == |values|
  {
    if cells == [] then []
    else
      var n := |cells| - 1;
      Selected(cells[..n], values[..n], subject, relation) +
      if values[n].subject == subject && values[n].relation == relation then [cells[n]] else []
  }

  /** The key is injective where subjects hold no NUL, so filing by key selects by subject and relation. */
  lemma {:induction false} FiledIsSelected(
    cells: seq<Cell>, values: seq<Assertion>, labels: seq<Label>, subject: string, relation: string)
    requires |cells| == |values| == |labels| && forall i :: 0 <= i < |values| ==> LabelOf(values[i]) == labels[i]
    requires NulFree(subject) && forall i :: 0 <= i < |values| ==> NulFree(values[i].subject)
    ensures Filed(cells, labels, IndexKey(subject, relation)) == Selected(cells, values, subject, relation)
  {
    if cells != [] {
      var n := |cells| - 1;
      FiledIsSelected(cells[..n], values[..n], labels[..n], subject, relation);
      SubmissionKeyInjective(values[n].subject, values[n].relation, subject, relation);
    }
  }

  /** Every selected cell is in the log and matches, and every match is selected. */
  lemma {:induction false} SelectedMember(
    cells: seq<Cell>, values: seq<Assertion>, subject: string, relation: string, c: Cell)
    requires |cells| == |values|
    ensures c in Selected(cells, values, subject, relation) <==>
            exists i :: 0 <= i < |cells| && cells[i] == c && values[i].subject == subject
              && values[i].relation == relation
  {
    if cells != [] {
      var n := |cells| - 1;
      SelectedMember(cells[..n], values[..n], subject, relation, c);
      if i :| 0 <= i < |cells| && cells[i] == c && values[i].subject == subject && values[i].relation == relation {
        assert i < n ==> cells[..n][i] == c && values[..n][i] == values[i];
      }
    }
  }

  /** The id map of a log's cells is the log's own. */
  lemma {:induction false} IdMapIsWired(
    byId: map<AssertionId, Cell>, cells: seq<Cell>, labels: seq<Label>, ids: seq<AssertionId>)
    requires Wired(byId, cells, ids) && |labels| == |cells| && forall i :: 0 <= i < |ids| ==> labels[i].id == ids[i]
    ensures IdMap(cells, labels) == byId
    decreases |cells|
  {
    if cells != [] {
      var n := |cells| - 1;
      IdMapIsWired(byId - {ids[n]}, cells[..n], labels[..n], ids[..n]);
      assert (byId - {ids[n]})[ids[n] := cells[n]] == byId;
    }
  }

  // ------------------------------------------------------------------ the classes

  class LogIndex {
    var byId: map<AssertionId, Cell>
    var bySubjectRelation: map<string, seq<Cell>>
    var bySeq: map<int, Cell>
    /** Every cell added, and what each was filed under. */
    ghost var added: seq<Cell>
    ghost var labels: seq<Label>

    ghost predicate Valid()
      reads this, added
    {
      && Labelled(added, labels)
      && byId == IdMap(added, labels) && bySeq == SeqMap(added, labels)
      && forall key :: BucketAt(bySubjectRelation, key) == Filed(added, labels, key)
    }

    constructor ()
      ensures Valid() && added == []
    {
      byId, bySubjectRelation, bySeq, added, labels := map[], map[], map[], [], [];
    }

    method Add(cell: Cell)
      requires Valid()
      modifies this
      ensures Valid() && added == old(added) + [cell]
    {
      var a := cell.value;
      byId := byId[a.id := cell];
      bySeq := bySeq[a.seqNo := cell];
      var key := IndexKey(a.subject, a.relation);
      bySubjectRelation := bySubjectRelation[key := BucketAt(bySubjectRelation, key) + [cell]];
      added, labels := added + [cell], labels + [LabelOf(a)];
      assert added[..|added| - 1] == old(added) && labels[..|labels| - 1] == old(labels);
    }

    method Get(id: AssertionId) returns (found: Option<Cell>)
      requires Valid()
      ensures found == if id in IdMap(added, labels) then Some(IdMap(added, labels)[id]) else None
    {
      found := if id in byId then Some(byId[id]) else None;
    }

    method ForSubjectRelation(subject: string, relation: string) returns (found: seq<Cell>)
      requires Valid()
      ensures found == Filed(added, labels, IndexKey(subject, relation))
    {
      found := BucketAt(bySubjectRelation, IndexKey(subject, relation));
    }
  }

  // ------------------------------------------------------- the wrapper that owns both

  function AcknowledgedIds(outcome: CommitOutcome): seq<AssertionId> {
    if outcome.Committed? then outcome.receipt.assertionIds else []
  }

  /** A commit relabels nothing it finds, and adds exactly the records it acknowledges, in order. */
  ghost predicate Extends(before: seq<Assertion>, after: seq<Assertion>, ids: seq<AssertionId>) {
    && |after| == |before| + |ids| && Ids(after) == Ids(before) + ids
    && (forall i :: 0 <= i < |before| ==> LabelOf(after[i]) == LabelOf(before[i]))
  }

  lemma {:induction false} CommitExtends(s: LogState, input: CommitInput, mint: Mint)
    requires |mint.ids| == |input.drafts|
    ensures var r := Commit(s, input, mint);
            && Extends(s.assertions, r.state.assertions, AcknowledgedIds(r.outcome))
            && (r.outcome.Committed? ==> AcknowledgedIds(r.outcome) == mint.ids)
  {
    var r := Commit(s, input, mint);
    if r.outcome.Committed? {
      var at := StampNow(s, mint.clock);
      StampingKeepsLabels(s.assertions, Minted(s, input, mint.ids, at),
                          Effective(s.assertions, Requested(input.drafts, mint.ids, at)), mint.ids);
    }
  }

  lemma {:induction false} StampingKeepsLabels(
    before: seq<Assertion>, minted: seq<Assertion>, stamps: seq<Stamp>, ids: seq<AssertionId>)
    requires |minted| == |ids| && forall i :: 0 <= i < |ids| ==> minted[i].id == ids[i]
    ensures Extends(before, ApplyStamps(before + minted, stamps), ids)
  {
    var all := before + minted;
    var after := ApplyStamps(all, stamps);
    forall i | 0 <= i < |all| ensures LabelOf(after[i]) == LabelOf(all[i]) {
      assert after[i] == Stamped(all[i], stamps);
    }
    forall i | 0 <= i < |all| ensures Ids(after)[i] == (Ids(before) + ids)[i] {
      assert LabelOf(after[i]) == LabelOf(all[i]);
    }
  }

  /** The new cells are what the id map finds under the acknowledged ids, in order. */
  lemma {:induction false} MadeAreMapped(
    byId: map<AssertionId, Cell>, cells: seq<Cell>, made: seq<Cell>, before: seq<Assertion>, after: seq<Assertion>,
    ids: seq<AssertionId>)
    requires Wired(byId, cells + made, Ids(after)) && |cells| == |before| && Extends(before, after, ids)
    ensures |made| == |ids| && forall i :: 0 <= i < |ids| ==> ids[i] in byId && byId[ids[i]] == made[i]
  {
    WiredFacts(byId, cells + made, Ids(after));
    assert |cells + made| == |after|;
    forall i | 0 <= i < |ids| ensures ids[i] in byId && byId[ids[i]] == made[i] {
      assert (Ids(before) + ids)[|cells| + i] == ids[i] && (cells + made)[|cells| + i] == made[i];
    }
  }

  class DurableLog {
    const log: AssertionLog
    var index: LogIndex

    ghost predicate Valid()
      reads this, log, log.assertions, index, index.added
    {
      log.Valid() && index.Valid()
    }

    /** The index holds the log's own cells, all of them, in order. */
    ghost predicate Agrees()
      reads this, log, index
    {
      index.added == log.assertions
    }

    /** Open: the log and the index are built over the same cells. */
    constructor (restored: LogState)
      requires forall i, j :: 0 <= i < j < |restored.assertions| ==>
               restored.assertions[i].id != restored.assertions[j].id
      ensures Valid() && Agrees() && log.View() == restored.(retention := log.retention) && fresh(log) && fresh(index)
      ensures fresh(log.assertions)
    {
      log := new AssertionLog(restored);
      index := new LogIndex();
      new;
      AddAll(log.assertions);
      assert [] + log.assertions == log.assertions;
    }

    method AddAll(cells: seq<Cell>)
      requires index.Valid()
      modifies index
      ensures index.Valid() && index.added == old(index.added) + cells
    {
      var i := 0;
      assert cells[..0] == [];
      while i < |cells|
        invariant 0 <= i <= |cells| && index == old(index) && index.Valid()
                  && index.added == old(index.added) + cells[..i]
      {
        index.Add(cells[i]);
        assert cells[..i + 1] == cells[..i] + [cells[i]];
        i := i + 1;
      }
      assert cells[..i] == cells;
    }

    /** Commit to the log, then file each new record, read back by its id. */
    method Commit(input: CommitInput, mint: Mint)
      returns (outcome: CommitOutcome, group: seq<Record>, ghost made: seq<Cell>)
      requires Valid() && |mint.ids| == |input.drafts|
      requires forall i :: 0 <= i < |mint.ids| ==> mint.ids[i] !in log.byId
      requires forall i, j :: 0 <= i < j < |mint.ids| ==> mint.ids[i] != mint.ids[j]
      modifies log, log.assertions, index
      ensures Valid() && CommitResult(log.View(), outcome, group) == Store.Commit(old(log.View()), input, mint)
      ensures fresh(made) && log.assertions == old(log.assertions) + made && index.added == old(index.added) + made
      ensures old(Agrees()) ==> Agrees()
    {
      ghost var cells, s := log.assertions, log.View();
      outcome, group, made := CommitToLog(input, mint);
      CommitExtends(s, input, mint);
      MadeAreMapped(log.byId, cells, made, s.assertions, log.values, AcknowledgedIds(outcome));
      FileNew(AcknowledgedIds(outcome), made);
    }

    /** The log's commit stamps cells the index may share, and disturbs nothing the index filed them under. */
    method CommitToLog(input: CommitInput, mint: Mint)
      returns (outcome: CommitOutcome, group: seq<Record>, ghost made: seq<Cell>)
      requires Valid() && |mint.ids| == |input.drafts|
      requires forall i :: 0 <= i < |mint.ids| ==> mint.ids[i] !in log.byId
      requires forall i, j :: 0 <= i < j < |mint.ids| ==> mint.ids[i] != mint.ids[j]
      modifies log, log.assertions
      ensures Valid() && CommitResult(log.View(), outcome, group) == Store.Commit(old(log.View()), input, mint)
      ensures fresh(made) && log.assertions == old(log.assertions) + made && index.added == old(index.added)
    {
      ghost var cells, s := log.assertions, log.View();
      outcome, group, made := log.Commit(input, mint);
      CommitExtends(s, input, mint);
      forall i | 0 <= i < |index.added| ensures LabelOf(index.added[i].value) == index.labels[i] {
        if index.added[i] in cells {
          var k :| 0 <= k < |cells| && cells[k] == index.added[i];
          assert log.assertions[k] == cells[k] && LabelOf(log.values[k]) == LabelOf(s.assertions[k]);
        }
      }
    }

    method FileNew(ids: seq<AssertionId>, ghost made: seq<Cell>)
      requires Valid() && |made| == |ids| && forall i :: 0 <= i < |ids| ==>
               ids[i] in log.byId && log.byId[ids[i]] == made[i]
      modifies index
      ensures Valid() && index.added == old(index.added) + made
    {
      var i := 0;
      assert made[..0] == [];
      while i < |ids|
        invariant 0 <= i <= |ids| && index == old(index) && Valid() && index.added == old(index.added) + made[..i]
      {
        if ids[i] in log.byId { index.Add(log.byId[ids[i]]); }
        assert made[..i + 1] == made[..i] + [made[i]];
        i := i + 1;
      }
      assert made[..i] == made;
    }

    /** Look up by subject and relation: the very cells a filter of the log would give, stamps and all. */
    method Find(subject: string, relation: string) returns (found: seq<Cell>)
      requires Valid() && Agrees() && NulFree(subject) && forall i :: 0 <= i < |log.values| ==>
               NulFree(log.values[i].subject)
      ensures found == Selected(log.assertions, log.values, subject, relation)
    {
      found := index.ForSubjectRelation(subject, relation);
      FiledIsSelected(log.assertions, log.values, index.labels, subject, relation);
    }

    /** Look up by id: exactly what the log reads. */
    method Read(id: AssertionId) returns (found: Option<Cell>)
      requires Valid() && Agrees()
      ensures found == if id in log.byId then Some(log.byId[id]) else None
    {
      IdMapIsWired(log.byId, log.assertions, index.labels, Ids(log.values));
      found := index.Get(id);
    }

    /** After a compaction the index is rebuilt from a fresh scan: from copies. */
    method Compact(notes: map<AssertionId, Note>, scanned: seq<Assertion>)
      requires Valid() && log.retention >= 0
      modifies this`index, log
      ensures Valid() && log.View() == Store.ApplyReclamation(old(log.View()), notes)
      ensures fresh(index) && fresh(index.added) && Shows(index.added, Without(scanned, notes.Keys))
      ensures log.byId == old(log.byId) - notes.Keys && forall c :: c in log.assertions ==> c in old(log.assertions)
    {
      log.ApplyReclamation(notes);
      Rebuild(Without(scanned, notes.Keys));
    }

    method Rebuild(values: seq<Assertion>)
      requires log.Valid()
      modifies this`index
      ensures Valid() && fresh(index) && fresh(index.added) && Shows(index.added, values)
    {
      index := BuildIndex(values);
    }
  }

  /** A new index over new cells. */
  method BuildIndex(values: seq<Assertion>) returns (index: LogIndex)
    ensures fresh(index) && index.Valid() && fresh(index.added) && Shows(index.added, values)
  {
    index := new LogIndex();
    var i := 0;
    while i < |values|
      invariant 0 <= i <= |values| == |values[..i]| + |values[i..]|
      invariant fresh(index) && index.Valid() && fresh(index.added) && Shows(index.added, values[..i])
    {
      AddCopy(index, values[i], values[..i]);
      assert values[..i + 1] == values[..i] + [values[i]];
      i := i + 1;
    }
    assert values[..i] == values;
  }

  method AddCopy(index: LogIndex, a: Assertion, ghost values: seq<Assertion>)
    requires index.Valid() && Shows(index.added, values)
    modifies index
    ensures index.Valid() && Shows(index.added, values + [a])
    ensures |index.added| == |old(index.added)| + 1 && fresh(index.added[|old(index.added)|])
            && index.added[..|old(index.added)|] == old(index.added)
  {
    var cell := new Cell(a);
    index.Add(cell);
  }

  // ----------------------------------------------------- where agreement is lost

  lemma {:induction false} RequestedNames(
    drafts: seq<Draft>, ids: seq<AssertionId>, at: Instant, d: Draft, x: AssertionId)
    requires |ids| == |drafts| && d in drafts && x in d.supersedes
    ensures exists st :: st in Requested(drafts, ids, at) && st.target == x
  {
    var n := |drafts| - 1;
    var front, last := Requested(drafts[..n], ids[..n], at), StampAll(drafts[n].supersedes, at, ids[n]);
    if d in drafts[..n] {
      RequestedNames(drafts[..n], ids[..n], at, d, x);
      var st :| st in front && st.target == x;
      assert st in front + last;
    } else {
      assert drafts == drafts[..n] + [drafts[n]];
      var k :| 0 <= k < |d.supersedes| && d.supersedes[k] == x;
      assert last[k].target == x && last[k] in front + last;
    }
  }

  /** A commit that supersedes a believed record leaves no believed record with that id. */
  lemma {:induction false} SupersededNow(s: LogState, input: CommitInput, mint: Mint, d: Draft, x: AssertionId)
    requires |mint.ids| == |input.drafts| && Commit(s, input, mint).outcome.Committed?
    requires Believed(s.assertions, x) && d in input.drafts && x in d.supersedes
    ensures !Believed(Commit(s, input, mint).state.assertions, x)
  {
    var at := StampNow(s, mint.clock);
    var requested := Requested(input.drafts, mint.ids, at);
    var all, stamps := s.assertions + Minted(s, input, mint.ids, at), Effective(s.assertions, requested);
    RequestedNames(input.drafts, mint.ids, at, d, x);
    FirstStampFound(requested, x);
    EffectiveStamps(s.assertions, requested);
    forall a | a in ApplyStamps(all, stamps) && a.id == x ensures a.supersededAt.Some? {
      var i :| 0 <= i < |all| && a == ApplyStamps(all, stamps)[i];
      assert a == Stamped(all[i], stamps);
    }
  }

  lemma {:induction false} IdMapFinds(cells: seq<Cell>, labels: seq<Label>, id: AssertionId)
    requires |cells| == |labels|
    ensures id in IdMap(cells, labels) <==> exists i :: 0 <= i < |labels| && labels[i].id == id
    ensures id in IdMap(cells, labels) ==>
            exists i :: 0 <= i < |labels| && labels[i].id == id && IdMap(cells, labels)[id] == cells[i]
  {
    if cells != [] {
      var n := |cells| - 1;
      IdMapFinds(cells[..n], labels[..n], id);
      assert labels[n].id == id ==> IdMap(cells, labels)[id] == cells[n];
      if i :| 0 <= i < |labels| && labels[i].id == id {
        assert i < n ==> labels[..n][i].id == id;
      }
      if labels[n].id != id && id in IdMap(cells[..n], labels[..n]) {
        var i :| 0 <= i < n && labels[..n][i].id == id && IdMap(cells[..n], labels[..n])[id] == cells[..n][i];
        assert labels[i].id == id && IdMap(cells, labels)[id] == cells[i];
      }
    }
  }

  lemma {:induction false} WithoutBelieves(values: seq<Assertion>, gone: set<AssertionId>, x: AssertionId)
    requires x !in gone && forall a :: a in values && a.id == x ==> a.supersededAt.None?
    ensures forall a :: a in Without(values, gone) && a.id == x ==> a.supersededAt.None?
    ensures Known(values, x) ==> Known(Without(values, gone), x)
  {
    if values != [] {
      var n := |values| - 1;
      assert values == values[..n] + [values[n]];
      WithoutBelieves(values[..n], gone, x);
      if Known(values[..n], x) {
        var a :| a in Without(values[..n], gone) && a.id == x;
        assert a in Without(values, gone);
      }
    }
  }

  /**
   The price of rebuilding from copies, on any log and whatever was reclaimed: compact,
   then supersede any record that was believed and stayed. The log knows it is
   superseded; the index, asked for the same id, says it is still believed.
   */
  method CompactThenSupersede(
    d: DurableLog, notes: map<AssertionId, Note>, scanned: seq<Assertion>, input: CommitInput, mint: Mint, draft: Draft,
    x: AssertionId)
    requires d.Valid() && d.log.retention >= 0 && scanned == d.log.values
    requires Believed(d.log.values, x) && x !in notes && draft in input.drafts && x in draft.supersedes
    requires |mint.ids| == |input.drafts| && forall i :: 0 <= i < |mint.ids| ==> mint.ids[i] !in d.log.byId
    requires forall i, j :: 0 <= i < j < |mint.ids| ==> mint.ids[i] != mint.ids[j]
    requires Store.Commit(Store.ApplyReclamation(d.log.View(), notes), input, mint).outcome.Committed?
    modifies d, d.log, d.log.assertions
    ensures d.Valid()
    ensures x in d.log.byId && d.log.byId[x].value.supersededAt.Some?
    ensures x in d.index.byId && d.index.byId[x].value.supersededAt.None?
  {
    CompactToCopies(d, notes, scanned, x);
    assert forall i :: 0 <= i < |d.log.assertions| ==> d.log.assertions[i] in old(d.log.assertions);
    var outcome, group := SupersedeBehindIndex(d, input, mint, draft, x);
  }

  /** Once compacted, the index is over copies, and its only record of a believed id is a believed one. */
  method CompactToCopies(d: DurableLog, notes: map<AssertionId, Note>, scanned: seq<Assertion>, x: AssertionId)
    requires d.Valid() && d.log.retention >= 0 && scanned == d.log.values && Believed(d.log.values, x) && x !in notes
    modifies d`index, d.log
    ensures d.Valid() && fresh(d.index) && CopiesBelieve(d, x) && Believed(d.log.values, x)
    ensures d.log.View() == Store.ApplyReclamation(old(d.log.View()), notes)
    ensures d.log.byId == old(d.log.byId) - notes.Keys && forall c :: c in d.log.assertions ==>
            c in old(d.log.assertions)
  {
    ghost var s := d.log.View();
    BelievedOnce(d.log.byId, d.log.assertions, s.assertions, x);
    WithoutBelieves(s.assertions, notes.Keys, x);
    ReclaimedBelieves(s, notes, x);
    d.Compact(notes, scanned);
  }

  /** The index is over cells the log does not share, and its only record of `x` is a believed one. */
  ghost predicate CopiesBelieve(d: DurableLog, x: AssertionId)
    reads d, d.index, d.log, d.index.added
  {
    && (forall c :: c in d.index.added ==> c !in d.log.assertions)
    && (forall c :: c in d.index.added && c.value.id == x ==> c.value.supersededAt.None?)
    && exists c :: c in d.index.added && c.value.id == x
  }

  method SupersedeBehindIndex(d: DurableLog, input: CommitInput, mint: Mint, draft: Draft, x: AssertionId)
    returns (outcome: CommitOutcome, group: seq<Record>)
    requires d.Valid() && CopiesBelieve(d, x)
    requires Believed(d.log.values, x) && draft in input.drafts && x in draft.supersedes
    requires |mint.ids| == |input.drafts| && forall i :: 0 <= i < |mint.ids| ==> mint.ids[i] !in d.log.byId
    requires forall i, j :: 0 <= i < j < |mint.ids| ==> mint.ids[i] != mint.ids[j]
    requires Store.Commit(d.log.View(), input, mint).outcome.Committed?
    modifies d.log, d.log.assertions, d.index
    ensures d.Valid()
    ensures x in d.log.byId && d.log.byId[x].value.supersededAt.Some?
    ensures x in d.index.byId && d.index.byId[x].value.supersededAt.None?
  {
    ghost var s, copies := d.log.View(), d.index.added;
    FoundMeansKnown(d.log.byId, d.log.assertions, d.log.values, x);
    assert x !in mint.ids;
    ghost var made;
    outcome, group, made := d.Commit(input, mint);
    LogSide(d, s, input, mint, draft, x);
    assert forall c :: c in copies ==> c.value == old(c.value);
    OthersWereMade(d, s, input, mint, made, x);
    StaleEntry(copies, made, d.index.labels, x);
  }

  lemma {:induction false} LogSide(
    d: DurableLog, s: LogState, input: CommitInput, mint: Mint, draft: Draft, x: AssertionId)
    requires d.log.Valid() && |mint.ids| == |input.drafts|
    requires d.log.View() == Store.Commit(s, input, mint).state && Store.Commit(s, input, mint).outcome.Committed?
    requires Believed(s.assertions, x) && draft in input.drafts && x in draft.supersedes
    ensures x in d.log.byId && d.log.byId[x].value.supersededAt.Some?
  {
    CommitExtends(s, input, mint);
    SupersededNow(s, input, mint, draft, x);
    StillKnown(s.assertions, d.log.values, x);
    FoundMeansKnown(d.log.byId, d.log.assertions, d.log.values, x);
  }

  /** The cells a commit made carry its minted ids. */
  lemma {:induction false} OthersWereMade(
    d: DurableLog, s: LogState, input: CommitInput, mint: Mint, made: seq<Cell>, x: AssertionId)
    requires d.log.Valid() && |mint.ids| == |input.drafts| && |made| <= |d.log.assertions| && x !in mint.ids
    requires d.log.View() == Store.Commit(s, input, mint).state && Store.Commit(s, input, mint).outcome.Committed?
    requires made == d.log.assertions[|s.assertions|..]
    ensures forall c :: c in made ==> c.value.id != x
  {
    CommitExtends(s, input, mint);
    forall c | c in made ensures c.value.id in mint.ids {
      var j :| 0 <= j < |made| && made[j] == c;
      assert d.log.assertions[|s.assertions| + j] == c && Ids(d.log.values)[|s.assertions| + j] == mint.ids[j];
    }
  }

  lemma {:induction false} StaleEntry(copies: seq<Cell>, made: seq<Cell>, labels: seq<Label>, x: AssertionId)
    requires Labelled(copies + made, labels)
    requires forall c :: c in made ==> c.value.id != x
    requires forall c :: c in copies && c.value.id == x ==> c.value.supersededAt.None?
    requires exists c :: c in copies && c.value.id == x
    ensures x in IdMap(copies + made, labels) && IdMap(copies + made, labels)[x].value.supersededAt.None?
  {
    var all := copies + made;
    IdMapFinds(all, labels, x);
    var c :| c in copies && c.value.id == x;
    var k :| 0 <= k < |copies| && copies[k] == c;
    assert all[k] == c && LabelOf(all[k].value) == labels[k];
    var i :| 0 <= i < |labels| && labels[i].id == x && IdMap(all, labels)[x] == all[i];
    assert LabelOf(all[i].value) == labels[i] && all[i] in all;
  }

  lemma {:induction false} StillKnown(before: seq<Assertion>, after: seq<Assertion>, x: AssertionId)
    requires |before| <= |after| && Known(before, x)
    requires forall i :: 0 <= i < |before| ==> LabelOf(after[i]) == LabelOf(before[i])
    ensures Known(after, x)
  {
    var a :| a in before && a.id == x;
    var i :| 0 <= i < |before| && before[i] == a;
    assert after[i] in after && LabelOf(after[i]) == LabelOf(before[i]);
  }

  lemma {:induction false} BelievedOnce(
    byId: map<AssertionId, Cell>, cells: seq<Cell>, values: seq<Assertion>, x: AssertionId)
    requires Wired(byId, cells, Ids(values)) && Believed(values, x)
    ensures forall a :: a in values && a.id == x ==> a.supersededAt.None?
  {
    WiredFacts(byId, cells, Ids(values));
    var b :| b in values && b.id == x && b.supersededAt.None?;
    var j :| 0 <= j < |values| && values[j] == b;
    forall a | a in values && a.id == x ensures a == b {
      var i :| 0 <= i < |values| && values[i] == a;
      assert Ids(values)[i] == Ids(values)[j];
    }
  }

  lemma {:induction false} ReclaimedBelieves(s: LogState, notes: map<AssertionId, Note>, x: AssertionId)
    requires Believed(s.assertions, x) && x !in notes
    ensures Believed(ApplyReclamation(s, notes).assertions, x)
  {
    var a :| a in s.assertions && a.id == x && a.supersededAt.None?;
    WithoutMember(s.assertions, notes.Keys, a);
  }
}
