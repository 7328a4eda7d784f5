/**
 The in-memory assertion log as a state machine over values: what each
 operation of `AssertionLog` does to the state, what it answers, and the group
 of records it appends before the change becomes visible.
 */
module Store {
  import opened Wrappers
  import opened Sequences
  import opened WorldTime
  import opened LogRecords

  datatype LogState = LogState(
    epoch: string,
    assertions: seq<Assertion>,
    submissions: map<string, Receipt>,
    reclaimed: map<AssertionId, Note>,
    floor: Instant,
    nextSeq: int,
    lastMillis: Instant,
    published: int,
    retention: int)

  function FreshLog(epoch: string, floor: Instant): LogState {
    LogState(epoch, [], map[], map[], floor, 1, 0, 0, 0)
  }

  /** Belief time never repeats, however coarse or backward the clock is. */
  function StampNow(s: LogState, clock: Instant): Instant {
    Max(clock, s.lastMillis + 1)
  }

  predicate Known(assertions: seq<Assertion>, id: AssertionId) {
    exists a :: a in assertions && a.id == id
  }

  predicate Believed(assertions: seq<Assertion>, id: AssertionId) {
    exists a :: a in assertions && a.id == id && a.supersededAt.None?
  }

  // --------------------------------------------------------------------- commit

  datatype CommitInput = CommitInput(
    clientId: string, key: string, drafts: seq<Draft>, fidelity: RecordedAtFidelity, withheld: bool)

  /** What a commit takes from outside: the clock, one minted id per draft, and a submission id. */
  datatype Mint = Mint(clock: Instant, ids: seq<AssertionId>, submissionId: nat)

  datatype CommitOutcome =
    | Committed(receipt: Receipt)
    | Replayed(receipt: Receipt)
    | Conflict(original: Receipt)
    | InvalidLineage
    | UnknownSupersedes(id: AssertionId)

  datatype CommitResult = CommitResult(state: LogState, outcome: CommitOutcome, group: seq<Record>)

  /** Every action but `assert` must name what it acts on. */
  predicate ValidLineage(d: Draft) {
    d.isAssert || d.supersedes != []
  }

  function MintOne(s: LogState, input: CommitInput, d: Draft, id: AssertionId, seqNo: int, at: Instant): Assertion {
    Assertion(id, seqNo, s.epoch, d.subject, d.relation, d.validTime, at, None, None, d.supersedes,
              input.clientId, input.fidelity, input.withheld, d.content)
  }

  function Minted(s: LogState, input: CommitInput, ids: seq<AssertionId>, at: Instant): (r: seq<Assertion>)
    requires |ids| == |input.drafts|
    ensures |r| == |ids|
  {
    seq(|ids|, i requires 0 <= i < |ids| => MintOne(s, input, input.drafts[i], ids[i], s.nextSeq + i, at))
  }

  /** Every stamp the drafts ask for, in order, before write-once and duplicates are considered. */
  function Requested(drafts: seq<Draft>, ids: seq<AssertionId>, at: Instant): seq<Stamp>
    requires |ids| == |drafts|
  {
    if drafts == [] then []
    else
      var n := |drafts| - 1;
      Requested(drafts[..n], ids[..n], at) + StampAll(drafts[n].supersedes, at, ids[n])
  }

  function StampAll(targets: seq<AssertionId>, at: Instant, superseder: AssertionId): seq<Stamp> {
    seq(|targets|, k requires 0 <= k < |targets| => Stamp(targets[k], at, superseder))
  }

  function FirstUnknown(assertions: seq<Assertion>, requested: seq<Stamp>): Option<AssertionId> {
    if requested == [] then None
    else
      var earlier := FirstUnknown(assertions, requested[..|requested| - 1]);
      var last := requested[|requested| - 1].target;
      if earlier.Some? then earlier else if Known(assertions, last) then None else Some(last)
  }

  /** The stamps a commit writes: first request per target, and only for targets still believed. */
  function Effective(assertions: seq<Assertion>, requested: seq<Stamp>): seq<Stamp> {
    if requested == [] then []
    else
      var earlier := Effective(assertions, requested[..|requested| - 1]);
      var last := requested[|requested| - 1];
      if Believed(assertions, last.target) && FirstStamp(earlier, last.target).None? then earlier + [last] else earlier
  }

  function ReceiptOf(input: CommitInput, mint: Mint, at: Instant): Receipt {
    Receipt(mint.submissionId, input.clientId, input.key, at, mint.ids, Digest(input.clientId, input.key, input.drafts))
  }

  /** One commit as it is appended: bodies, then stamps, then the receipt that closes the group. */
  function CommitGroup(minted: seq<Assertion>, stamps: seq<Stamp>, receipt: Receipt): seq<Record> {
    seq(|minted|, i requires 0 <= i < |minted| => Body(receipt.submissionId, minted[i])) +
    seq(|stamps|, i requires 0 <= i < |stamps| => Supersession(receipt.submissionId, stamps[i])) +
    [Submission(receipt)]
  }

  function Commit(s: LogState, input: CommitInput, mint: Mint): CommitResult
    requires |mint.ids| == |input.drafts|
  {
    var key := SubmissionKey(input.clientId, input.key);
    if exists d :: d in input.drafts && !ValidLineage(d) then CommitResult(s, InvalidLineage, [])
    else if key in s.submissions then
      var prior := s.submissions[key];
      CommitResult(s, if prior.digest == Digest(input.clientId, input.key, input.drafts)
                      then Replayed(prior) else Conflict(prior), [])
    else
      var at := StampNow(s, mint.clock);
      var requested := Requested(input.drafts, mint.ids, at);
      var unknown := FirstUnknown(s.assertions, requested);
      if unknown.Some? then CommitResult(s.(lastMillis := at), UnknownSupersedes(unknown.value), [])
      else
        var minted := Minted(s, input, mint.ids, at);
        var stamps := Effective(s.assertions, requested);
        var receipt := ReceiptOf(input, mint, at);
        CommitResult(
          s.(assertions := ApplyStamps(s.assertions + minted, stamps),
             submissions := s.submissions[key := receipt],
             nextSeq := s.nextSeq + |mint.ids|,
             lastMillis := at),
          Committed(receipt),
          CommitGroup(minted, stamps, receipt))
  }

  // ------------------------------------------------------- floor and reclamation

  datatype FloorOutcome = FloorAdvanced | FloorUnchanged | CannotRegress

  datatype FloorResult = FloorResult(state: LogState, outcome: FloorOutcome, group: seq<Record>)

  function AdvanceFloor(s: LogState, to: Instant, clock: Instant): FloorResult {
    if to < s.floor then FloorResult(s, CannotRegress, [])
    else if to == s.floor then FloorResult(s, FloorUnchanged, [])
    else
      var at := StampNow(s, clock);
      FloorResult(s.(floor := to, lastMillis := at), FloorAdvanced, [HistoryFloor(to, at)])
  }

  function Without(assertions: seq<Assertion>, gone: set<AssertionId>): seq<Assertion> {
    if assertions == [] then []
    else
      var front, last := Without(assertions[..|assertions| - 1], gone), assertions[|assertions| - 1];
      if last.id in gone then front else front + [last]
  }

  /** The highest seq any note speaks for, or 0. */
  ghost function HighestNote(notes: map<AssertionId, Note>): (h: int)
    ensures h >= 0 && (forall id :: id in notes ==> notes[id].seqNo <= h)
    ensures h == 0 || exists id :: id in notes && notes[id].seqNo == h
    decreases |notes|
  {
    if notes == map[] then 0
    else
      var id :| id in notes;
      var rest := notes - {id};
      assert rest.Keys == notes.Keys - {id} && forall k :: k in rest ==> rest[k] == notes[k];
      assert forall k :: k in notes ==> k == id || k in rest;
      Max(HighestNote(rest), notes[id].seqNo)
  }

  ghost function ApplyReclamation(s: LogState, notes: map<AssertionId, Note>): LogState {
    if notes == map[] then s
    else s.(assertions := Without(s.assertions, notes.Keys),
            reclaimed := s.reclaimed + notes,
            retention := Max(s.retention, HighestNote(notes)))
  }

  // ---------------------------------------------------------------------- query

  datatype Query = Query(
    subject: Option<string>,
    relation: Option<string>,
    asOfRecorded: Option<Instant>,
    asOfValid: Option<PartialDate>,
    includeSuperseded: bool)

  datatype Hit = Hit(assertion: Assertion, fidelity: Fidelity, quality: Option<Quality>)

  datatype Page = Page(
    hits: seq<Hit>,
    evaluated: nat,
    matched: nat,
    withheld: nat,
    withValidTime: nat,
    unknownOrAbsentValidTime: int,
    fidelityMixed: bool,
    floor: Instant,
    epoch: string)

  datatype QueryAnswer = Answer(page: Page) | BeforeHistoryFloor(since: Instant)

  /** A filter left out, or given as the empty string, selects everything. */
  predicate Selects(filter: Option<string>, value: string) {
    filter.Some? && filter.value != "" ==> filter.value == value
  }

  predicate Evaluates(q: Query, a: Assertion) {
    Selects(q.subject, a.subject) && Selects(q.relation, a.relation)
  }

  /** The belief axis: recorded by the instant and, unless superseded records are wanted, still believed at it. */
  predicate BelievedAt(q: Query, a: Assertion) {
    match q.asOfRecorded
    case Some(t) => a.recordedAt <= t && (q.includeSuperseded || a.supersededAt.None? || a.supersededAt.value > t)
    case None => q.includeSuperseded || a.supersededAt.None?
  }

  /** The world axis. */
  predicate TrueAt(q: Query, a: Assertion) {
    q.asOfValid.Some? ==> IntervalContains(a.validTime, q.asOfValid.value).Matches?
  }

  predicate Visible(q: Query, a: Assertion) {
    Evaluates(q, a) && BelievedAt(q, a) && TrueAt(q, a)
  }

  function HitFor(q: Query, a: Assertion): Hit
    requires TrueAt(q, a)
  {
    Hit(a, ValidTimeFidelity(a.validTime),
        if q.asOfValid.Some? then Some(IntervalContains(a.validTime, q.asOfValid.value).quality) else None)
  }

  /** The declarative two-axis read: every visible assertion, in log order. */
  function Hits(q: Query, assertions: seq<Assertion>): seq<Hit> {
    if assertions == [] then []
    else
      var front, last := Hits(q, assertions[..|assertions| - 1]), assertions[|assertions| - 1];
      if Visible(q, last) then front + [HitFor(q, last)] else front
  }

  predicate CarriesValidTime(f: Fidelity) {
    f.ExactTime? || f.ApproximateTime?
  }

  function CountEvaluated(q: Query, assertions: seq<Assertion>): nat {
    if assertions == [] then 0
    else CountEvaluated(q, assertions[..|assertions| - 1]) +
         (if Evaluates(q, assertions[|assertions| - 1]) then 1 else 0)
  }

  function CountWithheld(hits: seq<Hit>): nat {
    if hits == [] then 0
    else CountWithheld(hits[..|hits| - 1]) + (if hits[|hits| - 1].assertion.withheld then 1 else 0)
  }

  function CountWithValidTime(hits: seq<Hit>): nat {
    if hits == [] then 0
    else CountWithValidTime(hits[..|hits| - 1]) + (if CarriesValidTime(hits[|hits| - 1].fidelity) then 1 else 0)
  }

  predicate MixesFidelity(hits: seq<Hit>) {
    exists h, k :: h in hits && k in hits && h.assertion.fidelity.Authoritative? && k.assertion.fidelity.ImportArtifact?
  }

  function PageOf(q: Query, s: LogState): Page {
    var hits := Hits(q, s.assertions);
    Page(hits, CountEvaluated(q, s.assertions), |hits|, CountWithheld(hits), CountWithValidTime(hits),
         |hits| - CountWithValidTime(hits), MixesFidelity(hits), s.floor, s.epoch)
  }

  function RunQuery(s: LogState, q: Query): QueryAnswer {
    if q.asOfRecorded.Some? && q.asOfRecorded.value < s.floor then BeforeHistoryFloor(s.floor)
    else Answer(PageOf(q, s))
  }

  // ----------------------------------------------------------------------- feed

  datatype FeedPage = FeedPage(
    changes: seq<Assertion>, nextCursor: int, hasMore: bool, retention: int, beforeRetention: bool)

  datatype FeedResult = FeedResult(state: LogState, page: FeedPage, group: seq<Record>)

  function AfterCursor(assertions: seq<Assertion>, cursor: int): seq<Assertion> {
    if assertions == [] then []
    else
      var front, last := AfterCursor(assertions[..|assertions| - 1], cursor), assertions[|assertions| - 1];
      if last.seqNo > cursor then front + [last] else front
  }

  function ChangesSince(s: LogState, cursor: int, limit: nat, clock: Instant): FeedResult {
    var changes := Take(AfterCursor(s.assertions, cursor), limit);
    var next := if changes == [] then cursor else changes[|changes| - 1].seqNo;
    var moved := next > s.published;
    var at := StampNow(s, clock);
    FeedResult(
      if moved then s.(published := next, lastMillis := at) else s,
      FeedPage(changes, next, exists a :: a in s.assertions && a.seqNo > next, s.retention, cursor < s.retention),
      if moved then [Watermark(next, at)] else [])
  }

  // ------------------------------------------------------------- query theorems

  /** Coverage always reconciles, and counts only rows that entered the page. */
  lemma {:induction false} CoverageReconciles(s: LogState, q: Query)
    ensures var p := PageOf(q, s);
            && p.withValidTime + p.unknownOrAbsentValidTime == p.matched == |p.hits|
            && 0 <= p.unknownOrAbsentValidTime && p.withheld <= p.matched <= p.evaluated <= |s.assertions|
  {
    HitsAtMostEvaluated(q, s.assertions);
    CountsAtMostHits(Hits(q, s.assertions));
  }

  lemma {:induction false} HitsAtMostEvaluated(q: Query, assertions: seq<Assertion>)
    ensures |Hits(q, assertions)| <= CountEvaluated(q, assertions) <= |assertions|
  {
    if assertions != [] { HitsAtMostEvaluated(q, assertions[..|assertions| - 1]); }
  }

  lemma {:induction false} CountsAtMostHits(hits: seq<Hit>)
    ensures CountWithheld(hits) <= |hits| && CountWithValidTime(hits) <= |hits|
  {
    if hits != [] { CountsAtMostHits(hits[..|hits| - 1]); }
  }

  /** An assertion that stopped being believed by the floor is out of reach of every permitted read. */
  predicate OutOfReach(a: Assertion, floor: Instant) {
    a.supersededAt.Some? && a.supersededAt.value <= floor
  }

  /** Dropping only out-of-reach assertions changes no hit of a permitted, non-superseded read, nor their order. */
  lemma {:induction false} WithoutKeepsHits(
    q: Query, assertions: seq<Assertion>, gone: set<AssertionId>, floor: Instant)
    requires !q.includeSuperseded && (q.asOfRecorded.Some? ==> q.asOfRecorded.value >= floor)
    requires forall a :: a in assertions && a.id in gone ==> OutOfReach(a, floor)
    ensures Hits(q, Without(assertions, gone)) == Hits(q, assertions)
    ensures CountEvaluated(q, Without(assertions, gone)) <= CountEvaluated(q, assertions)
  {
    if assertions != [] {
      var front, last := assertions[..|assertions| - 1], assertions[|assertions| - 1];
      assert assertions == front + [last];
      WithoutKeepsHits(q, front, gone, floor);
      var rest := Without(front, gone);
      assert (rest + [last])[..|rest + [last]| - 1] == rest;
    }
  }

  /** Later state of one assertion, seen from an instant: untouched, or stamped only after it. */
  predicate LaterForm(a: Assertion, b: Assertion, t: Instant) {
    b == a || (a.supersededAt.None? && b.supersededAt.Some? && b.supersededAt.value > t &&
               b == a.(supersededAt := b.supersededAt, supersededBy := b.supersededBy))
  }

  /** The log grew past `t`: same assertions in later form, then only newer ones. */
  ghost predicate GrewAfter(before: seq<Assertion>, after: seq<Assertion>, t: Instant) {
    && |before| <= |after|
    && (forall i :: 0 <= i < |before| ==> LaterForm(before[i], after[i], t))
    && (forall i :: |before| <= i < |after| ==> after[i].recordedAt > t)
  }

  lemma {:induction false} GrewAfterTransitive(a: seq<Assertion>, b: seq<Assertion>, c: seq<Assertion>, t: Instant)
    requires GrewAfter(a, b, t) && GrewAfter(b, c, t)
    ensures GrewAfter(a, c, t)
  {
    forall i | 0 <= i < |a| ensures LaterForm(a[i], c[i], t) {
      assert LaterForm(a[i], b[i], t) && LaterForm(b[i], c[i], t);
    }
    forall i | |a| <= i < |c| ensures c[i].recordedAt > t {
      if i < |b| { assert LaterForm(b[i], c[i], t); }
    }
  }

  /** What a repeatable read compares: which assertions, and how they matched. */
  predicate SameHit(h: Hit, k: Hit) {
    h.assertion.id == k.assertion.id && h.fidelity == k.fidelity && h.quality == k.quality
  }

  ghost predicate SameHits(hs: seq<Hit>, ks: seq<Hit>) {
    |hs| == |ks| && forall i :: 0 <= i < |hs| ==> SameHit(hs[i], ks[i])
  }

  /** An as-of read at `t` gives the same hits after any growth past `t`. */
  lemma {:induction false} AsOfReadsRepeat(q: Query, before: seq<Assertion>, after: seq<Assertion>, t: Instant)
    requires q.asOfRecorded == Some(t) && GrewAfter(before, after, t)
    ensures SameHits(Hits(q, before), Hits(q, after))
  {
    if after != [] {
      var front, last := after[..|after| - 1], after[|after| - 1];
      if |before| == |after| {
        var n := |before| - 1;
        assert LaterForm(before[n], after[n], t);
        AsOfReadsRepeat(q, before[..n], front, t);
      } else {
        AsOfReadsRepeat(q, before, front, t);
      }
    }
  }
}
