/**
 The identity log: every registry operation is one group of records, closed by a
 marker that names what the group holds. Reading it back rebuilds the registry as
 it stood after the last whole group, and a closed group with a member missing is
 refused rather than read short.
 */
module IdentityLog {
  import opened Wrappers
  import opened Sequences
  import opened LineFormat
  import opened SegmentScan
  import opened SegmentWriting
  import opened GroupCuts
  import opened AliasLedger
  import opened Redirects
  import opened IdentityRegistry
  import opened RegistryRuns

  datatype IdRecord =
    | IdHeader(ordinal: int, createdAt: Instant)
    | EntityRecord(groupSeq: int, entity: Entity)
    | AliasRecord(groupSeq: int, row: Row)
    | ObservationRecord(groupSeq: int, entityId: string, observation: Observation, observedAt: Instant)
    | GroupCommit(groupSeq: int, committedAt: Instant, entityIds: seq<string>, rowSeqs: seq<int>)
    | IdRepair(repairedAt: Instant)

  type IdSegment = Segment<IdRecord>

  predicate IsMember(r: IdRecord) {
    r.EntityRecord? || r.AliasRecord? || r.ObservationRecord?
  }

  // ---------------------------------------------------------------- the recovery fold

  datatype IdAcc = IdAcc(
    entities: map<string, Entity>,
    order: seq<string>,
    rows: seq<Row>,
    byOldId: map<string, Row>,
    conflicts: seq<string>,
    observations: map<string, Observation>,
    highRowSeq: int,
    highGroupSeq: int,
    lastMillis: Instant)

  const NO_IDENTITY := IdAcc(map[], [], [], map[], [], map[], 0, 0, 0)

  function Noted(acc: IdAcc, at: Instant): IdAcc {
    acc.(lastMillis := Max(acc.lastMillis, at))
  }

  /** Make one member real. Latest version of an entity wins; the first row for an id wins, and a second is reported. */
  function AbsorbMember(acc: IdAcc, r: IdRecord): IdAcc {
    match r
    case EntityRecord(_, e) =>
      Noted(acc.(order := if e.id in acc.entities then acc.order else acc.order + [e.id],
                 entities := acc.entities[e.id := e]), e.updatedAt)
    case AliasRecord(_, row) =>
      var id := row.unsealed.oldId;
      Noted(acc.(rows := acc.rows + [row],
                 conflicts := if id in acc.byOldId then acc.conflicts + [id] else acc.conflicts,
                 byOldId := if id in acc.byOldId then acc.byOldId else acc.byOldId[id := row],
                 highRowSeq := Max(acc.highRowSeq, row.unsealed.rowSeq)), row.unsealed.recordedAt)
    case ObservationRecord(_, id, o, at) => Noted(acc.(observations := acc.observations[id := o]), at)
    case _ => acc
  }

  function AbsorbMembers(acc: IdAcc, members: seq<IdRecord>): IdAcc {
    if members == [] then acc else AbsorbMember(AbsorbMembers(acc, members[..|members| - 1]), members[|members| - 1])
  }

  function CountEntities(members: seq<IdRecord>): nat {
    if members == [] then 0
    else CountEntities(members[..|members| - 1]) + if members[|members| - 1].EntityRecord? then 1 else 0
  }

  function CountRows(members: seq<IdRecord>): nat {
    if members == [] then 0
    else CountRows(members[..|members| - 1]) + if members[|members| - 1].AliasRecord? then 1 else 0
  }

  function Claimed<T>(xs: seq<T>): set<T> {
    set x | x in xs
  }

  /** A member its closing marker vouches for: same group, and named if it is an entity or a row. */
  predicate Vouched(m: IdRecord, marker: IdRecord)
    requires marker.GroupCommit? && IsMember(m)
  {
    && m.groupSeq == marker.groupSeq
    && (m.EntityRecord? ==> m.entity.id in Claimed(marker.entityIds))
    && (m.AliasRecord? ==> m.row.unsealed.rowSeq in Claimed(marker.rowSeqs))
  }

  /** The marker's account of its group: nobody uninvited, and as many as it names. */
  predicate Accounts(members: seq<IdRecord>, marker: IdRecord)
    requires marker.GroupCommit?
  {
    && (forall m :: m in members && IsMember(m) ==> Vouched(m, marker))
    && CountEntities(members) == |Claimed(marker.entityIds)| && CountRows(members) == |Claimed(marker.rowSeqs)|
  }

  function CloseGroup(acc: IdAcc, ordinal: int, members: seq<IdRecord>, marker: IdRecord): Result<IdAcc, ScanError> {
    if !marker.GroupCommit? then Err(CorruptRecord)
    else if !Accounts(members, marker) then Err(CorruptRecord)
    else Ok(Noted(AbsorbMembers(acc, members).(highGroupSeq := Max(acc.highGroupSeq, marker.groupSeq)),
                  marker.committedAt))
  }

  function BeginSegment(acc: IdAcc, ordinal: int, header: IdRecord): Result<IdAcc, ScanError> {
    if !header.IdHeader? then Err(MissingHeader)
    else if header.ordinal != ordinal then Err(OrdinalMismatch)
    else Ok(Noted(acc, header.createdAt))
  }

  function StandAlone(acc: IdAcc, ordinal: int, r: IdRecord): IdAcc {
    if r.IdRepair? then Noted(acc, r.repairedAt) else acc
  }

  const IDENTITY_FORMAT: Format<IdRecord, IdAcc> :=
    Format((r: IdRecord) => r.IdHeader?, IsMember, (r: IdRecord) => r.GroupCommit?, BeginSegment, CloseGroup,
           StandAlone)

  // -------------------------------------------------------------------- the journal

  /** What one operation makes durable before it becomes visible. */
  datatype Delta = Delta(entities: seq<Entity>, rows: seq<Row>, observations: seq<(string, Observation)>)

  function EntityRecords(groupSeq: int, es: seq<Entity>): seq<IdRecord> {
    seq(|es|, i requires 0 <= i < |es| => EntityRecord(groupSeq, es[i]))
  }

  function AliasRecords(groupSeq: int, rows: seq<Row>): seq<IdRecord> {
    seq(|rows|, i requires 0 <= i < |rows| => AliasRecord(groupSeq, rows[i]))
  }

  function ObservationRecords(groupSeq: int, os: seq<(string, Observation)>, at: Instant): seq<IdRecord> {
    seq(|os|, i requires 0 <= i < |os| => ObservationRecord(groupSeq, os[i].0, os[i].1, at))
  }

  function RowSeqs(rows: seq<Row>): seq<int> {
    seq(|rows|, i requires 0 <= i < |rows| => rows[i].unsealed.rowSeq)
  }

  function Members(d: Delta, groupSeq: int, at: Instant): seq<IdRecord> {
    EntityRecords(groupSeq, d.entities) + AliasRecords(groupSeq, d.rows) +
      ObservationRecords(groupSeq, d.observations, at)
  }

  function Marker(d: Delta, groupSeq: int, at: Instant): IdRecord {
    GroupCommit(groupSeq, at, EntityIds(d.entities), RowSeqs(d.rows))
  }

  /** The group an operation appends; an empty one is not written. */
  function GroupOf(d: Delta, groupSeq: int, at: Instant): seq<IdRecord> {
    if Members(d, groupSeq, at) == [] then [] else Members(d, groupSeq, at) + [Marker(d, groupSeq, at)]
  }

  // ---------------------------------------------- the fold of a group is the operation

  /** What the fold rebuilt is what the registry holds. */
  ghost predicate Rebuilds(acc: IdAcc, s: Identity) {
    && acc.entities == s.entities && acc.order == s.order && acc.rows == s.rows && acc.byOldId == s.byOldId
    && acc.observations == s.observations && acc.highRowSeq + 1 == s.nextRowSeq && acc.conflicts == []
  }

  lemma {:induction false} AbsorbConcat(acc: IdAcc, xs: seq<IdRecord>, ys: seq<IdRecord>)
    ensures AbsorbMembers(acc, xs + ys) == AbsorbMembers(AbsorbMembers(acc, xs), ys)
  {
    if ys == [] {
      assert xs + ys == xs;
    } else {
      var n := |ys| - 1;
      assert (xs + ys)[..|xs + ys| - 1] == xs + ys[..n];
      AbsorbConcat(acc, xs, ys[..n]);
    }
  }

  lemma {:induction false} EntitiesRebuild(acc: IdAcc, s: Identity, groupSeq: int, es: seq<Entity>)
    requires Rebuilds(acc, s)
    ensures Rebuilds(AbsorbMembers(acc, EntityRecords(groupSeq, es)), RememberAll(s, es))
  {
    if es != [] {
      var n := |es| - 1;
      EntitiesRebuild(acc, s, groupSeq, es[..n]);
      assert EntityRecords(groupSeq, es)[..n] == EntityRecords(groupSeq, es[..n]);
    }
  }

  const NO_DELTA := Delta([], [], [])

  /** A decision is journalled as its row and what was minted with it; a refusal is not. */
  function Journalled(created: seq<Entity>, decision: Decision): Delta {
    if decision.Decided? then Delta(created, [decision.row], []) else NO_DELTA
  }

  /** What an operation makes durable, by what it decided. */
  ghost function DeltaOf(s: Identity, h: Hash, cap: nat, op: RegistryOp): Delta {
    match op
    case DoRegister(e, _) => Delta([e], [], [])
    case DoRename(id, content, clock) =>
      if id !in s.entities || id in s.byOldId then NO_DELTA
      else Delta([Entity(id, content, StampNow(s, clock))], [], [])
    case DoObserve(o, e, clock) =>
      (match ResolveOrMint(s, o, e, clock).outcome
       case CarriedForward(id, _) => Delta([], [], [(id, o)])
       case Minted(id) => Delta([e], [], [(id, o)])
       case _ => NO_DELTA)
    case DoMerge(from, into, reason, provenance, backing, clock) =>
      Journalled([], Merge(s, h, from, into, reason, provenance, backing, cap, clock).decision)
    case DoSplit(from, created, reason, provenance, backing, clock) =>
      Journalled(created, IdentityRegistry.Split(s, h, from, created, reason, provenance, backing, cap, clock).decision)
    case DoDisposition(oldId, kind, reason, provenance, clock) =>
      Journalled([], RecordDisposition(s, h, oldId, kind, reason, provenance, clock).decision)
    case DoAssertionMapping(oldId, a, reason, provenance, clock) =>
      Journalled([], RecordAssertionMapping(s, h, oldId, a, reason, provenance, clock).decision)
    case DoRecordSplit(oldId, candidates, reason, provenance, clock) =>
      Journalled([], RecordSplit(s, h, oldId, candidates, reason, provenance, clock).decision)
  }

  lemma {:induction false} NothingRebuilds(acc: IdAcc, s: Identity, groupSeq: int, at: Instant)
    requires Rebuilds(acc, s)
    ensures Members(NO_DELTA, groupSeq, at) == [] && AbsorbMembers(acc, []) == acc
  {
  }

  lemma {:induction false} OneEntityRebuilds(acc: IdAcc, s: Identity, e: Entity, groupSeq: int, at: Instant)
    requires Rebuilds(acc, s)
    ensures Members(Delta([e], [], []), groupSeq, at) == [EntityRecord(groupSeq, e)]
    ensures Rebuilds(AbsorbMembers(acc, [EntityRecord(groupSeq, e)]), Remember(s, e))
  {
    assert [EntityRecord(groupSeq, e)][..0] == [];
  }

  lemma {:induction false} AliasRebuilds(acc: IdAcc, s: Identity, groupSeq: int, row: Row, at: Instant)
    requires Rebuilds(acc, s) && row.unsealed.oldId !in s.byOldId && row.unsealed.rowSeq == s.nextRowSeq
    ensures Rebuilds(AbsorbMembers(acc, [AliasRecord(groupSeq, row)]),
                     s.(rows := s.rows + [row], byOldId := s.byOldId[row.unsealed.oldId := row],
                        nextRowSeq := s.nextRowSeq + 1, lastMillis := at))
  {
    assert [AliasRecord(groupSeq, row)][..0] == [];
  }

  /** A group of new entities and one new row rebuilds the append. */
  lemma {:induction false} RowRebuilds(
    acc: IdAcc, s: Identity, h: Hash, claim: Claim, created: seq<Entity>, clock: Instant, groupSeq: int, at: Instant)
    requires Rebuilds(acc, s) && claim.oldId !in s.byOldId
    ensures var o := Decide(s, h, claim, created, clock);
            && o.decision.Decided?
            && Rebuilds(AbsorbMembers(acc, Members(Journalled(created, o.decision), groupSeq, at)), o.state)
  {
    var next := AppendRow(s, h, claim, created, clock);
    var row := next.rows[|s.rows|];
    EntitiesRebuild(acc, s, groupSeq, created);
    RememberKeepsLedger(s, created);
    var entities := EntityRecords(groupSeq, created);
    assert Members(Delta(created, [row], []), groupSeq, at) == entities + [AliasRecord(groupSeq, row)];
    AbsorbConcat(acc, entities, [AliasRecord(groupSeq, row)]);
    AliasRebuilds(AbsorbMembers(acc, entities), RememberAll(s, created), groupSeq, row, StampNow(s, clock));
  }

  lemma {:induction false} RememberKeepsLedger(s: Identity, es: seq<Entity>)
    ensures var r := RememberAll(s, es);
            r.rows == s.rows && r.byOldId == s.byOldId && r.nextRowSeq == s.nextRowSeq
              && r.observations == s.observations
  {
    if es != [] { RememberKeepsLedger(s, es[..|es| - 1]); }
  }

  lemma {:induction false} ObservationRebuilds(
    acc: IdAcc, s: Identity, es: seq<Entity>, id: string, o: Observation, groupSeq: int, at: Instant)
    requires Rebuilds(acc, s)
    ensures Rebuilds(AbsorbMembers(acc, Members(Delta(es, [], [(id, o)]), groupSeq, at)),
                     Observe(RememberAll(s, es), id, o))
  {
    var entities, seen := EntityRecords(groupSeq, es), ObservationRecord(groupSeq, id, o, at);
    EntitiesRebuild(acc, s, groupSeq, es);
    assert Members(Delta(es, [], [(id, o)]), groupSeq, at) == entities + [seen];
    AbsorbConcat(acc, entities, [seen]);
    assert [seen][..0] == [];
  }

  /** A refusal leaves nothing to read back. */
  lemma {:induction false} RefusalRebuilds(
    acc: IdAcc, s: Identity, o: Outcome, created: seq<Entity>, groupSeq: int, at: Instant)
    requires Rebuilds(acc, s) && !o.decision.Decided? && o.state == s.(lastMillis := o.state.lastMillis)
    ensures Rebuilds(AbsorbMembers(acc, Members(Journalled(created, o.decision), groupSeq, at)), o.state)
  {
    NothingRebuilds(acc, s, groupSeq, at);
  }

  lemma {:induction false} MergeRebuilds(
    acc: IdAcc, s: Identity, h: Hash, cap: nat, op: RegistryOp, groupSeq: int, at: Instant)
    requires Rebuilds(acc, s) && op.DoMerge?
    ensures Rebuilds(AbsorbMembers(acc, Members(DeltaOf(s, h, cap, op), groupSeq, at)), Step(s, h, cap, op))
  {
    var o := Merge(s, h, op.from, op.into, op.reason, op.provenance, op.backing, cap, op.clock);
    if o.decision.Decided? {
      var resolution := Backed(s, op.from, op.backing, cap).value;
      var claim := Claim(op.from, op.reason, BasisOf(op.backing), op.provenance, resolution, Mapped(op.into));
      RowRebuilds(acc, s, h, claim, [], op.clock, groupSeq, at);
    } else {
      RefusalRebuilds(acc, s, o, [], groupSeq, at);
    }
  }

  lemma {:induction false} SplitRebuilds(
    acc: IdAcc, s: Identity, h: Hash, cap: nat, op: RegistryOp, groupSeq: int, at: Instant)
    requires Rebuilds(acc, s) && op.DoSplit?
    ensures Rebuilds(AbsorbMembers(acc, Members(DeltaOf(s, h, cap, op), groupSeq, at)), Step(s, h, cap, op))
  {
    var o := IdentityRegistry.Split(s, h, op.from, op.created, op.reason, op.provenance, op.backing, cap, op.clock);
    if o.decision.Decided? {
      var stamped, resolution := s.(lastMillis := StampNow(s, op.clock)), Backed(s, op.from, op.backing, cap).value;
      var claim :=
        Claim(op.from, op.reason, BasisOf(op.backing), op.provenance, resolution,
              AmbiguousSplit(EntityIds(op.created)));
      RowRebuilds(acc, stamped, h, claim, op.created, op.clock, groupSeq, at);
    } else {
      RefusalRebuilds(acc, s, o, op.created, groupSeq, at);
    }
  }

  /** The mechanical rows: refused, or one row. */
  lemma {:induction false} RecordRebuilds(
    acc: IdAcc, s: Identity, h: Hash, cap: nat, op: RegistryOp, groupSeq: int, at: Instant)
    requires Rebuilds(acc, s) && (op.DoDisposition? || op.DoAssertionMapping? || op.DoRecordSplit?)
    ensures Rebuilds(AbsorbMembers(acc, Members(DeltaOf(s, h, cap, op), groupSeq, at)), Step(s, h, cap, op))
  {
    var disposition :=
      if op.DoDisposition? then Terminal(op.kind)
      else if op.DoAssertionMapping? then MappedAssertion(op.assertionId) else AmbiguousSplit(op.candidates);
    var claim := Claim(op.oldId, op.reason, MechanicalMigration, op.provenance, None, disposition);
    if op.oldId in s.byOldId || (op.DoRecordSplit? && !RecordSplits(s, op.candidates)) {
      NothingRebuilds(acc, s, groupSeq, at);
    } else {
      RowRebuilds(acc, s, h, claim, [], op.clock, groupSeq, at);
    }
  }

  predicate RecordSplits(s: Identity, candidates: seq<string>) {
    |candidates| >= 2 && FirstMissing(s.entities.Keys, candidates).None?
  }

  /** Reading back an operation's group does to the rebuilt registry what the operation did to the live one. */
  lemma {:induction false} StepRebuilds(
    acc: IdAcc, s: Identity, h: Hash, cap: nat, op: RegistryOp, groupSeq: int, at: Instant)
    requires Rebuilds(acc, s)
    ensures Rebuilds(AbsorbMembers(acc, Members(DeltaOf(s, h, cap, op), groupSeq, at)), Step(s, h, cap, op))
  {
    NothingRebuilds(acc, s, groupSeq, at);
    match op
    case DoRegister(e, clock) => OneEntityRebuilds(acc, s, e, groupSeq, at);
    case DoRename(id, content, clock) =>
      OneEntityRebuilds(acc, s, Entity(id, content, StampNow(s, clock)), groupSeq, at);
    case DoObserve(o, e, clock) => ObserveRebuilds(acc, s, h, cap, o, e, clock, groupSeq, at);
    case DoMerge(_, _, _, _, _, _) => MergeRebuilds(acc, s, h, cap, op, groupSeq, at);
    case DoSplit(_, _, _, _, _, _) => SplitRebuilds(acc, s, h, cap, op, groupSeq, at);
    case _ => RecordRebuilds(acc, s, h, cap, op, groupSeq, at);
  }

  lemma {:induction false} ObserveRebuilds(
    acc: IdAcc, s: Identity, h: Hash, cap: nat, o: Observation, e: Entity, clock: Instant, groupSeq: int, at: Instant)
    requires Rebuilds(acc, s)
    ensures Rebuilds(AbsorbMembers(acc, Members(DeltaOf(s, h, cap, DoObserve(o, e, clock)), groupSeq, at)),
                     ResolveOrMint(s, o, e, clock).state)
  {
    var r := ResolveOrMint(s, o, e, clock);
    MatchCases(s, o, e, clock, r);
    match r.outcome
    case CarriedForward(id, _) => ObservationRebuilds(acc, s, [], id, o, groupSeq, at);
    case Minted(id) => RememberOne(s, e); ObservationRebuilds(acc, s, [e], id, o, groupSeq, at);
    case _ => NothingRebuilds(acc, s, groupSeq, at);
  }

  lemma {:induction false} RememberOne(s: Identity, e: Entity)
    ensures RememberAll(s, [e]) == Remember(s, e)
  {
    assert [e][..0] == [];
  }

  /** What each outcome of matching left behind. */
  lemma {:induction false} MatchCases(s: Identity, o: Observation, e: Entity, clock: Instant, r: MatchOutcome)
    requires r == ResolveOrMint(s, o, e, clock)
    ensures match r.outcome
            case CarriedForward(id, _) => r.state == Observe(s, id, o).(lastMillis := StampNow(s, clock))
            case Minted(id) => id == e.id && r.state == Observe(Register(s, e, clock), id, o)
            case _ => r.state == s
  {
  }

  // ----------------------------------------------------------- the marker's account

  ghost predicate DistinctDelta(d: Delta) {
    && (forall i, j :: 0 <= i < j < |d.entities| ==> d.entities[i].id != d.entities[j].id)
    && (forall i, j :: 0 <= i < j < |d.rows| ==> d.rows[i].unsealed.rowSeq != d.rows[j].unsealed.rowSeq)
  }

  lemma {:induction false} ClaimedSize<T>(xs: seq<T>)
    requires forall i, j :: 0 <= i < j < |xs| ==> xs[i] != xs[j]
    ensures |Claimed(xs)| == |xs|
  {
    if xs != [] {
      var n := |xs| - 1;
      ClaimedSize(xs[..n]);
      assert Claimed(xs) == Claimed(xs[..n]) + {xs[n]};
      assert xs[n] !in Claimed(xs[..n]);
    }
  }

  lemma {:induction false} CountConcat(xs: seq<IdRecord>, ys: seq<IdRecord>)
    ensures CountEntities(xs + ys) == CountEntities(xs) + CountEntities(ys)
    ensures CountRows(xs + ys) == CountRows(xs) + CountRows(ys)
  {
    if ys == [] {
      assert xs + ys == xs;
    } else {
      assert (xs + ys)[..|xs + ys| - 1] == xs + ys[..|ys| - 1];
      CountConcat(xs, ys[..|ys| - 1]);
    }
  }

  lemma {:induction false} CountAll(xs: seq<IdRecord>)
    ensures (forall i :: 0 <= i < |xs| ==> xs[i].EntityRecord?) ==> CountEntities(xs) == |xs| && CountRows(xs) == 0
    ensures (forall i :: 0 <= i < |xs| ==> xs[i].AliasRecord?) ==> CountRows(xs) == |xs| && CountEntities(xs) == 0
    ensures (forall i :: 0 <= i < |xs| ==> xs[i].ObservationRecord?) ==> CountRows(xs) == 0 && CountEntities(xs) == 0
  {
    if xs != [] { CountAll(xs[..|xs| - 1]); }
  }

  lemma {:induction false} MemberCounts(d: Delta, groupSeq: int, at: Instant)
    ensures CountEntities(Members(d, groupSeq, at)) == |d.entities| && CountRows(Members(d, groupSeq, at)) == |d.rows|
  {
    var es, rs, os := EntityRecords(groupSeq, d.entities), AliasRecords(groupSeq, d.rows),
      ObservationRecords(groupSeq, d.observations, at);
    CountConcat(es + rs, os);
    CountConcat(es, rs);
    CountAll(es);
    CountAll(rs);
    CountAll(os);
  }

  /** A written group always satisfies its own marker. */
  lemma {:induction false} WrittenGroupAccounts(d: Delta, groupSeq: int, at: Instant)
    requires DistinctDelta(d)
    ensures Accounts(Members(d, groupSeq, at), Marker(d, groupSeq, at))
  {
    var members, marker := Members(d, groupSeq, at), Marker(d, groupSeq, at);
    MemberCounts(d, groupSeq, at);
    ClaimedSize(EntityIds(d.entities));
    ClaimedSize(RowSeqs(d.rows));
    forall m | m in members && IsMember(m) ensures Vouched(m, marker) {
      var i :| 0 <= i < |members| && members[i] == m;
      if m.EntityRecord? { assert marker.entityIds[i] == m.entity.id; }
      if m.AliasRecord? { assert marker.rowSeqs[i - |d.entities|] == m.row.unsealed.rowSeq; }
    }
  }

  function RemoveAt<T>(xs: seq<T>, k: nat): seq<T>
    requires k < |xs|
  {
    xs[..k] + xs[k + 1..]
  }

  lemma {:induction false} RemovalCounts(xs: seq<IdRecord>, k: nat)
    requires k < |xs|
    ensures CountEntities(RemoveAt(xs, k)) == CountEntities(xs) - (if xs[k].EntityRecord? then 1 else 0)
    ensures CountRows(RemoveAt(xs, k)) == CountRows(xs) - (if xs[k].AliasRecord? then 1 else 0)
  {
    assert xs == xs[..k] + ([xs[k]] + xs[k + 1..]);
    CountConcat(xs[..k], [xs[k]] + xs[k + 1..]);
    CountConcat([xs[k]], xs[k + 1..]);
    CountConcat(xs[..k], xs[k + 1..]);
    CountOne(xs[k]);
  }

  lemma {:induction false} CountOne(r: IdRecord)
    ensures CountEntities([r]) == (if r.EntityRecord? then 1 else 0)
            && CountRows([r]) == (if r.AliasRecord? then 1 else 0)
  {
    assert [r][..0] == [];
  }

  /**
   Take any entity or alias record out of a closed group and the marker no longer accounts
   for it; an observation is not counted.
   */
  lemma {:induction false} RemovalIsNoticed(d: Delta, groupSeq: int, at: Instant, k: nat)
    requires DistinctDelta(d) && k < |Members(d, groupSeq, at)|
    ensures Accounts(RemoveAt(Members(d, groupSeq, at), k), Marker(d, groupSeq, at)) <==>
            Members(d, groupSeq, at)[k].ObservationRecord?
  {
    var members := Members(d, groupSeq, at);
    WrittenGroupAccounts(d, groupSeq, at);
    RemovalCounts(members, k);
    assert forall m :: m in RemoveAt(members, k) ==> m in members;
  }

  // ------------------------------------------------------------------ whole runs

  /** The registry, the disk behind it, and the next group number. */
  datatype IdWorld = IdWorld(disk: seq<IdSegment>, live: Identity, groupSeq: int)

  /** One operation and what its append meets: the clock, and whether the writer rolls. */
  datatype IdEvent = IdEvent(op: RegistryOp, at: Instant, rolls: bool)

  function FreshIdWorld(clock: Instant): IdWorld {
    IdWorld([Segment(1, [IdHeader(1, clock)])], EMPTY_REGISTRY, 1)
  }

  function NextHeader(disk: seq<IdSegment>, at: Instant): IdRecord
    requires disk != []
  {
    IdHeader(LastSegment(disk).ordinal + 1, at)
  }

  ghost function IdStep(w: IdWorld, h: Hash, cap: nat, e: IdEvent): IdWorld {
    var group := GroupOf(DeltaOf(w.live, h, cap, e.op), w.groupSeq, e.at);
    if group == [] || w.disk == [] then w.(live := Step(w.live, h, cap, e.op))
    else IdWorld(Intended(w.disk, group, e.rolls, NextHeader(w.disk, e.at)), Step(w.live, h, cap, e.op), w.groupSeq + 1)
  }

  /** The fold of the disk is the live registry. */
  ghost predicate IdInv(w: IdWorld) {
    && w.disk != [] && AllShaped(IDENTITY_FORMAT, w.disk)
    && FoldDisk(IDENTITY_FORMAT, NO_IDENTITY, w.disk).Ok?
    && Rebuilds(FoldDisk(IDENTITY_FORMAT, NO_IDENTITY, w.disk).value, w.live)
    && FoldDisk(IDENTITY_FORMAT, NO_IDENTITY, w.disk).value.highGroupSeq + 1 == w.groupSeq
  }

  /** Minted ids are distinct within an operation. */
  ghost predicate MintsDistinct(op: RegistryOp) {
    op.DoSplit? ==> forall i, j :: 0 <= i < j < |op.created| ==> op.created[i].id != op.created[j].id
  }

  lemma {:induction false} DeltaIsDistinct(s: Identity, h: Hash, cap: nat, op: RegistryOp)
    requires MintsDistinct(op)
    ensures DistinctDelta(DeltaOf(s, h, cap, op))
  {
  }

  lemma {:induction false} MembersOpen(d: Delta, groupSeq: int, at: Instant)
    ensures forall i :: 0 <= i < |Members(d, groupSeq, at)| ==> IsMember(Members(d, groupSeq, at)[i])
  {
  }

  lemma {:induction false} AbsorbKeepsGroup(acc: IdAcc, members: seq<IdRecord>)
    ensures AbsorbMembers(acc, members).highGroupSeq == acc.highGroupSeq
  {
    if members != [] { AbsorbKeepsGroup(acc, members[..|members| - 1]); }
  }

  /** Beginning a new segment changes nothing that is rebuilt. */
  lemma {:induction false} RollKeepsFold(w: IdWorld, at: Instant)
    requires IdInv(w)
    ensures IdInv(w.(disk := Rolled(w.disk, NextHeader(w.disk, at))))
  {
    FoldRolled(IDENTITY_FORMAT, NO_IDENTITY, w.disk, NextHeader(w.disk, at));
  }

  lemma {:induction false} GroupKeepsFold(w: IdWorld, h: Hash, cap: nat, op: RegistryOp, at: Instant)
    requires IdInv(w) && MintsDistinct(op) && GroupOf(DeltaOf(w.live, h, cap, op), w.groupSeq, at) != []
    ensures IdInv(IdWorld(Extended(w.disk, GroupOf(DeltaOf(w.live, h, cap, op), w.groupSeq, at)),
                          Step(w.live, h, cap, op), w.groupSeq + 1))
  {
    var d := DeltaOf(w.live, h, cap, op);
    var members, marker := Members(d, w.groupSeq, at), Marker(d, w.groupSeq, at);
    var acc := FoldDisk(IDENTITY_FORMAT, NO_IDENTITY, w.disk).value;
    DeltaIsDistinct(w.live, h, cap, op);
    WrittenGroupAccounts(d, w.groupSeq, at);
    MembersOpen(d, w.groupSeq, at);
    FoldExtended(IDENTITY_FORMAT, NO_IDENTITY, w.disk, members, marker);
    StepRebuilds(acc, w.live, h, cap, op, w.groupSeq, at);
    AbsorbKeepsGroup(acc, members);
  }

  lemma {:induction false} EmptyGroupChangesNothing(w: IdWorld, h: Hash, cap: nat, op: RegistryOp, at: Instant)
    requires IdInv(w) && GroupOf(DeltaOf(w.live, h, cap, op), w.groupSeq, at) == []
    ensures IdInv(w.(live := Step(w.live, h, cap, op)))
  {
    var acc := FoldDisk(IDENTITY_FORMAT, NO_IDENTITY, w.disk).value;
    StepRebuilds(acc, w.live, h, cap, op, w.groupSeq, at);
  }

  lemma {:induction false} IdStepInv(w: IdWorld, h: Hash, cap: nat, e: IdEvent)
    requires IdInv(w) && MintsDistinct(e.op)
    ensures IdInv(IdStep(w, h, cap, e))
  {
    if GroupOf(DeltaOf(w.live, h, cap, e.op), w.groupSeq, e.at) == [] {
      EmptyGroupChangesNothing(w, h, cap, e.op, e.at);
    } else if e.rolls {
      RollKeepsFold(w, e.at);
      GroupKeepsFold(w.(disk := Rolled(w.disk, NextHeader(w.disk, e.at))), h, cap, e.op, e.at);
    } else {
      GroupKeepsFold(w, h, cap, e.op, e.at);
    }
  }

  lemma {:induction false} FreshIdInv(clock: Instant)
    ensures IdInv(FreshIdWorld(clock))
  {
    var w := FreshIdWorld(clock);
    var header := IdHeader(1, clock);
    assert w.disk[..0] == [] && [header][..0] == [];
    var begun := Noted(NO_IDENTITY, clock);
    assert ScanLines(IDENTITY_FORMAT, 1, begun, [header]) == Ok(Fold(begun, [], 1, 0));
  }

  ghost predicate DistinctRun(events: seq<IdEvent>) {
    forall i :: 0 <= i < |events| ==> MintsDistinct(events[i].op)
  }

  /** Every world of a run, first to last. */
  ghost function IdWorlds(start: IdWorld, h: Hash, cap: nat, events: seq<IdEvent>): (worlds: seq<IdWorld>)
    ensures |worlds| == |events| + 1 && worlds[0] == start
  {
    if events == [] then [start]
    else
      var earlier := IdWorlds(start, h, cap, events[..|events| - 1]);
      earlier + [IdStep(earlier[|events| - 1], h, cap, events[|events| - 1])]
  }

  ghost function IdDisks(worlds: seq<IdWorld>): seq<seq<IdSegment>> {
    seq(|worlds|, i requires 0 <= i < |worlds| => worlds[i].disk)
  }

  ghost function IdMid(w: IdWorld, e: IdEvent): seq<IdSegment> {
    if w.disk == [] then [] else Intended(w.disk, [], e.rolls, NextHeader(w.disk, e.at))
  }

  ghost function IdMids(worlds: seq<IdWorld>, events: seq<IdEvent>): seq<seq<IdSegment>>
    requires |worlds| == |events| + 1
  {
    seq(|events|, i requires 0 <= i < |events| => IdMid(worlds[i], events[i]))
  }

  lemma {:induction false} IdWorldInv(start: IdWorld, h: Hash, cap: nat, events: seq<IdEvent>, i: nat)
    requires IdInv(start) && DistinctRun(events) && i <= |events|
    ensures IdInv(IdWorlds(start, h, cap, events)[i])
  {
    if events != [] {
      var n := |events| - 1;
      if i == |events| {
        IdWorldInv(start, h, cap, events[..n], n);
        IdStepInv(IdWorlds(start, h, cap, events[..n])[n], h, cap, events[n]);
      } else {
        IdWorldInv(start, h, cap, events[..n], i);
      }
    }
  }

  lemma {:induction false} IdStepGrows(w: IdWorld, h: Hash, cap: nat, e: IdEvent)
    requires w.disk != []
    ensures GrewFrom(IsMember, w.disk, IdMid(w, e), IdStep(w, h, cap, e).disk)
  {
    var d := DeltaOf(w.live, h, cap, e.op);
    var group := GroupOf(d, w.groupSeq, e.at);
    MembersOpen(d, w.groupSeq, e.at);
    GroupGrows(IsMember, w.disk, group, e.rolls, NextHeader(w.disk, e.at), IdStep(w, h, cap, e).disk);
  }

  ghost predicate IdTraced(worlds: seq<IdWorld>, events: seq<IdEvent>) {
    |worlds| == |events| + 1 && Trace(IsMember, IdDisks(worlds), IdMids(worlds, events))
  }

  lemma {:induction false} IdTracedSnoc(worlds: seq<IdWorld>, events: seq<IdEvent>, n: nat, w: IdWorld)
    requires |events| == n + 1 && IdTraced(worlds, events[..n])
    requires GrewFrom(IsMember, worlds[n].disk, IdMid(worlds[n], events[n]), w.disk)
    ensures IdTraced(worlds + [w], events)
  {
    DisksSnoc(worlds, w);
    MidsSnoc(worlds, events, n, w);
    TraceSnoc(IsMember, IdDisks(worlds), IdMids(worlds, events[..n]), IdMid(worlds[n], events[n]), w.disk);
  }

  lemma {:induction false} DisksSnoc(worlds: seq<IdWorld>, w: IdWorld)
    ensures IdDisks(worlds + [w]) == IdDisks(worlds) + [w.disk]
  {
  }

  lemma {:induction false} MidsSnoc(worlds: seq<IdWorld>, events: seq<IdEvent>, n: nat, w: IdWorld)
    requires |events| == n + 1 == |worlds|
    ensures IdMids(worlds + [w], events) == IdMids(worlds, events[..n]) + [IdMid(worlds[n], events[n])]
  {
  }

  lemma {:induction false} LastIdStep(start: IdWorld, h: Hash, cap: nat, events: seq<IdEvent>)
    returns (earlier: seq<IdWorld>, w: IdWorld)
    requires IdInv(start) && DistinctRun(events) && events != []
    ensures var n := |events| - 1;
            && earlier == IdWorlds(start, h, cap, events[..n]) && IdWorlds(start, h, cap, events) == earlier + [w]
            && GrewFrom(IsMember, earlier[n].disk, IdMid(earlier[n], events[n]), w.disk)
  {
    var n := |events| - 1;
    earlier := IdWorlds(start, h, cap, events[..n]);
    w := IdStep(earlier[n], h, cap, events[n]);
    IdWorldInv(start, h, cap, events[..n], n);
    IdStepGrows(earlier[n], h, cap, events[n]);
  }

  lemma {:induction false} IdTraces(start: IdWorld, h: Hash, cap: nat, events: seq<IdEvent>)
    requires IdInv(start) && DistinctRun(events)
    ensures IdTraced(IdWorlds(start, h, cap, events), events)
  {
    if events != [] {
      var n := |events| - 1;
      IdTraces(start, h, cap, events[..n]);
      var earlier, w := LastIdStep(start, h, cap, events);
      IdTracedSnoc(earlier, events, n, w);
    }
  }

  /** A world's own disk, or that and the header of a new segment, folds to its registry. */
  lemma {:induction false} PastDiskRebuilds(w: IdWorld, e: IdEvent, disk: seq<IdSegment>)
    requires IdInv(w) && (disk == w.disk || disk == IdMid(w, e))
    ensures IdInv(w.(disk := disk))
  {
    if disk != w.disk {
      RollKeepsFold(w, e.at);
      ExtendedByNothing(if e.rolls then Rolled(w.disk, NextHeader(w.disk, e.at)) else w.disk);
    }
  }

  lemma {:induction false} ExtendedByNothing<R>(disk: seq<Segment<R>>)
    requires disk != []
    ensures Extended(disk, []) == disk
  {
    assert LastSegment(disk).lines + [] == LastSegment(disk).lines;
  }

  /** The lines a byte cut of the final identity file leaves. */
  function IdLinesLeft(c: Codec<IdRecord>, disk: seq<IdSegment>, k: nat): nat
    requires disk != []
  {
    SurvivingLines(IsMember, c, LastSegment(disk).lines, k)
  }

  ghost predicate IdCutPastHeader(c: Codec<IdRecord>, disk: seq<IdSegment>, k: nat) {
    disk != [] && LastSegment(disk).lines != [] &&
    |Encoded(c, LastSegment(disk).lines[..1])| <= k <= |EncodeSegment(c, LastSegment(disk)).content|
  }

  lemma {:induction false} IdCutIsClosed(c: Codec<IdRecord>, disk: seq<IdSegment>, k: nat)
    requires ValidCodec(c) && IdCutPastHeader(c, disk, k) && AllShaped(IDENTITY_FORMAT, disk)
    ensures ClosedCut(IsMember, disk, IdLinesLeft(c, disk, k))
  {
    var lines := LastSegment(disk).lines;
    assert Shaped(IDENTITY_FORMAT, lines);
    SurvivingIsLongest(IsMember, c, lines, k, 1);
    var whole := lines[..WholeLines(EncodeAll(c, lines), k)];
    assert whole[ClosedLines(IsMember, whole) - 1] == lines[ClosedLines(IsMember, whole) - 1];
  }

  /**
   Scanning the cut disk with repair folds to `acc`, leaves the surviving groups and
   nothing else, and need not repair again.
   */
  ghost predicate IdCutRecovers(c: Codec<IdRecord>, disk: seq<IdSegment>, k: nat, acc: IdAcc) {
    && IdCutPastHeader(c, disk, k)
    && RecoversAs(IDENTITY_FORMAT, c, NO_IDENTITY, CutTail(EncodeDisk(c, disk), k),
                  CutLines(disk, IdLinesLeft(c, disk, k)), acc)
  }

  /**
   After any run of registry operations from an empty registry, cut the final file at
   any byte past its header: the scan rebuilds the entities in order, the rows, the
   observations and the next row number of the registry as it stood after the last
   whole group, and a second scan repairs nothing.
   */
  lemma {:induction false} IdentityLogRoundTrip(
    clock: Instant, h: Hash, cap: nat, events: seq<IdEvent>, c: Codec<IdRecord>, k: nat)
    returns (past: IdWorld, acc: IdAcc)
    requires DistinctRun(events) && ValidCodec(c)
             && IdCutPastHeader(c, IdWorlds(FreshIdWorld(clock), h, cap, events)[|events|].disk, k)
    ensures past in IdWorlds(FreshIdWorld(clock), h, cap, events) && Rebuilds(acc, past.live)
    ensures IdCutRecovers(c, IdWorlds(FreshIdWorld(clock), h, cap, events)[|events|].disk, k, acc)
  {
    var start := FreshIdWorld(clock);
    var worlds := IdWorlds(start, h, cap, events);
    FreshIdInv(clock);
    IdTraces(start, h, cap, events);
    IdWorldInv(start, h, cap, events, |events|);
    var i := PastIdWorld(worlds, events, c, k);
    past := worlds[i];
    IdWorldInv(start, h, cap, events, i);
    acc := CutRebuilds(past, if i < |events| then events[i] else IdEvent(DoRename("", "", 0), 0, false),
                       worlds[|events|].disk, c, k);
  }

  lemma {:induction false} PastIdWorld(worlds: seq<IdWorld>, events: seq<IdEvent>, c: Codec<IdRecord>, k: nat)
    returns (i: nat)
    requires IdTraced(worlds, events) && worlds[0].disk != [] && |ActiveLines(worlds[0].disk)| == 1
    requires ValidCodec(c) && IdCutPastHeader(c, worlds[|events|].disk, k)
             && AllShaped(IDENTITY_FORMAT, worlds[|events|].disk)
    ensures i < |worlds|
    ensures var cut := CutLines(worlds[|events|].disk, IdLinesLeft(c, worlds[|events|].disk, k));
            cut == worlds[i].disk || (i < |events| && cut == IdMid(worlds[i], events[i]))
  {
    IdCutIsClosed(c, worlds[|events|].disk, k);
    i := CutIsPastDisk(IsMember, IdDisks(worlds), IdMids(worlds, events), IdLinesLeft(c, worlds[|events|].disk, k));
  }

  lemma {:induction false} CutRebuilds(past: IdWorld, e: IdEvent, disk: seq<IdSegment>, c: Codec<IdRecord>, k: nat)
    returns (acc: IdAcc)
    requires IdInv(past) && ValidCodec(c) && IdCutPastHeader(c, disk, k)
    requires AllShaped(IDENTITY_FORMAT, disk) && FoldDisk(IDENTITY_FORMAT, NO_IDENTITY, disk).Ok?
    requires CutLines(disk, IdLinesLeft(c, disk, k)) == past.disk
             || CutLines(disk, IdLinesLeft(c, disk, k)) == IdMid(past, e)
    ensures Rebuilds(acc, past.live) && IdCutRecovers(c, disk, k, acc)
  {
    PastDiskRebuilds(past, e, CutLines(disk, IdLinesLeft(c, disk, k)));
    var kept, recovered := CrashCutRecovery(IDENTITY_FORMAT, c, NO_IDENTITY, disk, k);
    acc := recovered;
  }

  // ------------------------------------------------------- a member that went missing

  /** Whatever follows, a group whose entity or alias record was removed stops the fold of its segment. */
  lemma {:induction false} RemovedMemberStopsFold(
    ordinal: int, acc: IdAcc, lines: seq<IdRecord>, d: Delta, groupSeq: int, at: Instant, k: nat, rest: seq<IdRecord>)
    requires ScanLines(IDENTITY_FORMAT, ordinal, acc, lines).Ok?
             && ScanLines(IDENTITY_FORMAT, ordinal, acc, lines).value.open == []
    requires DistinctDelta(d) && k < |Members(d, groupSeq, at)| && !Members(d, groupSeq, at)[k].ObservationRecord?
    ensures ScanLines(IDENTITY_FORMAT, ordinal, acc,
                      lines + (RemoveAt(Members(d, groupSeq, at), k) + [Marker(d, groupSeq, at)]) + rest)
            == Err(CorruptRecord)
  {
    var members, marker := RemoveAt(Members(d, groupSeq, at), k), Marker(d, groupSeq, at);
    RemovalIsNoticed(d, groupSeq, at, k);
    MembersOpen(d, groupSeq, at);
    ScanGroup(IDENTITY_FORMAT, ordinal, acc, lines, members, marker);
    var upTo := lines + (members + [marker]);
    assert (upTo + rest)[..|upTo|] == upTo;
    ScanErrorSticks(IDENTITY_FORMAT, ordinal, acc, upTo + rest, |upTo|);
  }

  /** The segment as it would be found: whole groups, the group with one record taken out, and whatever came after. */
  function Damaged(
    ordinal: int, lines: seq<IdRecord>, d: Delta, groupSeq: int, at: Instant, k: nat, rest: seq<IdRecord>): IdSegment
    requires k < |Members(d, groupSeq, at)|
  {
    Segment(ordinal, lines + (RemoveAt(Members(d, groupSeq, at), k) + [Marker(d, groupSeq, at)]) + rest)
  }

  /** Remove any entity or alias record from any closed group, anywhere in the log, and the load is refused. */
  lemma {:induction false} RemovedMemberRefusesLoad(
    c: Codec<IdRecord>, front: seq<IdSegment>, mid: IdAcc, s: IdSegment, d: Delta, groupSeq: int, at: Instant, k: nat,
    rest: seq<IdRecord>,
    later: seq<File>)
    requires ValidCodec(c) && AllShaped(IDENTITY_FORMAT, front)
             && FoldDisk(IDENTITY_FORMAT, NO_IDENTITY, front) == Ok(mid)
    requires Shaped(IDENTITY_FORMAT, s.lines) && FoldSegment(IDENTITY_FORMAT, mid, s).Ok?
             && FoldSegment(IDENTITY_FORMAT, mid, s).value.open == []
    requires DistinctDelta(d) && k < |Members(d, groupSeq, at)| && !Members(d, groupSeq, at)[k].ObservationRecord?
    ensures ScanFiles(IDENTITY_FORMAT, c, NO_IDENTITY,
                      EncodeDisk(c, front) +
                        [EncodeSegment(c, Damaged(s.ordinal, s.lines, d, groupSeq, at, k, rest))] + later)
            == Err(CorruptRecord)
  {
    var damaged := Damaged(s.ordinal, s.lines, d, groupSeq, at, k, rest);
    var begun := BeginSegment(mid, s.ordinal, s.lines[0]).value;
    RemovedMemberStopsFold(s.ordinal, begun, s.lines, d, groupSeq, at, k, rest);
    assert damaged.lines[0] == s.lines[0];
    CorruptSegmentRefuses(IDENTITY_FORMAT, c, NO_IDENTITY, front, mid, damaged, later);
  }
}
