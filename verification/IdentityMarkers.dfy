/**
 What a closing marker catches and what folding a group keeps. A marker counts: it
 notices a record of another group, one it does not name and one too few, and is
 deceived only by a record written twice in the place of another.
 */
module IdentityMarkers {
  import opened Wrappers
  import opened Sequences
  import opened AliasLedger
  import opened IdentityRegistry
  import opened IdentityLog

  // ------------------------------------------------------------------- the marker

  ghost function EntityPlaces(members: seq<IdRecord>): set<int> {
    set i | 0 <= i < |members| && members[i].EntityRecord?
  }

  ghost function RowPlaces(members: seq<IdRecord>): set<int> {
    set i | 0 <= i < |members| && members[i].AliasRecord?
  }

  lemma {:induction false} CountsArePlaces(members: seq<IdRecord>)
    ensures CountEntities(members) == |EntityPlaces(members)| && CountRows(members) == |RowPlaces(members)|
  {
    if members == [] {
      assert EntityPlaces(members) == {} && RowPlaces(members) == {};
    } else {
      var n := |members| - 1;
      CountsArePlaces(members[..n]);
      LastPlace(members, n);
    }
  }

  lemma {:induction false} LastPlace(members: seq<IdRecord>, n: nat)
    requires |members| == n + 1
    ensures |EntityPlaces(members)| == |EntityPlaces(members[..n])| + if members[n].EntityRecord? then 1 else 0
    ensures |RowPlaces(members)| == |RowPlaces(members[..n])| + if members[n].AliasRecord? then 1 else 0
  {
    var entities, rows := EntityPlaces(members[..n]), RowPlaces(members[..n]);
    assert EntityPlaces(members) == if members[n].EntityRecord? then entities + {n} else entities;
    assert RowPlaces(members) == if members[n].AliasRecord? then rows + {n} else rows;
  }

  /** Every member is of this group, and the marker names it if it is an entity or a row. */
  ghost predicate Invited(members: seq<IdRecord>, marker: IdRecord)
    requires marker.GroupCommit?
  {
    forall i :: 0 <= i < |members| ==>
      match members[i]
      case EntityRecord(group, e) => group == marker.groupSeq && e.id in marker.entityIds
      case AliasRecord(group, row) => group == marker.groupSeq && row.unsealed.rowSeq in marker.rowSeqs
      case ObservationRecord(group, _, _, _) => group == marker.groupSeq
      case _ => true
  }

  /** A marker accounts for a group exactly when nobody in it is uninvited and as many are present as it names. */
  lemma {:induction false} MarkerCounts(members: seq<IdRecord>, marker: IdRecord)
    requires marker.GroupCommit?
    ensures Accounts(members, marker) <==>
            && Invited(members, marker)
            && |EntityPlaces(members)| == |set id | id in marker.entityIds|
            && |RowPlaces(members)| == |set n | n in marker.rowSeqs|
  {
    CountsArePlaces(members);
    assert Claimed(marker.entityIds) == set id | id in marker.entityIds;
    assert Claimed(marker.rowSeqs) == set n | n in marker.rowSeqs;
    if Accounts(members, marker) {
      forall i | 0 <= i < |members| && IsMember(members[i]) ensures Vouched(members[i], marker) {
        assert members[i] in members;
      }
    }
    if Invited(members, marker) {
      forall m | m in members && IsMember(m) ensures Vouched(m, marker) {
        var i :| 0 <= i < |members| && members[i] == m;
      }
    }
  }

  ghost predicate NamedOnce(members: seq<IdRecord>) {
    && (forall i, j :: 0 <= i < j < |members| && members[i].EntityRecord? && members[j].EntityRecord? ==>
          members[i].entity.id != members[j].entity.id)
    && (forall i, j :: 0 <= i < j < |members| && members[i].AliasRecord? && members[j].AliasRecord? ==>
          members[i].row.unsealed.rowSeq != members[j].row.unsealed.rowSeq)
  }

  ghost predicate HasEntity(members: seq<IdRecord>, id: string) {
    exists i :: 0 <= i < |members| && members[i].EntityRecord? && members[i].entity.id == id
  }

  ghost predicate HasAlias(members: seq<IdRecord>, rowSeq: int) {
    exists i :: 0 <= i < |members| && members[i].AliasRecord? && members[i].row.unsealed.rowSeq == rowSeq
  }

  ghost function Image<P, T>(places: set<P>, name: P -> T): set<T> {
    set i | i in places :: name(i)
  }

  /** Distinct ids, one to a place. */
  lemma {:induction false} OneEach<P, T>(places: set<P>, name: P -> T)
    requires forall i, j :: i in places && j in places && i != j ==> name(i) != name(j)
    ensures |Image(places, name)| == |places|
    decreases |places|
  {
    if |places| == 0 {
      assert Image(places, name) == {};
    } else {
      var k :| k in places;
      var rest := places - {k};
      OneEach(rest, name);
      assert Image(places, name) == Image(rest, name) + {name(k)};
    }
  }

  lemma {:induction false} SubsetOfSameSize<T>(some: set<T>, all: set<T>)
    requires some <= all && |some| == |all|
    ensures some == all
  {
    assert all == some + (all - some);
  }

  /** Where no id and no row number is written twice, a marker that accounts for its group misses nothing it names. */
  lemma {:induction false} NothingIsMissing(members: seq<IdRecord>, marker: IdRecord)
    requires marker.GroupCommit? && NamedOnce(members) && Accounts(members, marker)
    ensures forall id :: id in marker.entityIds ==> HasEntity(members, id)
    ensures forall n :: n in marker.rowSeqs ==> HasAlias(members, n)
  {
    MarkerCounts(members, marker);
    EntitiesPresent(members, marker);
    RowsPresent(members, marker);
  }

  lemma {:induction false} EntitiesPresent(members: seq<IdRecord>, marker: IdRecord)
    requires marker.GroupCommit? && NamedOnce(members) && Invited(members, marker)
    requires |EntityPlaces(members)| == |set id | id in marker.entityIds|
    ensures forall id :: id in marker.entityIds ==> HasEntity(members, id)
  {
    var name := i => if 0 <= i < |members| && members[i].EntityRecord? then members[i].entity.id else "";
    var places: set<int> := EntityPlaces(members);
    var ids, named := Image(places, name), set id | id in marker.entityIds;
    forall i, j | i in places && j in places && i != j ensures name(i) != name(j) {
      assert i < j || j < i;
    }
    OneEach(places, name);
    assert ids <= named;
    SubsetOfSameSize(ids, named);
    forall id | id in marker.entityIds ensures HasEntity(members, id) {
      assert id in ids;
      var i :| i in EntityPlaces(members) && name(i) == id;
    }
  }

  lemma {:induction false} RowsPresent(members: seq<IdRecord>, marker: IdRecord)
    requires marker.GroupCommit? && NamedOnce(members) && Invited(members, marker)
    requires |RowPlaces(members)| == |set n | n in marker.rowSeqs|
    ensures forall n :: n in marker.rowSeqs ==> HasAlias(members, n)
  {
    var name := i => if 0 <= i < |members| && members[i].AliasRecord? then members[i].row.unsealed.rowSeq else 0;
    var places: set<int> := RowPlaces(members);
    var seqs, named := Image(places, name), set n | n in marker.rowSeqs;
    forall i, j | i in places && j in places && i != j ensures name(i) != name(j) {
      assert i < j || j < i;
    }
    OneEach(places, name);
    assert seqs <= named;
    SubsetOfSameSize(seqs, named);
    forall n | n in marker.rowSeqs ensures HasAlias(members, n) {
      assert n in seqs;
      var i :| i in RowPlaces(members) && name(i) == n;
    }
  }

  /** Written twice, one entity hides that another is gone: the marker names two and counts two. */
  lemma {:induction false} TwiceHidesMissing()
    ensures var e := EntityRecord(1, Entity("a", "", 0));
            var marker := GroupCommit(1, 0, ["a", "b"], []);
            Accounts([e, e], marker) && !HasEntity([e, e], "b")
  {
    var e := EntityRecord(1, Entity("a", "", 0));
    var marker := GroupCommit(1, 0, ["a", "b"], []);
    MarkerCounts([e, e], marker);
    assert EntityPlaces([e, e]) == {0, 1} && RowPlaces([e, e]) == {};
    assert (set id | id in marker.entityIds) == {"a", "b"};
    assert (set n | n in marker.rowSeqs) == {};
    assert "a"[0] != "b"[0];
  }

  /** A marker that does not account for its group refuses the load. */
  lemma {:induction false} UnaccountedIsCorrupt(acc: IdAcc, ordinal: int, members: seq<IdRecord>, marker: IdRecord)
    requires marker.GroupCommit?
    ensures CloseGroup(acc, ordinal, members, marker).Err? <==>
            !(&& Invited(members, marker)
              && |EntityPlaces(members)| == |set id | id in marker.entityIds|
              && |RowPlaces(members)| == |set n | n in marker.rowSeqs|)
    ensures CloseGroup(acc, ordinal, members, marker).Err? ==>
              CloseGroup(acc, ordinal, members, marker) == Err(SegmentScan.CorruptRecord)
  {
    MarkerCounts(members, marker);
  }

  // --------------------------------------------------------------------- the fold

  /** This is the first row for its id among these records. */
  ghost predicate FirstRow(members: seq<IdRecord>, i: nat) {
    && i < |members| && members[i].AliasRecord?
    && forall j :: 0 <= j < i && members[j].AliasRecord? ==>
         members[j].row.unsealed.oldId != members[i].row.unsealed.oldId
  }

  /** What folding these records onto `acc` made of its rows. */
  ghost predicate KeepsFirst(acc: IdAcc, members: seq<IdRecord>, out: IdAcc) {
    && |out.rows| == |out.byOldId| + |out.conflicts|
    && (forall id :: id in acc.byOldId ==> id in out.byOldId && out.byOldId[id] == acc.byOldId[id])
    && (forall i: nat :: FirstRow(members, i) && members[i].row.unsealed.oldId !in acc.byOldId ==>
          members[i].row.unsealed.oldId in out.byOldId
          && out.byOldId[members[i].row.unsealed.oldId] == members[i].row)
    && (forall id :: id in out.byOldId && id !in acc.byOldId ==>
          HasFirst(members, id))
  }

  /**
   Rows are all kept, in order, and looked up by the first for each id; every other is
   reported, so rows kept are rows looked up and rows reported together.
   */
  lemma {:induction false} FirstRowWins(acc: IdAcc, members: seq<IdRecord>)
    requires |acc.rows| == |acc.byOldId| + |acc.conflicts|
    ensures KeepsFirst(acc, members, AbsorbMembers(acc, members))
  {
    if members != [] {
      var n := |members| - 1;
      var before := AbsorbMembers(acc, members[..n]);
      FirstRowWins(acc, members[..n]);
      if !members[n].AliasRecord? {
        NoRowMore(acc, members, before);
      } else if members[n].row.unsealed.oldId in before.byOldId {
        KnownRowMore(acc, members, before);
      } else {
        LatestIsFirst(acc, members);
        NewRowMore(acc, members, before);
      }
    }
  }

  lemma {:induction false} FirstRowEarlier(members: seq<IdRecord>, i: nat)
    requires members != [] && i < |members| - 1
    ensures FirstRow(members, i) <==> FirstRow(members[..|members| - 1], i)
    ensures members[i] == members[..|members| - 1][i]
  {
    var front := members[..|members| - 1];
    assert forall j :: 0 <= j <= i ==> front[j] == members[j];
  }

  ghost predicate HasFirst(members: seq<IdRecord>, id: string) {
    exists i: nat :: FirstRow(members, i) && members[i].row.unsealed.oldId == id
  }

  /** First rows so far stay first. */
  lemma {:induction false} StillFirst(members: seq<IdRecord>, id: string)
    requires members != [] && HasFirst(members[..|members| - 1], id)
    ensures HasFirst(members, id)
    ensures !FirstRow(members, |members| - 1) || members[|members| - 1].row.unsealed.oldId != id
  {
    var front := members[..|members| - 1];
    var i: nat :| FirstRow(front, i) && front[i].row.unsealed.oldId == id;
    FirstRowEarlier(members, i);
  }

  /** What one more record makes of the map, given what it made of it before. */
  lemma {:induction false} FoundAsBefore(acc: IdAcc, members: seq<IdRecord>, before: IdAcc)
    requires members != [] && KeepsFirst(acc, members[..|members| - 1], before)
    ensures forall id :: id in before.byOldId && id !in acc.byOldId ==>
              HasFirst(members, id)
              && (!FirstRow(members, |members| - 1) || members[|members| - 1].row.unsealed.oldId != id)
    ensures forall i: nat :: FirstRow(members, i) && i < |members| - 1
                             && members[i].row.unsealed.oldId !in acc.byOldId ==>
              members[i].row.unsealed.oldId in before.byOldId
              && before.byOldId[members[i].row.unsealed.oldId] == members[i].row
  {
    forall id | id in before.byOldId && id !in acc.byOldId
      ensures HasFirst(members, id)
      ensures !FirstRow(members, |members| - 1) || members[|members| - 1].row.unsealed.oldId != id
    {
      StillFirst(members, id);
    }
    forall i: nat | FirstRow(members, i) && i < |members| - 1 && members[i].row.unsealed.oldId !in acc.byOldId
      ensures members[i].row.unsealed.oldId in before.byOldId
      ensures before.byOldId[members[i].row.unsealed.oldId] == members[i].row
    {
      FirstRowEarlier(members, i);
    }
  }

  lemma {:induction false} NoRowMore(acc: IdAcc, members: seq<IdRecord>, before: IdAcc)
    requires members != [] && !members[|members| - 1].AliasRecord?
    requires KeepsFirst(acc, members[..|members| - 1], before)
    ensures KeepsFirst(acc, members, AbsorbMember(before, members[|members| - 1]))
  {
    FoundAsBefore(acc, members, before);
  }

  lemma {:induction false} KnownRowMore(acc: IdAcc, members: seq<IdRecord>, before: IdAcc)
    requires members != [] && members[|members| - 1].AliasRecord?
    requires members[|members| - 1].row.unsealed.oldId in before.byOldId
    requires KeepsFirst(acc, members[..|members| - 1], before)
    ensures KeepsFirst(acc, members, AbsorbMember(before, members[|members| - 1]))
  {
    FoundAsBefore(acc, members, before);
  }

  lemma {:induction false} NewRowMore(acc: IdAcc, members: seq<IdRecord>, before: IdAcc)
    requires members != [] && members[|members| - 1].AliasRecord? && FirstRow(members, |members| - 1)
    requires members[|members| - 1].row.unsealed.oldId !in before.byOldId
    requires KeepsFirst(acc, members[..|members| - 1], before)
    ensures KeepsFirst(acc, members, AbsorbMember(before, members[|members| - 1]))
  {
    FoundAsBefore(acc, members, before);
  }

  /** A row whose id was not found yet is the first for it. */
  lemma {:induction false} LatestIsFirst(acc: IdAcc, members: seq<IdRecord>)
    requires members != [] && members[|members| - 1].AliasRecord?
    requires members[|members| - 1].row.unsealed.oldId !in AbsorbMembers(acc, members[..|members| - 1]).byOldId
    ensures FirstRow(members, |members| - 1)
  {
    var n := |members| - 1;
    forall j | 0 <= j < n && members[j].AliasRecord?
      ensures members[j].row.unsealed.oldId != members[n].row.unsealed.oldId
    {
      RowIsFound(acc, members[..n], j);
    }
  }

  lemma {:induction false} RowIsFound(acc: IdAcc, members: seq<IdRecord>, j: nat)
    requires j < |members| && members[j].AliasRecord?
    ensures members[j].row.unsealed.oldId in AbsorbMembers(acc, members).byOldId
  {
    if j < |members| - 1 { RowIsFound(acc, members[..|members| - 1], j); }
  }

  /** The latest version of an entity is the one kept, and the latest observation of it. */
  lemma {:induction false} LatestVersionWins(acc: IdAcc, members: seq<IdRecord>, i: nat)
    requires i < |members|
    ensures var out := AbsorbMembers(acc, members);
            && (members[i].EntityRecord?
                && (forall j :: i < j < |members| && members[j].EntityRecord? ==>
                      members[j].entity.id != members[i].entity.id) ==>
                  members[i].entity.id in out.entities && out.entities[members[i].entity.id] == members[i].entity)
            && (members[i].ObservationRecord?
                && (forall j :: i < j < |members| && members[j].ObservationRecord? ==>
                      members[j].entityId != members[i].entityId) ==>
                  members[i].entityId in out.observations
                  && out.observations[members[i].entityId] == members[i].observation)
  {
    var n := |members| - 1;
    if i < n {
      LatestVersionWins(acc, members[..n], i);
      assert forall j :: 0 <= j < n ==> members[..n][j] == members[j];
    }
  }
}
