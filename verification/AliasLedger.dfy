/**
 The alias ledger: what became of an id, in rows that each commit to the one
 before. The digest is a parameter; nothing here needs more of it than that it
 is a function, except where two ledgers are compared, which needs it injective.
 */
module AliasLedger {
  import opened Wrappers

  type Digest = string
  type Instant = int

  datatype TerminalKind = NeverMigrated | ContentUnrecoverable | RedactedInPlace | OtherOutcome

  datatype Disposition =
    | Mapped(newId: string)
    | AmbiguousSplit(candidates: seq<string>)
    | MappedAssertion(assertionId: nat)
    | Terminal(kind: TerminalKind)

  datatype Basis = MechanicalMigration | OwnerResolution | OtherBasis

  /** A row before it is sealed: everything the digest covers, its place in the ledger included. */
  datatype UnsealedRow = UnsealedRow(
    rowSeq: int,
    oldId: string,
    reason: string,
    recordedAt: Instant,
    basis: Basis,
    provenance: string,
    resolution: Option<nat>,
    prev: Option<Digest>,
    disposition: Disposition)

  datatype Row = Row(unsealed: UnsealedRow, digest: Digest)

  type Hash = UnsealedRow -> Digest

  ghost predicate Injective(h: Hash) {
    forall u, v :: h(u) == h(v) ==> u == v
  }

  function Seal(h: Hash, u: UnsealedRow): Row {
    Row(u, h(u))
  }

  /** The digest of the last row, or none. */
  function Head(rows: seq<Row>): Option<Digest> {
    if rows == [] then None else Some(rows[|rows| - 1].digest)
  }

  /** One row in its place: numbered, linked to its predecessor, and hashing to the digest it carries. */
  predicate Follows(h: Hash, before: Option<Digest>, seqNo: int, row: Row) {
    row.unsealed.rowSeq == seqNo && row.unsealed.prev == before && row.digest == h(row.unsealed)
  }

  /** The whole chain holds. */
  ghost predicate Chained(h: Hash, rows: seq<Row>) {
    forall i :: 0 <= i < |rows| ==> Follows(h, Head(rows[..i]), i + 1, rows[i])
  }

  datatype Integrity =
    | Intact(rows: nat, head: Option<Digest>)
    | SeqBroken(at: int, expectedSeq: int)
    | ChainBroken(at: int, expected: Option<Digest>, found: Option<Digest>)

  /** What the ledger should say and what it says instead: the link to the row before, or else the row's own digest. */
  ghost predicate Discrepancy(
    h: Hash, before: Option<Digest>, row: Row, expected: Option<Digest>, found: Option<Digest>)
  {
    && expected != found
    && (row.unsealed.prev != before ==> expected == before && found == row.unsealed.prev)
    && (row.unsealed.prev == before ==> expected == Some(h(row.unsealed)) && found == Some(row.digest))
  }

  /**
   Walk the chain and recompute it: it is intact exactly when every row follows, and a
   refusal names the first that does not.
   */
  method VerifyAliasLedger(h: Hash, rows: seq<Row>) returns (r: Integrity)
    ensures r.Intact? <==> Chained(h, rows)
    ensures r.Intact? ==> r == Intact(|rows|, Head(rows))
    ensures !r.Intact? ==>
              exists i :: 0 <= i < |rows| && Chained(h, rows[..i]) && !Follows(h, Head(rows[..i]), i + 1, rows[i])
                          && r.at == rows[i].unsealed.rowSeq && (r.SeqBroken? <==> rows[i].unsealed.rowSeq != i + 1)
                          && (r.SeqBroken? ==> r.expectedSeq == i + 1)
                          && (r.ChainBroken? ==> Discrepancy(h, Head(rows[..i]), rows[i], r.expected, r.found))
  {
    var previous: Option<Digest> := None;
    var index := 0;
    while index < |rows|
      invariant 0 <= index <= |rows| && previous == Head(rows[..index]) && Chained(h, rows[..index])
    {
      var row := rows[index];
      assert !Follows(h, previous, index + 1, row) ==> !Chained(h, rows);
      if row.unsealed.rowSeq != index + 1 { return SeqBroken(row.unsealed.rowSeq, index + 1); }
      if row.unsealed.prev != previous { return ChainBroken(row.unsealed.rowSeq, previous, row.unsealed.prev); }
      var recomputed := h(row.unsealed);
      if recomputed != row.digest { return ChainBroken(row.unsealed.rowSeq, Some(recomputed), Some(row.digest)); }
      ChainedSnoc(h, rows[..index], row);
      assert rows[..index + 1] == rows[..index] + [row];
      previous := Some(row.digest);
      index := index + 1;
    }
    assert rows[..index] == rows;
    r := Intact(|rows|, previous);
  }

  lemma {:induction false} ChainedSnoc(h: Hash, rows: seq<Row>, row: Row)
    requires Chained(h, rows) && Follows(h, Head(rows), |rows| + 1, row)
    ensures Chained(h, rows + [row])
  {
    var all := rows + [row];
    forall i | 0 <= i < |all| ensures Follows(h, Head(all[..i]), i + 1, all[i]) {
      assert all[..i] == if i < |rows| then rows[..i] else rows;
    }
  }

  /** A bare prefix still verifies: removing rows from the end is the one edit the chain alone cannot see. */
  lemma {:induction false} PrefixVerifies(h: Hash, rows: seq<Row>, n: nat)
    requires Chained(h, rows) && n <= |rows|
    ensures Chained(h, rows[..n])
  {
    forall i | 0 <= i < n ensures Follows(h, Head(rows[..n][..i]), i + 1, rows[..n][i]) {
      assert rows[..n][..i] == rows[..i];
    }
  }

  /** A known head fixes the whole history: two verifying ledgers that end in the same digest are the same rows. */
  lemma {:induction false} HeadBindsHistory(h: Hash, rows: seq<Row>, others: seq<Row>)
    requires Injective(h) && Chained(h, rows) && Chained(h, others) && Head(rows) == Head(others)
    ensures rows == others
  {
    if rows != [] {
      var m, n := |rows| - 1, |others| - 1;
      assert Follows(h, Head(rows[..m]), m + 1, rows[m]) && Follows(h, Head(others[..n]), n + 1, others[n]);
      assert rows[m] == others[n];
      PrefixVerifies(h, rows, m);
      PrefixVerifies(h, others, n);
      HeadBindsHistory(h, rows[..m], others[..n]);
      assert rows == rows[..m] + [rows[m]] && others == others[..n] + [others[n]];
    }
  }

  /** Any edit, removal or reorder below a known head fails verification or changes the head. */
  lemma {:induction false} TamperingIsDetected(h: Hash, rows: seq<Row>, altered: seq<Row>)
    requires Injective(h) && Chained(h, rows) && altered != rows
    ensures !Chained(h, altered) || Head(altered) != Head(rows)
  {
    if Chained(h, altered) && Head(altered) == Head(rows) {
      HeadBindsHistory(h, rows, altered);
      assert false;
    }
  }
}
