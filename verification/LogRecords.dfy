/**
 The values the assertion log keeps and the records it appends.

 Belief-time instants are integers (milliseconds). Assertion and submission ids
 are opaque and only ever compared. The request digest is the payload it was
 computed from, which is what an injective hash amounts to.
 */
module LogRecords {
  import opened Wrappers
  import opened WorldTime

  type Instant = int
  type AssertionId = nat

  datatype RecordedAtFidelity = Authoritative | ImportArtifact

  /** `content` stands for the fields nothing in the log reads: kind, value, target, confidence, evidence, basis. */
  datatype Assertion = Assertion(
    id: AssertionId,
    seqNo: int,
    epoch: string,
    subject: string,
    relation: string,
    validTime: Interval,
    recordedAt: Instant,
    supersededAt: Option<Instant>,
    supersededBy: Option<AssertionId>,
    supersedes: seq<AssertionId>,
    clientId: string,
    fidelity: RecordedAtFidelity,
    withheld: bool,
    content: string)

  datatype Draft = Draft(
    isAssert: bool,
    subject: string,
    relation: string,
    validTime: Interval,
    supersedes: seq<AssertionId>,
    content: string)

  datatype Digest = Digest(clientId: string, key: string, drafts: seq<Draft>)

  datatype Receipt = Receipt(
    submissionId: nat,
    clientId: string,
    key: string,
    committedAt: Instant,
    assertionIds: seq<AssertionId>,
    digest: Digest)

  datatype Stamp = Stamp(target: AssertionId, at: Instant, superseder: AssertionId)

  datatype Note = Note(seqNo: int, reclaimedAt: Instant, fromSegment: int)

  datatype RepairReason = TornTail | IncompleteCommit

  datatype Record =
    | Header(ordinal: int, epoch: string, floor: Instant, createdAt: Instant)
    | Body(submissionId: nat, assertion: Assertion)
    | Supersession(submissionId: nat, stamp: Stamp)
    | Submission(receipt: Receipt)
    | Watermark(publishedSeq: int, publishedAt: Instant)
    | HistoryFloor(historyFloor: Instant, advancedAt: Instant)
    | Compaction(
        compactedAt: Instant,
        segments: seq<int>,
        ids: seq<AssertionId>,
        seqNos: seq<int>,
        highSeq: int,
        highRecordedAt: Instant,
        watermark: int,
        floorAtCompaction: Instant)
    | Repair(repairedAt: Instant, segment: int, reason: RepairReason, discardedBytes: nat)

  /** Records that leave a commit open until a submission closes it. */
  predicate OpensGroup(r: Record) {
    r.Body? || r.Supersession?
  }

  // ------------------------------------------------------- idempotency identity

  function SubmissionKey(clientId: string, key: string): string {
    clientId + ['\0'] + key
  }

  function KeyOf(r: Receipt): string {
    SubmissionKey(r.clientId, r.key)
  }

  predicate NulFree(s: string) {
    '\0' !in s
  }

  /** NUL separates only where the first half holds none; that half then reads back unambiguously. */
  lemma {:induction false} SubmissionKeyInjective(c1: string, k1: string, c2: string, k2: string)
    requires NulFree(c1) && NulFree(c2)
    ensures SubmissionKey(c1, k1) == SubmissionKey(c2, k2) <==> c1 == c2 && k1 == k2
  {
    var s1, s2 := SubmissionKey(c1, k1), SubmissionKey(c2, k2);
    if s1 == s2 {
      assert s1[|c1|] == '\0' && s2[|c2|] == '\0';
      assert s1[..|c1|] == c1 && s2[..|c2|] == c2;
      assert s1[|c1| + 1..] == k1 && s2[|c2| + 1..] == k2;
    }
  }

  /** With a NUL in the client id two different submissions share a key. */
  lemma {:induction false} NulInClientCollides()
    ensures SubmissionKey("a", "b\0c") == SubmissionKey("a\0b", "c")
  {
  }

  // --------------------------------------------------------------- supersession

  /** The first stamp for an id: the one a write-once field keeps. */
  function FirstStamp(stamps: seq<Stamp>, id: AssertionId): Option<Stamp> {
    if stamps == [] then None
    else
      var earlier := FirstStamp(stamps[..|stamps| - 1], id);
      if earlier.Some? then earlier
      else if stamps[|stamps| - 1].target == id then Some(stamps[|stamps| - 1])
      else None
  }

  function Stamped(a: Assertion, stamps: seq<Stamp>): Assertion {
    var stamp := FirstStamp(stamps, a.id);
    if a.supersededAt.Some? || stamp.None? then a
    else a.(supersededAt := Some(stamp.value.at), supersededBy := Some(stamp.value.superseder))
  }

  function ApplyStamps(assertions: seq<Assertion>, stamps: seq<Stamp>): (r: seq<Assertion>)
    ensures |r| == |assertions| && forall i :: 0 <= i < |r| ==> r[i] == Stamped(assertions[i], stamps)
  {
    seq(|assertions|, i requires 0 <= i < |assertions| => Stamped(assertions[i], stamps))
  }

  lemma {:induction false} FirstStampConcat(s: seq<Stamp>, t: seq<Stamp>, id: AssertionId)
    ensures FirstStamp(s + t, id) == if FirstStamp(s, id).Some? then FirstStamp(s, id) else FirstStamp(t, id)
  {
    if t == [] {
      assert s + t == s;
    } else {
      assert (s + t)[..|s + t| - 1] == s + t[..|t| - 1];
      FirstStampConcat(s, t[..|t| - 1], id);
    }
  }

  lemma {:induction false} FirstStampFound(stamps: seq<Stamp>, id: AssertionId)
    ensures FirstStamp(stamps, id).Some? <==> exists st :: st in stamps && st.target == id
    ensures FirstStamp(stamps, id).Some? ==>
              FirstStamp(stamps, id).value in stamps && FirstStamp(stamps, id).value.target == id
  {
    if stamps != [] {
      assert stamps == stamps[..|stamps| - 1] + [stamps[|stamps| - 1]];
      FirstStampFound(stamps[..|stamps| - 1], id);
    }
  }

  /** Stamping in two rounds is stamping once with both. */
  lemma {:induction false} ApplyStampsConcat(assertions: seq<Assertion>, s: seq<Stamp>, t: seq<Stamp>)
    ensures ApplyStamps(ApplyStamps(assertions, s), t) == ApplyStamps(assertions, s + t)
  {
    forall i | 0 <= i < |assertions| ensures Stamped(Stamped(assertions[i], s), t) == Stamped(assertions[i], s + t)
    {
      FirstStampConcat(s, t, assertions[i].id);
    }
  }

  /** The assertion as it was written, before any stamp. */
  function Unstamped(a: Assertion): Assertion {
    a.(supersededAt := None, supersededBy := None)
  }
}
