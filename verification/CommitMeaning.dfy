/**
 What a commit stores and whom it supersedes, said of the drafts and the records
 themselves: in the live log, in the appended group, and after a reload.
 */
module CommitMeaning {
  import opened Wrappers
  import opened Sequences
  import opened LogRecords
  import opened Store
  import opened SegmentScan
  import opened Recovery
  import opened LogWorld
  import opened Appending
  import opened LogInvariant
  import opened CommitSteps
  import opened LogRuns

  // ------------------------------------------------------------------ what is stored

  /** Everything the draft said, under the client, fidelity and withholding of its request. */
  ghost predicate Tells(a: Assertion, d: Draft, input: CommitInput) {
    && a.subject == d.subject && a.relation == d.relation && a.validTime == d.validTime
    && a.supersedes == d.supersedes && a.content == d.content
    && a.clientId == input.clientId && a.fidelity == input.fidelity && a.withheld == input.withheld
  }

  /** As acknowledged: the receipt's `i`th id and instant, the next seq in turn, and nothing supersedes it yet. */
  ghost predicate Acknowledged(a: Assertion, receipt: Receipt, i: nat, s: LogState) {
    && i < |receipt.assertionIds| && a.id == receipt.assertionIds[i] && a.recordedAt == receipt.committedAt
    && a.seqNo == s.nextSeq + i && a.epoch == s.epoch && a.supersededAt.None? && a.supersededBy.None?
  }

  /** Exactly one place holds this id, and it holds this assertion. */
  ghost predicate HoldsOnce(assertions: seq<Assertion>, a: Assertion) {
    exists k :: 0 <= k < |assertions| && assertions[k] == a
                && forall j :: 0 <= j < |assertions| && assertions[j].id == a.id ==> j == k
  }

  lemma {:induction false} StampMissesNew(a: Assertion, stamps: seq<Stamp>, used: set<AssertionId>)
    requires a.id !in used && forall st :: st in stamps ==> st.target in used
    ensures Stamped(a, stamps) == a
  {
    FirstStampFound(stamps, a.id);
  }

  /** New records go in as they are, beside old ones, whatever the old ones are stamped with. */
  lemma {:induction false} NewGoIn(
    olds: seq<Assertion>, minted: seq<Assertion>, stamps: seq<Stamp>, used: set<AssertionId>, i: nat)
    requires i < |minted| && (forall st :: st in stamps ==> st.target in used)
    requires forall k :: 0 <= k < |olds| ==> olds[k].id in used
    requires forall k :: 0 <= k < |minted| ==> minted[k].id !in used
    requires forall k, l :: 0 <= k < l < |minted| ==> minted[k].id != minted[l].id
    ensures HoldsOnce(ApplyStamps(olds + minted, stamps), minted[i])
  {
    var all := olds + minted;
    var after, k := ApplyStamps(all, stamps), |olds| + i;
    StampMissesNew(minted[i], stamps, used);
    assert after[k] == Stamped(all[k], stamps) == minted[i];
    forall j | 0 <= j < |after| && after[j].id == minted[i].id ensures j == k {
      assert after[j] == Stamped(all[j], stamps);
      if j >= |olds| { assert all[j] == minted[j - |olds|]; }
    }
  }

  lemma {:induction false} LiveIdsUsed(w: World)
    requires Inv(w)
    ensures forall k :: 0 <= k < |w.live.assertions| ==> w.live.assertions[k].id in w.used
    ensures forall k :: 0 <= k < |Bodies(Flat(w.disk))| ==> Bodies(Flat(w.disk))[k].id in w.used
  {
    var live, bodies := w.live.assertions, Bodies(Flat(w.disk));
    forall k | 0 <= k < |live| ensures live[k].id in w.used { assert Unstamped(live[k]) == bodies[k]; }
  }

  lemma {:induction false} BelievedIsUsed(w: World, id: AssertionId)
    requires Inv(w) && Believed(w.live.assertions, id)
    ensures id in w.used
  {
    LiveIdsUsed(w);
    var a :| a in w.live.assertions && a.id == id;
    var k :| 0 <= k < |w.live.assertions| && w.live.assertions[k] == a;
  }

  lemma {:induction false} StoredLive(w: World, c: Committing, i: nat)
    requires Inv(w) && Sound(w.live, c) && FreshParts(w, c) && i < |c.minted|
    ensures HoldsOnce(CommittedLive(w.live, c).assertions, c.minted[i])
  {
    LiveIdsUsed(w);
    forall st | st in c.stamps ensures st.target in w.used { BelievedIsUsed(w, st.target); }
    NewGoIn(w.live.assertions, c.minted, c.stamps, w.used, i);
  }

  /** What a reload holds after a commit: the bodies there were and the new ones, with the old stamps and the new. */
  lemma {:induction false} ReloadedCommit(w: World, c: Committing, at: Landing)
    requires Inv(w) && Sound(w.live, c) && FreshParts(w, c)
    ensures Restore(CommittedWorld(w, c, at).disk).assertions ==
            ApplyStamps(Bodies(Flat(w.disk)) + c.minted, Stamps(Flat(w.disk)) + c.stamps)
    ensures StampsInv(Stamps(Flat(w.disk)) + c.stamps, w.used)
  {
    CommitDisk(w, c, at);
    CommittedKeepsInv(w, c, at);
    RestoredAssertions(CommittedWorld(w, c, at).disk);
  }

  lemma {:induction false} StoredOnDisk(w: World, c: Committing, at: Landing, i: nat)
    requires Inv(w) && Sound(w.live, c) && FreshParts(w, c) && i < |c.minted|
    ensures HoldsOnce(Restore(CommittedWorld(w, c, at).disk).assertions, c.minted[i])
  {
    LiveIdsUsed(w);
    ReloadedCommit(w, c, at);
    var stamps := Stamps(Flat(w.disk)) + c.stamps;
    forall st | st in stamps ensures st.target in w.used {
      var k :| 0 <= k < |stamps| && stamps[k] == st;
    }
    NewGoIn(Bodies(Flat(w.disk)), c.minted, stamps, w.used, i);
  }

  lemma {:induction false} StoredInGroup(minted: seq<Assertion>, stamps: seq<Stamp>, receipt: Receipt, i: nat)
    requires i < |minted| && forall k, l :: 0 <= k < l < |minted| ==> minted[k].id != minted[l].id
    ensures HoldsOnce(Bodies(CommitGroup(minted, stamps, receipt)), minted[i])
    ensures Body(receipt.submissionId, minted[i]) in CommitGroup(minted, stamps, receipt)
  {
    CommitGroupLists(minted, stamps, receipt);
    assert minted[i] == Bodies(CommitGroup(minted, stamps, receipt))[i];
    assert CommitGroup(minted, stamps, receipt)[i] == Body(receipt.submissionId, minted[i]);
  }

  lemma {:induction false} MintedTells(s: LogState, input: CommitInput, mint: Mint, i: nat)
    requires |mint.ids| == |input.drafts| && i < |input.drafts|
    ensures var c := PartsOf(s, input, mint);
            |c.minted| == |input.drafts| && Tells(c.minted[i], input.drafts[i], input)
            && Acknowledged(c.minted[i], c.receipt, i, s)
  {
  }

  /** Draft by draft, under the ids acknowledged. */
  ghost predicate ToldInOrder(news: seq<Assertion>, input: CommitInput, ids: seq<AssertionId>) {
    && |news| == |input.drafts| == |ids|
    && forall i :: 0 <= i < |news| ==> Tells(news[i], input.drafts[i], input) && news[i].id == ids[i]
  }

  /** After what there was come assertions that say what the drafts said. */
  ghost predicate Adds(before: seq<Assertion>, after: seq<Assertion>, input: CommitInput, ids: seq<AssertionId>) {
    |before| <= |after| && ToldInOrder(after[|before|..], input, ids)
  }

  /** Every assertion a commit adds says what its draft said, whatever is superseded. */
  lemma {:induction false} AddedInOrder(s: LogState, input: CommitInput, mint: Mint)
    requires |mint.ids| == |input.drafts| && Commit(s, input, mint).outcome.Committed?
    ensures Adds(s.assertions, Commit(s, input, mint).state.assertions, input, mint.ids)
  {
    var c := PartsOf(s, input, mint);
    assert Commit(s, input, mint).state.assertions == ApplyStamps(s.assertions + c.minted, c.stamps);
    forall i | 0 <= i < |c.minted| ensures Tells(c.minted[i], input.drafts[i], input) && c.minted[i].id == mint.ids[i] {
      MintedTells(s, input, mint, i);
    }
    StampingTells(s.assertions, c.minted, c.stamps, input, mint.ids);
  }

  /** Whatever is stamped, the new ones still say it. */
  lemma {:induction false} StampingTells(
    olds: seq<Assertion>, minted: seq<Assertion>, stamps: seq<Stamp>, input: CommitInput, ids: seq<AssertionId>)
    requires ToldInOrder(minted, input, ids)
    ensures ToldInOrder(ApplyStamps(olds + minted, stamps)[|olds|..], input, ids)
  {
    var next := ApplyStamps(olds + minted, stamps)[|olds|..];
    forall i | 0 <= i < |next| ensures next[i] == Stamped(minted[i], stamps) {
      assert (olds + minted)[|olds| + i] == minted[i];
    }
  }

  /** Where one commit's parts end up. */
  lemma {:induction false} PartsAreStored(w: World, c: Committing, at: Landing, i: nat)
    requires Inv(w) && Sound(w.live, c) && FreshParts(w, c) && i < |c.minted|
    ensures HoldsOnce(CommittedWorld(w, c, at).live.assertions, c.minted[i])
    ensures HoldsOnce(Restore(CommittedWorld(w, c, at).disk).assertions, c.minted[i])
    ensures HoldsOnce(Bodies(CommitGroup(c.minted, c.stamps, c.receipt)), c.minted[i])
    ensures Body(c.receipt.submissionId, c.minted[i]) in CommitGroup(c.minted, c.stamps, c.receipt)
  {
    StoredLive(w, c, i);
    StoredOnDisk(w, c, at, i);
    StoredInGroup(c.minted, c.stamps, c.receipt, i);
  }

  /**
   Once a commit is acknowledged, the live log, the group it appended and a reload of
   the disk each hold, for every draft, exactly one assertion with the receipt's id for
   it, and that assertion says what the draft said.
   */
  lemma {:induction false} CommitStoresDraft(w: World, input: CommitInput, mint: Mint, at: Landing, i: nat)
    returns (a: Assertion)
    requires Inv(w) && Minting(w, DoCommit(input, mint)) && Commit(w.live, input, mint).outcome.Committed?
    requires i < |input.drafts|
    ensures Tells(a, input.drafts[i], input)
    ensures var r, next := Commit(w.live, input, mint), Finish(w, DoCommit(input, mint), at);
            && Acknowledged(a, r.outcome.receipt, i, w.live)
            && HoldsOnce(next.live.assertions, a) && HoldsOnce(Restore(next.disk).assertions, a)
            && HoldsOnce(Bodies(r.group), a) && Body(r.outcome.receipt.submissionId, a) in r.group
  {
    var c := FinishCommitted(w, input, mint, at);
    CommitIsSound(w.live, input, mint);
    MintedTells(w.live, input, mint, i);
    a := c.minted[i];
    PartsAreStored(w, c, at, i);
  }

  // ---------------------------------------------------------------- whom it supersedes

  /** The first draft that names an id. */
  ghost predicate NamedFirstBy(drafts: seq<Draft>, x: AssertionId, k: nat) {
    k < |drafts| && x in drafts[k].supersedes && forall i :: 0 <= i < k ==> x !in drafts[i].supersedes
  }

  lemma {:induction false} AskedOfEach(targets: seq<AssertionId>, at: Instant, superseder: AssertionId, x: AssertionId)
    ensures FirstStamp(StampAll(targets, at, superseder), x) ==
            if x in targets then Some(Stamp(x, at, superseder)) else None
  {
    if targets != [] {
      var n := |targets| - 1;
      AskedOfEach(targets[..n], at, superseder, x);
      assert StampAll(targets, at, superseder)[..n] == StampAll(targets[..n], at, superseder);
      assert targets == targets[..n] + [targets[n]];
    }
  }

  lemma {:induction false} AskedInTurn(drafts: seq<Draft>, ids: seq<AssertionId>, at: Instant, x: AssertionId)
    requires |ids| == |drafts|
    ensures (forall i :: 0 <= i < |drafts| ==> x !in drafts[i].supersedes) ==>
              FirstStamp(Requested(drafts, ids, at), x).None?
    ensures forall k: nat :: NamedFirstBy(drafts, x, k) ==>
              FirstStamp(Requested(drafts, ids, at), x) == Some(Stamp(x, at, ids[k]))
  {
    if drafts != [] {
      var n := |drafts| - 1;
      AskedInTurn(drafts[..n], ids[..n], at, x);
      AskedOfEach(drafts[n].supersedes, at, ids[n], x);
      FirstStampConcat(Requested(drafts[..n], ids[..n], at), StampAll(drafts[n].supersedes, at, ids[n]), x);
      forall k: nat | NamedFirstBy(drafts, x, k) && k < n ensures NamedFirstBy(drafts[..n], x, k) { }
    }
  }

  /** What a commit makes of an assertion it found. */
  ghost predicate Afterwards(a: Assertion, b: Assertion, drafts: seq<Draft>, receipt: Receipt) {
    && (a.supersededAt.Some? || (forall i :: 0 <= i < |drafts| ==> a.id !in drafts[i].supersedes) ==> b == a)
    && (a.supersededAt.None? ==> forall k: nat :: NamedFirstBy(drafts, a.id, k) && k < |receipt.assertionIds| ==>
          b == a.(supersededAt := Some(receipt.committedAt), supersededBy := Some(receipt.assertionIds[k])))
  }

  lemma {:induction false} StampedAfterwards(s: LogState, input: CommitInput, mint: Mint, a: Assertion)
    requires |mint.ids| == |input.drafts| && a in s.assertions
    ensures var c := PartsOf(s, input, mint); Afterwards(a, Stamped(a, c.stamps), input.drafts, c.receipt)
  {
    var at := StampNow(s, mint.clock);
    var requested := Requested(input.drafts, mint.ids, at);
    EffectiveStamps(s.assertions, requested);
    AskedInTurn(input.drafts, mint.ids, at, a.id);
    if a.supersededAt.None? { assert Believed(s.assertions, a.id); }
  }

  /**
   A commit leaves every assertion it found as it was, except that each one still
   believed that some draft names is superseded at the commit's instant, by the first
   draft that named it; and so does the reload, of every assertion believed before.
   */
  lemma {:induction false} CommitSupersedesNamed(w: World, input: CommitInput, mint: Mint, at: Landing, j: nat)
    requires Inv(w) && Minting(w, DoCommit(input, mint)) && Commit(w.live, input, mint).outcome.Committed?
    requires j < |w.live.assertions|
    ensures var next, receipt := Finish(w, DoCommit(input, mint), at), Commit(w.live, input, mint).outcome.receipt;
            var r := Restore(next.disk);
            && |next.live.assertions| == |w.live.assertions| + |input.drafts| == |r.assertions|
            && Afterwards(w.live.assertions[j], next.live.assertions[j], input.drafts, receipt)
            && (w.live.assertions[j].supersededAt.None? ==> r.assertions[j] == next.live.assertions[j])
  {
    var c := FinishCommitted(w, input, mint, at);
    CommitIsSound(w.live, input, mint);
    var a := w.live.assertions[j];
    var all := w.live.assertions + c.minted;
    assert all[j] == a && a in w.live.assertions;
    StampedAfterwards(w.live, input, mint, a);
    ReloadedCommit(w, c, at);
    if a.supersededAt.None? { ReloadsAlike(w, c, j); }
  }

  lemma {:induction false} ReloadsAlike(w: World, c: Committing, j: nat)
    requires Inv(w) && j < |w.live.assertions| && w.live.assertions[j].supersededAt.None?
    ensures var all, bodies := w.live.assertions + c.minted, Bodies(Flat(w.disk)) + c.minted;
            |all| == |bodies| && Stamped(bodies[j], Stamps(Flat(w.disk)) + c.stamps) == Stamped(all[j], c.stamps)
  {
    var bodies, stamps := Bodies(Flat(w.disk)), Stamps(Flat(w.disk));
    assert w.live.assertions[j] == bodies[j];
    FirstStampConcat(stamps, c.stamps, bodies[j].id);
  }

  // ------------------------------------------------------------------- how it decides

  ghost predicate Holds(assertions: seq<Assertion>, id: AssertionId) {
    exists i :: 0 <= i < |assertions| && assertions[i].id == id
  }

  /** Draft by draft and name by name, the first id no assertion has. */
  ghost predicate FirstMissing(assertions: seq<Assertion>, drafts: seq<Draft>, k: nat, m: nat) {
    && k < |drafts| && m < |drafts[k].supersedes| && !Holds(assertions, drafts[k].supersedes[m])
    && (forall l :: 0 <= l < m ==> Holds(assertions, drafts[k].supersedes[l]))
    && NoneMissing(assertions, drafts[..k])
  }

  ghost predicate NoneMissing(assertions: seq<Assertion>, drafts: seq<Draft>) {
    forall i, l :: 0 <= i < |drafts| && 0 <= l < |drafts[i].supersedes| ==> Holds(assertions, drafts[i].supersedes[l])
  }

  lemma {:induction false} KnownIsHeld(assertions: seq<Assertion>, id: AssertionId)
    ensures Known(assertions, id) <==> Holds(assertions, id)
  {
    if Known(assertions, id) {
      var a :| a in assertions && a.id == id;
      var i :| 0 <= i < |assertions| && assertions[i] == a;
    }
    if i :| 0 <= i < |assertions| && assertions[i].id == id { assert assertions[i] in assertions; }
  }

  lemma {:induction false} UnknownConcat(assertions: seq<Assertion>, xs: seq<Stamp>, ys: seq<Stamp>)
    ensures FirstUnknown(assertions, xs + ys) ==
            if FirstUnknown(assertions, xs).Some? then FirstUnknown(assertions, xs) else FirstUnknown(assertions, ys)
  {
    if ys == [] {
      assert xs + ys == xs;
    } else {
      assert (xs + ys)[..|xs + ys| - 1] == xs + ys[..|ys| - 1];
      UnknownConcat(assertions, xs, ys[..|ys| - 1]);
    }
  }

  /** Among one draft's names. */
  lemma {:induction false} UnknownAmong(
    assertions: seq<Assertion>, targets: seq<AssertionId>, at: Instant, superseder: AssertionId)
    ensures var r := FirstUnknown(assertions, StampAll(targets, at, superseder));
            && (r.None? ==> forall l :: 0 <= l < |targets| ==> Holds(assertions, targets[l]))
            && (r.Some? ==> exists m :: 0 <= m < |targets| && r == Some(targets[m]) && !Holds(assertions, targets[m])
                                        && forall l :: 0 <= l < m ==> Holds(assertions, targets[l]))
  {
    if targets != [] {
      var n := |targets| - 1;
      UnknownAmong(assertions, targets[..n], at, superseder);
      KnownIsHeld(assertions, targets[n]);
      assert StampAll(targets, at, superseder)[..n] == StampAll(targets[..n], at, superseder);
      if m :| 0 <= m < n && FirstUnknown(assertions, StampAll(targets[..n], at, superseder)) == Some(targets[..n][m])
              && !Holds(assertions, targets[..n][m]) && forall l :: 0 <= l < m ==> Holds(assertions, targets[..n][l])
      {
        assert forall l :: 0 <= l < m ==> targets[l] == targets[..n][l];
      }
    }
  }

  lemma {:induction false} UnknownInTurn(
    assertions: seq<Assertion>, drafts: seq<Draft>, ids: seq<AssertionId>, at: Instant)
    requires |ids| == |drafts|
    ensures var r := FirstUnknown(assertions, Requested(drafts, ids, at));
            && (r.None? ==> NoneMissing(assertions, drafts))
            && (r.Some? ==> exists k: nat, m: nat :: FirstMissing(assertions, drafts, k, m)
                                                     && r == Some(drafts[k].supersedes[m]))
  {
    if drafts != [] {
      var n := |drafts| - 1;
      var front, last := Requested(drafts[..n], ids[..n], at), StampAll(drafts[n].supersedes, at, ids[n]);
      UnknownInTurn(assertions, drafts[..n], ids[..n], at);
      UnknownAmong(assertions, drafts[n].supersedes, at, ids[n]);
      UnknownConcat(assertions, front, last);
      if FirstUnknown(assertions, front).Some? {
        var k: nat, m: nat :| FirstMissing(assertions, drafts[..n], k, m)
                              && FirstUnknown(assertions, front) == Some(drafts[..n][k].supersedes[m]);
        assert drafts[..n][..k] == drafts[..k];
        assert FirstMissing(assertions, drafts, k, m);
      } else if FirstUnknown(assertions, last).Some? {
        var m: nat :| m < |drafts[n].supersedes| && FirstUnknown(assertions, last) == Some(drafts[n].supersedes[m])
                      && !Holds(assertions, drafts[n].supersedes[m])
                      && forall l :: 0 <= l < m ==> Holds(assertions, drafts[n].supersedes[l]);
        assert FirstMissing(assertions, drafts, n, m);
      }
    }
  }

  /** Every action but an assertion names what it acts on. */
  ghost predicate NamesItsLineage(drafts: seq<Draft>) {
    forall i :: 0 <= i < |drafts| ==> drafts[i].isAssert || |drafts[i].supersedes| > 0
  }

  /**
   How a commit decides, in order: a draft that names no lineage where it must; a key
   used before, with the same payload or with another; a name no assertion has, and
   then which; and otherwise it is committed, at an instant past every earlier one.
   */
  lemma {:induction false} CommitDecides(s: LogState, input: CommitInput, mint: Mint)
    requires |mint.ids| == |input.drafts|
    ensures var r, key := Commit(s, input, mint), SubmissionKey(input.clientId, input.key);
            var used := key in s.submissions;
            && (r.outcome.InvalidLineage? <==> !NamesItsLineage(input.drafts))
            && (r.outcome.Replayed? || r.outcome.Conflict? <==> NamesItsLineage(input.drafts) && used)
            && (r.outcome.Replayed? ==>
                  r.outcome.receipt == s.submissions[key]
                  && s.submissions[key].digest == Digest(input.clientId, input.key, input.drafts))
            && (r.outcome.Conflict? ==>
                  r.outcome.original == s.submissions[key]
                  && s.submissions[key].digest != Digest(input.clientId, input.key, input.drafts))
            && (r.outcome.UnknownSupersedes? <==>
                  NamesItsLineage(input.drafts) && !used && !NoneMissing(s.assertions, input.drafts))
            && (r.outcome.UnknownSupersedes? ==>
                  exists k: nat, m: nat :: FirstMissing(s.assertions, input.drafts, k, m)
                                           && r.outcome.id == input.drafts[k].supersedes[m])
  {
    var at := StampNow(s, mint.clock);
    UnknownInTurn(s.assertions, input.drafts, mint.ids, at);
    LineageIsNamed(input.drafts);
    if k: nat, m: nat :| FirstMissing(s.assertions, input.drafts, k, m) {
      assert !NoneMissing(s.assertions, input.drafts);
    }
  }

  lemma {:induction false} LineageIsNamed(drafts: seq<Draft>)
    ensures (exists d :: d in drafts && !ValidLineage(d)) <==> !NamesItsLineage(drafts)
  {
    if d :| d in drafts && !ValidLineage(d) {
      var i :| 0 <= i < |drafts| && drafts[i] == d;
    }
    if i :| 0 <= i < |drafts| && !(drafts[i].isAssert || |drafts[i].supersedes| > 0) { assert drafts[i] in drafts; }
  }

  /** The receipt of a commit, and where the store stands after it. */
  lemma {:induction false} CommitAcknowledges(s: LogState, input: CommitInput, mint: Mint)
    requires |mint.ids| == |input.drafts| && Commit(s, input, mint).outcome.Committed?
    ensures var r := Commit(s, input, mint);
            var receipt := r.outcome.receipt;
            && receipt.clientId == input.clientId && receipt.key == input.key && receipt.assertionIds == mint.ids
            && receipt.submissionId == mint.submissionId && receipt.digest.drafts == input.drafts
            && receipt.committedAt > s.lastMillis && receipt.committedAt >= mint.clock
            && (receipt.committedAt == mint.clock || receipt.committedAt == s.lastMillis + 1)
            && r.state.submissions == s.submissions[SubmissionKey(input.clientId, input.key) := receipt]
            && r.state.nextSeq == s.nextSeq + |input.drafts| && r.state.lastMillis == receipt.committedAt
            && r.state.floor == s.floor && r.state.published == s.published && r.state.reclaimed == s.reclaimed
            && r.group != [] && r.group[|r.group| - 1] == Submission(receipt)
  {
  }
}
