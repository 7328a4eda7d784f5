/**
 The append side of the log, down to short writes. A group goes into one file in
 one piece, a roll happens only between groups, and whatever an append that fails
 part-way leaves behind is a byte cut of what it set out to write, which is what
 crash recovery is proved for.
 */
module SegmentWriting {
  import opened Wrappers
  import opened Sequences
  import opened LineFormat
  import opened SegmentScan

  /** One system call: asked to write `n` bytes on its `k`th turn, it takes some of them, none, or fails. */
  type Writes = (nat, nat) -> int

  ghost predicate TakesNoMore(write: Writes) {
    forall k, n :: write(k, n) <= n
  }

  lemma {:induction false} SliceGrows(content: bytes, payload: bytes, n: nat, more: nat)
    requires n + more <= |payload|
    ensures content + payload[..n] + payload[n..n + more] == content + payload[..n + more]
  {
  }

  /** Keep writing until everything is taken; a call that takes nothing is a refusal, not a retry. */
  method WriteAll(content: bytes, payload: bytes, write: Writes) returns (after: bytes, ok: bool)
    requires TakesNoMore(write)
    ensures ok ==> after == content + payload
    ensures !ok ==> exists n :: 0 <= n < |payload| && after == content + payload[..n]
  {
    var written, k := 0, 0;
    after := content;
    while written < |payload|
      invariant 0 <= written <= |payload|
      invariant after == content + payload[..written]
    {
      var advanced := write(k, |payload| - written);
      if advanced <= 0 { return after, false; }
      SliceGrows(content, payload, written, advanced);
      after := after + payload[written..written + advanced];
      written, k := written + advanced, k + 1;
    }
    assert payload[..written] == payload;
    return after, true;
  }

  // ----------------------------------------------------------- disks and their bytes

  function LastSegment<R>(disk: seq<Segment<R>>): Segment<R>
    requires disk != []
  {
    disk[|disk| - 1]
  }

  /** The disk with a group appended to its active segment. */
  function Extended<R>(disk: seq<Segment<R>>, group: seq<R>): seq<Segment<R>>
    requires disk != []
  {
    var last := LastSegment(disk);
    disk[..|disk| - 1] + [Segment(last.ordinal, last.lines + group)]
  }

  /** The disk with a new segment holding only its header. */
  function Rolled<R>(disk: seq<Segment<R>>, header: R): seq<Segment<R>>
    requires disk != []
  {
    disk + [Segment(LastSegment(disk).ordinal + 1, [header])]
  }

  lemma {:induction false} EncodedConcat<R>(c: Codec<R>, xs: seq<R>, ys: seq<R>)
    ensures Encoded(c, xs + ys) == Encoded(c, xs) + Encoded(c, ys)
  {
    assert EncodeAll(c, xs + ys) == EncodeAll(c, xs) + EncodeAll(c, ys);
    JoinConcat(EncodeAll(c, xs), EncodeAll(c, ys));
  }

  /** Appending the group's bytes to the last file encodes the extended disk; any prefix of them is a cut of it. */
  lemma {:induction false} ExtendedBytes<R>(c: Codec<R>, disk: seq<Segment<R>>, group: seq<R>, n: nat)
    requires disk != [] && n <= |Encoded(c, group)|
    ensures var last := LastSegment(disk);
            var files, after := EncodeDisk(c, disk), EncodeDisk(c, Extended(disk, group));
            var k := |Encoded(c, last.lines)| + n;
            && after != [] && k <= |after[|after| - 1].content|
            && CutTail(after, k) ==
               files[..|files| - 1] + [File(last.ordinal, files[|files| - 1].content + Encoded(c, group)[..n])]
            && (n == |Encoded(c, group)| ==> CutTail(after, k) == after)
  {
    var last := LastSegment(disk);
    EncodedConcat(c, last.lines, group);
    var after := EncodeDisk(c, Extended(disk, group));
    assert after[..|after| - 1] == EncodeDisk(c, disk)[..|disk| - 1];
    var all := Encoded(c, last.lines) + Encoded(c, group);
    assert all[..|Encoded(c, last.lines)| + n] == Encoded(c, last.lines) + Encoded(c, group)[..n];
    if n == |Encoded(c, group)| { assert all[..|all|] == all; }
  }

  /** A torn header is a cut of the segment it would have begun. */
  lemma {:induction false} TornHeader<R>(c: Codec<R>, disk: seq<Segment<R>>, header: R, group: seq<R>, n: nat)
    requires disk != [] && n <= |Encoded(c, [header])|
    ensures var after := EncodeDisk(c, Extended(Rolled(disk, header), group));
            && after != [] && n <= |after[|after| - 1].content|
            && CutTail(after, n) ==
               EncodeDisk(c, disk) + [File(LastSegment(disk).ordinal + 1, Encoded(c, [header])[..n])]
  {
    EncodedConcat(c, [header], group);
    var whole := Extended(Rolled(disk, header), group);
    assert whole == disk + [Segment(LastSegment(disk).ordinal + 1, [header] + group)];
    var after := EncodeDisk(c, whole);
    assert after[..|after| - 1] == EncodeDisk(c, disk);
    assert (Encoded(c, [header]) + Encoded(c, group))[..n] == Encoded(c, [header])[..n];
  }

  /** What one append sets out to leave: a roll, if the size rule asks for one, and then the group. */
  function Intended<R>(disk: seq<Segment<R>>, group: seq<R>, rolls: bool, header: R): seq<Segment<R>>
    requires disk != []
  {
    Extended(if rolls then Rolled(disk, header) else disk, group)
  }

  /** The files hold a byte cut of what was intended. */
  ghost predicate IsCutOf<R>(files: seq<File>, c: Codec<R>, intended: seq<Segment<R>>) {
    intended != [] &&
    exists k :: 0 <= k <= |EncodeSegment(c, LastSegment(intended)).content|
                && files == CutTail(EncodeDisk(c, intended), k)
  }

  // ------------------------------------------------------------------- the writer

  class SegmentWriter<R(!new)> {
    const codec: Codec<R>
    /** A roll hint, never a write limit. */
    const maxBytes: nat
    var files: seq<File>
    var ordinal: int
    var activeBytes: nat
    /** Records beyond the header, so that an empty segment is never rolled. */
    var activeRecords: nat
    ghost var disk: seq<Segment<R>>

    ghost predicate Valid()
      reads this
    {
      && disk != [] && files == EncodeDisk(codec, disk)
      && ordinal == LastSegment(disk).ordinal && LastSegment(disk).lines != []
      && activeBytes == |Encoded(codec, LastSegment(disk).lines)| && activeRecords == |LastSegment(disk).lines| - 1
    }

    /** Continue a log, or start one from its first header. */
    constructor (codec: Codec<R>, maxBytes: nat, existing: seq<Segment<R>>)
      requires existing != [] && LastSegment(existing).lines != []
      ensures Valid() && disk == existing && this.codec == codec && this.maxBytes == maxBytes
    {
      this.codec, this.maxBytes := codec, maxBytes;
      var last := LastSegment(existing);
      files, disk := EncodeDisk(codec, existing), existing;
      ordinal, activeBytes, activeRecords := last.ordinal, |Encoded(codec, last.lines)|, |last.lines| - 1;
    }

    method Roll(header: R, write: Writes) returns (ok: bool)
      requires Valid() && TakesNoMore(write)
      modifies this
      ensures ok ==> Valid() && disk == Rolled(old(disk), header)
      ensures !ok ==> exists n :: (0 <= n < |Encoded(codec, [header])| &&
                files == EncodeDisk(codec, old(disk)) +
                  [File(LastSegment(old(disk)).ordinal + 1, Encoded(codec, [header])[..n])])
    {
      var line := Encoded(codec, [header]);
      var content;
      content, ok := WriteAll([], line, write);
      files := files + [File(ordinal + 1, content)];
      assert forall b: bytes :: [] + b == b;
      if ok {
        ordinal, activeBytes, activeRecords, disk := ordinal + 1, |line|, 0, Rolled(disk, header);
      }
    }

    /** Write a group to the active segment. */
    method WriteGroup(group: seq<R>, write: Writes) returns (ok: bool)
      requires Valid() && TakesNoMore(write)
      modifies this
      ensures ok ==> Valid() && disk == Extended(old(disk), group)
      ensures !ok ==> IsCutOf(files, codec, Extended(old(disk), group))
    {
      ghost var before := disk;
      var payload := Encoded(codec, group);
      var content;
      content, ok := WriteAll(files[|files| - 1].content, payload, write);
      files := files[..|files| - 1] + [File(ordinal, content)];
      if ok {
        ExtendedBytes(codec, before, group, |payload|);
        assert payload[..|payload|] == payload;
        EncodedConcat(codec, LastSegment(before).lines, group);
        activeBytes, activeRecords, disk := activeBytes + |payload|, activeRecords + |group|, Extended(disk, group);
      } else {
        ghost var n :| 0 <= n < |payload| && content == EncodeDisk(codec, before)[|before| - 1].content + payload[..n];
        ExtendedBytes(codec, before, group, n);
      }
    }

    /** Append one group as an indivisible unit, rolling first if it would overflow a segment that holds anything. */
    method AppendGroup(group: seq<R>, header: R, writeHeader: Writes, writeGroup: Writes)
      returns (rolls: bool, ok: bool)
      requires Valid() && TakesNoMore(writeHeader) && TakesNoMore(writeGroup)
      modifies this
      ensures rolls == (group != [] && old(activeRecords) > 0 && old(activeBytes) + |Encoded(codec, group)| > maxBytes)
      ensures group == [] ==> ok && Valid() && disk == old(disk) && files == old(files)
      ensures group != [] && ok ==> Valid() && disk == Intended(old(disk), group, rolls, header)
      ensures group != [] && !ok ==> IsCutOf(files, codec, Intended(old(disk), group, rolls, header))
    {
      rolls, ok := false, true;
      if group == [] { return; }
      ghost var before := disk;
      rolls := activeRecords > 0 && activeBytes + |Encoded(codec, group)| > maxBytes;
      if rolls {
        ok := Roll(header, writeHeader);
        if !ok {
          ghost var n :| 0 <= n < |Encoded(codec, [header])| &&
            files == EncodeDisk(codec, before) + [File(LastSegment(before).ordinal + 1, Encoded(codec, [header])[..n])];
          TornHeader(codec, before, header, group, n);
          return;
        }
      }
      ok := WriteGroup(group, writeGroup);
    }
  }
}
