/**
 Newline-delimited records as bytes: how a segment file is split into whole
 lines and a torn tail, and what any byte-level cut of it still holds.
 Both logs share this format, so it is generic in the record type.
 */
module LineFormat {
  import opened Wrappers

  type byte = x: int | 0 <= x < 256
  type bytes = seq<byte>

  const NEWLINE: byte := 10

  /** JSON serialisation of one record and the schema-checked parse that undoes it. */
  datatype Codec<!R> = Codec(encode: R -> bytes, decode: bytes -> Option<R>)

  predicate IsLine(line: bytes) {
    line != [] && NEWLINE !in line
  }

  /** What JSON text promises: a parse that inverts the writer, and lines that are never empty or broken. */
  ghost predicate ValidCodec<R(!new)>(c: Codec<R>) {
    forall r :: IsLine(c.encode(r)) && c.decode(c.encode(r)) == Some(r)
  }

  function Join(lines: seq<bytes>): bytes {
    if lines == [] then [] else Join(lines[..|lines| - 1]) + lines[|lines| - 1] + [NEWLINE]
  }

  function EncodeAll<R>(c: Codec<R>, records: seq<R>): seq<bytes> {
    seq(|records|, i requires 0 <= i < |records| => c.encode(records[i]))
  }

  datatype Split = Split(complete: bytes, torn: bytes)

  /** Everything up to the last newline, and whatever follows it. */
  function SplitLines(b: bytes): Split {
    if b == [] then Split([], [])
    else if b[|b| - 1] == NEWLINE then Split(b, [])
    else
      var s := SplitLines(b[..|b| - 1]);
      Split(s.complete, s.torn + [b[|b| - 1]])
  }

  /** The non-empty lines of newline-terminated text; `current` is the line being read. */
  function LinesOf(b: bytes, current: bytes): seq<bytes> {
    if b == [] then []
    else if b[0] == NEWLINE then (if current == [] then [] else [current]) + LinesOf(b[1..], [])
    else LinesOf(b[1..], current + [b[0]])
  }

  /** Parse every line, or none: an unreadable line refuses the whole segment. */
  function DecodeAll<R>(c: Codec<R>, lines: seq<bytes>): Option<seq<R>> {
    if lines == [] then Some([])
    else
      var front, last := DecodeAll(c, lines[..|lines| - 1]), c.decode(lines[|lines| - 1]);
      if front.Some? && last.Some? then Some(front.value + [last.value]) else None
  }

  /** How many whole lines the first `k` bytes hold. */
  function WholeLines(lines: seq<bytes>, k: nat): (m: nat)
    ensures m <= |lines| && |Join(lines[..m])| <= k
    ensures m < |lines| ==> k < |Join(lines[..m + 1])|
  {
    assert lines[..|lines|] == lines;
    if lines == [] || |Join(lines)| <= k then |lines|
    else
      var front := lines[..|lines| - 1];
      var m := WholeLines(front, k);
      assert front[..m] == lines[..m];
      assert m < |front| ==> front[..m + 1] == lines[..m + 1];
      m
  }

  // ------------------------------------------------------------------- lemmas

  lemma {:induction false} SplitUnique(complete: bytes, torn: bytes)
    requires complete == [] || complete[|complete| - 1] == NEWLINE
    requires NEWLINE !in torn
    ensures SplitLines(complete + torn) == Split(complete, torn)
  {
    if torn == [] {
      assert complete + torn == complete;
    } else {
      var b, front := complete + torn, torn[..|torn| - 1];
      assert torn == front + [torn[|torn| - 1]];
      assert b[..|b| - 1] == complete + front && b[|b| - 1] == torn[|torn| - 1];
      SplitUnique(complete, front);
    }
  }

  lemma {:induction false} JoinConcat(xs: seq<bytes>, ys: seq<bytes>)
    ensures Join(xs + ys) == Join(xs) + Join(ys)
  {
    if ys == [] {
      assert xs + ys == xs;
    } else {
      assert (xs + ys)[..|xs + ys| - 1] == xs + ys[..|ys| - 1];
      JoinConcat(xs, ys[..|ys| - 1]);
    }
  }

  lemma {:induction false} ReadLine(line: bytes, current: bytes, rest: bytes)
    requires NEWLINE !in line && (line != [] || current != [])
    ensures LinesOf(line + [NEWLINE] + rest, current) == [current + line] + LinesOf(rest, [])
  {
    var b := line + [NEWLINE] + rest;
    if line == [] {
      assert b[1..] == rest && current + line == current;
    } else {
      assert b[1..] == line[1..] + [NEWLINE] + rest;
      ReadLine(line[1..], current + [line[0]], rest);
      assert current + [line[0]] + line[1..] == current + line;
    }
  }

  /** Splitting joined lines gives them back. */
  lemma {:induction false} LinesOfJoin(lines: seq<bytes>)
    requires forall i :: 0 <= i < |lines| ==> IsLine(lines[i])
    ensures LinesOf(Join(lines), []) == lines
    decreases |lines|
  {
    if lines != [] {
      var first, rest := lines[0], lines[1..];
      assert lines == [first] + rest;
      JoinConcat([first], rest);
      assert Join([first]) == first + [NEWLINE] by { assert [first][..0] == lines[..0]; }
      ReadLine(first, [], Join(rest));
      LinesOfJoin(rest);
      assert [] + first == first;
    }
  }

  lemma {:induction false} DecodeEncode<R(!new)>(c: Codec<R>, records: seq<R>)
    requires ValidCodec(c)
    ensures DecodeAll(c, EncodeAll(c, records)) == Some(records)
  {
    if records != [] {
      var front := records[..|records| - 1];
      assert EncodeAll(c, records)[..|records| - 1] == EncodeAll(c, front);
      DecodeEncode(c, front);
      assert records == front + [records[|records| - 1]];
    }
  }

  /** Any cut of joined lines splits into the whole lines before it and a newline-free tail. */
  lemma {:induction false} CutSplits(lines: seq<bytes>, k: nat)
    requires forall i :: 0 <= i < |lines| ==> NEWLINE !in lines[i]
    requires k <= |Join(lines)|
    ensures var m := WholeLines(lines, k);
            && SplitLines(Join(lines)[..k]).complete == Join(lines[..m])
            && |SplitLines(Join(lines)[..k]).torn| == k - |Join(lines[..m])|
  {
    var m, joined := WholeLines(lines, k), Join(lines);
    assert lines[..|lines|] == lines;
    if k == |joined| {
      SplitUnique(joined, []);
      assert joined[..k] + [] == joined;
    } else {
      var front, last := lines[..|lines| - 1], lines[|lines| - 1];
      var head := Join(front);
      assert joined == head + last + [NEWLINE];
      assert front[..WholeLines(front, k)] == lines[..m];
      if k >= |head| {
        assert front[..|front|] == front;
        assert joined[..k] == head + last[..k - |head|];
        SplitUnique(head, last[..k - |head|]);
      } else {
        assert joined[..k] == head[..k];
        CutSplits(front, k);
      }
    }
  }

  /**
   The bytes level of recovery: whatever prefix of a written file survives, the
   reader gets exactly the records whose lines are whole, and the tail bytes.
   */
  lemma {:induction false} CutRecords<R(!new)>(c: Codec<R>, records: seq<R>, k: nat)
    requires ValidCodec(c) && k <= |Join(EncodeAll(c, records))|
    ensures var lines := EncodeAll(c, records);
            var m := WholeLines(lines, k);
            var s := SplitLines(Join(lines)[..k]);
            && s.complete == Join(EncodeAll(c, records[..m]))
            && |s.torn| == k - |s.complete|
            && LinesOf(s.complete, []) == EncodeAll(c, records[..m])
            && DecodeAll(c, LinesOf(s.complete, [])) == Some(records[..m])
  {
    var lines := EncodeAll(c, records);
    var m := WholeLines(lines, k);
    assert lines[..m] == EncodeAll(c, records[..m]);
    CutSplits(lines, k);
    LinesOfJoin(lines[..m]);
    DecodeEncode(c, records[..m]);
  }
}
