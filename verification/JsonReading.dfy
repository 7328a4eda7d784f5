/**
 A reader for JSON text as section 2 of RFC 8259 has it, less white space and
 fractions, and that it reads every canonical text back. What the stringifier writes
 is pinned to it character by character.
 */
module JsonReading {
  import opened CanonicalJson

  datatype Parsed<T> = Got(value: T, rest: string) | Bad

  // ---------------------------------------------------------------------- the reader

  function HexValue(c: char): int {
    if '0' <= c <= '9' then c as int - '0' as int
    else if 'a' <= c <= 'f' then c as int - 'a' as int + 10
    else -1
  }

  /** What a backslash and the character after it stand for. */
  function Unescaped(c: char): int {
    if c == '\"' || c == '\\' then c as int
    else if c == 'b' then 8
    else if c == 't' then 9
    else if c == 'n' then 10
    else if c == 'f' then 12
    else if c == 'r' then 13
    else -1
  }

  /** The inside of a string, up to and past its closing quote. */
  function ReadString(s: string): (r: Parsed<string>)
    ensures r.Got? ==> |r.rest| < |s|
  {
    if s == [] then Bad
    else if s[0] == '\"' then Got([], s[1..])
    else if s[0] != '\\' then Prepend(s[0], ReadString(s[1..]))
    else if |s| < 2 then Bad
    else if Unescaped(s[1]) >= 0 then Prepend(Unescaped(s[1]) as char, ReadString(s[2..]))
    else if s[1] == 'u' && |s| >= 6 && s[2] == '0' && s[3] == '0' && 0 <= HexValue(s[4]) < 2 && HexValue(s[5]) >= 0
    then Prepend((16 * HexValue(s[4]) + HexValue(s[5])) as char, ReadString(s[6..]))
    else Bad
  }

  function Prepend(c: char, r: Parsed<string>): (p: Parsed<string>)
    ensures p.Got? <==> r.Got?
    ensures p.Got? ==> p.rest == r.rest
  {
    match r
    case Got(value, rest) => Got([c] + value, rest)
    case Bad => Bad
  }

  /** Digits as long as there are any, onto a number read so far. */
  function ReadDigits(s: string, n: nat): (r: Parsed<nat>)
    ensures r.Got? && |r.rest| <= |s|
  {
    if s != [] && '0' <= s[0] <= '9' then ReadDigits(s[1..], 10 * n + (s[0] as int - '0' as int)) else Got(n, s)
  }

  function ReadValue(s: string): (r: Parsed<Json>)
    ensures r.Got? ==> |r.rest| < |s|
    decreases |s|, 0
  {
    if "null" <= s then Got(Null, s[4..])
    else if "true" <= s then Got(Bool(true), s[4..])
    else if "false" <= s then Got(Bool(false), s[5..])
    else if s == [] then Bad
    else if s[0] == '\"' then
      match ReadString(s[1..]) {
        case Got(text, rest) => Got(Text(text), rest)
        case Bad => Bad
      }
    else if s[0] == '[' then
      if "[]" <= s then Got(Arr([]), s[2..])
      else match ReadItems(s[1..]) {
        case Got(items, rest) => Got(Arr(items), rest)
        case Bad => Bad
      }
    else if s[0] == '{' then
      if "{}" <= s then Got(Obj([]), s[2..])
      else match ReadEntries(s[1..]) {
        case Got(entries, rest) => Got(Obj(entries), rest)
        case Bad => Bad
      }
    else if '0' <= s[0] <= '9' then
      var r := ReadDigits(s[1..], s[0] as int - '0' as int);
      Got(Int(r.value), r.rest)
    else if |s| >= 2 && s[0] == '-' && '0' <= s[1] <= '9' then
      var r := ReadDigits(s[2..], s[1] as int - '0' as int);
      var n: int := r.value;
      Got(Int(-n), r.rest)
    else Bad
  }

  /** Items up to and past the closing bracket. */
  function ReadItems(s: string): (r: Parsed<seq<Json>>)
    ensures r.Got? ==> |r.rest| < |s|
    decreases |s|, 1
  {
    match ReadValue(s)
    case Bad => Bad
    case Got(v, rest) =>
      if rest != [] && rest[0] == ']' then Got([v], rest[1..])
      else if rest != [] && rest[0] == ',' then
        match ReadItems(rest[1..]) {
          case Got(more, left) => Got([v] + more, left)
          case Bad => Bad
        }
      else Bad
  }

  /** Entries up to and past the closing brace. */
  function ReadEntries(s: string): (r: Parsed<seq<(string, Json)>>)
    ensures r.Got? ==> |r.rest| < |s|
    decreases |s|, 1
  {
    if s == [] || s[0] != '\"' then Bad
    else
      match ReadString(s[1..])
      case Bad => Bad
      case Got(key, after) =>
        if after == [] || after[0] != ':' then Bad
        else
          match ReadValue(after[1..])
          case Bad => Bad
          case Got(v, rest) =>
            if rest != [] && rest[0] == '}' then Got([(key, v)], rest[1..])
            else if rest != [] && rest[0] == ',' then
              match ReadEntries(rest[1..]) {
                case Got(more, left) => Got([(key, v)] + more, left)
                case Bad => Bad
              }
            else Bad
  }

  /** A whole text. */
  function Parse(text: string): Parsed<Json> {
    match ReadValue(text)
    case Got(v, rest) => if rest == [] then Got(v, []) else Bad
    case Bad => Bad
  }

  // ------------------------------------------------------------------------- strings

  lemma {:induction false} HexDigits(d: int)
    requires 0 <= d < 16
    ensures HexValue(Digit(d)) == d
  {
  }

  lemma {:induction false} ReadsPlain(c: char, r: string)
    requires c != '\"' && c != '\\'
    ensures ReadString([c] + r) == Prepend(c, ReadString(r))
  {
    assert ([c] + r)[1..] == r;
  }

  lemma {:induction false} ReadsShort(c: char, e: char, r: string)
    requires Unescaped(e) == c as int
    ensures ReadString(['\\', e] + r) == Prepend(c, ReadString(r))
  {
    assert (['\\', e] + r)[2..] == r;
  }

  lemma {:induction false} ReadsHex(c: char, r: string)
    requires c < 32 as char
    ensures ReadString("\\u00" + [Digit(c as int / 16), Digit(c as int % 16)] + r) == Prepend(c, ReadString(r))
  {
    var text := "\\u00" + [Digit(c as int / 16), Digit(c as int % 16)] + r;
    HexDigits(c as int / 16);
    HexDigits(c as int % 16);
    assert text[6..] == r;
  }

  lemma {:induction false} ReadsEscape(c: char, r: string)
    ensures ReadString(Escape(c) + r) == Prepend(c, ReadString(r))
  {
    if |Escape(c)| == 1 {
      ReadsPlain(c, r);
    } else if |Escape(c)| == 2 {
      assert Escape(c) == ['\\', Escape(c)[1]];
      ReadsShort(c, Escape(c)[1], r);
    } else {
      ReadsHex(c, r);
    }
  }

  lemma {:induction false} ReadsEscaped(s: string, r: string)
    ensures ReadString(EscapeAll(s) + "\"" + r) == Got(s, r)
  {
    if s == [] {
      assert (EscapeAll(s) + "\"" + r)[1..] == r;
    } else {
      EscapeStep(s, r);
      ReadsEscape(s[0], EscapeAll(s[1..]) + "\"" + r);
      ReadsEscaped(s[1..], r);
      assert s == [s[0]] + s[1..];
    }
  }

  lemma {:induction false} QuoteOpens(s: string, r: string)
    ensures Quote(s) + r != [] && (Quote(s) + r)[0] == '\"' && (Quote(s) + r)[1..] == EscapeAll(s) + "\"" + r
  {
  }

  // ------------------------------------------------------------------------- numbers

  lemma {:induction false} ReadsRest(r: string, n: nat)
    requires Ends(r)
    ensures ReadDigits(r, n) == Got(n, r)
  {
  }

  lemma {:induction false} DigitAppends(s: string, c: char, n: nat, r: string)
    requires Ends(r) && IsDigit(c) && forall i :: 0 <= i < |s| ==> IsDigit(s[i])
    ensures ReadDigits(s + [c] + r, n) == Got(10 * ReadDigits(s, n).value + (c as int - '0' as int), r)
    ensures ReadDigits(s, n).rest == []
    decreases |s|
  {
    if s == [] {
      assert s + [c] + r == [c] + r && ([c] + r)[1..] == r;
      ReadsRest(r, 10 * n + (c as int - '0' as int));
    } else {
      assert (s + [c] + r)[1..] == s[1..] + [c] + r;
      DigitAppends(s[1..], c, 10 * n + (s[0] as int - '0' as int), r);
    }
  }

  /** A text of digits reads as this number, from its first digit on. */
  ghost predicate ReadsAs(text: string, n: nat, r: string) {
    && text != [] && IsDigit(text[0])
    && ReadDigits(text[1..] + r, text[0] as int - '0' as int) == Got(n, r)
  }

  lemma {:induction false} OneMoreDigit(front: string, d: int, n: nat, r: string)
    requires 0 <= d < 10 && ReadsAs(front, n, []) && Ends(r) && forall i :: 0 <= i < |front| ==> IsDigit(front[i])
    ensures ReadsAs(front + [Digit(d)], 10 * n + d, r)
  {
    var c := Digit(d);
    assert front[1..] + [] == front[1..];
    TailOf(front, c, r);
    DigitAppends(front[1..], c, front[0] as int - '0' as int, r);
  }

  lemma {:induction false} TailOf(front: string, c: char, r: string)
    requires front != []
    ensures (front + [c])[1..] + r == front[1..] + [c] + r && (front + [c])[0] == front[0]
  {
  }

  lemma {:induction false} OneDigit(d: int, r: string)
    requires 0 <= d < 10 && Ends(r)
    ensures ReadsAs([Digit(d)], d, r)
  {
    assert [Digit(d)][1..] + r == r;
    ReadsRest(r, d);
  }

  lemma {:induction false} ReadsDecimal(n: nat, r: string)
    requires Ends(r)
    ensures ReadsAs(Decimal(n), n, r)
  {
    if n < 10 {
      OneDigit(n, r);
    } else {
      ReadsDecimal(n / 10, []);
      ReadsLonger(n / 10, n % 10, r);
      DecimalGrows(n);
    }
  }

  lemma {:induction false} ReadsLonger(q: nat, d: int, r: string)
    requires 0 <= d < 10 && Ends(r) && ReadsAs(Decimal(q), q, [])
    ensures ReadsAs(Decimal(q) + [Digit(d)], 10 * q + d, r)
  {
    DecimalDigits(q);
    OneMoreDigit(Decimal(q), d, q, r);
  }

  lemma {:induction false} DecimalGrows(n: nat)
    requires n >= 10
    ensures Decimal(n) == Decimal(n / 10) + [Digit(n % 10)] && n == 10 * (n / 10) + n % 10
  {
  }

  lemma {:induction false} ReadsNatural(text: string, n: nat, r: string)
    requires ReadsAs(text, n, r)
    ensures ReadValue(text + r) == Got(Int(n), r)
  {
    assert (text + r)[1..] == text[1..] + r;
  }

  lemma {:induction false} ReadsNegative(text: string, n: int, r: string)
    requires n >= 0 && ReadsAs(text, n, r)
    ensures ReadValue("-" + text + r) == Got(Int(-n), r)
  {
    var all := "-" + text + r;
    assert all[1] == text[0] && all[2..] == text[1..] + r;
  }

  // -------------------------------------------------------------------------- values

  /** One item, and then whatever its separator calls for. */
  lemma {:induction false} ReadsItem(text: string, v: Json, more: string)
    requires ReadValue(text + more) == Got(v, more) && more != [] && (more[0] == ']' || more[0] == ',')
    ensures ReadItems(text + more) ==
            if more[0] == ']' then Got([v], more[1..])
            else match ReadItems(more[1..]) case Got(vs, left) => Got([v] + vs, left) case Bad => Bad
  {
  }

  lemma {:induction false} SuffixStep<T>(xs: seq<T>, i: nat)
    requires i < |xs|
    ensures xs[i..] == [xs[i]] + xs[i + 1..] && (i + 1 == |xs| ==> xs[i..] == [xs[i]])
  {
  }

  lemma {:induction false} LastPiece(pieces: seq<string>, close: char, r: string)
    ensures (Rest(pieces, |pieces|, close) + r)[1..] == r
  {
  }

  lemma {:induction false} ReadsItems(v: Json, i: nat, r: string)
    requires v.Arr? && Clean(v) && i < |v.items|
    ensures ReadItems(Print(v.items[i]) + (Rest(ItemTexts(v.items), i + 1, ']') + r)) == Got(v.items[i..], r)
    decreases v, 0, |v.items| - i
  {
    var texts := ItemTexts(v.items);
    var more := Rest(texts, i + 1, ']') + r;
    MoreEnds(texts, i + 1, ']', r);
    ReadsValue(v.items[i], more);
    ReadsItem(Print(v.items[i]), v.items[i], more);
    SuffixStep(v.items, i);
    if i + 1 == |v.items| {
      LastPiece(texts, ']', r);
    } else {
      NextPiece(texts, i + 1, ']', r);
      ReadsItems(v, i + 1, r);
    }
  }

  /** After a piece comes its bracket, or a comma and the next. */
  lemma {:induction false} MoreEnds(pieces: seq<string>, i: nat, close: char, r: string)
    requires 0 < i <= |pieces| && (close == ']' || close == '}')
    ensures Ends(Rest(pieces, i, close) + r)
    ensures (Rest(pieces, i, close) + r)[0] == if i == |pieces| then close else ','
  {
    if i < |pieces| { assert Rest(pieces, i, close)[0] == ','; }
  }

  lemma {:induction false} NextPiece(pieces: seq<string>, i: nat, close: char, r: string)
    requires 0 < i < |pieces|
    ensures (Rest(pieces, i, close) + r)[1..] == pieces[i] + (Rest(pieces, i + 1, close) + r)
  {
    assert Rest(pieces, i, close) == "," + pieces[i] + Rest(pieces, i + 1, close);
  }

  /** One entry, and then whatever its separator calls for. */
  lemma {:induction false} ReadsEntry(key: string, text: string, v: Json, more: string)
    requires ReadValue(text + more) == Got(v, more) && more != [] && (more[0] == '}' || more[0] == ',')
    ensures ReadEntries(Quote(key) + ":" + text + more) ==
            if more[0] == '}' then Got([(key, v)], more[1..])
            else match ReadEntries(more[1..]) case Got(es, left) => Got([(key, v)] + es, left) case Bad => Bad
  {
    EntryOpens(key, text, more);
    ReadsEscaped(key, ":" + (text + more));
    assert (":" + (text + more))[1..] == text + more;
  }

  lemma {:induction false} ReadsEntries(v: Json, i: nat, r: string)
    requires v.Obj? && Clean(v) && i < |v.entries|
    ensures ReadEntries(Pairs(TextsOf(v.entries))[i] + (Rest(Pairs(TextsOf(v.entries)), i + 1, '}') + r)) ==
            Got(v.entries[i..], r)
    decreases v, 0, |v.entries| - i
  {
    var texts := Pairs(TextsOf(v.entries));
    var more := Rest(texts, i + 1, '}') + r;
    var e := v.entries[i];
    MoreEnds(texts, i + 1, '}', r);
    assert texts[i] == Quote(e.0) + ":" + Print(e.1);
    ReadsValue(e.1, more);
    ReadsEntry(e.0, Print(e.1), e.1, more);
    SuffixStep(v.entries, i);
    if i + 1 == |v.entries| {
      LastPiece(texts, '}', r);
    } else {
      NextPiece(texts, i + 1, '}', r);
      ReadsEntries(v, i + 1, r);
    }
  }

  lemma {:induction false} EntryOpens(key: string, text: string, more: string)
    ensures var all := Quote(key) + ":" + text + more;
            all != [] && all[0] == '\"' && all[1..] == EscapeAll(key) + "\"" + (":" + (text + more))
  {
    AfterKey(Quote(key), text, more);
    QuoteOpens(key, ":" + (text + more));
  }

  /** Whatever punctuation follows, a value's text reads back as the value, and the rest is left. */
  lemma {:induction false} ReadsValue(v: Json, r: string)
    requires Clean(v) && Ends(r)
    ensures ReadValue(Print(v) + r) == Got(v, r)
    decreases v, 1
  {
    match v
    case Int(n) => ReadsInt(n, r);
    case Text(s) => ReadsText(s, r);
    case Arr(items) => ReadsArray(v, r);
    case Obj(entries) => ReadsObject(v, r);
    case Null => ReadsWord(v, r);
    case Bool(_) => ReadsWord(v, r);
    case Undefined =>
  }

  lemma {:induction false} ReadsWord(v: Json, r: string)
    requires v.Null? || v.Bool?
    ensures ReadValue(Print(v) + r) == Got(v, r)
  {
    assert (Print(v) + r)[|Print(v)|..] == r;
  }

  lemma {:induction false} ReadsInt(n: int, r: string)
    requires Ends(r)
    ensures ReadValue(Number(n) + r) == Got(Int(n), r)
  {
    if n < 0 {
      ReadsDecimal(-n, r);
      ReadsNegative(Decimal(-n), -n, r);
    } else {
      ReadsDecimal(n, r);
      ReadsNatural(Decimal(n), n, r);
    }
  }

  lemma {:induction false} ReadsText(s: string, r: string)
    ensures ReadValue(Quote(s) + r) == Got(Text(s), r)
  {
    QuoteOpens(s, r);
    ReadsEscaped(s, r);
  }

  /** How a bracket or a brace begins: with its closing one, or with something else. */
  lemma {:induction false} OpensList(s: string)
    requires |s| >= 2
    ensures s[0] == '[' && s[1] == ']' ==> ReadValue(s) == Got(Arr([]), s[2..])
    ensures s[0] == '[' && s[1] != ']' ==>
              ReadValue(s) == match ReadItems(s[1..]) case Got(items, rest) => Got(Arr(items), rest) case Bad => Bad
    ensures s[0] == '{' && s[1] == '}' ==> ReadValue(s) == Got(Obj([]), s[2..])
    ensures s[0] == '{' && s[1] != '}' ==>
              ReadValue(s) == match ReadEntries(s[1..]) case Got(es, rest) => Got(Obj(es), rest) case Bad => Bad
  {
  }

  lemma {:induction false} FirstPiece(pieces: seq<string>, close: char, r: string)
    requires pieces != []
    ensures Rest(pieces, 0, close) + r == pieces[0] + (Rest(pieces, 1, close) + r)
  {
    assert Rest(pieces, 0, close) == "" + pieces[0] + Rest(pieces, 1, close);
  }

  /** A list's text after its opening, whether or not anything is in it. */
  lemma {:induction false} ListOpens(text: string, open: char, pieces: seq<string>, close: char, r: string)
    requires text == [open] + Rest(pieces, 0, close) && (pieces != [] ==> pieces[0] != [])
    ensures var all := text + r;
            && |all| >= 2 && all[0] == open
            && (pieces == [] ==> all[1] == close && all[2..] == r)
            && (pieces != [] ==>
                  all[1] == pieces[0][0] && all[1..] == pieces[0] + (Rest(pieces, 1, close) + r))
  {
    AfterOpening(text, open, Rest(pieces, 0, close), r);
    var all := text + r;
    if pieces == [] {
      assert all == [open, close] + r;
    } else {
      FirstPiece(pieces, close, r);
      assert all[1] == all[1..][0];
    }
  }

  lemma {:induction false} ReadsArray(v: Json, r: string)
    requires v.Arr? && Clean(v) && Ends(r)
    ensures ReadValue(Print(v) + r) == Got(v, r)
    decreases v, 0
  {
    PrintsArray(v);
    if v.items != [] {
      PrintStarts(v.items[0]);
      ReadsItems(v, 0, r);
      assert v.items[0..] == v.items;
    }
    ListOpens(Print(v), '[', ItemTexts(v.items), ']', r);
    OpensList(Print(v) + r);
  }

  lemma {:induction false} ReadsObject(v: Json, r: string)
    requires v.Obj? && Clean(v) && Ends(r)
    ensures ReadValue(Print(v) + r) == Got(v, r)
    decreases v, 0
  {
    PrintsObject(v);
    if v.entries != [] {
      assert Pairs(TextsOf(v.entries))[0][0] == '\"';
      ReadsEntries(v, 0, r);
      assert v.entries[0..] == v.entries;
    }
    ListOpens(Print(v), '{', Pairs(TextsOf(v.entries)), '}', r);
    OpensList(Print(v) + r);
  }

  // --------------------------------------------------------------------- the theorem

  /** Every value's text is JSON, and reads back as its canonical form and nothing else. */
  lemma {:induction false} TextReadsBack(v: Json)
    ensures Parse(StableStringify(v)) == Got(Canon(v), [])
  {
    TextIsCanonical(v);
    CanonClean(v);
    assert Print(Canon(v)) + [] == Print(Canon(v));
    ReadsValue(Canon(v), []);
  }

  /** Where two keys first differ, or one ends, the one before has the lesser character or has ended. */
  ghost predicate Precedes(a: string, b: string) {
    exists n: nat :: n <= |a| && n < |b| && a[..n] == b[..n] && (n < |a| ==> a[n] < b[n])
  }

  lemma {:induction false} LessPrecedes(a: string, b: string)
    requires Less(a, b)
    ensures Precedes(a, b)
  {
    if a == [] || a[0] != b[0] {
      assert a[..0] == b[..0];
    } else {
      LessPrecedes(a[1..], b[1..]);
      var n: nat :| n <= |a[1..]| && n < |b[1..]| && a[1..][..n] == b[1..][..n]
        && (n < |a[1..]| ==> a[1..][n] < b[1..][n]);
      assert a[..n + 1] == [a[0]] + a[1..][..n] && b[..n + 1] == [b[0]] + b[1..][..n];
    }
  }

  /** An object reads back with its keys in order and exactly its defined entries, each in canonical form. */
  lemma {:induction false} ObjectReadsBack(v: Json)
    requires v.Obj? && DistinctKeys(v.entries)
    ensures var r := Parse(StableStringify(v));
            && r.Got? && r.value.Obj?
            && (forall i, j :: 0 <= i < j < |r.value.entries| ==> Precedes(r.value.entries[i].0, r.value.entries[j].0))
            && (forall x :: x in r.value.entries <==>
                  exists e :: e in v.entries && !e.1.Undefined? && x == (e.0, Canon(e.1)))
  {
    TextReadsBack(v);
    var defined := CanonEntries(v, |v.entries|);
    CanonKeysDistinct(v, |v.entries|);
    SortAscends(defined);
    var es := SortEntries(defined);
    forall i, j | 0 <= i < j < |es| ensures Precedes(es[i].0, es[j].0) { LessPrecedes(es[i].0, es[j].0); }
    assert v.entries[..|v.entries|] == v.entries;
    forall x ensures x in es <==> exists e :: e in v.entries && !e.1.Undefined? && x == (e.0, Canon(e.1)) {
      SortMembers(defined, x);
      CanonEntriesMembers(v, |v.entries|, x);
    }
  }
}
