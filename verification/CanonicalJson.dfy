/**
 Key-ordered JSON, the form every digest is taken over. Two values have the same
 text exactly when they have the same canonical form: keys in order, undefined
 entries gone. Nothing else is lost, except that an undefined array item is
 written like null.
 */
module CanonicalJson {

  datatype Json =
    | Undefined
    | Null
    | Bool(b: bool)
    | Int(n: int)
    | Text(s: string)
    | Arr(items: seq<Json>)
    | Obj(entries: seq<(string, Json)>)

  // ------------------------------------------------------------------ ordering keys

  /** Keys in order of their first differing character. */
  predicate Less(a: string, b: string) {
    if a == [] then b != []
    else if b == [] then false
    else if a[0] != b[0] then a[0] < b[0]
    else Less(a[1..], b[1..])
  }

  lemma {:induction false} LessIsTotal(a: string, b: string)
    ensures a == b || Less(a, b) || Less(b, a)
    ensures !(Less(a, b) && Less(b, a)) && !Less(a, a)
  {
    if a != [] && b != [] {
      if a[0] == b[0] {
        LessIsTotal(a[1..], b[1..]);
        assert a == [a[0]] + a[1..] && b == [b[0]] + b[1..];
      }
    }
    if a != [] { LessIrreflexive(a); }
  }

  lemma {:induction false} LessIrreflexive(a: string)
    ensures !Less(a, a)
  {
    if a != [] { LessIrreflexive(a[1..]); }
  }

  lemma {:induction false} LessIsTransitive(a: string, b: string, c: string)
    requires Less(a, b) && Less(b, c)
    ensures Less(a, c)
  {
    if a != [] && a[0] == b[0] == c[0] { LessIsTransitive(a[1..], b[1..], c[1..]); }
  }

  function Insert<T>(es: seq<(string, T)>, e: (string, T)): seq<(string, T)> {
    if es == [] || !Less(e.0, es[|es| - 1].0) then es + [e]
    else Insert(es[..|es| - 1], e) + [es[|es| - 1]]
  }

  /** A stable sort by key. */
  function SortEntries<T>(es: seq<(string, T)>): seq<(string, T)> {
    if es == [] then [] else Insert(SortEntries(es[..|es| - 1]), es[|es| - 1])
  }

  // -------------------------------------------------------------------- writing values

  function Digit(d: int): char
    requires 0 <= d < 16
  {
    "0123456789abcdef"[d]
  }

  function Decimal(n: nat): string {
    if n < 10 then [Digit(n)] else Decimal(n / 10) + [Digit(n % 10)]
  }

  function Number(n: int): string {
    if n < 0 then "-" + Decimal(-n) else Decimal(n)
  }

  /** One character inside quotes, as in section 7 of RFC 8259. */
  function Escape(c: char): string {
    if c == '\"' then "\\\""
    else if c == '\\' then "\\\\"
    else if c == 8 as char then "\\b"
    else if c == 9 as char then "\\t"
    else if c == 10 as char then "\\n"
    else if c == 12 as char then "\\f"
    else if c == 13 as char then "\\r"
    else if c < 32 as char then "\\u00" + [Digit(c as int / 16), Digit(c as int % 16)]
    else [c]
  }

  function EscapeAll(s: string): string {
    if s == [] then [] else Escape(s[0]) + EscapeAll(s[1..])
  }

  function Quote(s: string): string {
    "\"" + EscapeAll(s) + "\""
  }

  function Commas(xs: seq<string>): string {
    if xs == [] then [] else if |xs| == 1 then xs[0] else xs[0] + "," + Commas(xs[1..])
  }

  function Pairs(es: seq<(string, string)>): seq<string> {
    seq(|es|, i requires 0 <= i < |es| => Quote(es[i].0) + ":" + es[i].1)
  }

  /** The stringifier: keys sorted, undefined entries dropped, an undefined item written as null. */
  function StableStringify(v: Json): string
    decreases v, 1
  {
    match v
    case Undefined => "null"
    case Null => "null"
    case Bool(b) => if b then "true" else "false"
    case Int(n) => Number(n)
    case Text(s) => Quote(s)
    case Arr(items) => "[" + Commas(seq(|items|, i requires 0 <= i < |items| => StableStringify(items[i]))) + "]"
    case Obj(entries) => "{" + Commas(Pairs(SortEntries(EntryTexts(v, |entries|)))) + "}"
  }

  /** The first `n` entries that are defined, each with its text. */
  function EntryTexts(v: Json, n: nat): seq<(string, string)>
    requires v.Obj? && n <= |v.entries|
    decreases v, 0, n
  {
    if n == 0 then []
    else
      var e := v.entries[n - 1];
      EntryTexts(v, n - 1) + if e.1.Undefined? then [] else [(e.0, StableStringify(e.1))]
  }

  // -------------------------------------------------------------------- canonical form

  /** What the text says: keys in order, undefined entries gone, undefined items null. */
  function Canon(v: Json): Json
    decreases v, 1
  {
    match v
    case Undefined => Null
    case Arr(items) => Arr(seq(|items|, i requires 0 <= i < |items| => Canon(items[i])))
    case Obj(entries) => Obj(SortEntries(CanonEntries(v, |entries|)))
    case _ => v
  }

  function CanonEntries(v: Json, n: nat): seq<(string, Json)>
    requires v.Obj? && n <= |v.entries|
    decreases v, 0, n
  {
    if n == 0 then []
    else
      var e := v.entries[n - 1];
      CanonEntries(v, n - 1) + if e.1.Undefined? then [] else [(e.0, Canon(e.1))]
  }

  /** The text of a value taken as it stands, nothing sorted and nothing dropped. */
  function Print(v: Json): string
    decreases v, 1
  {
    match v
    case Undefined => "null"
    case Null => "null"
    case Bool(b) => if b then "true" else "false"
    case Int(n) => Number(n)
    case Text(s) => Quote(s)
    case Arr(items) => "[" + Commas(seq(|items|, i requires 0 <= i < |items| => Print(items[i]))) + "]"
    case Obj(entries) => "{" + Commas(Pairs(PrintEntries(v, |entries|))) + "}"
  }

  function PrintEntries(v: Json, n: nat): seq<(string, string)>
    requires v.Obj? && n <= |v.entries|
    decreases v, 0, n
  {
    if n == 0 then [] else PrintEntries(v, n - 1) + [(v.entries[n - 1].0, Print(v.entries[n - 1].1))]
  }

  // ----------------------------------------------------- the text is the canonical form's

  function TextsOf(es: seq<(string, Json)>): seq<(string, string)> {
    seq(|es|, i requires 0 <= i < |es| => (es[i].0, Print(es[i].1)))
  }

  lemma {:induction false} InsertTexts(es: seq<(string, Json)>, e: (string, Json))
    ensures TextsOf(Insert(es, e)) == Insert(TextsOf(es), (e.0, Print(e.1)))
  {
    var n := |es| - 1;
    if es != [] && Less(e.0, es[n].0) {
      InsertTexts(es[..n], e);
      assert TextsOf(es)[..n] == TextsOf(es[..n]);
    }
  }

  lemma {:induction false} SortTexts(es: seq<(string, Json)>)
    ensures TextsOf(SortEntries(es)) == SortEntries(TextsOf(es))
  {
    if es != [] {
      var n := |es| - 1;
      SortTexts(es[..n]);
      InsertTexts(SortEntries(es[..n]), es[n]);
      assert TextsOf(es)[..n] == TextsOf(es[..n]);
    }
  }

  lemma {:induction false} PrintEntriesAre(v: Json, n: nat)
    requires v.Obj? && n <= |v.entries|
    ensures PrintEntries(v, n) == TextsOf(v.entries[..n])
  {
    if n > 0 {
      PrintEntriesAre(v, n - 1);
      assert v.entries[..n] == v.entries[..n - 1] + [v.entries[n - 1]];
    }
  }

  lemma {:induction false} EntryTextsAre(v: Json, n: nat)
    requires v.Obj? && n <= |v.entries|
    ensures EntryTexts(v, n) == TextsOf(CanonEntries(v, n))
    decreases v, 0, n
  {
    if n > 0 {
      EntryTextsAre(v, n - 1);
      TextIsCanonical(v.entries[n - 1].1);
    }
  }

  /** Stringifying is printing the canonical form. */
  lemma {:induction false} TextIsCanonical(v: Json)
    ensures StableStringify(v) == Print(Canon(v))
    decreases v, 1
  {
    match v
    case Arr(items) =>
      var w := Canon(v);
      forall i | 0 <= i < |items| ensures StableStringify(items[i]) == Print(w.items[i]) { TextIsCanonical(items[i]); }
      assert seq(|items|, i requires 0 <= i < |items| => StableStringify(items[i])) ==
             seq(|w.items|, i requires 0 <= i < |w.items| => Print(w.items[i]));
    case Obj(entries) =>
      var w := Canon(v);
      EntryTextsAre(v, |entries|);
      SortTexts(CanonEntries(v, |entries|));
      PrintEntriesAre(w, |w.entries|);
      assert w.entries[..|w.entries|] == w.entries;
    case _ =>
  }

  // ------------------------------------------------------------------ reading text back

  predicate IsDigit(c: char) {
    '0' <= c <= '9'
  }

  /** What may follow a value: nothing, or punctuation. */
  predicate Ends(rest: string) {
    rest == [] || rest[0] == ',' || rest[0] == ']' || rest[0] == '}'
  }

  lemma {:induction false} DecimalDigits(n: nat)
    ensures Decimal(n) != [] && forall i :: 0 <= i < |Decimal(n)| ==> IsDigit(Decimal(n)[i])
  {
    if n >= 10 { DecimalDigits(n / 10); }
  }

  lemma {:induction false} DecimalParts(n: nat)
    ensures n < 10 ==> |Decimal(n)| == 1
    ensures n >= 10 ==> |Decimal(n)| == |Decimal(n / 10)| + 1 > 1 && Decimal(n)[..|Decimal(n)| - 1] == Decimal(n / 10)
    ensures Decimal(n) != [] && Decimal(n)[|Decimal(n)| - 1] == Digit(n % 10)
  {
    DecimalDigits(n / 10);
  }

  lemma {:induction false} DecimalInjective(m: nat, n: nat)
    requires Decimal(m) == Decimal(n)
    ensures m == n
  {
    DecimalParts(m);
    DecimalParts(n);
    DigitInjective(m % 10, n % 10);
    if m >= 10 { DecimalInjective(m / 10, n / 10); }
  }

  lemma {:induction false} SamePrefix(a: string, r: string, b: string, q: string)
    requires a + r == b + q && |a| == |b|
    ensures a == b && r == q
  {
    assert (a + r)[..|a|] == a && (b + q)[..|b|] == b;
    assert (a + r)[|a|..] == r && (b + q)[|b|..] == q;
  }

  /** How many digits a text starts with. */
  function DigitRun(s: string): nat {
    if s == [] || !IsDigit(s[0]) then 0 else 1 + DigitRun(s[1..])
  }

  lemma {:induction false} RunLength(digits: string, rest: string)
    requires Ends(rest) && forall i :: 0 <= i < |digits| ==> IsDigit(digits[i])
    ensures DigitRun(digits + rest) == |digits|
  {
    if digits == [] {
      assert digits + rest == rest;
    } else {
      assert (digits + rest)[1..] == digits[1..] + rest;
      RunLength(digits[1..], rest);
    }
  }

  lemma {:induction false} DecimalReads(m: nat, r: string, n: nat, q: string)
    requires Decimal(m) + r == Decimal(n) + q && Ends(r) && Ends(q)
    ensures m == n && r == q
  {
    DecimalDigits(m);
    DecimalDigits(n);
    RunLength(Decimal(m), r);
    RunLength(Decimal(n), q);
    SamePrefix(Decimal(m), r, Decimal(n), q);
    DecimalInjective(m, n);
  }

  lemma {:induction false} NumberReads(m: int, r: string, n: int, q: string)
    requires Number(m) + r == Number(n) + q && Ends(r) && Ends(q)
    ensures m == n && r == q
  {
    SameSign(m, r, n, q);
    if m < 0 { NegativeReads(m, r, n, q); } else { DecimalReads(m, r, n, q); }
  }

  lemma {:induction false} SameSign(m: int, r: string, n: int, q: string)
    requires Number(m) + r == Number(n) + q
    ensures m < 0 <==> n < 0
  {
    SignShows(m, r);
    SignShows(n, q);
  }

  lemma {:induction false} NegativeReads(m: int, r: string, n: int, q: string)
    requires m < 0 && n < 0 && Number(m) + r == Number(n) + q && Ends(r) && Ends(q)
    ensures m == n && r == q
  {
    AfterMinus(m, r);
    AfterMinus(n, q);
    MinusReads(-m, r, -n, q);
  }

  lemma {:induction false} MinusReads(m: nat, r: string, n: nat, q: string)
    requires "-" + (Decimal(m) + r) == "-" + (Decimal(n) + q) && Ends(r) && Ends(q)
    ensures m == n && r == q
  {
    SamePrefix("-", Decimal(m) + r, "-", Decimal(n) + q);
    DecimalReads(m, r, n, q);
  }

  lemma {:induction false} AfterMinus(n: int, r: string)
    requires n < 0
    ensures Number(n) + r == "-" + (Decimal(-n) + r)
  {
  }

  lemma {:induction false} SignShows(n: int, r: string)
    ensures Number(n) + r != [] && ((Number(n) + r)[0] == '-' <==> n < 0)
  {
    NumberStarts(n);
  }

  lemma {:induction false} NumberStarts(n: int)
    ensures Number(n) != [] && (n < 0 ==> Number(n)[0] == '-') && (n >= 0 ==> IsDigit(Number(n)[0]))
  {
    if n >= 0 { DecimalDigits(n); }
  }

  // --------------------------------------------------------------------------- strings

  lemma {:induction false} DigitInjective(a: int, b: int)
    requires 0 <= a < 16 && 0 <= b < 16 && Digit(a) == Digit(b)
    ensures a == b
  {
  }

  /** Escapes form a prefix code, and none begins with the closing quote. */
  lemma {:induction false} EscapeReads(c: char, r: string, d: char, q: string)
    requires Escape(c) + r == Escape(d) + q
    ensures c == d && r == q
  {
    var x, y := Escape(c) + r, Escape(d) + q;
    assert x[0] == Escape(c)[0] && y[0] == Escape(d)[0];
    if |Escape(c)| > 1 && |Escape(d)| > 1 {
      assert x[1] == Escape(c)[1] && y[1] == Escape(d)[1];
      if |Escape(c)| == 6 && |Escape(d)| == 6 {
        assert x[4] == Escape(c)[4] && y[4] == Escape(d)[4] && x[5] == Escape(c)[5] && y[5] == Escape(d)[5];
        DigitInjective(c as int / 16, d as int / 16);
        DigitInjective(c as int % 16, d as int % 16);
      }
    }
    assert |Escape(c)| == |Escape(d)|;
    SamePrefix(Escape(c), r, Escape(d), q);
  }

  lemma {:induction false} EscapeStarts(c: char)
    ensures Escape(c) != [] && Escape(c)[0] != '\"'
  {
  }

  lemma {:induction false} EscapeStep(s: string, r: string)
    requires s != []
    ensures EscapeAll(s) + "\"" + r == Escape(s[0]) + (EscapeAll(s[1..]) + "\"" + r)
  {
    assert EscapeAll(s) == Escape(s[0]) + EscapeAll(s[1..]);
  }

  lemma {:induction false} EscapedReads(s: string, r: string, t: string, q: string)
    requires EscapeAll(s) + "\"" + r == EscapeAll(t) + "\"" + q
    ensures s == t && r == q
  {
    var x, y := EscapeAll(s) + "\"" + r, EscapeAll(t) + "\"" + q;
    if s != [] { EscapeStarts(s[0]); assert x[0] == Escape(s[0])[0]; }
    if t != [] { EscapeStarts(t[0]); assert y[0] == Escape(t[0])[0]; }
    assert s == [] <==> t == [];
    if s == [] {
      assert x[1..] == r && y[1..] == q;
    } else {
      EscapeStep(s, r);
      EscapeStep(t, q);
      EscapeReads(s[0], EscapeAll(s[1..]) + "\"" + r, t[0], EscapeAll(t[1..]) + "\"" + q);
      EscapedReads(s[1..], r, t[1..], q);
      assert s == [s[0]] + s[1..] && t == [t[0]] + t[1..];
    }
  }

  lemma {:induction false} QuoteReads(s: string, r: string, t: string, q: string)
    requires Quote(s) + r == Quote(t) + q
    ensures s == t && r == q
  {
    assert (Quote(s) + r)[1..] == EscapeAll(s) + "\"" + r && (Quote(t) + q)[1..] == EscapeAll(t) + "\"" + q;
    EscapedReads(s, r, t, q);
  }

  // -------------------------------------------------------------- lists, objects, values

  /** The rest of a comma-separated list from its `i`th piece, closing bracket included. */
  function Rest(pieces: seq<string>, i: nat, close: char): string
    requires i <= |pieces|
    decreases |pieces| - i
  {
    if i == |pieces| then [close]
    else (if i == 0 then "" else ",") + pieces[i] + Rest(pieces, i + 1, close)
  }

  lemma {:induction false} CommasFrom(pieces: seq<string>, i: nat, close: char)
    requires 0 < i <= |pieces|
    ensures Rest(pieces, i, close) == (if i == |pieces| then [close] else "," + Commas(pieces[i..]) + [close])
    decreases |pieces| - i
  {
    if i < |pieces| {
      CommasFrom(pieces, i + 1, close);
      assert pieces[i..][1..] == pieces[i + 1..] && pieces[i..][0] == pieces[i];
    }
  }

  lemma {:induction false} CommasAreRest(pieces: seq<string>, close: char)
    ensures Commas(pieces) + [close] == Rest(pieces, 0, close)
  {
    if pieces != [] {
      CommasFrom(pieces, 1, close);
      assert "" + pieces[0] == pieces[0];
    }
  }

  function ItemTexts(items: seq<Json>): seq<string> {
    seq(|items|, i requires 0 <= i < |items| => Print(items[i]))
  }

  lemma {:induction false} PrintsArray(v: Json)
    requires v.Arr?
    ensures Print(v) == "[" + Rest(ItemTexts(v.items), 0, ']')
  {
    CommasAreRest(ItemTexts(v.items), ']');
    assert ItemTexts(v.items) == seq(|v.items|, i requires 0 <= i < |v.items| => Print(v.items[i]));
    assert Print(v) == "[" + (Commas(ItemTexts(v.items)) + "]");
  }

  lemma {:induction false} PrintsObject(v: Json)
    requires v.Obj?
    ensures Print(v) == "{" + Rest(Pairs(TextsOf(v.entries)), 0, '}')
  {
    PrintEntriesAre(v, |v.entries|);
    assert v.entries[..|v.entries|] == v.entries;
    CommasAreRest(Pairs(TextsOf(v.entries)), '}');
    assert Print(v) == "{" + (Commas(Pairs(TextsOf(v.entries))) + "}");
  }

  /** No undefined anywhere. */
  predicate Clean(v: Json) {
    match v
    case Undefined => false
    case Arr(items) => forall i :: 0 <= i < |items| ==> Clean(items[i])
    case Obj(entries) => forall i :: 0 <= i < |entries| ==> Clean(entries[i].1)
    case _ => true
  }

  /** The first character tells what kind of value follows. */
  function Opening(v: Json): char {
    match v
    case Undefined => 'n'
    case Null => 'n'
    case Bool(b) => if b then 't' else 'f'
    case Int(n) => if n < 0 then '-' else '0'
    case Text(_) => '\"'
    case Arr(_) => '['
    case Obj(_) => '{'
  }

  lemma {:induction false} PrintStarts(v: Json)
    ensures Print(v) != []
    ensures Print(v)[0] == Opening(v) || (v.Int? && v.n >= 0 && IsDigit(Print(v)[0]))
  {
    if v.Int? { NumberStarts(v.n); }
  }

  /** What comes first in the rest of a list: its bracket, a comma, or its first piece. */
  lemma {:induction false} RestStarts(pieces: seq<string>, i: nat, close: char, r: string)
    requires i <= |pieces| && (i < |pieces| ==> pieces[i] != [])
    ensures var text := Rest(pieces, i, close) + r;
            text != [] && text[0] == if i == |pieces| then close else if i > 0 then ',' else pieces[i][0]
  {
  }

  lemma {:induction false} RestSteps(pieces: seq<string>, i: nat, close: char, r: string)
    returns (piece: string, more: string)
    requires i < |pieces| && (close == ']' || close == '}')
    ensures piece == pieces[i] && more == Rest(pieces, i + 1, close) + r
    ensures Rest(pieces, i, close) + r == (if i == 0 then "" else ",") + (piece + more)
    ensures i + 1 == |pieces| || pieces[i + 1] != [] ==> Ends(more)
  {
    piece, more := pieces[i], Rest(pieces, i + 1, close) + r;
    if i + 1 < |pieces| { assert Rest(pieces, i + 1, close)[0] == ','; }
  }

  lemma {:induction false} AfterSeparator(i: nat, a: string, b: string)
    requires (if i == 0 then "" else ",") + a == (if i == 0 then "" else ",") + b
    ensures a == b
  {
    var sep := if i == 0 then "" else ",";
    assert (sep + a)[|sep|..] == a && (sep + b)[|sep|..] == b;
  }

  lemma {:induction false} ItemsRead(v: Json, w: Json, i: nat, r: string, q: string)
    requires v.Arr? && w.Arr? && Clean(v) && Clean(w) && i <= |v.items| && i <= |w.items|
    requires Rest(ItemTexts(v.items), i, ']') + r == Rest(ItemTexts(w.items), i, ']') + q
    ensures v.items[i..] == w.items[i..] && r == q
    decreases v, 0, |v.items| - i
  {
    var xs, ys := ItemTexts(v.items), ItemTexts(w.items);
    ItemsStart(v.items, i, r);
    ItemsStart(w.items, i, q);
    assert i == |xs| <==> i == |ys|;
    if i == |xs| {
      SamePrefix("]", r, "]", q);
    } else {
      var x, moreX := RestSteps(xs, i, ']', r);
      var y, moreY := RestSteps(ys, i, ']', q);
      AfterSeparator(i, x + moreX, y + moreY);
      ValueReads(v.items[i], moreX, w.items[i], moreY);
      ItemsRead(v, w, i + 1, r, q);
      assert v.items[i..] == [v.items[i]] + v.items[i + 1..] && w.items[i..] == [w.items[i]] + w.items[i + 1..];
    }
  }

  /** What the rest of an array's text starts with, and how its next item reads. */
  lemma {:induction false} ItemsStart(items: seq<Json>, i: nat, r: string)
    requires i <= |items|
    ensures var pieces := ItemTexts(items);
            var text := Rest(pieces, i, ']') + r;
            && |pieces| == |items| && text != [] && (text[0] == ']' <==> i == |items|)
            && (i < |items| ==> pieces[i] == Print(items[i]))
            && (i + 1 < |items| ==> pieces[i + 1] != [])
  {
    if i < |items| { PrintStarts(items[i]); }
    if i + 1 < |items| { PrintStarts(items[i + 1]); }
    RestStarts(ItemTexts(items), i, ']', r);
  }

  /** One entry: its quoted key fixes the key, and what follows the colon is the value. */
  lemma {:induction false} EntryReads(v: Json, e: (string, Json), r: string, f: (string, Json), q: string)
    requires v.Obj? && e in v.entries && Clean(e.1) && Clean(f.1) && Ends(r) && Ends(q)
    requires Quote(e.0) + ":" + Print(e.1) + r == Quote(f.0) + ":" + Print(f.1) + q
    ensures e == f && r == q
    decreases v, 0, 0
  {
    AfterKey(Quote(e.0), Print(e.1), r);
    AfterKey(Quote(f.0), Print(f.1), q);
    QuoteReads(e.0, ":" + (Print(e.1) + r), f.0, ":" + (Print(f.1) + q));
    SamePrefix(":", Print(e.1) + r, ":", Print(f.1) + q);
    ValueReads(e.1, r, f.1, q);
  }

  lemma {:induction false} AfterKey(key: string, text: string, r: string)
    ensures key + ":" + text + r == key + (":" + (text + r))
  {
  }

  lemma {:induction false} SameFrom<T>(xs: seq<T>, ys: seq<T>, i: nat)
    requires i < |xs| && i < |ys| && xs[i] == ys[i] && xs[i + 1..] == ys[i + 1..]
    ensures xs[i..] == ys[i..]
  {
    assert xs[i..] == [xs[i]] + xs[i + 1..] && ys[i..] == [ys[i]] + ys[i + 1..];
  }

  lemma {:induction false} EntriesRead(v: Json, w: Json, i: nat, r: string, q: string)
    requires v.Obj? && w.Obj? && Clean(v) && Clean(w) && i <= |v.entries| && i <= |w.entries|
    requires Rest(Pairs(TextsOf(v.entries)), i, '}') + r == Rest(Pairs(TextsOf(w.entries)), i, '}') + q
    ensures v.entries[i..] == w.entries[i..] && r == q
    decreases v, 1, |v.entries| - i
  {
    var xs, ys := Pairs(TextsOf(v.entries)), Pairs(TextsOf(w.entries));
    EntriesStart(v.entries, i, r);
    EntriesStart(w.entries, i, q);
    assert i == |xs| <==> i == |ys|;
    if i == |xs| {
      SamePrefix("}", r, "}", q);
    } else {
      var moreX, moreY := NextEntries(v.entries, w.entries, i, r, q);
      EntryReads(v, v.entries[i], moreX, w.entries[i], moreY);
      EntriesRead(v, w, i + 1, r, q);
      SameFrom(v.entries, w.entries, i);
    }
  }

  /** What is left of two objects' equal texts, their next entries still in front. */
  lemma {:induction false} NextEntries(
    es: seq<(string, Json)>, fs: seq<(string, Json)>, i: nat, r: string, q: string)
    returns (moreX: string, moreY: string)
    requires i < |es| && i < |fs|
    requires Rest(Pairs(TextsOf(es)), i, '}') + r == Rest(Pairs(TextsOf(fs)), i, '}') + q
    ensures moreX == Rest(Pairs(TextsOf(es)), i + 1, '}') + r && moreY == Rest(Pairs(TextsOf(fs)), i + 1, '}') + q
    ensures Ends(moreX) && Ends(moreY)
    ensures Quote(es[i].0) + ":" + Print(es[i].1) + moreX == Quote(fs[i].0) + ":" + Print(fs[i].1) + moreY
  {
    EntriesStart(es, i, r);
    EntriesStart(fs, i, q);
    var x, y;
    x, moreX := RestSteps(Pairs(TextsOf(es)), i, '}', r);
    y, moreY := RestSteps(Pairs(TextsOf(fs)), i, '}', q);
    AfterSeparator(i, x + moreX, y + moreY);
  }

  /** What the rest of an object's text starts with, and how its next entry reads. */
  lemma {:induction false} EntriesStart(entries: seq<(string, Json)>, i: nat, r: string)
    requires i <= |entries|
    ensures var pieces := Pairs(TextsOf(entries));
            var text := Rest(pieces, i, '}') + r;
            && |pieces| == |entries| && text != []
            && text[0] == (if i == |entries| then '}' else if i > 0 then ',' else '\"')
            && (i < |entries| ==> pieces[i] == Quote(entries[i].0) + ":" + Print(entries[i].1))
            && (i + 1 < |entries| ==> pieces[i + 1] != [])
  {
    var pieces := Pairs(TextsOf(entries));
    RestStarts(pieces, i, '}', r);
    assert i < |pieces| ==> pieces[i][0] == '\"';
  }

  lemma {:induction false} SameOpening(v: Json, r: string, w: Json, q: string)
    requires Print(v) + r == Print(w) + q && Clean(v) && Clean(w)
    ensures (v.Null? <==> w.Null?) && (v.Bool? <==> w.Bool?) && (v.Int? <==> w.Int?) && (v.Text? <==> w.Text?)
    ensures (v.Arr? <==> w.Arr?) && (v.Obj? <==> w.Obj?) && (v.Bool? ==> v == w)
  {
    PrintStarts(v);
    PrintStarts(w);
    assert (Print(v) + r)[0] == Print(v)[0] && (Print(w) + q)[0] == Print(w)[0];
  }

  /** A value's text can be read back, whatever punctuation follows it. */
  lemma {:induction false} ValueReads(v: Json, r: string, w: Json, q: string)
    requires Clean(v) && Clean(w) && Ends(r) && Ends(q) && Print(v) + r == Print(w) + q
    ensures v == w && r == q
    decreases v, 2
  {
    SameOpening(v, r, w, q);
    match v
    case Int(n) => NumberReads(n, r, w.n, q);
    case Text(s) => QuoteReads(s, r, w.s, q);
    case Arr(items) =>
      PrintsArray(v);
      PrintsArray(w);
      AfterOpening(Print(v), '[', Rest(ItemTexts(items), 0, ']'), r);
      AfterOpening(Print(w), '[', Rest(ItemTexts(w.items), 0, ']'), q);
      ItemsRead(v, w, 0, r, q);
      assert items[0..] == items && w.items[0..] == w.items;
    case Obj(entries) =>
      PrintsObject(v);
      PrintsObject(w);
      AfterOpening(Print(v), '{', Rest(Pairs(TextsOf(entries)), 0, '}'), r);
      AfterOpening(Print(w), '{', Rest(Pairs(TextsOf(w.entries)), 0, '}'), q);
      EntriesRead(v, w, 0, r, q);
      assert entries[0..] == entries && w.entries[0..] == w.entries;
    case _ => SamePrefix(Print(v), r, Print(w), q);
  }

  lemma {:induction false} AfterOpening(text: string, c: char, body: string, r: string)
    requires text == [c] + body
    ensures (text + r)[1..] == body + r
  {
  }

  // ---------------------------------------------------------------------- the theorems

  lemma {:induction false} InsertMembers<T>(es: seq<(string, T)>, e: (string, T), x: (string, T))
    ensures x in Insert(es, e) <==> x in es || x == e
  {
    if es != [] && Less(e.0, es[|es| - 1].0) {
      InsertMembers(es[..|es| - 1], e, x);
      assert es == es[..|es| - 1] + [es[|es| - 1]];
    }
  }

  lemma {:induction false} SortMembers<T>(es: seq<(string, T)>, x: (string, T))
    ensures x in SortEntries(es) <==> x in es
  {
    if es != [] {
      var n := |es| - 1;
      SortMembers(es[..n], x);
      InsertMembers(SortEntries(es[..n]), es[n], x);
      assert es == es[..n] + [es[n]];
    }
  }

  lemma {:induction false} CanonEntriesMembers(v: Json, n: nat, x: (string, Json))
    requires v.Obj? && n <= |v.entries|
    ensures x in CanonEntries(v, n) <==>
            exists e :: e in v.entries[..n] && !e.1.Undefined? && x == (e.0, Canon(e.1))
  {
    if n > 0 {
      CanonEntriesMembers(v, n - 1, x);
      assert v.entries[..n] == v.entries[..n - 1] + [v.entries[n - 1]];
    }
  }

  lemma {:induction false} EntriesClean(v: Json, n: nat)
    requires v.Obj? && n <= |v.entries|
    ensures forall i :: 0 <= i < |CanonEntries(v, n)| ==> Clean(CanonEntries(v, n)[i].1)
    decreases v, 0, n
  {
    if n > 0 {
      EntriesClean(v, n - 1);
      CanonClean(v.entries[n - 1].1);
    }
  }

  lemma {:induction false} CanonClean(v: Json)
    ensures Clean(Canon(v))
    decreases v, 1
  {
    match v
    case Arr(items) => forall i | 0 <= i < |items| ensures Clean(Canon(items[i])) { CanonClean(items[i]); }
    case Obj(entries) =>
      EntriesClean(v, |entries|);
      var es := CanonEntries(v, |entries|);
      forall i | 0 <= i < |SortEntries(es)| ensures Clean(SortEntries(es)[i].1) {
        SortMembers(es, SortEntries(es)[i]);
        assert SortEntries(es)[i] in es;
      }
    case _ =>
  }

  /** Two values have the same text exactly when they have the same canonical form. */
  lemma {:induction false} SameTextIffSameCanon(v: Json, w: Json)
    ensures StableStringify(v) == StableStringify(w) <==> Canon(v) == Canon(w)
  {
    TextIsCanonical(v);
    TextIsCanonical(w);
    CanonClean(v);
    CanonClean(w);
    if Print(Canon(v)) == Print(Canon(w)) {
      assert Print(Canon(v)) + [] == Print(Canon(v)) && Print(Canon(w)) + [] == Print(Canon(w));
      ValueReads(Canon(v), [], Canon(w), []);
    }
  }

  // ------------------------------------------------------------------------- key order

  ghost predicate DistinctKeys<T>(es: seq<(string, T)>) {
    forall i, j :: 0 <= i < j < |es| ==> es[i].0 != es[j].0
  }

  ghost predicate Ascending<T>(es: seq<(string, T)>) {
    forall i, j :: 0 <= i < j < |es| ==> Less(es[i].0, es[j].0)
  }

  lemma {:induction false} InsertAscends<T>(es: seq<(string, T)>, e: (string, T))
    requires Ascending(es) && forall x :: x in es ==> x.0 != e.0
    ensures Ascending(Insert(es, e))
  {
    if es != [] {
      var n := |es| - 1;
      assert es[n] in es;
      LessIsTotal(es[n].0, e.0);
      if Less(e.0, es[n].0) {
        assert forall x :: x in es[..n] ==> x in es;
        InsertAscends(es[..n], e);
        var front := Insert(es[..n], e);
        forall i | 0 <= i < |front| ensures Less(front[i].0, es[n].0) {
          InsertMembers(es[..n], e, front[i]);
          assert front[i] in front;
        }
      } else {
        forall i | 0 <= i < n ensures Less(es[i].0, e.0) { LessIsTransitive(es[i].0, es[n].0, e.0); }
      }
    }
  }

  lemma {:induction false} SortAscends<T>(es: seq<(string, T)>)
    requires DistinctKeys(es)
    ensures Ascending(SortEntries(es))
  {
    if es != [] {
      var n := |es| - 1;
      SortAscends(es[..n]);
      forall x | x in SortEntries(es[..n]) ensures x.0 != es[n].0 {
        SortMembers(es[..n], x);
        var i :| 0 <= i < n && es[i] == x;
      }
      InsertAscends(SortEntries(es[..n]), es[n]);
    }
  }

  /** An ascending list is fixed by its members. */
  lemma {:induction false} AscendingIsUnique<T>(es: seq<(string, T)>, fs: seq<(string, T)>)
    requires Ascending(es) && Ascending(fs) && forall x :: x in es <==> x in fs
    ensures es == fs
  {
    Inhabited(fs);
    if es != [] {
      assert es[0] in fs;
      var m, n := |es| - 1, |fs| - 1;
      LastIsGreatest(es, fs);
      forall x ensures x in es[..m] <==> x in fs[..n] {
        FrontMembers(es, x);
        FrontMembers(fs, x);
      }
      AscendingIsUnique(es[..m], fs[..n]);
      assert es == es[..m] + [es[m]] && fs == fs[..n] + [fs[n]];
    }
  }

  lemma {:induction false} Inhabited<T>(xs: seq<T>)
    ensures xs == [] || exists x :: x in xs
  {
    if xs != [] { assert xs[0] in xs; }
  }

  lemma {:induction false} LastIsGreatest<T>(es: seq<(string, T)>, fs: seq<(string, T)>)
    requires es != [] && fs != [] && Ascending(es) && Ascending(fs) && forall x :: x in es <==> x in fs
    ensures es[|es| - 1] == fs[|fs| - 1]
  {
    var a, b := es[|es| - 1], fs[|fs| - 1];
    assert a in fs && b in es;
    var i :| 0 <= i < |fs| && fs[i] == a;
    var j :| 0 <= j < |es| && es[j] == b;
    LessIsTotal(a.0, b.0);
  }

  lemma {:induction false} FrontMembers<T>(es: seq<(string, T)>, x: (string, T))
    requires es != [] && Ascending(es)
    ensures x in es[..|es| - 1] <==> x in es && x != es[|es| - 1]
  {
    var n := |es| - 1;
    assert es == es[..n] + [es[n]];
    if x in es[..n] {
      var i :| 0 <= i < n && es[i] == x;
      LessIsTotal(x.0, es[n].0);
    }
  }

  lemma {:induction false} CanonKeysDistinct(v: Json, n: nat)
    requires v.Obj? && n <= |v.entries| && DistinctKeys(v.entries)
    ensures DistinctKeys(CanonEntries(v, n)) && forall x :: x in CanonEntries(v, n) ==>
            exists i :: 0 <= i < n && v.entries[i].0 == x.0
  {
    if n > 0 { CanonKeysDistinct(v, n - 1); }
  }

  // ---------------------------------------------------------------- values, not their form

  /**
   The same JSON value, however it was built: arrays item by item, objects as
   unordered entries at every depth, an undefined entry as no entry.
   */
  ghost predicate SameValue(v: Json, w: Json) {
    match v
    case Arr(items) =>
      w.Arr? && |items| == |w.items| && forall i :: 0 <= i < |items| ==> SameValue(items[i], w.items[i])
    case Obj(entries) =>
      && w.Obj?
      && (forall i :: 0 <= i < |entries| && !entries[i].1.Undefined? ==>
            exists j :: 0 <= j < |w.entries| && Corresponds(entries[i], w.entries[j])
              && SameValue(entries[i].1, w.entries[j].1))
      && (forall j :: 0 <= j < |w.entries| && !w.entries[j].1.Undefined? ==>
            exists i :: 0 <= i < |entries| && Corresponds(entries[i], w.entries[j])
              && SameValue(entries[i].1, w.entries[j].1))
    case _ => v == w
  }

  /** Two entries under one key, both there. */
  predicate Corresponds(e: (string, Json), f: (string, Json)) {
    e.0 == f.0 && !e.1.Undefined? && !f.1.Undefined?
  }

  /** A JSON value: no key twice in an object, and no undefined but as an entry to be left out. */
  ghost predicate WellFormed(v: Json) {
    match v
    case Undefined => false
    case Arr(items) => forall i :: 0 <= i < |items| ==> WellFormed(items[i])
    case Obj(entries) =>
      DistinctKeys(entries) && forall i :: 0 <= i < |entries| ==> entries[i].1.Undefined? || WellFormed(entries[i].1)
    case _ => true
  }

  lemma {:induction false} SameItems(v: Json, w: Json)
    requires v.Arr? && w.Arr? && WellFormed(v) && WellFormed(w)
    ensures Canon(v) == Canon(w) <==> SameValue(v, w)
    decreases v, 0
  {
    if |v.items| == |w.items| {
      forall i | 0 <= i < |v.items|
        ensures Canon(v.items[i]) == Canon(w.items[i]) <==> SameValue(v.items[i], w.items[i])
      {
        SameCanonIffSameValue(v.items[i], w.items[i]);
      }
      assert forall i :: 0 <= i < |v.items| ==>
             Canon(v).items[i] == Canon(v.items[i]) && Canon(w).items[i] == Canon(w.items[i]);
    } else {
      assert |Canon(v).items| == |v.items| && |Canon(w).items| == |w.items|;
    }
  }

  /** Each entry of one object has a counterpart in the other, canonical forms alike. */
  ghost predicate Covered(v: Json, w: Json)
    requires v.Obj? && w.Obj?
  {
    forall i :: 0 <= i < |v.entries| && !v.entries[i].1.Undefined? ==>
      exists j :: 0 <= j < |w.entries| && Corresponds(v.entries[i], w.entries[j])
        && Canon(v.entries[i].1) == Canon(w.entries[j].1)
  }

  /** Canonical objects are the same exactly when each covers the other. */
  lemma {:induction false} SameCanonIffCovered(v: Json, w: Json)
    requires v.Obj? && w.Obj? && DistinctKeys(v.entries) && DistinctKeys(w.entries)
    ensures Canon(v) == Canon(w) <==> Covered(v, w) && Covered(w, v)
  {
    var xs, ys := CanonEntries(v, |v.entries|), CanonEntries(w, |w.entries|);
    forall x ensures x in SortEntries(xs) <==> x in xs { SortMembers(xs, x); }
    forall x ensures x in SortEntries(ys) <==> x in ys { SortMembers(ys, x); }
    if Canon(v) == Canon(w) {
      CanonCovers(v, w);
      CanonCovers(w, v);
    }
    if Covered(v, w) && Covered(w, v) {
      CoverGives(v, w);
      CoverGives(w, v);
      CanonKeysDistinct(v, |v.entries|);
      CanonKeysDistinct(w, |w.entries|);
      SortAscends(xs);
      SortAscends(ys);
      AscendingIsUnique(SortEntries(xs), SortEntries(ys));
    }
  }

  lemma {:induction false} EntryInCanon(v: Json, i: nat)
    requires v.Obj? && i < |v.entries| && !v.entries[i].1.Undefined?
    ensures (v.entries[i].0, Canon(v.entries[i].1)) in CanonEntries(v, |v.entries|)
  {
    CanonEntriesMembers(v, |v.entries|, (v.entries[i].0, Canon(v.entries[i].1)));
    assert v.entries[..|v.entries|] == v.entries && v.entries[i] in v.entries;
  }

  lemma {:induction false} CanonFromEntry(v: Json, x: (string, Json)) returns (i: nat)
    requires v.Obj? && x in CanonEntries(v, |v.entries|)
    ensures i < |v.entries| && !v.entries[i].1.Undefined? && x == (v.entries[i].0, Canon(v.entries[i].1))
  {
    CanonEntriesMembers(v, |v.entries|, x);
    assert v.entries[..|v.entries|] == v.entries;
    var e :| e in v.entries && !e.1.Undefined? && x == (e.0, Canon(e.1));
    i :| 0 <= i < |v.entries| && v.entries[i] == e;
  }

  lemma {:induction false} CanonCovers(v: Json, w: Json)
    requires v.Obj? && w.Obj? && Canon(v) == Canon(w)
    ensures Covered(v, w)
  {
    forall i | 0 <= i < |v.entries| && !v.entries[i].1.Undefined?
      ensures exists j :: 0 <= j < |w.entries| && Corresponds(v.entries[i], w.entries[j])
                          && Canon(v.entries[i].1) == Canon(w.entries[j].1)
    {
      var x := (v.entries[i].0, Canon(v.entries[i].1));
      EntryInCanon(v, i);
      SortMembers(CanonEntries(v, |v.entries|), x);
      SortMembers(CanonEntries(w, |w.entries|), x);
      var j := CanonFromEntry(w, x);
      assert Corresponds(v.entries[i], w.entries[j]);
    }
  }

  lemma {:induction false} CoverGives(v: Json, w: Json)
    requires v.Obj? && w.Obj? && Covered(v, w)
    ensures forall x :: x in CanonEntries(v, |v.entries|) ==> x in CanonEntries(w, |w.entries|)
  {
    forall x | x in CanonEntries(v, |v.entries|) ensures x in CanonEntries(w, |w.entries|) {
      var i := CanonFromEntry(v, x);
      var j :| 0 <= j < |w.entries| && Corresponds(v.entries[i], w.entries[j])
        && Canon(v.entries[i].1) == Canon(w.entries[j].1);
      EntryInCanon(w, j);
    }
  }

  lemma {:induction false} SameEntries(v: Json, w: Json)
    requires v.Obj? && w.Obj? && WellFormed(v) && WellFormed(w)
    ensures Canon(v) == Canon(w) <==> SameValue(v, w)
    decreases v, 0
  {
    SameCanonIffCovered(v, w);
    forall i, j | 0 <= i < |v.entries| && 0 <= j < |w.entries| && Corresponds(v.entries[i], w.entries[j])
      ensures Canon(v.entries[i].1) == Canon(w.entries[j].1) <==> SameValue(v.entries[i].1, w.entries[j].1)
    {
      SameCanonIffSameValue(v.entries[i].1, w.entries[j].1);
    }
    CoveredBySame(v, w);
  }

  /** Corresponding entries agree on canonical form exactly when on value. */
  ghost predicate Tallies(v: Json, w: Json)
    requires v.Obj? && w.Obj?
  {
    forall i, j :: 0 <= i < |v.entries| && 0 <= j < |w.entries| && Corresponds(v.entries[i], w.entries[j]) ==>
      (Canon(v.entries[i].1) == Canon(w.entries[j].1) <==> SameValue(v.entries[i].1, w.entries[j].1))
  }

  ghost predicate FoundIn(e: (string, Json), w: Json)
    requires w.Obj?
  {
    exists j :: 0 <= j < |w.entries| && Corresponds(e, w.entries[j]) && SameValue(e.1, w.entries[j].1)
  }

  ghost predicate FoundFor(v: Json, f: (string, Json))
    requires v.Obj?
  {
    exists i :: 0 <= i < |v.entries| && Corresponds(v.entries[i], f) && SameValue(v.entries[i].1, f.1)
  }

  lemma {:induction false} CoveredForward(v: Json, w: Json)
    requires v.Obj? && w.Obj? && Tallies(v, w)
    ensures Covered(v, w) <==>
            forall i :: 0 <= i < |v.entries| && !v.entries[i].1.Undefined? ==> FoundIn(v.entries[i], w)
  {
  }

  lemma {:induction false} CoveredBack(v: Json, w: Json)
    requires v.Obj? && w.Obj? && Tallies(v, w)
    ensures Covered(w, v) <==>
            forall j :: 0 <= j < |w.entries| && !w.entries[j].1.Undefined? ==> FoundFor(v, w.entries[j])
  {
    forall j | 0 <= j < |w.entries| && !w.entries[j].1.Undefined?
      ensures FoundFor(v, w.entries[j]) <==>
              exists i :: 0 <= i < |v.entries| && Corresponds(w.entries[j], v.entries[i])
                          && Canon(w.entries[j].1) == Canon(v.entries[i].1)
    {
      CounterpartsTurn(v, w, j);
    }
  }

  lemma {:induction false} CounterpartsTurn(v: Json, w: Json, j: nat)
    requires v.Obj? && w.Obj? && Tallies(v, w) && j < |w.entries|
    ensures FoundFor(v, w.entries[j]) <==>
            exists i :: 0 <= i < |v.entries| && Corresponds(w.entries[j], v.entries[i])
                        && Canon(w.entries[j].1) == Canon(v.entries[i].1)
  {
    if i :| 0 <= i < |v.entries| && Corresponds(v.entries[i], w.entries[j]) && SameValue(v.entries[i].1, w.entries[j].1)
    {
      assert Corresponds(w.entries[j], v.entries[i]);
    }
    if i :| 0 <= i < |v.entries| && Corresponds(w.entries[j], v.entries[i])
            && Canon(w.entries[j].1) == Canon(v.entries[i].1) {
      assert Corresponds(v.entries[i], w.entries[j]);
    }
  }

  /** Covering both ways is being the same value. */
  lemma {:induction false} CoveredBySame(v: Json, w: Json)
    requires v.Obj? && w.Obj? && Tallies(v, w)
    ensures Covered(v, w) && Covered(w, v) <==> SameValue(v, w)
  {
    CoveredForward(v, w);
    CoveredBack(v, w);
    SameValueParts(v, w);
  }

  lemma {:induction false} SameValueParts(v: Json, w: Json)
    requires v.Obj? && w.Obj?
    ensures SameValue(v, w) <==>
            && (forall i :: 0 <= i < |v.entries| && !v.entries[i].1.Undefined? ==> FoundIn(v.entries[i], w))
            && (forall j :: 0 <= j < |w.entries| && !w.entries[j].1.Undefined? ==> FoundFor(v, w.entries[j]))
  {
  }

  /** At every depth, the canonical forms are the same exactly when the values are. */
  lemma {:induction false} SameCanonIffSameValue(v: Json, w: Json)
    requires WellFormed(v) && WellFormed(w)
    ensures Canon(v) == Canon(w) <==> SameValue(v, w)
    decreases v, 1
  {
    if v.Arr? && w.Arr? {
      SameItems(v, w);
    } else if v.Obj? && w.Obj? {
      SameEntries(v, w);
    }
  }

  /** Two JSON values have the same text exactly when they are the same value. */
  lemma {:induction false} TextIsFaithful(v: Json, w: Json)
    requires WellFormed(v) && WellFormed(w)
    ensures StableStringify(v) == StableStringify(w) <==> SameValue(v, w)
  {
    SameTextIffSameCanon(v, w);
    SameCanonIffSameValue(v, w);
  }

  /** In particular key order does not show, at any depth: entries that correspond in any order give one text. */
  lemma {:induction false} KeyOrderIsIgnored(es: seq<(string, Json)>, fs: seq<(string, Json)>)
    requires WellFormed(Obj(es)) && WellFormed(Obj(fs))
    requires forall i :: 0 <= i < |es| ==>
             exists j :: 0 <= j < |fs| && es[i].0 == fs[j].0 && SameEntry(es[i].1, fs[j].1)
    requires forall j :: 0 <= j < |fs| ==>
             exists i :: 0 <= i < |es| && es[i].0 == fs[j].0 && SameEntry(es[i].1, fs[j].1)
    ensures StableStringify(Obj(es)) == StableStringify(Obj(fs))
  {
    var v, w := Obj(es), Obj(fs);
    forall i | 0 <= i < |es| && !es[i].1.Undefined? ensures FoundIn(es[i], w) {
      var j :| 0 <= j < |fs| && es[i].0 == fs[j].0 && SameEntry(es[i].1, fs[j].1);
      assert Corresponds(es[i], w.entries[j]);
    }
    forall j | 0 <= j < |fs| && !fs[j].1.Undefined? ensures FoundFor(v, fs[j]) {
      var i :| 0 <= i < |es| && es[i].0 == fs[j].0 && SameEntry(es[i].1, fs[j].1);
      assert Corresponds(v.entries[i], fs[j]);
    }
    SameValueParts(v, w);
    TextIsFaithful(v, w);
  }

  /** The same value, or both left out. */
  ghost predicate SameEntry(v: Json, w: Json) {
    if v.Undefined? || w.Undefined? then v == w else SameValue(v, w)
  }

  /** Equal digests of two payloads mean equal payloads, for any injective hash. */
  lemma {:induction false} EqualDigestsMeanEqualPayloads(hash: string -> string, v: Json, w: Json)
    requires WellFormed(v) && WellFormed(w) && forall a, b :: hash(a) == hash(b) ==> a == b
    ensures hash(StableStringify(v)) == hash(StableStringify(w)) <==> SameValue(v, w)
  {
    TextIsFaithful(v, w);
  }

  /** The one thing lost: an undefined array item reads back as null. */
  lemma {:induction false} UndefinedItemReadsAsNull(before: seq<Json>, after: seq<Json>)
    ensures StableStringify(Arr(before + [Undefined] + after)) == StableStringify(Arr(before + [Null] + after))
  {
    var v, w := Arr(before + [Undefined] + after), Arr(before + [Null] + after);
    assert forall i :: 0 <= i < |v.items| ==> Canon(v.items[i]) == Canon(w.items[i]);
    SameTextIffSameCanon(v, w);
  }
}
