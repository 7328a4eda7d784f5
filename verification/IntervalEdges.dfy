/**
 Where an interval begins and ends, against a calendar that only counts: days year
 by year from 1970, and month by month from January. Digits, dates, spans and the
 widening of approximate bounds are all pinned to it.
 */
module IntervalEdges {
  import opened Wrappers
  import opened WorldTime

  // ------------------------------------------------------------ a calendar that counts

  ghost predicate LeapYear(y: int) {
    y % 400 == 0 || (y % 4 == 0 && y % 100 != 0)
  }

  ghost function YearDays(y: int): int {
    if LeapYear(y) then 366 else 365
  }

  /** Days in a month, January being 0. */
  ghost function MonthDays(y: int, month: int): int
    requires 0 <= month < 12
  {
    if month == 1 then (if LeapYear(y) then 29 else 28)
    else if month == 3 || month == 5 || month == 8 || month == 10 then 30 else 31
  }

  /** Days from the first of January 1970 to that of a year. */
  ghost function YearOpens(y: int): int
    decreases if y >= 1970 then y - 1970 else 1970 - y
  {
    if y == 1970 then 0
    else if y > 1970 then YearOpens(y - 1) + YearDays(y - 1)
    else YearOpens(y + 1) - YearDays(y)
  }

  /** Days to the first of the month that many months after January, earlier and later years included. */
  ghost function MonthOpens(y: int, months: int): int
    decreases if months >= 0 then months else -months
  {
    if months == 0 then YearOpens(y)
    else if months > 0 then MonthOpens(y, months - 1) + MonthDays(y + (months - 1) / 12, (months - 1) % 12)
    else MonthOpens(y, months + 1) - MonthDays(y + months / 12, months % 12)
  }

  /** Two-digit years mean the twentieth century. */
  ghost function UtcYear(y: int): int {
    if 0 <= y < 100 then y + 1900 else y
  }

  const DAY := 86_400_000

  ghost function Midnight(year: int, months: int, day: int): int {
    (MonthOpens(UtcYear(year), months) + day - 1) * DAY
  }

  lemma {:induction false} LeapYears(y: int)
    ensures IsLeap(y) <==> LeapYear(y)
  {
    if y % 400 == 0 { FourthsOf(y, y / 400); }
  }

  lemma {:induction false} FourthsOf(y: int, k: int)
    requires y == 400 * k
    ensures y % 4 == 0
  {
    assert y == 4 * (100 * k);
  }

  lemma {:induction false} CountsYears(y: int)
    ensures DaysBeforeYear(y) == YearOpens(y)
    decreases if y >= 1970 then y - 1970 else 1970 - y
  {
    if y > 1970 {
      CountsYears(y - 1);
      YearLength(y - 1);
      LeapYears(y - 1);
    } else if y < 1970 {
      CountsYears(y + 1);
      YearLength(y);
      LeapYears(y);
    }
  }

  lemma {:induction false} CountsDays(y: int, month: int)
    requires 0 <= month < 12
    ensures DaysInMonth(month + 1, IsLeap(y)) == MonthDays(y, month)
  {
    LeapYears(y);
  }

  lemma {:induction false} Dozens(q: int, r: int)
    requires 0 <= r < 12
    ensures (12 * q + r) / 12 == q && (12 * q + r) % 12 == r
  {
  }

  /** Counting on by one month, from anywhere. */
  lemma {:induction false} NextMonth(y: int, q: int, r: int)
    requires 0 <= r < 12
    ensures MonthOpens(y, 12 * q + r + 1) == MonthOpens(y, 12 * q + r) + MonthDays(y + q, r)
  {
    Dozens(q, r);
  }

  /** Days from the first of January to the first of a month, and past December to the next. */
  lemma {:induction false} WithinYear(y: int, r: int)
    requires 0 <= r < 12
    ensures r < 11 ==> DaysBeforeMonth(r + 1, IsLeap(y)) == DaysBeforeMonth(r, IsLeap(y)) + MonthDays(y, r)
    ensures r == 11 ==> YearOpens(y + 1) == YearOpens(y) + DaysBeforeMonth(r, IsLeap(y)) + MonthDays(y, r)
  {
    LeapYears(y);
    MonthsFillYear(IsLeap(y));
    YearStep(y);
  }

  lemma {:induction false} YearStep(y: int)
    ensures YearOpens(y + 1) == YearOpens(y) + YearDays(y)
  {
  }

  /** Closed form and count agree on one month if they agree on the one beside it. */
  lemma {:induction false} SameStep(y: int, q: int, r: int)
    requires 0 <= r < 12
    ensures var here := MonthOpens(y, 12 * q + r) == YearOpens(y + q) + DaysBeforeMonth(r, IsLeap(y + q));
            && (r < 11 ==>
                  var next := YearOpens(y + q) + DaysBeforeMonth(r + 1, IsLeap(y + q));
                  (here <==> MonthOpens(y, 12 * q + (r + 1)) == next))
            && (r == 11 ==> (here <==> MonthOpens(y, 12 * (q + 1) + 0) == YearOpens(y + (q + 1))))
  {
    NextMonth(y, q, r);
    WithinYear(y + q, r);
  }

  lemma {:induction false} CountsForward(y: int, q: nat, r: int)
    requires 0 <= r < 12
    ensures MonthOpens(y, 12 * q + r) == YearOpens(y + q) + DaysBeforeMonth(r, IsLeap(y + q))
    decreases q, r
  {
    if r > 0 {
      CountsForward(y, q, r - 1);
      SameStep(y, q, r - 1);
    } else if q > 0 {
      CountsForward(y, q - 1, 11);
      SameStep(y, q - 1, 11);
    }
  }

  lemma {:induction false} CountsBack(y: int, q: int, r: int)
    requires q < 0 && 0 <= r < 12
    ensures MonthOpens(y, 12 * q + r) == YearOpens(y + q) + DaysBeforeMonth(r, IsLeap(y + q))
    decreases -q, 12 - r
  {
    if r < 11 {
      CountsBack(y, q, r + 1);
      SameStep(y, q, r);
    } else {
      if q == -1 { CountsForward(y, 0, 0); } else { CountsBack(y, q + 1, 0); }
      SameStep(y, q, 11);
    }
  }

  /** `Date.UTC` is the counted calendar, for every year, month and day it is ever given. */
  lemma {:induction false} DateUTCCounts(year: int, months: int, day: int)
    ensures DateUTC(year, months, day) == Midnight(year, months, day)
  {
    var y, q, r := UtcYear(year), months / 12, months % 12;
    CountsYears(y + q);
    if q < 0 { CountsBack(y, q, r); } else { CountsForward(y, q, r); }
  }

  // ------------------------------------------------------------------- partial dates

  ghost function DigitAt(v: string, i: nat): int
    requires i < |v|
  {
    v[i] as int - '0' as int
  }

  ghost function YearOf(v: PartialDate): int {
    1000 * DigitAt(v, 0) + 100 * DigitAt(v, 1) + 10 * DigitAt(v, 2) + DigitAt(v, 3)
  }

  ghost function MonthNo(v: PartialDate): int {
    if |v| == 4 then 1 else 10 * DigitAt(v, 5) + DigitAt(v, 6)
  }

  ghost function DayNo(v: PartialDate): int {
    if |v| == 10 then 10 * DigitAt(v, 8) + DigitAt(v, 9) else 1
  }

  lemma {:induction false} TwoDigits(s: string)
    requires |s| == 2 && IsDigits(s)
    ensures Number(s) == 10 * DigitAt(s, 0) + DigitAt(s, 1)
  {
    assert s[..1][..0] == "";
    assert Number(s[..1]) == DigitAt(s, 0);
  }

  lemma {:induction false} FourDigits(s: string)
    requires |s| == 4 && IsDigits(s)
    ensures Number(s) == 1000 * DigitAt(s, 0) + 100 * DigitAt(s, 1) + 10 * DigitAt(s, 2) + DigitAt(s, 3)
  {
    TwoDigits(s[..2]);
    assert s[..3][..2] == s[..2];
    assert Number(s[..3]) == 10 * Number(s[..2]) + DigitAt(s, 2);
  }

  lemma {:induction false} PartsAreDigits(v: PartialDate)
    ensures PartsOf(v) == Parts(YearOf(v), MonthNo(v), DayNo(v))
  {
    FourDigits(v[..4]);
    if |v| > 4 { TwoDigits(v[5..7]); }
    if |v| > 7 { TwoDigits(v[8..10]); }
  }

  /** The first instant of a date. */
  ghost function First(v: PartialDate): int {
    Midnight(YearOf(v), MonthNo(v) - 1, DayNo(v))
  }

  /** The first instant past it: of the next year, month or day, whichever it names. */
  ghost function Past(v: PartialDate): int {
    if |v| == 4 then Midnight(YearOf(v) + 1, 0, 1)
    else if |v| == 7 then Midnight(YearOf(v), MonthNo(v), 1)
    else First(v) + DAY
  }

  /** The first instant one unit of its own precision earlier: of the year, month or day before. */
  ghost function Before(v: PartialDate): int {
    if |v| == 4 then Midnight(YearOf(v) - 1, 0, 1)
    else if |v| == 7 then Midnight(YearOf(v), MonthNo(v) - 2, 1)
    else First(v) - DAY
  }

  lemma {:induction false} SpanCounts(v: PartialDate)
    ensures SpanOf(v) == Span(First(v), Past(v))
  {
    var y, m, d := YearOf(v), MonthNo(v), DayNo(v);
    PartsAreDigits(v);
    DateUTCCounts(y, m - 1, d);
    if |v| == 4 {
      DateUTCCounts(y + 1, 0, 1);
    } else if |v| == 7 {
      DateUTCCounts(y, m, 1);
    } else {
      DaysAdvance(y, m - 1, d, 1);
    }
  }

  /** The first instant past the unit after a date. */
  ghost function Beyond(v: PartialDate): int {
    if |v| == 4 then Midnight(YearOf(v) + 2, 0, 1)
    else if |v| == 7 then Midnight(YearOf(v), MonthNo(v) + 1, 1)
    else First(v) + 2 * DAY
  }

  /** Widening reaches one unit of the date's own precision to either side. */
  lemma {:induction false} WideningCounts(v: PartialDate)
    ensures Widen(v) == Span(Before(v), Beyond(v))
  {
    var y, m, d := YearOf(v), MonthNo(v), DayNo(v);
    PartsAreDigits(v);
    if |v| == 4 {
      DateUTCCounts(y - 1, 0, 1);
      DateUTCCounts(y + 2, 0, 1);
    } else if |v| == 7 {
      DateUTCCounts(y, m - 2, 1);
      DateUTCCounts(y, m + 1, 1);
    } else {
      DateUTCCounts(y, m - 1, d);
      DaysAdvance(y, m - 1, d, -1);
      DaysAdvance(y, m - 1, d, 2);
    }
  }

  // ------------------------------------------------------------------------ matching

  /** Where a bound lies: an exact one at its first instant, an approximate one unit of its precision earlier. */
  ghost function Bound(p: Point): int
    requires !p.Unknown?
  {
    if p.Exact? then First(p.value) else Before(p.value)
  }

  /**
   An interval matches a date exactly when it has a bound and no unknown one, the date
   ends after its `from` and begins before its `to`; the match is only possible where
   either is approximate.
   */
  lemma {:induction false} MatchesFromBoundToBound(i: Interval, at: PartialDate)
    ensures IntervalContains(i, at).Matches? <==>
            && (i.from.Some? || i.to.Some?) && i.from != Some(Unknown) && i.to != Some(Unknown)
            && (i.from.Some? ==> Bound(i.from.value) < Past(at))
            && (i.to.Some? ==> First(at) < Bound(i.to.value))
    ensures IntervalContains(i, at).Matches? ==>
              (IntervalContains(i, at).quality.Possible? <==>
                 (i.from.Some? && i.from.value.Approximate?) || (i.to.Some? && i.to.value.Approximate?))
  {
    SpanCounts(at);
    if i.from.Some? && !i.from.value.Unknown? { BoundsCount(i.from.value); }
    if i.to.Some? && !i.to.value.Unknown? { BoundsCount(i.to.value); }
  }

  lemma {:induction false} BoundsCount(p: Point)
    requires !p.Unknown?
    ensures ResolvePoint(p).lower == Bound(p)
  {
    SpanCounts(p.value);
    WideningCounts(p.value);
  }

  /** Open at the end: a date matches exactly when it ends after the first instant of `from`. */
  lemma {:induction false} SinceMatches(from: PartialDate, at: PartialDate)
    ensures IntervalContains(Interval(Some(Exact(from)), None), at) ==
            if First(from) < Past(at) then Matches(Certain) else NoMatch
    ensures IntervalContains(Interval(Some(Approximate(from)), None), at) ==
            if Before(from) < Past(at) then Matches(Possible) else NoMatch
  {
    MatchesFromBoundToBound(Interval(Some(Exact(from)), None), at);
    MatchesFromBoundToBound(Interval(Some(Approximate(from)), None), at);
  }

  /** Open at the start: a date matches exactly when it begins before the first instant of `to`. */
  lemma {:induction false} UntilMatches(to: PartialDate, at: PartialDate)
    ensures IntervalContains(Interval(None, Some(Exact(to))), at) ==
            if First(at) < First(to) then Matches(Certain) else NoMatch
    ensures IntervalContains(Interval(None, Some(Approximate(to))), at) ==
            if First(at) < Before(to) then Matches(Possible) else NoMatch
  {
    MatchesFromBoundToBound(Interval(None, Some(Exact(to))), at);
    MatchesFromBoundToBound(Interval(None, Some(Approximate(to))), at);
  }

  /** The unit before a month is the whole month before, and that before a year the whole year before. */
  lemma {:induction false} OneUnitEarlier(v: PartialDate)
    ensures |v| == 7 ==>
              var m := MonthNo(v) - 2;
              Before(v) + MonthDays(UtcYear(YearOf(v)) + m / 12, m % 12) * DAY == First(v)
    ensures |v| == 4 && YearOf(v) != 0 && YearOf(v) != 100 ==>
              Before(v) + YearDays(UtcYear(YearOf(v)) - 1) * DAY == First(v)
  {
    if |v| == 7 {
      var m := MonthNo(v) - 2;
      NextMonth(UtcYear(YearOf(v)), m / 12, m % 12);
    }
    if |v| == 4 && YearOf(v) != 0 && YearOf(v) != 100 {
      var y := UtcYear(YearOf(v));
      assert UtcYear(YearOf(v) - 1) == y - 1;
      YearStep(y - 1);
    }
  }

  /** An interval that begins with a date matches that date, certainly, unless the date is the year 0099. */
  lemma {:induction false} BeginsWithItself(v: PartialDate)
    ensures IntervalContains(Interval(Some(Exact(v)), None), v) == Matches(Certain) <==> !(|v| == 4 && YearOf(v) == 99)
  {
    SinceMatches(v, v);
    if |v| == 4 { YearPasses(YearOf(v)); }
    if |v| == 7 { MonthPasses(YearOf(v), MonthNo(v) - 1); }
  }

  lemma {:induction false} MonthPasses(year: int, months: int)
    ensures Midnight(year, months, 1) < Midnight(year, months + 1, 1)
  {
    NextMonth(UtcYear(year), months / 12, months % 12);
  }

  lemma {:induction false} YearPasses(year: nat)
    ensures Midnight(year, 0, 1) < Midnight(year + 1, 0, 1) <==> year != 99
  {
    if year == 99 {
      assert YearOpens(100) < YearOpens(1999) by { YearsClimb(100, 1999); }
    } else {
      YearStep(UtcYear(year));
    }
  }

  lemma {:induction false} YearsClimb(y: int, z: int)
    requires y < z
    ensures YearOpens(y) < YearOpens(z)
    decreases z - y
  {
    YearStep(z - 1);
    if y < z - 1 { YearsClimb(y, z - 1); }
  }
}
