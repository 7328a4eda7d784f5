/**
 World time: partial dates, the half-open spans they denote, widening of
 approximate endpoints, and interval overlap.

 `DateUTC` is the abstract operation behind Date.UTC (section 21.4.3.4 of
 ECMA-262): month and day roll over, and a year from 0 to 99 means 1900 + year.
 */
module WorldTime {
  import opened Wrappers

  predicate IsDigits(s: string) {
    forall k :: 0 <= k < |s| ==> '0' <= s[k] <= '9'
  }

  /** The shape every world-time value is parsed to have before it is stored. */
  predicate IsPartialDate(v: string) {
    || (|v| == 4 && IsDigits(v))
    || (|v| == 7 && IsDigits(v[..4]) && v[4] == '-' && IsDigits(v[5..7]))
    || (|v| == 10 && IsDigits(v[..4]) && v[4] == '-' && IsDigits(v[5..7]) && v[7] == '-' && IsDigits(v[8..10]))
  }

  type PartialDate = v: string | IsPartialDate(v) witness "1970"

  datatype Point = Unknown | Exact(value: PartialDate) | Approximate(value: PartialDate)

  datatype Interval = Interval(from: Option<Point>, to: Option<Point>)

  datatype Precision = YearPrecision | MonthPrecision | DayPrecision

  datatype Parts = Parts(year: int, month: int, day: int)

  datatype Span = Span(lower: int, upper: int)

  datatype Fidelity = ExactTime | ApproximateTime | UnknownTime | AbsentTime

  datatype Quality = Certain | Possible

  datatype Match = NoMatch | Matches(quality: Quality)

  const MILLIS_PER_DAY := 86_400_000

  // ---------------------------------------------------------------- calendar

  predicate IsLeap(year: int) {
    year % 4 == 0 && (year % 100 != 0 || year % 400 == 0)
  }

  /** Days from 1970-01-01 to the first day of a year; `/` floors here because the divisors are positive. */
  function DaysBeforeYear(year: int): int {
    365 * (year - 1970) + (year - 1969) / 4 - (year - 1901) / 100 + (year - 1601) / 400
  }

  function DaysInMonth(month: int, leap: bool): int
    requires 1 <= month <= 12
  {
    if month == 2 then (if leap then 29 else 28)
    else if month == 4 || month == 6 || month == 9 || month == 11 then 30
    else 31
  }

  /** Days from the first of January to the first of the month after `months` whole months. */
  function DaysBeforeMonth(months: int, leap: bool): int
    requires 0 <= months <= 12
  {
    if months == 0 then 0 else DaysBeforeMonth(months - 1, leap) + DaysInMonth(months, leap)
  }

  function DateUTC(year: int, month: int, day: int): int {
    var y := (if 0 <= year <= 99 then 1900 + year else year) + month / 12;
    (DaysBeforeYear(y) + DaysBeforeMonth(month % 12, IsLeap(y)) + day - 1) * MILLIS_PER_DAY
  }

  // ----------------------------------------------------------- partial dates

  function Number(digits: string): int
    requires IsDigits(digits)
  {
    if digits == "" then 0 else Number(digits[..|digits| - 1]) * 10 + (digits[|digits| - 1] as int - '0' as int)
  }

  function PrecisionOf(v: PartialDate): Precision {
    if |v| == 4 then YearPrecision else if |v| == 7 then MonthPrecision else DayPrecision
  }

  function PartsOf(v: PartialDate): Parts {
    Parts(Number(v[..4]), if |v| > 4 then Number(v[5..7]) else 1, if |v| > 7 then Number(v[8..10]) else 1)
  }

  function SpanOf(v: PartialDate): Span {
    var p := PartsOf(v);
    Span(DateUTC(p.year, p.month - 1, p.day),
         match PrecisionOf(v)
         case YearPrecision => DateUTC(p.year + 1, 0, 1)
         case MonthPrecision => DateUTC(p.year, p.month, 1)
         case DayPrecision => DateUTC(p.year, p.month - 1, p.day + 1))
  }

  /** One unit of the value's own precision on either side. */
  function Widen(v: PartialDate): Span {
    var p := PartsOf(v);
    match PrecisionOf(v)
    case YearPrecision => Span(DateUTC(p.year - 1, 0, 1), DateUTC(p.year + 2, 0, 1))
    case MonthPrecision => Span(DateUTC(p.year, p.month - 2, 1), DateUTC(p.year, p.month + 1, 1))
    case DayPrecision => Span(DateUTC(p.year, p.month - 1, p.day - 1), DateUTC(p.year, p.month - 1, p.day + 2))
  }

  function ResolvePoint(point: Point): Span
    requires !point.Unknown?
  {
    if point.Approximate? then Widen(point.value) else SpanOf(point.value)
  }

  // --------------------------------------------------------------- intervals

  predicate HasUnknown(i: Interval) {
    i.from == Some(Unknown) || i.to == Some(Unknown)
  }

  predicate IsAbsent(i: Interval) {
    i.from.None? && i.to.None?
  }

  predicate HasApproximate(i: Interval) {
    (i.from.Some? && i.from.value.Approximate?) || (i.to.Some? && i.to.value.Approximate?)
  }

  function ValidTimeFidelity(i: Interval): Fidelity {
    if IsAbsent(i) then AbsentTime
    else if HasUnknown(i) then UnknownTime
    else if HasApproximate(i) then ApproximateTime
    else ExactTime
  }

  /** An interval that `IntervalContains` can measure: some bound, and no unknown one. */
  predicate IsKnown(i: Interval) {
    !IsAbsent(i) && !HasUnknown(i)
  }

  /** First instant of the interval; none when it has no start. */
  function Start(i: Interval): Option<int>
    requires !HasUnknown(i)
  {
    if i.from.Some? then Some(ResolvePoint(i.from.value).lower) else None
  }

  /** First instant past the interval, which is where its `to` begins; none when it is ongoing. */
  function End(i: Interval): Option<int>
    requires !HasUnknown(i)
  {
    if i.to.Some? then Some(ResolvePoint(i.to.value).lower) else None
  }

  predicate Overlaps(start: Option<int>, end: Option<int>, probe: Span) {
    !(start.Some? && probe.upper <= start.value) && !(end.Some? && probe.lower >= end.value)
  }

  function IntervalContains(i: Interval, at: PartialDate): Match {
    if IsKnown(i) && Overlaps(Start(i), End(i), SpanOf(at))
    then Matches(if HasApproximate(i) then Possible else Certain)
    else NoMatch
  }

  predicate InBounds(t: int, start: Option<int>, end: Option<int>) {
    (start.Some? ==> start.value <= t) && (end.Some? ==> t < end.value)
  }

  predicate InSpan(t: int, s: Span) {
    s.lower <= t < s.upper
  }

  predicate StartBeforeEnd(start: Option<int>, end: Option<int>) {
    start.Some? && end.Some? ==> start.value < end.value
  }

  // ------------------------------------------------------- calendar theorems

  lemma {:induction false} YearLength(year: int)
    ensures DaysBeforeYear(year + 1) == DaysBeforeYear(year) + 365 + (if IsLeap(year) then 1 else 0)
  {
    Quarter(year);
    Century(year);
    FourCenturies(year);
    LeapCount(year % 4 == 0, year % 100 == 0, year % 400 == 0, year);
  }

  lemma {:induction false} LeapCount(fourth: bool, hundredth: bool, fourHundredth: bool, year: int)
    requires fourth == (year % 4 == 0) && hundredth == (year % 100 == 0) && fourHundredth == (year % 400 == 0)
    ensures (if fourth then 1 else 0) - (if hundredth then 1 else 0) + (if fourHundredth then 1 else 0)
            == if IsLeap(year) then 1 else 0
  {
    assert year % 400 == 0 ==> year % 100 == 0;
    assert year % 100 == 0 ==> year % 4 == 0;
  }

  lemma {:induction false} Quarter(year: int)
    ensures (year - 1968) / 4 == (year - 1969) / 4 + (if year % 4 == 0 then 1 else 0)
  {
  }

  lemma {:induction false} Century(year: int)
    ensures (year - 1900) / 100 == (year - 1901) / 100 + (if year % 100 == 0 then 1 else 0)
  {
  }

  lemma {:induction false} FourCenturies(year: int)
    ensures (year - 1600) / 400 == (year - 1601) / 400 + (if year % 400 == 0 then 1 else 0)
  {
  }

  lemma {:induction false} MonthsFillYear(leap: bool)
    ensures DaysBeforeMonth(12, leap) == 365 + (if leap then 1 else 0)
  {
    var extra := if leap then 1 else 0;
    assert DaysBeforeMonth(1, leap) == 31;
    assert DaysBeforeMonth(2, leap) == 59 + extra;
    assert DaysBeforeMonth(4, leap) == 120 + extra;
    assert DaysBeforeMonth(6, leap) == 181 + extra;
    assert DaysBeforeMonth(8, leap) == 243 + extra;
    assert DaysBeforeMonth(10, leap) == 304 + extra;
  }

  /** The year Date.UTC computes with: two-digit years are moved into the twentieth century. */
  function CalendarYear(year: int): int {
    if 0 <= year <= 99 then 1900 + year else year
  }

  /** Rolling past the last day of a month lands on the first of the next, December and leap years included. */
  lemma {:induction false} DayRollover(year: int, month: int)
    requires 1 <= month <= 12
    ensures DateUTC(year, month - 1, DaysInMonth(month, IsLeap(CalendarYear(year))) + 1) == DateUTC(year, month, 1)
  {
    var y := CalendarYear(year);
    assert (month - 1) / 12 == 0 && (month - 1) % 12 == month - 1;
    if month == 12 {
      YearLength(y);
      MonthsFillYear(IsLeap(y));
    } else {
      assert month / 12 == 0 && month % 12 == month;
    }
  }

  lemma {:induction false} DaysAdvance(year: int, month: int, day: int, more: int)
    ensures DateUTC(year, month, day + more) == DateUTC(year, month, day) + more * MILLIS_PER_DAY
  {
  }

  lemma {:induction false} MonthsAdvance(year: int, month: int)
    requires 1 <= month <= 12
    ensures DateUTC(year, month - 1, 1) < DateUTC(year, month, 1)
  {
    var length := DaysInMonth(month, IsLeap(CalendarYear(year)));
    DayRollover(year, month);
    DaysAdvance(year, month - 1, 1, length);
  }

  /** December ends where the year does, except in 0099: its successor leaves the two-digit range. */
  lemma {:induction false} NewYear(year: nat)
    ensures DateUTC(year, 12, 1) == DateUTC(year + 1, 0, 1) <==> year != 99
  {
    assert DaysBeforeMonth(0, true) == DaysBeforeMonth(0, false) == 0;
    if year == 99 {
      assert DateUTC(99, 12, 1) == DaysBeforeYear(2000) * MILLIS_PER_DAY;
      assert DateUTC(100, 0, 1) == DaysBeforeYear(100) * MILLIS_PER_DAY;
    }
  }

  // --------------------------------------------------------- naming sub-dates

  function TwoDigits(n: int): (s: string)
    requires 0 <= n <= 99
    ensures |s| == 2 && IsDigits(s) && Number(s) == n
  {
    var tens := ('0' as int + n / 10) as char;
    var units := ('0' as int + n % 10) as char;
    assert [tens, units][..1] == [tens] && [tens][..0] == [];
    assert Number([tens]) == n / 10;
    [tens, units]
  }

  function MonthOf(year: PartialDate, month: int): (v: PartialDate)
    requires |year| == 4 && 1 <= month <= 12
    ensures |v| == 7 && PartsOf(v) == Parts(PartsOf(year).year, month, 1)
  {
    var v := year + "-" + TwoDigits(month);
    assert v[..4] == year == year[..4] && v[5..7] == TwoDigits(month);
    v
  }

  function DayOf(month: PartialDate, day: int): (v: PartialDate)
    requires |month| == 7 && 1 <= day <= 31
    ensures |v| == 10 && PartsOf(v) == Parts(PartsOf(month).year, PartsOf(month).month, day)
  {
    var v := month + "-" + TwoDigits(day);
    assert v[..4] == month[..4] && v[5..7] == month[5..7] && v[8..10] == TwoDigits(day);
    v
  }

  predicate IsMonth(v: PartialDate) {
    |v| == 7 && 1 <= PartsOf(v).month <= 12
  }

  function LastDay(month: PartialDate): int
    requires IsMonth(month)
  {
    DaysInMonth(PartsOf(month).month, IsLeap(CalendarYear(PartsOf(month).year)))
  }

  // ------------------------------------------------------------------- tiling

  /** For a sensible interval and a forward span, the overlap test finds exactly a shared instant. */
  lemma {:induction false} OverlapIsSharedInstant(start: Option<int>, end: Option<int>, probe: Span)
    requires StartBeforeEnd(start, end) && probe.lower < probe.upper
    ensures Overlaps(start, end, probe) <==> exists t :: InSpan(t, probe) && InBounds(t, start, end)
  {
    if Overlaps(start, end, probe) {
      var t := if start.Some? && start.value > probe.lower then start.value else probe.lower;
      assert InSpan(t, probe) && InBounds(t, start, end);
    }
  }

  /** Spans that abut, each running forward, numbered from 1 to `n`. */
  ghost predicate Abut(piece: int -> Span, n: int) {
    && n >= 1
    && (forall k :: 1 <= k <= n ==> piece(k).lower < piece(k).upper)
    && (forall k :: 1 <= k < n ==> piece(k).upper == piece(k + 1).lower)
  }

  /** Abutting pieces tile the span they make up: it overlaps an interval exactly when one of them does. */
  lemma {:induction false} PiecesTile(start: Option<int>, end: Option<int>, piece: int -> Span, n: int, whole: Span)
    requires StartBeforeEnd(start, end) && Abut(piece, n) && whole == Span(piece(1).lower, piece(n).upper)
    ensures whole.lower < whole.upper
    ensures Overlaps(start, end, whole) <==> exists k :: 1 <= k <= n && Overlaps(start, end, piece(k))
  {
    if n > 1 {
      var front := Span(whole.lower, piece(n - 1).upper);
      PiecesTile(start, end, piece, n - 1, front);
      assert piece(n - 1).upper == piece(n - 1 + 1).lower;
      assert Overlaps(start, end, whole) <==> Overlaps(start, end, front) || Overlaps(start, end, piece(n));
    }
  }

  lemma {:induction false} NumberIsNatural(digits: string)
    requires IsDigits(digits)
    ensures Number(digits) >= 0
  {
    if digits != "" { NumberIsNatural(digits[..|digits| - 1]); }
  }

  function MonthSpans(year: PartialDate): int -> Span
    requires |year| == 4
  {
    m => if 1 <= m <= 12 then SpanOf(MonthOf(year, m)) else Span(0, 0)
  }

  function DaySpans(month: PartialDate): int -> Span
    requires IsMonth(month)
  {
    d => if 1 <= d <= LastDay(month) then SpanOf(DayOf(month, d)) else Span(0, 0)
  }

  /** Months abut from the year's first instant on, and reach its last one in every year but 0099. */
  lemma {:induction false} MonthsTileTheYear(year: PartialDate)
    requires |year| == 4
    ensures Abut(MonthSpans(year), 12) && MonthSpans(year)(1).lower == SpanOf(year).lower
    ensures MonthSpans(year)(12).upper == SpanOf(year).upper <==> PartsOf(year).year != 99
  {
    var y := PartsOf(year).year;
    forall m | 1 <= m <= 12
      ensures MonthSpans(year)(m) == Span(DateUTC(y, m - 1, 1), DateUTC(y, m, 1))
      ensures DateUTC(y, m - 1, 1) < DateUTC(y, m, 1)
    {
      MonthSpan(year, m);
    }
    NumberIsNatural(year[..4]);
    NewYear(y);
  }

  lemma {:induction false} MonthSpan(year: PartialDate, m: int)
    requires |year| == 4 && 1 <= m <= 12
    ensures var y := PartsOf(year).year;
            MonthSpans(year)(m) == Span(DateUTC(y, m - 1, 1), DateUTC(y, m, 1))
              && DateUTC(y, m - 1, 1) < DateUTC(y, m, 1)
  {
    MonthsAdvance(PartsOf(year).year, m);
  }

  lemma {:induction false} DaysTileTheMonth(month: PartialDate)
    requires IsMonth(month)
    ensures Abut(DaySpans(month), LastDay(month))
    ensures SpanOf(month) == Span(DaySpans(month)(1).lower, DaySpans(month)(LastDay(month)).upper)
  {
    var y, m, last := PartsOf(month).year, PartsOf(month).month - 1, LastDay(month);
    forall d | 1 <= d <= last
      ensures DaySpans(month)(d) == Span(DateUTC(y, m, d), DateUTC(y, m, d + 1))
      ensures DateUTC(y, m, d) < DateUTC(y, m, d + 1)
    {
      DaysAdvance(y, m, d, 1);
    }
    DayRollover(y, m + 1);
  }

  ghost predicate SomeMonthMatches(i: Interval, year: PartialDate)
    requires |year| == 4
  {
    exists m :: 1 <= m <= 12 && IntervalContains(i, MonthOf(year, m)).Matches?
  }

  ghost predicate SomeDayMatches(i: Interval, year: PartialDate)
    requires |year| == 4
  {
    exists m, d :: 1 <= m <= 12 && 1 <= d <= LastDay(MonthOf(year, m)) &&
                   IntervalContains(i, DayOf(MonthOf(year, m), d)).Matches?
  }

  /** An interval the store can measure, that starts before it ends. */
  predicate Sensible(i: Interval) {
    IsKnown(i) && StartBeforeEnd(Start(i), End(i))
  }

  /** A year probe of any sensible interval matches exactly when some month of it does. */
  ghost predicate MatchesByMonths(year: PartialDate)
    requires |year| == 4
  {
    forall i :: Sensible(i) ==> (IntervalContains(i, year).Matches? <==> SomeMonthMatches(i, year))
  }

  /** The same down to days. */
  ghost predicate MatchesByDays(year: PartialDate)
    requires |year| == 4
  {
    forall i :: Sensible(i) ==> (IntervalContains(i, year).Matches? <==> SomeDayMatches(i, year))
  }

  lemma {:induction false} YearMatchesThroughMonths(i: Interval, year: PartialDate)
    requires IsKnown(i) && StartBeforeEnd(Start(i), End(i)) && |year| == 4 && PartsOf(year).year != 99
    ensures IntervalContains(i, year).Matches? <==> SomeMonthMatches(i, year)
  {
    MonthsTileTheYear(year);
    PiecesTile(Start(i), End(i), MonthSpans(year), 12, SpanOf(year));
    forall m | 1 <= m <= 12
      ensures IntervalContains(i, MonthOf(year, m)).Matches? <==> Overlaps(Start(i), End(i), MonthSpans(year)(m))
    {
      MonthProbe(i, year, m);
    }
  }

  lemma {:induction false} MonthProbe(i: Interval, year: PartialDate, m: int)
    requires IsKnown(i) && |year| == 4 && 1 <= m <= 12
    ensures IntervalContains(i, MonthOf(year, m)).Matches? <==> Overlaps(Start(i), End(i), MonthSpans(year)(m))
  {
  }

  /** A month probe matches exactly when some day of that month does, in any year. */
  lemma {:induction false} MonthMatchesIffSomeDay(i: Interval, month: PartialDate)
    requires IsKnown(i) && StartBeforeEnd(Start(i), End(i)) && IsMonth(month)
    ensures IntervalContains(i, month).Matches? <==>
            exists d :: 1 <= d <= LastDay(month) && IntervalContains(i, DayOf(month, d)).Matches?
  {
    DaysTileTheMonth(month);
    PiecesTile(Start(i), End(i), DaySpans(month), LastDay(month), SpanOf(month));
    forall d | 1 <= d <= LastDay(month)
      ensures IntervalContains(i, DayOf(month, d)).Matches? <==> Overlaps(Start(i), End(i), DaySpans(month)(d))
    {
      DayProbe(i, month, d);
    }
  }

  lemma {:induction false} DayProbe(i: Interval, month: PartialDate, d: int)
    requires IsKnown(i) && IsMonth(month) && 1 <= d <= LastDay(month)
    ensures IntervalContains(i, DayOf(month, d)).Matches? <==> Overlaps(Start(i), End(i), DaySpans(month)(d))
  {
  }

  lemma {:induction false} MonthsMatchThroughDays(i: Interval, year: PartialDate)
    requires IsKnown(i) && StartBeforeEnd(Start(i), End(i)) && |year| == 4
    ensures SomeMonthMatches(i, year) <==> SomeDayMatches(i, year)
  {
    forall m | 1 <= m <= 12
      ensures IntervalContains(i, MonthOf(year, m)).Matches? <==>
              exists d :: 1 <= d <= LastDay(MonthOf(year, m))
                && IntervalContains(i, DayOf(MonthOf(year, m), d)).Matches?
    {
      MonthMatchesIffSomeDay(i, MonthOf(year, m));
    }
  }

  /**
   A year matches exactly when some month of it does, for every sensible interval,
   in every year but 0099: its December does not end where the year does.
   */
  lemma {:induction false} YearMatchesIffSomeMonth(year: PartialDate)
    requires |year| == 4
    ensures MatchesByMonths(year) <==> PartsOf(year).year != 99
  {
    if PartsOf(year).year == 99 {
      Year99Misses(year);
    } else {
      forall i | Sensible(i) ensures IntervalContains(i, year).Matches? <==> SomeMonthMatches(i, year) {
        YearMatchesThroughMonths(i, year);
      }
    }
  }

  /** The same down to days. */
  lemma {:induction false} YearMatchesIffSomeDay(year: PartialDate)
    requires |year| == 4
    ensures MatchesByDays(year) <==> PartsOf(year).year != 99
  {
    if PartsOf(year).year == 99 {
      Year99Misses(year);
      MonthsMatchThroughDays(SINCE_JUNE_1999, year);
    } else {
      forall i | Sensible(i) ensures IntervalContains(i, year).Matches? <==> SomeDayMatches(i, year) {
        YearMatchesThroughMonths(i, year);
        MonthsMatchThroughDays(i, year);
      }
    }
  }

  const SINCE_JUNE_1999 := Interval(Some(Exact("1999-06")), None)

  /** Asked of 0099, an interval open from June 1999 matches July and not the year. */
  lemma {:induction false} Year99Misses(year: PartialDate)
    requires |year| == 4 && PartsOf(year).year == 99
    ensures Sensible(SINCE_JUNE_1999) && SomeMonthMatches(SINCE_JUNE_1999, year)
    ensures !IntervalContains(SINCE_JUNE_1999, year).Matches?
  {
    JulyMatches(year);
    YearMisses(year);
  }

  lemma {:induction false} JulyMatches(year: PartialDate)
    requires |year| == 4 && PartsOf(year).year == 99
    ensures Sensible(SINCE_JUNE_1999) && SomeMonthMatches(SINCE_JUNE_1999, year)
  {
    PartsOfJune1999();
    assert DateUTC(99, 5, 1) == DateUTC(1999, 5, 1);
    MonthsAscend(99, 5);
    MonthsAscend(99, 6);
    assert IntervalContains(SINCE_JUNE_1999, MonthOf(year, 7)).Matches?;
  }

  lemma {:induction false} YearMisses(year: PartialDate)
    requires |year| == 4 && PartsOf(year).year == 99
    ensures !IntervalContains(SINCE_JUNE_1999, year).Matches?
  {
    PartsOfJune1999();
    FirstDay(100);
    BeginsAfter1999();
  }

  lemma {:induction false} BeginsAfter1999()
    ensures DaysBeforeYear(100) * MILLIS_PER_DAY <= DateUTC(1999, 5, 1)
  {
    assert DaysBeforeMonth(5, false) >= 0 && !IsLeap(1999);
  }

  lemma {:induction false} PartsOfJune1999()
    ensures IsPartialDate("1999-06") && PartsOf("1999-06") == Parts(1999, 6, 1)
  {
    var v := "1999-06";
    var y, m := v[..4], v[5..7];
    assert y == "1999" && m == "06" && IsDigits(y) && IsDigits(m);
    assert y[..3] == "199" && y[..3][..2] == "19" && y[..3][..2][..1] == "1" && "1"[..0] == "";
    assert Number("1") == 1 && Number("19") == 19 && Number("199") == 199;
    assert m[..1] == "0" && Number("0") == 0;
  }

  // ------------------------------------------------- where intuition misleads

  /** Cutting a probe in two never changes the answer exactly when the interval starts before it ends. */
  lemma {:induction false} CutsAreSafeIffStartBeforeEnd(start: Option<int>, end: Option<int>)
    ensures StartBeforeEnd(start, end) <==>
            forall a, b, c :: a < b < c ==>
              (Overlaps(start, end, Span(a, c)) <==>
                Overlaps(start, end, Span(a, b)) || Overlaps(start, end, Span(b, c)))
  {
    if !StartBeforeEnd(start, end) {
      var a, b, c := end.value - 1, end.value, start.value + 1;
      assert Overlaps(start, end, Span(a, c)) && !Overlaps(start, end, Span(a, b)) && !Overlaps(start, end, Span(b, c));
    }
  }

  // ------------------------------------------------------- an approximate end

  /** Every month begins after the one before it, whatever the month number rolls over to. */
  lemma {:induction false} MonthsAscend(year: int, month: int)
    ensures DateUTC(year, month, 1) < DateUTC(year, month + 1, 1)
  {
    var y, k := CalendarYear(year) + month / 12, month % 12;
    assert 12 * (month / 12) + k == month;
    if k == 11 {
      assert (month + 1) / 12 == month / 12 + 1 && (month + 1) % 12 == 0;
      YearLength(y);
      MonthsFillYear(IsLeap(y));
    } else {
      assert (month + 1) / 12 == month / 12 && (month + 1) % 12 == k + 1;
    }
  }

  /** Every year begins after the one before it, except 0100: the one before that is read as 1999. */
  lemma {:induction false} YearsAscend(year: nat)
    ensures DateUTC(year - 1, 0, 1) <= DateUTC(year, 0, 1) <==> year != 100
  {
    FirstDay(year);
    FirstDay(year - 1);
    if year == 0 {
      assert DaysBeforeYear(-1) < DaysBeforeYear(1900);
    } else if year == 100 {
      assert DaysBeforeYear(1999) > DaysBeforeYear(100);
    } else {
      YearLength(CalendarYear(year - 1));
    }
  }

  lemma {:induction false} FirstDay(year: int)
    ensures DateUTC(year, 0, 1) == DaysBeforeYear(CalendarYear(year)) * MILLIS_PER_DAY
  {
    assert DaysBeforeMonth(0, IsLeap(CalendarYear(year))) == 0;
  }

  /** The one kind of date whose widening begins later than the date itself. */
  predicate WidensForward(to: PartialDate) {
    |to| == 4 && PartsOf(to).year == 100
  }

  /** Widening begins no later than the date, exactly when the date is not the year 0100. */
  lemma {:induction false} WideningBeginsEarlier(to: PartialDate)
    ensures Widen(to).lower <= SpanOf(to).lower <==> !WidensForward(to)
  {
    var p := PartsOf(to);
    NumberIsNatural(to[..4]);
    match PrecisionOf(to)
    case YearPrecision => YearsAscend(p.year);
    case MonthPrecision => MonthsAscend(p.year, p.month - 2);
    case DayPrecision => DaysAdvance(p.year, p.month - 1, p.day, -1);
  }

  /** Marking a `to` approximate never gains a match. */
  ghost predicate NeverGains(to: PartialDate) {
    forall from, at :: from != Some(Unknown) && IntervalContains(Interval(from, Some(Approximate(to))), at).Matches? ==>
      IntervalContains(Interval(from, Some(Exact(to))), at).Matches?
  }

  /**
   The end of an interval is where its `to` begins, so an approximate `to` cuts off
   whatever starts after its widening.
   */
  lemma {:induction false} ApproximateEndCuts(from: Option<Point>, to: PartialDate, at: PartialDate)
    requires from != Some(Unknown) && !WidensForward(to)
    ensures IntervalContains(Interval(from, Some(Approximate(to))), at).Matches? <==>
            IntervalContains(Interval(from, Some(Exact(to))), at).Matches? && SpanOf(at).lower < Widen(to).lower
  {
    WideningBeginsEarlier(to);
  }

  /** An approximate end only narrows the interval, exactly when it is not the year 0100. */
  lemma {:induction false} ApproximateEndOnlyNarrows(to: PartialDate)
    ensures NeverGains(to) <==> !WidensForward(to)
  {
    if WidensForward(to) {
      ApproximateEndGains(to);
    } else {
      forall from, at | from != Some(Unknown) && IntervalContains(Interval(from, Some(Approximate(to))), at).Matches?
        ensures IntervalContains(Interval(from, Some(Exact(to))), at).Matches?
      {
        ApproximateEndCuts(from, to, at);
      }
    }
  }

  /** With an approximate end in the year 0100 the interval runs on to 1999, and "0150" matches. */
  lemma {:induction false} ApproximateEndGains(to: PartialDate)
    requires WidensForward(to)
    ensures IntervalContains(Interval(None, Some(Approximate(to))), "0150").Matches?
    ensures !IntervalContains(Interval(None, Some(Exact(to))), "0150").Matches?
  {
    YearOf0150();
    FirstDay(150);
    FirstDay(100);
    FirstDay(99);
    assert DaysBeforeYear(100) < DaysBeforeYear(150) < DaysBeforeYear(1999);
  }

  lemma {:induction false} YearOf0150()
    ensures IsPartialDate("0150") && PartsOf("0150") == Parts(150, 1, 1)
  {
    var v := "0150";
    assert v[..4] == v && v[..3] == "015" && v[..3][..2] == "01" && v[..3][..2][..1] == "0" && v[..1][..0] == "";
    assert Number("0") == 0 && Number("01") == 1 && Number("015") == 15;
  }
}
