/**
  The cadence periods: weeks from Monday and months from the first, at midnight UTC, as the calendar
  has them and as the code computes them through `Date.UTC`.  Instants are milliseconds since 1970.
 */
module Cadence {
  import opened Platforms
  import opened Calendar

  datatype PeriodUnit = Week | Month

  /** `getUTCDay()`: 0 is Sunday; 1970-01-01 was a Thursday. */
  function Weekday(day: int): int {
    (day + 4) % 7
  }

  function DaysSinceMonday(day: int): int {
    (Weekday(day) + 6) % 7
  }

  // ---------------------------------------------------------------- the calendar's periods

  function FirstOfMonth(day: int): int {
    day - (DateOf(day).day - 1)
  }

  function FirstDay(u: PeriodUnit, day: int): int {
    match u
    case Month => FirstOfMonth(day)
    case Week => day - DaysSinceMonday(day)
  }

  function Length(u: PeriodUnit, first: int): int {
    match u
    case Month => DaysIn(DateOf(first).year, DateOf(first).month)
    case Week => 7
  }

  /** The first day behind the period. */
  function NextFirst(u: PeriodUnit, day: int): int {
    FirstDay(u, day) + Length(u, FirstDay(u, day))
  }

  function PeriodStart(u: PeriodUnit, now: int): int {
    FirstDay(u, DayOf(now)) * DAY
  }

  function PeriodEnd(u: PeriodUnit, now: int): int {
    NextFirst(u, DayOf(now)) * DAY
  }

  /** Within a month the date follows the day count. */
  lemma {:induction false} WithinMonth(n: int, k: nat)
    requires DateOf(n).day + k <= DaysIn(DateOf(n).year, DateOf(n).month)
    ensures DateOf(n + k) == DateOf(n).(day := DateOf(n).day + k)
  {
    if k > 0 {
      WithinMonth(n, k - 1);
      NextDay(n + k - 1);
    }
  }

  lemma {:induction false} BackToFirst(n: int, k: nat)
    requires k < DateOf(n).day
    ensures DateOf(n - k) == DateOf(n).(day := DateOf(n).day - k)
  {
    if k > 0 {
      BackToFirst(n, k - 1);
      NextDay(n - k);
    }
  }

  lemma MonthOpens(n: int, first: int)
    requires first == FirstOfMonth(n)
    ensures first <= n && DateOf(first) == DateOf(n).(day := 1)
  {
    var k := DateOf(n).day - 1;
    BackToFirst(n, k);
    assert n - k == first;
  }

  /** Behind the last day of a month comes the first of the next. */
  lemma MonthEnds(first: int, len: int)
    requires DateOf(first).day == 1 && len == Length(Month, first)
    ensures var d := DateOf(first);
            DateOf(first + len) == if d.month < 12 then Date(d.year, d.month + 1, 1) else Date(d.year + 1, 1, 1)
  {
    var last := first + (len - 1);
    WithinMonth(first, len - 1);
    assert DateOf(last) == DateOf(first).(day := len);
    NextDay(last);
    assert last + 1 == first + len;
  }

  /** A month begins on its first day, and the next one follows its last. */
  lemma MonthBounds(n: int)
    ensures var d, first := DateOf(n), FirstOfMonth(n);
            && DateOf(first) == Date(d.year, d.month, 1)
            && first <= n < first + Length(Month, first)
            && DateOf(first + Length(Month, first))
               == if d.month < 12 then Date(d.year, d.month + 1, 1) else Date(d.year + 1, 1, 1)
  {
    MonthOpens(n, FirstOfMonth(n));
    MonthEnds(FirstOfMonth(n), Length(Month, FirstOfMonth(n)));
  }

  lemma WeekTiles(n: int, m: int)
    requires n - DaysSinceMonday(n) <= m < n - DaysSinceMonday(n) + 7
    ensures m - DaysSinceMonday(m) == n - DaysSinceMonday(n)
  {
  }

  lemma MonthTiles(n: int, first: int, m: int)
    requires first == FirstOfMonth(n) && first <= m < first + Length(Month, first)
    ensures FirstOfMonth(m) == first
  {
    MonthOpens(n, first);
    WithinMonth(first, m - first);
    assert first + (m - first) == m;
  }

  /** Every day of a period has the same first day, and the day behind it opens the next period. */
  lemma DaysTile(u: PeriodUnit, n: int, m: int)
    requires FirstDay(u, n) <= m < NextFirst(u, n)
    ensures FirstDay(u, m) == FirstDay(u, n)
  {
    match u
    case Week => WeekTiles(n, m);
    case Month => MonthTiles(n, FirstOfMonth(n), m);
  }

  lemma NextOpens(u: PeriodUnit, n: int)
    ensures FirstDay(u, n) <= n < NextFirst(u, n) && FirstDay(u, NextFirst(u, n)) == NextFirst(u, n)
  {
    if u.Month? {
      MonthBounds(n);
    }
  }

  /** The instants between two midnights are those of the days between. */
  lemma BetweenMidnights(first: int, last: int, t: int)
    ensures first * DAY <= t < last * DAY <==> first <= DayOf(t) < last
  {
  }

  lemma MidnightOf(day: int)
    ensures DayOf(day * DAY) == day && (day * DAY) % DAY == 0
  {
  }

  /**
    The calendar's periods tile all instants: an instant lies in its period, every instant of a period
    has that period, and a period ends where the next one starts.
   */
  lemma PeriodsTile(u: PeriodUnit, now: int, t: int)
    ensures PeriodStart(u, now) <= now < PeriodEnd(u, now)
    ensures PeriodStart(u, now) <= t < PeriodEnd(u, now) ==>
              PeriodStart(u, t) == PeriodStart(u, now) && PeriodEnd(u, t) == PeriodEnd(u, now)
    ensures PeriodStart(u, PeriodEnd(u, now)) == PeriodEnd(u, now)
  {
    var first, next := FirstDay(u, DayOf(now)), NextFirst(u, DayOf(now));
    NextOpens(u, DayOf(now));
    BetweenMidnights(first, next, now);
    BetweenMidnights(first, next, t);
    MidnightOf(next);
    if first <= DayOf(t) < next {
      DaysTile(u, DayOf(now), DayOf(t));
    }
  }

  /** Weeks start on Monday and months on the first, at midnight. */
  lemma PeriodsStart(now: int)
    ensures PeriodStart(Week, now) % DAY == 0 && Weekday(DayOf(PeriodStart(Week, now))) == 1
    ensures PeriodStart(Month, now) % DAY == 0 && DateOf(DayOf(PeriodStart(Month, now))).day == 1
  {
    MonthBounds(DayOf(now));
    MidnightOf(FirstDay(Week, DayOf(now)));
    MidnightOf(FirstDay(Month, DayOf(now)));
    MondayOf(DayOf(now));
  }

  /** The days of a date's year up to and including it. */
  function DayOfYear(d: Date): int {
    DaysBefore(d.month) + (if d.month > 2 && IsLeap(d.year) then 1 else 0) + d.day
  }

  /** 1970-01-01 is day 719163 of the Gregorian calendar. */
  lemma FromYearOne(n: int)
    ensures var d := DateOf(n); 365 * (d.year - 1) + LeapsBefore(d.year) + DayOfYear(d) == n + 719_163
  {
    DayNumberOf(n);
    assert LeapsBefore(1970) == 477;
  }

  lemma WeeksSince(n: int, m: int)
    requires m == n + 719_163
    ensures m % 7 == Weekday(n)
  {
  }

  /** Counted in the Gregorian calendar from the year 1, whose first day is a Monday, the weekdays go round. */
  lemma WeekdayIs(n: int)
    ensures var d := DateOf(n); Weekday(n) == (365 * (d.year - 1) + LeapsBefore(d.year) + DayOfYear(d)) % 7
  {
    var d := DateOf(n);
    FromYearOne(n);
    WeeksSince(n, 365 * (d.year - 1) + LeapsBefore(d.year) + DayOfYear(d));
  }

  lemma MondayOf(day: int)
    ensures Weekday(FirstDay(Week, day)) == 1
  {
  }

  // ---------------------------------------------------------------- the code's periods

  predicate TwoDigit(year: int) {
    0 <= year <= 99
  }

  /** `Date.UTC` takes a year from 0 to 99 as one of the 1900s. */
  function FullYear(year: int): int {
    if TwoDigit(year) then 1900 + year else year
  }

  /** Months count from 0; months and days past the end run on into the next year or month. */
  function MakeDay(year: int, month: int, day: int): int {
    DayNumber(Date(year + month / 12, month % 12 + 1, 1)) + day - 1
  }

  /** `new Date(Date.UTC(year, month, day))` as a day; none when no date can hold it. */
  function DateUtc(year: int, month: int, day: int): Option<int> {
    var n := MakeDay(FullYear(year), month, day);
    if Representable(n) then Some(n) else None
  }

  function StartDay(u: PeriodUnit, day: int): Option<int> {
    var d := DateOf(day);
    match u
    case Month => DateUtc(d.year, d.month - 1, 1)
    case Week => DateUtc(d.year, d.month - 1, d.day - DaysSinceMonday(day))
  }

  function EndDay(u: PeriodUnit, start: int): Option<int> {
    var s := DateOf(start);
    match u
    case Month => DateUtc(s.year, s.month, 1)
    case Week => DateUtc(s.year, s.month - 1, s.day + 7)
  }

  function AtMidnight(day: Option<int>): Option<int> {
    match day
    case None => None
    case Some(n) => Some(n * DAY)
  }

  function CurrentPeriodStart(u: PeriodUnit, now: int): Option<int> {
    AtMidnight(StartDay(u, DayOf(now)))
  }

  /** Computed from the start; an invalid start gives an invalid end. */
  function CurrentPeriodEnd(u: PeriodUnit, now: int): Option<int> {
    match CurrentPeriodStart(u, now)
    case None => None
    case Some(start) => AtMidnight(EndDay(u, DayOf(start)))
  }

  lemma MonthIndex(month: int)
    requires 1 <= month <= 12
    ensures (month - 1) / 12 == 0 && (month - 1) % 12 + 1 == month
    ensures month / 12 == (if month == 12 then 1 else 0) && month % 12 + 1 == if month == 12 then 1 else month + 1
  {
  }

  lemma FromFirst(d: Date, k: int)
    requires Valid(d)
    ensures MakeDay(d.year, d.month - 1, d.day + k) == DayNumber(d) + k
  {
    MonthIndex(d.month);
  }

  /** The arguments the code passes name the day they should, the year apart. */
  lemma MakeDayOf(n: int, d: Date, k: int)
    requires d == DateOf(n)
    ensures MakeDay(d.year, d.month - 1, d.day + k) == n + k
  {
    FromFirst(d, k);
    DayNumberOf(n);
  }

  lemma NextMonthOf(s: Date, next: Date)
    requires Valid(s) && next == if s.month < 12 then Date(s.year, s.month + 1, 1) else Date(s.year + 1, 1, 1)
    ensures MakeDay(s.year, s.month, 1) == DayNumber(next)
  {
    MonthIndex(s.month);
  }

  /** `Date.UTC(year, month + 1, 1)` from the first of a month. */
  lemma MakeNextMonth(first: int, s: Date, len: int, next: Date)
    requires s == DateOf(first) && s.day == 1 && len == Length(Month, first) && next == DateOf(first + len)
    ensures MakeDay(s.year, s.month, 1) == first + len
  {
    MonthEnds(first, len);
    NextMonthOf(s, next);
    DayNumberOf(first + len);
  }

  /** Reading a two-digit year as one of the 1900s moves the day by more than a year. */
  lemma ShiftMoves(year: int, month: int, day: int)
    requires TwoDigit(year) && 0 <= month <= 12
    ensures MakeDay(year, month, day) + 366 <= MakeDay(FullYear(year), month, day)
  {
    var a, b := Date(year + month / 12, month % 12 + 1, 1), Date(1900 + year + month / 12, month % 12 + 1, 1);
    WithinYear(a);
    WithinYear(b);
    YearsGrow(a.year + 1, b.year);
  }

  /** What the start would be without the two-digit rule. */
  lemma PlainStart(u: PeriodUnit, n: int, d: Date)
    requires d == DateOf(n)
    ensures MakeDay(d.year, d.month - 1, if u.Month? then 1 else d.day - DaysSinceMonday(n)) == FirstDay(u, n)
  {
    var k := if u.Month? then 1 - d.day else -DaysSinceMonday(n);
    MakeDayOf(n, d, k);
    assert d.day + k == if u.Month? then 1 else d.day - DaysSinceMonday(n);
  }

  lemma PlainEnd(u: PeriodUnit, first: int, s: Date)
    requires s == DateOf(first) && (u.Month? ==> s.day == 1)
    ensures (if u.Month? then MakeDay(s.year, s.month, 1) else MakeDay(s.year, s.month - 1, s.day + 7))
         == first + Length(u, first)
  {
    if u.Month? {
      MakeNextMonth(first, s, Length(u, first), DateOf(first + Length(u, first)));
    } else {
      MakeDayOf(first, s, 7);
    }
  }

  predicate ProperDay(n: int) {
    !TwoDigit(DateOf(n).year)
  }

  lemma StartDayIs(u: PeriodUnit, n: int)
    ensures ProperDay(n) ==> StartDay(u, n) == if Representable(FirstDay(u, n)) then Some(FirstDay(u, n)) else None
    ensures !ProperDay(n) && StartDay(u, n).Some? ==> FirstDay(u, n) + 366 <= StartDay(u, n).value
  {
    var d := DateOf(n);
    PlainStart(u, n, d);
    if !ProperDay(n) {
      ShiftMoves(d.year, d.month - 1, if u.Month? then 1 else d.day - DaysSinceMonday(n));
    }
  }

  lemma ShiftedEnd(u: PeriodUnit, first: int, s: Date, next: int)
    requires s == DateOf(first) && TwoDigit(s.year) && (u.Month? ==> s.day == 1) && next == first + Length(u, first)
    ensures EndDay(u, first).Some? ==> next < EndDay(u, first).value
  {
    PlainEnd(u, first, s);
    if u.Month? {
      ShiftMoves(s.year, s.month, 1);
    } else {
      ShiftMoves(s.year, s.month - 1, s.day + 7);
    }
  }

  lemma UnshiftedEnd(u: PeriodUnit, first: int, s: Date, next: int)
    requires s == DateOf(first) && !TwoDigit(s.year) && (u.Month? ==> s.day == 1) && next == first + Length(u, first)
    ensures EndDay(u, first) == if Representable(next) then Some(next) else None
  {
    PlainEnd(u, first, s);
  }

  lemma EndDayIs(u: PeriodUnit, first: int, next: int)
    requires (u.Month? ==> DateOf(first).day == 1) && next == first + Length(u, first)
    ensures ProperDay(first) ==> EndDay(u, first) == if Representable(next) then Some(next) else None
    ensures EndDay(u, first).Some? ==> next <= EndDay(u, first).value
    ensures !ProperDay(first) && EndDay(u, first).Some? ==> next < EndDay(u, first).value
  {
    if ProperDay(first) {
      UnshiftedEnd(u, first, DateOf(first), next);
    } else {
      ShiftedEnd(u, first, DateOf(first), next);
    }
  }

  /** The code's start is the period's start exactly when now's year is not one of 0 to 99 and a date can hold it. */
  lemma StartRightIff(u: PeriodUnit, now: int)
    ensures CurrentPeriodStart(u, now) == Some(PeriodStart(u, now))
       <==> ProperDay(DayOf(now)) && Representable(FirstDay(u, DayOf(now)))
  {
    StartDayIs(u, DayOf(now));
  }

  /** Now lies in a year, and its period begins in a year, that `Date.UTC` reads as it is. */
  predicate Proper(u: PeriodUnit, now: int) {
    var first := FirstDay(u, DayOf(now));
    ProperDay(DayOf(now)) && ProperDay(first) && Representable(first) && Representable(first + Length(u, first))
  }

  lemma LengthBound(u: PeriodUnit, first: int)
    ensures 7 <= Length(u, first) <= 31
  {
  }

  lemma FirstIsFirst(u: PeriodUnit, n: int, first: int)
    requires first == FirstDay(u, n)
    ensures first <= n < first + Length(u, first)
    ensures u.Month? ==> DateOf(first).day == 1
  {
    if u.Month? {
      MonthBounds(n);
    }
  }

  /** The day the wrong start is taken for begins a period of its kind too. */
  lemma WrongStart(u: PeriodUnit, n: int, first: int, start: int)
    requires !ProperDay(n) && first == FirstDay(u, n) && StartDay(u, n) == Some(start)
    ensures first + Length(u, first) < start
    ensures u.Month? ==> DateOf(start).day == 1
  {
    StartDayIs(u, n);
    LengthBound(u, first);
    if u.Month? {
      WrongMonth(DateOf(n), start);
    }
  }

  lemma WrongMonth(d: Date, start: int)
    requires Valid(d) && TwoDigit(d.year) && start == MakeDay(FullYear(d.year), d.month - 1, 1)
    ensures DateOf(start).day == 1
  {
    MonthIndex(d.month);
    DateOfDayNumber(Date(1900 + d.year, d.month, 1));
  }

  /** The end, by its day. */
  function CodeEnd(u: PeriodUnit, n: int): Option<int> {
    match StartDay(u, n)
    case None => None
    case Some(start) => EndDay(u, start)
  }

  lemma ProperEnd(u: PeriodUnit, n: int, first: int, next: int)
    requires ProperDay(n) && first == FirstDay(u, n) && next == first + Length(u, first)
    ensures CodeEnd(u, n) == Some(next) <==> ProperDay(first) && Representable(first) && Representable(next)
  {
    StartDayIs(u, n);
    FirstIsFirst(u, n, first);
    EndDayIs(u, first, next);
  }

  lemma ImproperEnd(u: PeriodUnit, n: int, first: int, next: int)
    requires !ProperDay(n) && first == FirstDay(u, n) && next == first + Length(u, first)
    ensures CodeEnd(u, n) != Some(next)
  {
    if StartDay(u, n).Some? {
      var start := StartDay(u, n).value;
      WrongStart(u, n, first, start);
      LengthBound(u, start);
      EndDayIs(u, start, start + Length(u, start));
    }
  }

  lemma EndByDay(u: PeriodUnit, now: int)
    ensures CurrentPeriodEnd(u, now) == AtMidnight(CodeEnd(u, DayOf(now)))
  {
    if StartDay(u, DayOf(now)).Some? {
      MidnightOf(StartDay(u, DayOf(now)).value);
    }
  }

  lemma EndByDayIff(u: PeriodUnit, n: int, first: int, next: int)
    requires first == FirstDay(u, n) && next == first + Length(u, first)
    ensures CodeEnd(u, n) == Some(next)
       <==> ProperDay(n) && ProperDay(first) && Representable(first) && Representable(next)
  {
    if ProperDay(n) {
      ProperEnd(u, n, first, next);
    } else {
      ImproperEnd(u, n, first, next);
    }
  }

  lemma MidnightIff(day: Option<int>, n: int)
    ensures AtMidnight(day) == Some(n * DAY) <==> day == Some(n)
  {
  }

  lemma ProperIs(u: PeriodUnit, now: int, n: int, first: int, next: int)
    requires n == DayOf(now) && first == FirstDay(u, n) && next == NextFirst(u, n)
    ensures PeriodEnd(u, now) == next * DAY && next == first + Length(u, first)
    ensures Proper(u, now) <==> ProperDay(n) && ProperDay(first) && Representable(first) && Representable(next)
  {
  }

  lemma EndAtMidnight(u: PeriodUnit, now: int, n: int, first: int, next: int)
    requires n == DayOf(now) && first == FirstDay(u, n) && next == first + Length(u, first)
    ensures CurrentPeriodEnd(u, now) == Some(next * DAY)
       <==> ProperDay(n) && ProperDay(first) && Representable(first) && Representable(next)
  {
    EndByDay(u, now);
    MidnightIff(CodeEnd(u, n), next);
    EndByDayIff(u, n, first, next);
  }

  /** The code's end is the period's end exactly when now and the period's first day both have a proper year. */
  lemma EndRightIff(u: PeriodUnit, now: int)
    ensures CurrentPeriodEnd(u, now) == Some(PeriodEnd(u, now)) <==> Proper(u, now)
  {
    var n := DayOf(now);
    ProperIs(u, now, n, FirstDay(u, n), NextFirst(u, n));
    EndAtMidnight(u, now, n, FirstDay(u, n), NextFirst(u, n));
  }

  lemma MonthInThe1900s(n: int, d: Date)
    requires d == DateOf(n) && TwoDigit(d.year) && StartDay(Month, n).Some?
    ensures StartDay(Month, n) == Some(DayNumber(Date(1900 + d.year, d.month, 1)))
  {
    MonthIndex(d.month);
  }

  lemma WrongStartLater(u: PeriodUnit, now: int, n: int, start: int)
    requires n == DayOf(now) && !ProperDay(n) && StartDay(u, n) == Some(start)
    ensures now < start * DAY
  {
    var first := FirstDay(u, n);
    WrongStart(u, n, first, start);
    FirstIsFirst(u, n, first);
    BetweenMidnights(first, start, now);
  }

  /** In the years 0 to 99 the code's period begins after now; a month's on the first of that month in the 1900s. */
  lemma TwoDigitYearsFail(u: PeriodUnit, now: int)
    requires !ProperDay(DayOf(now)) && CurrentPeriodStart(u, now).Some?
    ensures now < CurrentPeriodStart(u, now).value
    ensures var d := DateOf(DayOf(now));
            u.Month? ==> CurrentPeriodStart(u, now) == Some(DayNumber(Date(1900 + d.year, d.month, 1)) * DAY)
  {
    var n := DayOf(now);
    WrongStartLater(u, now, n, StartDay(u, n).value);
    if u.Month? {
      MonthInThe1900s(n, DateOf(n));
    }
  }

  /**
    Where both years are proper the code's periods are the calendar's, so they tile: now lies in its
    period, the proper instants of the period have it too, and its end opens the next one.
   */
  lemma CurrentPeriodsTile(u: PeriodUnit, now: int, t: int)
    requires Proper(u, now)
    ensures CurrentPeriodStart(u, now).Some? && CurrentPeriodEnd(u, now).Some?
    ensures var start, end := CurrentPeriodStart(u, now).value, CurrentPeriodEnd(u, now).value;
            && start <= now < end
            && (start <= t < end && ProperDay(DayOf(t)) ==>
                  CurrentPeriodStart(u, t) == Some(start) && CurrentPeriodEnd(u, t) == Some(end))
            && (ProperDay(DayOf(end)) ==> CurrentPeriodStart(u, end) == Some(end))
  {
    StartRightIff(u, now);
    EndRightIff(u, now);
    PeriodsTile(u, now, t);
    var end := PeriodEnd(u, now);
    MidnightOf(NextFirst(u, DayOf(now)));
    StartRightIff(u, end);
    NextOpens(u, DayOf(now));
    if PeriodStart(u, now) <= t < end {
      BetweenMidnights(FirstDay(u, DayOf(now)), NextFirst(u, DayOf(now)), t);
      DaysTile(u, DayOf(now), DayOf(t));
      StartRightIff(u, t);
      EndRightIff(u, t);
    }
  }

  /** Such an instant: 0050-06-15. */
  lemma SomeInstantFails()
    ensures exists now :: CurrentPeriodStart(Month, now).Some? && now < CurrentPeriodStart(Month, now).value
  {
    var d := Date(50, 6, 15);
    MiddleOfJune(d, DayNumber(d));
  }

  lemma MiddleOfJune(d: Date, n: int)
    requires d == Date(50, 6, 15) && n == DayNumber(d)
    ensures CurrentPeriodStart(Month, n * DAY).Some? && n * DAY < CurrentPeriodStart(Month, n * DAY).value
  {
    DateOfDayNumber(d);
    MidnightOf(n);
    TwoDigitYearsFail(Month, n * DAY);
  }
}
