/**
  UTC dates as JavaScript counts them, by days from 1970-01-01, and the first ten characters of
  their ISO text.
 */
module Calendar {
  import opened Numerals

  const DAY := 86_400_000

  /** The UTC day of an instant, in milliseconds. */
  function DayOf(instant: int): int {
    instant / DAY
  }

  datatype Date = Date(year: int, month: int, day: int)

  predicate IsLeap(year: int) {
    year % 4 == 0 && (year % 100 != 0 || year % 400 == 0)
  }

  function DaysIn(year: int, month: int): int {
    if month == 2 then (if IsLeap(year) then 29 else 28)
    else if month == 4 || month == 6 || month == 9 || month == 11 then 30
    else 31
  }

  predicate Valid(d: Date) {
    1 <= d.month <= 12 && 1 <= d.day <= DaysIn(d.year, d.month)
  }

  function Tomorrow(d: Date): (t: Date)
    requires Valid(d)
    ensures Valid(t) && Earlier(d, t)
  {
    if d.day < DaysIn(d.year, d.month) then d.(day := d.day + 1)
    else if d.month < 12 then Date(d.year, d.month + 1, 1)
    else Date(d.year + 1, 1, 1)
  }

  function Yesterday(d: Date): (t: Date)
    requires Valid(d)
    ensures Valid(t) && Earlier(t, d)
  {
    if d.day > 1 then d.(day := d.day - 1)
    else if d.month > 1 then Date(d.year, d.month - 1, DaysIn(d.year, d.month - 1))
    else Date(d.year - 1, 12, 31)
  }

  predicate Earlier(a: Date, b: Date) {
    || a.year < b.year
    || (a.year == b.year && a.month < b.month)
    || (a.year == b.year && a.month == b.month && a.day < b.day)
  }

  /** The date `n` days after 1970-01-01. */
  function DateOf(n: int): (d: Date)
    ensures Valid(d)
    decreases if n < 0 then -n else n
  {
    if n == 0 then Date(1970, 1, 1)
    else if n > 0 then Tomorrow(DateOf(n - 1))
    else Yesterday(DateOf(n + 1))
  }

  lemma {:induction false} DatesIncrease(m: int, n: int)
    requires m < n
    ensures Earlier(DateOf(m), DateOf(n))
    decreases n - m
  {
    if n > 0 {
      assert DateOf(n) == Tomorrow(DateOf(n - 1));
    } else {
      assert DateOf(n - 1) == Yesterday(DateOf(n));
    }
    if m < n - 1 {
      DatesIncrease(m, n - 1);
    }
  }

  lemma ThereAndBack(d: Date)
    requires Valid(d)
    ensures Tomorrow(Yesterday(d)) == d
  {
  }

  lemma NextDay(n: int)
    ensures DateOf(n + 1) == Tomorrow(DateOf(n))
  {
    if n < 0 {
      ThereAndBack(DateOf(n + 1));
    }
  }

  // ---------------------------------------------------------------- from a date to its day

  /** Leap days in the years before `year`, counted from the year 1. */
  function LeapsBefore(year: int): int {
    (year - 1) / 4 - (year - 1) / 100 + (year - 1) / 400
  }

  /** The day of January 1. */
  function YearStart(year: int): int {
    365 * (year - 1970) + LeapsBefore(year) - LeapsBefore(1970)
  }

  function DayNumber(d: Date): int {
    YearStart(d.year) + DaysBefore(d.month) + (if d.month > 2 && IsLeap(d.year) then 1 else 0) + d.day - 1
  }

  lemma QuotientSteps(year: int)
    ensures year / 4 == (year - 1) / 4 + if year % 4 == 0 then 1 else 0
    ensures year / 100 == (year - 1) / 100 + if year % 100 == 0 then 1 else 0
    ensures year / 400 == (year - 1) / 400 + if year % 400 == 0 then 1 else 0
  {
  }

  lemma CenturiesDivide(year: int)
    ensures year % 400 == 0 ==> year % 100 == 0
    ensures year % 100 == 0 ==> year % 4 == 0
  {
  }

  lemma YearLength(year: int)
    ensures YearStart(year + 1) == YearStart(year) + if IsLeap(year) then 366 else 365
  {
    QuotientSteps(year);
    CenturiesDivide(year);
  }

  lemma DayNumberStep(d: Date)
    requires Valid(d)
    ensures DayNumber(Tomorrow(d)) == DayNumber(d) + 1
  {
    YearLength(d.year);
  }

  /** The two directions of the calendar are inverse. */
  lemma {:induction false} DayNumberOf(n: int)
    ensures DayNumber(DateOf(n)) == n
    decreases if n < 0 then -n else n
  {
    if n > 0 {
      DayNumberOf(n - 1);
      DayNumberStep(DateOf(n - 1));
    } else if n < 0 {
      DayNumberOf(n + 1);
      ThereAndBack(DateOf(n + 1));
      DayNumberStep(DateOf(n));
    }
  }

  lemma {:induction false} YearsGrow(year: int, later: int)
    requires year < later
    ensures YearStart(year) + 365 <= YearStart(later)
    ensures YearStart(year + 1) <= YearStart(later)
    decreases later - year
  {
    YearLength(later - 1);
    if year < later - 1 {
      YearsGrow(year, later - 1);
    }
  }

  lemma WithinYear(d: Date)
    requires Valid(d)
    ensures YearStart(d.year) <= DayNumber(d) < YearStart(d.year + 1)
  {
    YearLength(d.year);
  }

  lemma DayNumbersIncrease(a: Date, b: Date)
    requires Valid(a) && Valid(b) && Earlier(a, b)
    ensures DayNumber(a) < DayNumber(b)
  {
    if a.year < b.year {
      WithinYear(a);
      WithinYear(b);
      YearsGrow(a.year, b.year);
    }
  }

  lemma DateOfDayNumber(d: Date)
    requires Valid(d)
    ensures DateOf(DayNumber(d)) == d
  {
    var e := DateOf(DayNumber(d));
    DayNumberOf(DayNumber(d));
    if Earlier(d, e) {
      DayNumbersIncrease(d, e);
    } else if Earlier(e, d) {
      DayNumbersIncrease(e, d);
    }
  }

  // ---------------------------------------------------------------- the years a Date can show

  /** Days before a month in a year without a leap day. */
  function DaysBefore(month: int): int {
    match month
    case 1 => 0
    case 2 => 31
    case 3 => 59
    case 4 => 90
    case 5 => 120
    case 6 => 151
    case 7 => 181
    case 8 => 212
    case 9 => 243
    case 10 => 273
    case 11 => 304
    case _ => 334
  }

  /** The days since 1970-01-01, leap days not counted. */
  function CommonDays(d: Date): int {
    365 * (d.year - 1970) + DaysBefore(d.month) + d.day - 1
  }

  lemma CommonDaysStep(d: Date)
    requires Valid(d)
    ensures CommonDays(d) <= CommonDays(Tomorrow(d)) <= CommonDays(d) + 1
    ensures CommonDays(d) - 1 <= CommonDays(Yesterday(d)) <= CommonDays(d)
  {
  }

  lemma {:induction false} CommonDaysBound(n: int)
    ensures n >= 0 ==> CommonDays(DateOf(n)) <= n
    ensures n <= 0 ==> n <= CommonDays(DateOf(n))
    decreases if n < 0 then -n else n
  {
    if n > 0 {
      CommonDaysBound(n - 1);
      CommonDaysStep(DateOf(n - 1));
    } else if n < 0 {
      CommonDaysBound(n + 1);
      CommonDaysStep(DateOf(n + 1));
    }
  }

  /** The days a JavaScript date can hold: a hundred million on either side of 1970. */
  predicate Representable(n: int) {
    -100_000_000 <= n <= 100_000_000
  }

  /** A time value is at most 8.64e15 milliseconds from 1970 (section 21.4.1.1 of ECMA-262). */
  lemma RepresentableIff(n: int)
    ensures Representable(n) <==> -8_640_000_000_000_000 <= n * DAY <= 8_640_000_000_000_000
  {
  }

  lemma SixDigitYears(n: int)
    requires Representable(n)
    ensures -999_999 <= DateOf(n).year <= 999_999
  {
    CommonDaysBound(n);
    if n >= 0 {
      CommonDaysNotBefore(0, n);
    } else {
      CommonDaysNotBefore(n, 0);
    }
  }

  /** A later date is in no earlier year. */
  lemma CommonDaysNotBefore(m: int, n: int)
    requires m <= n
    ensures DateOf(m).year <= DateOf(n).year
  {
    if m < n {
      DatesIncrease(m, n);
    }
  }

  // ---------------------------------------------------------------- the text of a date

  function Power(width: nat): (p: nat)
    ensures p > 0
  {
    if width == 0 then 1 else 10 * Power(width - 1)
  }

  /** The last `width` decimal digits of `n`. */
  function Pad(n: nat, width: nat): (s: string)
    ensures |s| == width
  {
    if width == 0 then "" else Pad(n / 10, width - 1) + [(n % 10) as char + '0']
  }

  lemma {:induction false} PadIff(a: nat, b: nat, width: nat)
    requires a < Power(width) && b < Power(width)
    ensures Pad(a, width) == Pad(b, width) <==> a == b
  {
    if width > 0 && Pad(a, width) == Pad(b, width) {
      var s, t := Pad(a / 10, width - 1), Pad(b / 10, width - 1);
      assert Pad(a, width)[..width - 1] == s && Pad(b, width)[..width - 1] == t;
      assert Pad(a, width)[width - 1] == Pad(b, width)[width - 1];
      PadIff(a / 10, b / 10, width - 1);
    }
  }

  predicate FourDigitYear(n: int) {
    0 <= DateOf(n).year <= 9_999
  }

  /**
    `toISOString().slice(0, 10)`: the date, when its year has four digits; otherwise the year is
    written with a sign and six digits, and the ten characters end behind the month.
   */
  function IsoDate(n: int): (text: string)
    ensures |text| == 10
  {
    var d := DateOf(n);
    if 0 <= d.year <= 9_999 then Pad(d.year, 4) + "-" + Pad(d.month, 2) + "-" + Pad(d.day, 2)
    else if d.year > 0 then "+" + Pad(d.year, 6) + "-" + Pad(d.month, 2)
    else "-" + Pad(-d.year, 6) + "-" + Pad(d.month, 2)
  }

  lemma Powers()
    ensures Power(2) == 100 && Power(4) == 10_000 && Power(6) == 1_000_000
  {
    assert Power(1) == 10 && Power(3) == 1_000 && Power(5) == 100_000;
  }

  /** Padding writes the number it is given. */
  lemma {:induction false} PadDenotes(n: nat, width: nat)
    ensures AllDigits(Pad(n, width))
    ensures n < Power(width) ==> Worth(Pad(n, width)) == n
  {
    if width > 0 {
      PadDenotes(n / 10, width - 1);
      assert Pad(n, width)[..width - 1] == Pad(n / 10, width - 1);
    }
  }

  /** `text` is a number of `width` digits. */
  ghost predicate Spells(text: string, n: int, width: nat) {
    |text| == width && AllDigits(text) && Worth(text) == n
  }

  /**
    What the ten characters say: year, month and day where the year has four digits, else the year's
    sign, the year in six digits, and the month.
   */
  lemma IsoDateDenotes(n: int)
    requires Representable(n)
    ensures var d, text := DateOf(n), IsoDate(n);
            if 0 <= d.year <= 9_999 then
              && Spells(text[..4], d.year, 4) && text[4] == '-'
              && Spells(text[5..7], d.month, 2) && text[7] == '-' && Spells(text[8..], d.day, 2)
            else
              && text[0] == (if d.year < 0 then '-' else '+') && Spells(text[1..7], Absolute(d.year), 6)
              && text[7] == '-' && Spells(text[8..], d.month, 2)
  {
    var d := DateOf(n);
    Powers();
    SixDigitYears(n);
    if 0 <= d.year <= 9_999 {
      DateParts(d.year, d.month, d.day, IsoDate(n));
    } else {
      MonthParts(if d.year > 0 then "+" else "-", Absolute(d.year), d.month, IsoDate(n));
    }
  }

  lemma DateParts(year: nat, month: nat, day: nat, text: string)
    requires year < Power(4) && month < Power(2) && day < Power(2)
    requires text == Pad(year, 4) + "-" + Pad(month, 2) + "-" + Pad(day, 2)
    ensures Spells(text[..4], year, 4) && text[4] == '-'
    ensures Spells(text[5..7], month, 2) && text[7] == '-' && Spells(text[8..], day, 2)
  {
    var y, m, d := Pad(year, 4), Pad(month, 2), Pad(day, 2);
    assert text[..4] == y && text[5..7] == m && text[8..] == d;
    PadDenotes(year, 4);
    PadDenotes(month, 2);
    PadDenotes(day, 2);
  }

  lemma MonthParts(sign: string, year: nat, month: nat, text: string)
    requires |sign| == 1 && year < Power(6) && month < Power(2)
    requires text == sign + Pad(year, 6) + "-" + Pad(month, 2)
    ensures text[0] == sign[0] && Spells(text[1..7], year, 6) && text[7] == '-' && Spells(text[8..], month, 2)
  {
    var y, m := Pad(year, 6), Pad(month, 2);
    assert text[1..7] == y && text[8..] == m;
    PadDenotes(year, 6);
    PadDenotes(month, 2);
  }

  function Absolute(n: int): nat {
    if n < 0 then -n else n
  }

  /** Two texts with four-digit years. */
  lemma FourDigitTexts(m: int, n: int)
    requires FourDigitYear(m) && FourDigitYear(n)
    ensures IsoDate(m) == IsoDate(n) <==> DateOf(m) == DateOf(n)
  {
    var a, b := DateOf(m), DateOf(n);
    if IsoDate(m) == IsoDate(n) {
      Powers();
      assert IsoDate(m)[..4] == Pad(a.year, 4) && IsoDate(n)[..4] == Pad(b.year, 4);
      assert IsoDate(m)[5..7] == Pad(a.month, 2) && IsoDate(n)[5..7] == Pad(b.month, 2);
      assert IsoDate(m)[8..] == Pad(a.day, 2) && IsoDate(n)[8..] == Pad(b.day, 2);
      PadIff(a.year, b.year, 4);
      PadIff(a.month, b.month, 2);
      PadIff(a.day, b.day, 2);
    }
  }

  function SixDigits(year: int): string {
    Pad(if year > 0 then year else -year, 6)
  }

  lemma SignedParts(a: string, y: string, m: string, b: string, z: string, n: string)
    requires |a| == |b| == 1 && |y| == |z| == 6 && |m| == |n| == 2
    requires a + y + "-" + m == b + z + "-" + n
    ensures a == b && y == z && m == n
  {
    var s, t := a + y + "-" + m, b + z + "-" + n;
    assert s[..1] == a && t[..1] == b && s[1..7] == y && t[1..7] == z && s[8..] == m && t[8..] == n;
  }

  /** Two texts with longer or negative years show the year and the month only. */
  lemma SignedTexts(m: int, n: int)
    requires Representable(m) && Representable(n) && !FourDigitYear(m) && !FourDigitYear(n)
    ensures IsoDate(m) == IsoDate(n) <==> DateOf(m).year == DateOf(n).year && DateOf(m).month == DateOf(n).month
  {
    var a, b := DateOf(m), DateOf(n);
    if IsoDate(m) == IsoDate(n) {
      Powers();
      SixDigitYears(m);
      SixDigitYears(n);
      SignedParts(if a.year > 0 then "+" else "-", SixDigits(a.year), Pad(a.month, 2),
                  if b.year > 0 then "+" else "-", SixDigits(b.year), Pad(b.month, 2));
      PadIff(if a.year > 0 then a.year else -a.year, if b.year > 0 then b.year else -b.year, 6);
      PadIff(a.month, b.month, 2);
    }
  }

  /** A four-digit year begins with a digit, any other with its sign. */
  lemma FirstCharacter(n: int)
    ensures FourDigitYear(n) <==> '0' <= IsoDate(n)[0] <= '9'
  {
    if FourDigitYear(n) {
      PadDenotes(DateOf(n).year, 4);
      assert IsoDate(n)[0] == Pad(DateOf(n).year, 4)[0];
    }
  }

  /** Both years need more than four digits, and the two dates lie in one month. */
  predicate Blurred(m: int, n: int) {
    && !FourDigitYear(m) && !FourDigitYear(n)
    && DateOf(m).year == DateOf(n).year && DateOf(m).month == DateOf(n).month
  }

  lemma SameDateSameDay(m: int, n: int)
    ensures DateOf(m) == DateOf(n) <==> m == n
  {
    if m < n {
      DatesIncrease(m, n);
    } else if n < m {
      DatesIncrease(n, m);
    }
  }

  /** Two days have one text exactly when they are one day or their ten characters end before the day. */
  lemma IsoDateIff(m: int, n: int)
    requires Representable(m) && Representable(n)
    ensures IsoDate(m) == IsoDate(n) <==> m == n || Blurred(m, n)
  {
    FirstCharacter(m);
    FirstCharacter(n);
    SameDateSameDay(m, n);
    if FourDigitYear(m) && FourDigitYear(n) {
      FourDigitTexts(m, n);
    } else if !FourDigitYear(m) && !FourDigitYear(n) {
      SignedTexts(m, n);
    }
  }

  /** The days since 1970-01-01, a leap day counted in every year. */
  function LeapDays(d: Date): int {
    366 * (d.year - 1970) + DaysBefore(d.month) + (if d.month > 2 then 1 else 0) + d.day - 1
  }

  lemma {:induction false} LeapDaysBound(n: nat)
    ensures n <= LeapDays(DateOf(n))
  {
    if n > 0 {
      LeapDaysBound(n - 1);
      LeapDaysStep(DateOf(n - 1));
    }
  }

  lemma LeapDaysStep(d: Date)
    requires Valid(d)
    ensures LeapDays(d) + 1 <= LeapDays(Tomorrow(d))
  {
  }

  /** From three million days on, years have five digits, and neighbouring days mostly share a month. */
  lemma BlurNear(n: nat) returns (m: int, k: int)
    requires 3_000_000 <= n < 100_000_000
    ensures Representable(m) && Representable(k) && m < k && Blurred(m, k)
  {
    var d := DateOf(n);
    LeapDaysBound(n);
    assert DateOf(n + 1) == Tomorrow(d);
    assert d == Tomorrow(DateOf(n - 1));
    m, k := if d.day < DaysIn(d.year, d.month) then n else n - 1, if d.day < DaysIn(d.year, d.month) then n + 1 else n;
  }

  lemma SomeDaysBlur() returns (m: int, n: int)
    ensures Representable(m) && Representable(n) && m < n && Blurred(m, n)
  {
    m, n := BlurNear(3_000_000);
  }
}
