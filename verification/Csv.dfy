/**
  The CSV writer of the report exports, against a decoder for section 2 of RFC 4180.
 */
module Csv {
  import opened Numerals

  /** The whole numbers a JavaScript number holds exactly, all of them written without an exponent. */
  type SafeInt = n: int | -9_007_199_254_740_991 <= n <= 9_007_199_254_740_991

  /** What a report passes as a cell; a number is an integer count or an amount held in cents. */
  datatype CsvValue = Null | Bool(b: bool) | Count(n: SafeInt) | Amount(cents: SafeInt) | Text(s: string)

  /** Length of the leading run of digits. */
  function DigitRun(s: string): (n: nat)
    ensures n <= |s| && forall i | 0 <= i < n :: IsDigit(s[i])
    ensures n < |s| ==> !IsDigit(s[n])
  {
    if s == [] || !IsDigit(s[0]) then 0 else 1 + DigitRun(s[1..])
  }

  function Unsigned(text: string): string {
    if text != [] && text[0] == '-' then text[1..] else text
  }

  /** An optional minus, digits, and an optional fraction: a number cannot be a formula. */
  predicate SafeNumeric(text: string) {
    var body := Unsigned(text);
    var n := DigitRun(body);
    n > 0 && (n == |body| || (body[n] == '.' && n + 1 < |body| && DigitRun(body[n + 1..]) == |body| - n - 1))
  }

  predicate Formulaish(text: string) {
    text != [] && text[0] in ['=', '+', '-', '@', '\t', '\r']
  }

  /** The formula guard. */
  function Guard(text: string): string {
    if Formulaish(text) && !SafeNumeric(text) then "'" + text else text
  }

  predicate Special(c: char) {
    c == '"' || c == ',' || c == '\r' || c == '\n'
  }

  predicate NeedsQuotes(text: string) {
    exists c | c in text :: Special(c)
  }

  function Doubled(text: string): string {
    if text == [] then [] else (if text[0] == '"' then ['"', '"'] else [text[0]]) + Doubled(text[1..])
  }

  function Digits(n: nat): string {
    if n < 10 then [(n as char) + '0'] else Digits(n / 10) + [((n % 10) as char) + '0']
  }

  function Sign(n: int): string {
    if n < 0 then "-" else ""
  }

  function Abs(n: int): nat {
    if n < 0 then -n else n
  }

  function Decimal(n: int): string {
    Sign(n) + Digits(Abs(n))
  }

  /** `toFixed(2)` of an amount held in cents. */
  function Fixed2(cents: int): string {
    Sign(cents) + Digits(Abs(cents) / 100) + ("." + Digits(Abs(cents) / 10 % 10) + Digits(Abs(cents) % 10))
  }

  /** `String(amount)`: as many decimals as the amount has. */
  function Shortest(cents: int): string {
    if cents % 100 == 0 then Decimal(cents / 100)
    else if cents % 10 == 0 then
      Sign(cents) + Digits(Abs(cents) / 100) + ("." + Digits(Abs(cents) / 10 % 10))
    else Fixed2(cents)
  }

  /** The text of a cell, as `String(value)` gives it. */
  function TextOf(v: CsvValue): string {
    match v
    case Null => ""
    case Bool(b) => if b then "true" else "false"
    case Count(n) => Decimal(n)
    case Amount(cents) => Shortest(cents)
    case Text(s) => s
  }

  function EscapeCsvField(v: CsvValue): string {
    if v.Null? then "" else
    var text := Guard(TextOf(v));
    if NeedsQuotes(text) then "\"" + Doubled(text) + "\"" else text
  }

  /** `parts.join(separator)`. */
  function JoinWith(parts: seq<string>, separator: string): string {
    if parts == [] then ""
    else if |parts| == 1 then parts[0]
    else parts[0] + separator + JoinWith(parts[1..], separator)
  }

  function EscapeAll(row: seq<CsvValue>): seq<string> {
    seq(|row|, i requires 0 <= i < |row| => EscapeCsvField(row[i]))
  }

  function Line(row: seq<CsvValue>): string {
    JoinWith(EscapeAll(row), ",")
  }

  function Headers(headers: seq<string>): seq<CsvValue> {
    seq(|headers|, i requires 0 <= i < |headers| => Text(headers[i]))
  }

  function Lines(records: seq<seq<CsvValue>>): seq<string> {
    seq(|records|, i requires 0 <= i < |records| => Line(records[i]))
  }

  function ToCsv(headers: seq<string>, rows: seq<seq<CsvValue>>): string {
    JoinWith(Lines([Headers(headers)] + rows), "\r\n") + "\r\n"
  }

  // ---------------------------------------------------------------- the guard

  /** The shape the regular expression describes. */
  ghost predicate PlainDecimal(text: string) {
    exists sign: string, whole: string, fraction: string :: Shape(text, sign, whole, fraction)
  }

  ghost predicate Shape(text: string, sign: string, whole: string, fraction: string) {
    && text == sign + whole + fraction
    && (sign == "" || sign == "-")
    && whole != "" && AllDigits(whole)
    && (fraction == "" || (|fraction| > 1 && fraction[0] == '.' && AllDigits(fraction[1..])))
  }

  lemma {:induction false} DigitRunOf(digits: string, rest: string)
    requires AllDigits(digits) && (rest != "" ==> !IsDigit(rest[0]))
    ensures DigitRun(digits + rest) == |digits|
  {
    if digits == "" {
      assert digits + rest == rest;
    } else {
      assert (digits + rest)[1..] == digits[1..] + rest;
      DigitRunOf(digits[1..], rest);
    }
  }

  lemma FractionShape(fraction: string, rest: string)
    requires fraction == "." + rest && rest != "" && AllDigits(rest)
    ensures |fraction| > 1 && fraction[0] == '.' && AllDigits(fraction[1..])
  {
    assert fraction[1..] == rest;
  }

  lemma ShapeOf(whole: string, fraction: string, rest: string)
    requires whole != "" && AllDigits(whole) && fraction == "." + rest && rest != "" && AllDigits(rest)
    ensures Shape(whole + fraction, "", whole, fraction)
  {
    FractionShape(fraction, rest);
    assert "" + whole == whole;
  }

  /** The body of a safe text, cut behind its first run of digits. */
  lemma SafeShape(body: string, n: nat, whole: string, rest: string)
    requires n == DigitRun(body) && 0 < n < |body| && body[n] == '.' && whole == body[..n] && rest == body[n + 1..]
    requires rest != "" && DigitRun(rest) == |rest|
    ensures Shape(body, "", whole, "." + rest)
  {
    ShapeOf(whole, "." + rest, rest);
    assert body == whole + ("." + rest);
  }

  lemma BodyShape(body: string) returns (whole: string, fraction: string)
    requires SafeNumeric(body) && Unsigned(body) == body
    ensures Shape(body, "", whole, fraction)
  {
    var n := DigitRun(body);
    if n < |body| {
      whole, fraction := body[..n], "." + body[n + 1..];
      SafeShape(body, n, whole, body[n + 1..]);
    } else {
      whole, fraction := body, "";
      assert body == "" + body + "";
    }
  }

  lemma SignedShape(sign: string, body: string, whole: string, fraction: string)
    requires (sign == "" || sign == "-") && Shape(body, "", whole, fraction)
    ensures Shape(sign + body, sign, whole, fraction)
  {
    assert "" + whole == whole;
  }

  lemma SafeIsPlain(text: string)
    requires SafeNumeric(text)
    ensures PlainDecimal(text)
  {
    var body := Unsigned(text);
    var sign := if body == text then "" else "-";
    assert text == sign + body;
    assert Unsigned(body) == body by {
      assert IsDigit(body[0]);
    }
    var whole, fraction := BodyShape(body);
    SignedShape(sign, body, whole, fraction);
  }

  lemma PlainIsSafe(text: string, sign: string, whole: string, fraction: string)
    requires Shape(text, sign, whole, fraction)
    ensures SafeNumeric(text)
  {
    var body := whole + fraction;
    assert body[0] == whole[0];
    assert Unsigned(text) == body by {
      assert text == sign + body;
    }
    DigitRunOf(whole, fraction);
    if fraction != "" {
      var rest := fraction[1..];
      DigitRunOf(rest, "");
      assert rest + "" == rest;
      assert body[|whole| + 1..] == rest;
    }
  }

  lemma SafeNumericIffPlainDecimal(text: string)
    ensures SafeNumeric(text) <==> PlainDecimal(text)
  {
    if SafeNumeric(text) {
      SafeIsPlain(text);
    }
    if sign: string, whole: string, fraction: string :| Shape(text, sign, whole, fraction) {
      PlainIsSafe(text, sign, whole, fraction);
    }
  }

  /**
    A cell starting with =, +, -, @, a tab or a carriage return gets an apostrophe in front of its
    whole text unless it is a plain decimal; every other cell is left alone.  So only a plain
    decimal can still start like a formula.
   */
  lemma GuardDefuses(text: string)
    ensures Guard(text) == (if text != "" && text[0] in "=+-@\t\r" && !PlainDecimal(text) then "'" else "") + text
    ensures Formulaish(Guard(text)) ==> PlainDecimal(text) && Guard(text) == text
    ensures Guard(text) == text <==> !Formulaish(text) || PlainDecimal(text)
  {
    SafeNumericIffPlainDecimal(text);
    assert text != "" ==> (Formulaish(text) <==> text[0] in "=+-@\t\r");
    assert "" + text == text;
    if Formulaish(text) && !SafeNumeric(text) {
      assert Guard(text)[0] == '\'';
    }
  }

  /** The guarded text cannot always be unguarded: two texts share one cell. */
  lemma GuardNotInjective()
    ensures Guard("=1") == Guard("'=1")
  {
    assert "'" + "=1" == "'=1";
  }

  lemma {:induction false} DigitsAreDigits(n: nat)
    ensures Digits(n) != "" && AllDigits(Digits(n))
  {
    if n >= 10 {
      DigitsAreDigits(n / 10);
    }
  }

  lemma NumbersArePlain(n: int)
    ensures PlainDecimal(Decimal(n)) && PlainDecimal(Fixed2(n)) && PlainDecimal(Shortest(n))
  {
    DigitsAreDigits(Abs(n));
    DigitsAreDigits(Abs(n) / 100);
    DigitsAreDigits(Abs(n) / 10 % 10);
    DigitsAreDigits(Abs(n) % 10);
    DigitsAreDigits(Abs(n / 100));
    assert Shape(Decimal(n), Sign(n), Digits(Abs(n)), "");
    assert Shape(Decimal(n / 100), Sign(n / 100), Digits(Abs(n / 100)), "");
    var one := "." + Digits(Abs(n) / 10 % 10);
    var two := one + Digits(Abs(n) % 10);
    assert Shape(Fixed2(n), Sign(n), Digits(Abs(n) / 100), two);
    assert Shape(Sign(n) + Digits(Abs(n) / 100) + one, Sign(n), Digits(Abs(n) / 100), one);
  }

  lemma PlainNeedsNoQuotes(text: string)
    requires PlainDecimal(text)
    ensures !NeedsQuotes(text)
  {
    var sign: string, whole: string, fraction: string :| Shape(text, sign, whole, fraction);
    forall i | 0 <= i < |text| ensures !Special(text[i]) {
      if |sign| <= i < |sign| + |whole| {
        assert text[i] == whole[i - |sign|];
      } else if i > |sign| + |whole| {
        assert text[i] == fraction[1..][i - |sign| - |whole| - 1];
      }
    }
  }

  lemma PlainVerbatim(text: string)
    requires PlainDecimal(text)
    ensures EscapeCsvField(Text(text)) == text && Guard(text) == text
  {
    GuardDefuses(text);
    PlainNeedsNoQuotes(text);
  }

  // ---------------------------------------------------------------- what the numbers denote

  /** Digits without a needless zero in front. */
  ghost predicate NoLeadingZero(digits: string) {
    digits != "" && (digits[0] == '0' ==> digits == "0")
  }

  lemma {:induction false} DigitsDenote(n: nat)
    ensures AllDigits(Digits(n)) && NoLeadingZero(Digits(n)) && Worth(Digits(n)) == n
    ensures n < 10 ==> |Digits(n)| == 1
    ensures Digits(n) == "0" <==> n == 0
  {
    if n < 10 {
      assert Digits(n)[..0] == "";
    } else {
      DigitsDenote(n / 10);
      assert Digits(n)[..|Digits(n)| - 1] == Digits(n / 10);
    }
  }

  lemma {:induction false} WorthLeads(digits: string)
    requires AllDigits(digits) && NoLeadingZero(digits)
    ensures (Worth(digits) == 0 <==> digits == "0") && (Worth(digits) < 10 <==> |digits| == 1)
  {
    var front := digits[..|digits| - 1];
    if |digits| > 1 {
      WorthLeads(front);
    }
  }

  /** Of all the texts of digits without a needless zero, `Digits(n)` is the one that denotes n. */
  lemma {:induction false} DigitsUnique(n: nat, digits: string)
    requires AllDigits(digits) && NoLeadingZero(digits)
    ensures Worth(digits) == n <==> digits == Digits(n)
    decreases n
  {
    DigitsDenote(n);
    WorthLeads(digits);
    if Worth(digits) == n {
      var front := digits[..|digits| - 1];
      if n < 10 {
        assert front == "" && digits == [digits[0]];
      } else {
        DigitsUnique(n / 10, front);
        assert digits == front + [digits[|digits| - 1]];
      }
    }
  }

  /** Hundredths behind the point. */
  function Hundredths(decimals: string): nat
    requires AllDigits(decimals)
  {
    if |decimals| == 1 then 10 * Worth(decimals) else Worth(decimals)
  }

  /** `text` is sign, whole part and the digits behind the point, and denotes an amount of `cents`. */
  ghost predicate Denotes(text: string, whole: string, decimals: string, cents: int) {
    && AllDigits(whole) && NoLeadingZero(whole) && AllDigits(decimals) && |decimals| <= 2
    && text == Sign(cents) + whole + (if decimals == "" then "" else "." + decimals)
    && Abs(cents) == 100 * Worth(whole) + Hundredths(decimals)
  }

  function UnsignedCents(body: string): int {
    var n := DigitRun(body);
    var behind := if n < |body| then body[n + 1..] else "";
    100 * Worth(body[..n]) + Hundredths(behind[..DigitRun(behind)])
  }

  /** The text of an amount, read back: the sign is there exactly when the amount is negative. */
  function CentsOf(text: string): int {
    if Unsigned(text) == text then UnsignedCents(text) else -UnsignedCents(Unsigned(text))
  }

  lemma BodyReads(whole: string, decimals: string, fraction: string)
    requires AllDigits(whole) && AllDigits(decimals)
    requires fraction == if decimals == "" then "" else "." + decimals
    ensures UnsignedCents(whole + fraction) == 100 * Worth(whole) + Hundredths(decimals)
  {
    DigitRunOf(whole, fraction);
    CutReads(whole + fraction, whole, decimals);
  }

  lemma CutReads(body: string, whole: string, decimals: string)
    requires AllDigits(whole) && AllDigits(decimals) && DigitRun(body) == |whole|
    requires body == whole + if decimals == "" then "" else "." + decimals
    ensures UnsignedCents(body) == 100 * Worth(whole) + Hundredths(decimals)
  {
    var n := |whole|;
    assert body[..n] == whole;
    if decimals == "" {
      assert n == |body|;
    } else {
      assert body[n + 1..] == decimals;
    }
    AllRun(decimals);
  }

  lemma AllRun(digits: string)
    requires AllDigits(digits)
    ensures DigitRun(digits) == |digits| && digits[..DigitRun(digits)] == digits
  {
    DigitRunOf(digits, "");
    assert digits + "" == digits;
  }

  lemma Signless(sign: string, body: string)
    requires (sign == "" || sign == "-") && body != "" && IsDigit(body[0])
    ensures Unsigned(sign + body) == body && (sign + body == body <==> sign == "")
  {
    if sign == "" {
      assert sign + body == body;
    } else {
      assert |sign + body| == |body| + 1;
    }
  }

  lemma SignedReads(sign: string, body: string)
    requires (sign == "" || sign == "-") && body != "" && IsDigit(body[0])
    ensures CentsOf(sign + body) == if sign == "" then UnsignedCents(body) else -UnsignedCents(body)
  {
    Signless(sign, body);
  }

  lemma Regroup(sign: string, whole: string, fraction: string)
    requires whole != "" && AllDigits(whole)
    ensures sign + whole + fraction == sign + (whole + fraction) && IsDigit((whole + fraction)[0])
  {
  }

  lemma DenotesReads(text: string, whole: string, decimals: string, cents: int)
    requires Denotes(text, whole, decimals, cents)
    ensures CentsOf(text) == cents
  {
    var fraction := if decimals == "" then "" else "." + decimals;
    Regroup(Sign(cents), whole, fraction);
    SignedReads(Sign(cents), whole + fraction);
    BodyReads(whole, decimals, fraction);
  }

  lemma OneDigit(d: nat)
    requires d < 10
    ensures |Digits(d)| == 1 && AllDigits(Digits(d)) && Worth(Digits(d)) == d
  {
    DigitsDenote(d);
  }

  lemma TwoDigits(a: nat, b: nat)
    requires a < 10 && b < 10
    ensures |Digits(a) + Digits(b)| == 2 && AllDigits(Digits(a) + Digits(b))
    ensures Worth(Digits(a) + Digits(b)) == 10 * a + b
  {
    OneDigit(a);
    OneDigit(b);
    var both := Digits(a) + Digits(b);
    assert both[..1] == Digits(a);
  }

  /** The parts an amount is written from denote it. */
  lemma PartsDenote(cents: int, whole: nat, decimals: string)
    requires AllDigits(decimals) && 0 < |decimals| <= 2 && Abs(cents) == 100 * whole + Hundredths(decimals)
    ensures Denotes(Sign(cents) + Digits(whole) + ("." + decimals), Digits(whole), decimals, cents)
  {
    DigitsDenote(whole);
  }

  lemma Fixed2Denotes(cents: int)
    ensures Denotes(Fixed2(cents), Digits(Abs(cents) / 100),
                    Digits(Abs(cents) / 10 % 10) + Digits(Abs(cents) % 10), cents)
    ensures |Digits(Abs(cents) / 10 % 10) + Digits(Abs(cents) % 10)| == 2
  {
    var a := Abs(cents);
    var tenth, unit := a / 10 % 10, a % 10;
    TwoDigits(tenth, unit);
    PartsDenote(cents, a / 100, Digits(tenth) + Digits(unit));
    assert Fixed2(cents) == Sign(cents) + Digits(a / 100) + ("." + (Digits(tenth) + Digits(unit)));
  }

  lemma EndsInDigit(front: string, d: nat)
    requires 0 < d < 10
    ensures (front + Digits(d))[|front + Digits(d)| - 1] != '0'
  {
    OneDigit(d);
  }

  lemma WholeDenotes(cents: int)
    requires cents % 100 == 0
    ensures Denotes(Shortest(cents), Digits(Abs(cents) / 100), "", cents)
  {
    var a := Abs(cents);
    DigitsDenote(a / 100);
    assert a / 100 == Abs(cents / 100) && Sign(cents / 100) == Sign(cents);
    assert Shortest(cents) == Sign(cents) + Digits(a / 100) + "";
  }

  lemma Tenths(a: nat)
    requires a % 10 == 0
    ensures a == 100 * (a / 100) + 10 * (a / 10 % 10) && (a / 10 % 10 == 0 ==> a % 100 == 0)
  {
  }

  lemma NonZeroDigit(d: nat)
    requires 0 < d < 10
    ensures Digits(d) != "0"
  {
    DigitsDenote(d);
  }

  lemma TenthsDenote(cents: int)
    requires cents % 10 == 0 && cents % 100 != 0
    ensures Denotes(Shortest(cents), Digits(Abs(cents) / 100), Digits(Abs(cents) / 10 % 10), cents)
    ensures Digits(Abs(cents) / 10 % 10) != "0"
  {
    var a := Abs(cents);
    var tenth := a / 10 % 10;
    Tenths(a);
    OneDigit(tenth);
    NonZeroDigit(tenth);
    PartsDenote(cents, a / 100, Digits(tenth));
    assert Shortest(cents) == Sign(cents) + Digits(a / 100) + ("." + Digits(tenth));
  }

  /** As many decimals as the amount has: none, or digits that do not end in a zero. */
  lemma ShortestDenotes(cents: int) returns (whole: string, decimals: string)
    ensures Denotes(Shortest(cents), whole, decimals, cents)
    ensures decimals != "" ==> decimals[|decimals| - 1] != '0'
  {
    if cents % 100 == 0 {
      whole, decimals := Digits(Abs(cents) / 100), "";
      WholeDenotes(cents);
    } else if cents % 10 == 0 {
      whole, decimals := Digits(Abs(cents) / 100), Digits(Abs(cents) / 10 % 10);
      OneDigit(Abs(cents) / 10 % 10);
      TenthsDenote(cents);
      assert decimals == [decimals[0]];
    } else {
      whole, decimals := Digits(Abs(cents) / 100), Digits(Abs(cents) / 10 % 10) + Digits(Abs(cents) % 10);
      Fixed2Denotes(cents);
      EndsInDigit(Digits(Abs(cents) / 10 % 10), Abs(cents) % 10);
    }
  }

  lemma DecimalDenotes(n: int)
    ensures Denotes(Decimal(n), Digits(Abs(n)), "", 100 * n)
  {
    DigitsDenote(Abs(n));
    assert Decimal(n) == Sign(100 * n) + Digits(Abs(n)) + "";
  }

  /** A decimal text of the amount with just the decimals it needs. */
  ghost predicate InShort(text: string, cents: int) {
    exists whole: string, decimals: string ::
      Denotes(text, whole, decimals, cents) && (decimals != "" ==> decimals[|decimals| - 1] != '0')
  }

  /** A decimal text of the amount with exactly two decimals. */
  ghost predicate InFull(text: string, cents: int) {
    exists whole: string, decimals: string :: Denotes(text, whole, decimals, cents) && |decimals| == 2
  }

  lemma AmountDenotes(cents: int)
    ensures InShort(Shortest(cents), cents) && CentsOf(Shortest(cents)) == cents
    ensures InFull(Fixed2(cents), cents) && CentsOf(Fixed2(cents)) == cents
  {
    var whole, decimals := ShortestDenotes(cents);
    DenotesReads(Shortest(cents), whole, decimals, cents);
    Fixed2Denotes(cents);
    DenotesReads(Fixed2(cents), Digits(Abs(cents) / 100),
                 Digits(Abs(cents) / 10 % 10) + Digits(Abs(cents) % 10), cents);
  }

  /**
    A number survives as the number it is: a count is written as its decimal digits, an amount with
    as many decimals as it has or, fixed, with two; and reading the field back gives the value.
   */
  lemma NumbersVerbatim(n: SafeInt)
    ensures Denotes(EscapeCsvField(Count(n)), Digits(Abs(n)), "", 100 * n)
    ensures CentsOf(EscapeCsvField(Count(n))) == 100 * n
    ensures InShort(EscapeCsvField(Amount(n)), n) && CentsOf(EscapeCsvField(Amount(n))) == n
    ensures InFull(EscapeCsvField(Text(Fixed2(n))), n) && CentsOf(EscapeCsvField(Text(Fixed2(n)))) == n
  {
    NumbersArePlain(n);
    assert EscapeCsvField(Count(n)) == Decimal(n) by {
      PlainVerbatim(Decimal(n));
    }
    assert EscapeCsvField(Amount(n)) == Shortest(n) by {
      PlainVerbatim(Shortest(n));
    }
    assert EscapeCsvField(Text(Fixed2(n))) == Fixed2(n) by {
      PlainVerbatim(Fixed2(n));
    }
    DecimalDenotes(n);
    DenotesReads(Decimal(n), Digits(Abs(n)), "", 100 * n);
    AmountDenotes(n);
  }

  /** Quotes are put around a cell exactly when it holds a comma, a quote or a line break. */
  lemma QuotedIff(v: CsvValue)
    ensures var cell := Guard(TextOf(v));
            EscapeCsvField(v) == cell <==> ',' !in cell && '"' !in cell && '\r' !in cell && '\n' !in cell
    ensures TextOf(Null) == "" && TextOf(Bool(true)) == "true" && TextOf(Bool(false)) == "false"
  {
    var cell := Guard(TextOf(v));
    if NeedsQuotes(cell) {
      DoubledGrows(cell);
    }
  }

  lemma {:induction false} DoubledGrows(text: string)
    ensures |Doubled(text)| >= |text|
  {
    if text != "" {
      DoubledGrows(text[1..]);
    }
  }
}
