/**
  Calendar dates as the timecard service reads them: an effort's date arrives as text and is
  turned into a calendar date by the ISO local-date parser (ISO 8601:2004 section 4.1.2.2,
  calendar date in extended format YYYY-MM-DD). The parser is strict: the day must exist in
  the month of the proleptic Gregorian calendar. `Format` is the inverse rendering
  (the text a calendar date prints as), used to state the round trip.
 */
module Dates {
  import opened Wrappers

  datatype Date = Date(year: int, month: int, day: int)

  /** Leap years of the proleptic Gregorian calendar. */
  predicate IsLeapYear(y: int) {
    y % 4 == 0 && (y % 100 != 0 || y % 400 == 0)
  }

  function DaysInMonth(y: int, m: int): (n: int)
    requires 1 <= m <= 12
    ensures 28 <= n <= 31
    ensures n == 29 <==> m == 2 && IsLeapYear(y)
  {
    if m == 2 then (if IsLeapYear(y) then 29 else 28)
    else if m == 4 || m == 6 || m == 9 || m == 11 then 30
    else 31
  }

  /** A date that exists in the calendar and whose year is written with four digits. */
  predicate IsValidDate(d: Date) {
    0 <= d.year <= 9999 && 1 <= d.month <= 12 && 1 <= d.day <= DaysInMonth(d.year, d.month)
  }

  predicate IsDigit(c: char) {
    '0' <= c <= '9'
  }

  function DigitValue(c: char): (v: nat)
    requires IsDigit(c)
    ensures v < 10
  {
    (c as int) - ('0' as int)
  }

  function DigitChar(v: nat): (c: char)
    requires v < 10
    ensures IsDigit(c) && DigitValue(c) == v
  {
    ((('0' as int) + v) as char)
  }

  lemma DigitCharOfValue(c: char)
    requires IsDigit(c)
    ensures DigitChar(DigitValue(c)) == c
  {
  }

  /** The value of the two decimal digits s[i], s[i+1]. */
  function Value2(s: string, i: nat): (v: nat)
    requires i + 2 <= |s| && IsDigit(s[i]) && IsDigit(s[i + 1])
    ensures v < 100
  {
    10 * DigitValue(s[i]) + DigitValue(s[i + 1])
  }

  /** The value of the four decimal digits s[i] .. s[i+3]. */
  function Value4(s: string, i: nat): (v: nat)
    requires i + 4 <= |s|
    requires IsDigit(s[i]) && IsDigit(s[i + 1]) && IsDigit(s[i + 2]) && IsDigit(s[i + 3])
    ensures v < 10000
  {
    100 * Value2(s, i) + Value2(s, i + 2)
  }

  /** The shape YYYY-MM-DD: ten characters, digits everywhere except the two hyphens. */
  predicate HasIsoShape(s: string) {
    |s| == 10 && s[4] == '-' && s[7] == '-'
    && IsDigit(s[0]) && IsDigit(s[1]) && IsDigit(s[2]) && IsDigit(s[3])
    && IsDigit(s[5]) && IsDigit(s[6]) && IsDigit(s[8]) && IsDigit(s[9])
  }

  /**
    The ISO local-date parser: the date the text names, or None when the text is not of the
    form YYYY-MM-DD or names a month or day that does not exist.
   */
  function ParseDate(s: string): (r: Option<Date>)
    ensures r.Some? ==> IsValidDate(r.value)
    ensures r.Some? ==> HasIsoShape(s)
  {
    if !HasIsoShape(s) then None
    else
      var d := Date(Value4(s, 0), Value2(s, 5), Value2(s, 8));
      if 1 <= d.month <= 12 && 1 <= d.day <= DaysInMonth(d.year, d.month) then Some(d) else None
  }

  /** The four-digit, zero-padded decimal rendering of n. */
  function Digits4(n: nat): (s: string)
    requires n < 10000
    ensures |s| == 4
  {
    [DigitChar(n / 1000), DigitChar(n / 100 % 10), DigitChar(n / 10 % 10), DigitChar(n % 10)]
  }

  /** The two-digit, zero-padded decimal rendering of n. */
  function Digits2(n: nat): (s: string)
    requires n < 100
    ensures |s| == 2
  {
    [DigitChar(n / 10), DigitChar(n % 10)]
  }

  /** The text a valid date prints as: YYYY-MM-DD, each field zero-padded. */
  function Format(d: Date): (s: string)
    requires IsValidDate(d)
    ensures HasIsoShape(s)
  {
    Digits4(d.year) + "-" + Digits2(d.month) + "-" + Digits2(d.day)
  }

  lemma Value2OfDigits(s: string, i: nat, n: nat)
    requires n < 100 && i + 2 <= |s| && s[i..i + 2] == Digits2(n)
    ensures IsDigit(s[i]) && IsDigit(s[i + 1]) && Value2(s, i) == n
  {
    assert s[i] == s[i..i + 2][0] && s[i + 1] == s[i..i + 2][1];
  }

  lemma Value4OfDigits(s: string, i: nat, n: nat)
    requires n < 10000 && i + 4 <= |s| && s[i..i + 4] == Digits4(n)
    ensures IsDigit(s[i]) && IsDigit(s[i + 1]) && IsDigit(s[i + 2]) && IsDigit(s[i + 3])
    ensures Value4(s, i) == n
  {
    assert s[i] == s[i..i + 4][0] && s[i + 1] == s[i..i + 4][1];
    assert s[i + 2] == s[i..i + 4][2] && s[i + 3] == s[i..i + 4][3];
    DigitsRecompose(n);
  }

  /** Decimal positional notation: n < 10000 is recomposed from its four digits. */
  lemma DigitsRecompose(n: nat)
    requires n < 10000
    ensures 1000 * (n / 1000) + 100 * (n / 100 % 10) + 10 * (n / 10 % 10) + n % 10 == n
  {
    var q, r := n / 100, n % 100;
    assert n == 100 * q + r;
    assert n / 1000 == q / 10 && n / 100 % 10 == q % 10;
    assert n / 10 == 10 * q + r / 10;
    assert n / 10 % 10 == r / 10;
    assert n % 10 == r % 10;
  }

  /** Parsing the printed form of a valid date gives that date back. */
  lemma ParseFormat(d: Date)
    requires IsValidDate(d)
    ensures ParseDate(Format(d)) == Some(d)
  {
    var s := Format(d);
    assert s[0..4] == Digits4(d.year);
    assert s[5..7] == Digits2(d.month);
    assert s[8..10] == Digits2(d.day);
    Value4OfDigits(s, 0, d.year);
    Value2OfDigits(s, 5, d.month);
    Value2OfDigits(s, 8, d.day);
  }

  lemma Digits2OfValue(s: string, i: nat)
    requires i + 2 <= |s| && IsDigit(s[i]) && IsDigit(s[i + 1])
    ensures Digits2(Value2(s, i)) == s[i..i + 2]
  {
    var a, b := DigitValue(s[i]), DigitValue(s[i + 1]);
    assert (10 * a + b) / 10 == a && (10 * a + b) % 10 == b;
    DigitCharOfValue(s[i]);
    DigitCharOfValue(s[i + 1]);
  }

  /** Decimal positional notation: the digits of 1000a + 100b + 10c + e are a, b, c, e. */
  lemma Positional4(a: nat, b: nat, c: nat, e: nat)
    requires a < 10 && b < 10 && c < 10 && e < 10
    ensures (1000 * a + 100 * b + 10 * c + e) / 1000 == a
    ensures (1000 * a + 100 * b + 10 * c + e) / 100 % 10 == b
    ensures (1000 * a + 100 * b + 10 * c + e) / 10 % 10 == c
    ensures (1000 * a + 100 * b + 10 * c + e) % 10 == e
  {
    var n := 1000 * a + 100 * b + 10 * c + e;
    assert n / 100 == 10 * a + b;
    assert n / 10 == 100 * a + 10 * b + c;
  }

  lemma Digits4OfValue(s: string, i: nat)
    requires i + 4 <= |s|
    requires IsDigit(s[i]) && IsDigit(s[i + 1]) && IsDigit(s[i + 2]) && IsDigit(s[i + 3])
    ensures Digits4(Value4(s, i)) == s[i..i + 4]
  {
    var a, b, c, e := DigitValue(s[i]), DigitValue(s[i + 1]), DigitValue(s[i + 2]), DigitValue(s[i + 3]);
    assert Value4(s, i) == 1000 * a + 100 * b + 10 * c + e;
    Positional4(a, b, c, e);
    DigitCharOfValue(s[i]);
    DigitCharOfValue(s[i + 1]);
    DigitCharOfValue(s[i + 2]);
    DigitCharOfValue(s[i + 3]);
  }

  /** Every text the parser accepts is the printed form of the date it yields. */
  lemma FormatParse(s: string)
    requires ParseDate(s).Some?
    ensures Format(ParseDate(s).value) == s
  {
    Digits4OfValue(s, 0);
    Digits2OfValue(s, 5);
    Digits2OfValue(s, 8);
    assert s == s[0..4] + "-" + s[5..7] + "-" + s[8..10];
  }
}
