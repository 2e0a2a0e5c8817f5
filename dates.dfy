/**
 * Calendar dates and `strftime('%Y-%m-%d')`, the form both the scrape date
 * in a candidate's context and the keys of the daily statistics take.
 */
module Dates {
  import opened Wrappers

  datatype Date = Date(year: int, month: int, day: int)

  predicate IsLeapYear(y: int) {
    y % 4 == 0 && (y % 100 != 0 || y % 400 == 0)
  }

  function DaysInMonth(y: int, m: int): int
    requires 1 <= m <= 12
  {
    if m == 2 then (if IsLeapYear(y) then 29 else 28)
    else if m == 4 || m == 6 || m == 9 || m == 11 then 30
    else 31
  }

  /**
   * A date the clock can give. Years before 1000 are left out: how `%Y`
   * pads them depends on the platform's C library.
   */
  predicate Valid(d: Date) {
    1000 <= d.year <= 9999 && 1 <= d.month <= 12 && 1 <= d.day <= DaysInMonth(d.year, d.month)
  }

  predicate IsDigit(c: char) {
    '0' <= c <= '9'
  }

  function Digit(n: int): (c: char)
    requires 0 <= n < 10
    ensures IsDigit(c)
  {
    (48 + n) as char
  }

  function DigitValue(c: char): int
    requires IsDigit(c)
  {
    c as int - 48
  }

  /** `%m` and `%d`: two digits, zero-padded. */
  function Pad2(n: int): (r: string)
    requires 0 <= n < 100
    ensures |r| == 2 && IsDigit(r[0]) && IsDigit(r[1])
  {
    [Digit(n / 10), Digit(n % 10)]
  }

  /** `%Y` for a four-digit year. */
  function Pad4(n: int): (r: string)
    requires 1000 <= n < 10000
    ensures |r| == 4 && IsDigit(r[0]) && IsDigit(r[1]) && IsDigit(r[2]) && IsDigit(r[3])
  {
    [Digit(n / 1000), Digit((n / 100) % 10), Digit((n / 10) % 10), Digit(n % 10)]
  }

  /** `d.strftime('%Y-%m-%d')` */
  function IsoFormat(d: Date): (r: string)
    requires Valid(d)
    ensures |r| == 10 && r[4] == '-' && r[7] == '-'
    ensures forall i :: 0 <= i < 10 && i != 4 && i != 7 ==> IsDigit(r[i])
  {
    Pad4(d.year) + "-" + Pad2(d.month) + "-" + Pad2(d.day)
  }

  function Value2(s: string): int
    requires |s| == 2 && IsDigit(s[0]) && IsDigit(s[1])
  {
    10 * DigitValue(s[0]) + DigitValue(s[1])
  }

  function Value4(s: string): int
    requires |s| == 4 && IsDigit(s[0]) && IsDigit(s[1]) && IsDigit(s[2]) && IsDigit(s[3])
  {
    1000 * DigitValue(s[0]) + 100 * DigitValue(s[1]) + 10 * DigitValue(s[2]) + DigitValue(s[3])
  }

  /** Reads a `YYYY-MM-DD` string back; `None` unless it names a valid date. */
  function ParseIso(s: string): (r: Option<Date>)
    ensures r.Some? ==> Valid(r.value)
  {
    if |s| == 10 && s[4] == '-' && s[7] == '-'
       && (forall i :: 0 <= i < 10 && i != 4 && i != 7 ==> IsDigit(s[i]))
    then
      var d := Date(Value4(s[..4]), Value2(s[5..7]), Value2(s[8..]));
      if Valid(d) then Some(d) else None
    else None
  }

  lemma Pad2Value(n: int)
    requires 0 <= n < 100
    ensures Value2(Pad2(n)) == n
  {
  }

  lemma Pad4Value(n: int)
    requires 1000 <= n < 10000
    ensures Value4(Pad4(n)) == n
  {
    var a, b, c, e := n / 1000, (n / 100) % 10, (n / 10) % 10, n % 10;
    assert n / 100 == 10 * a + b;
    assert n / 10 == 10 * (n / 100) + c;
  }

  /** Formatting loses nothing: the date can be read back from its string. */
  lemma ParseFormat(d: Date)
    requires Valid(d)
    ensures ParseIso(IsoFormat(d)) == Some(d)
  {
    var s := IsoFormat(d);
    assert s[..4] == Pad4(d.year) && s[5..7] == Pad2(d.month) && s[8..] == Pad2(d.day);
    Pad4Value(d.year);
    Pad2Value(d.month);
    Pad2Value(d.day);
  }

  /** Distinct dates give distinct strings, so each date has its own bucket. */
  lemma FormatInjective(d1: Date, d2: Date)
    requires Valid(d1) && Valid(d2) && IsoFormat(d1) == IsoFormat(d2)
    ensures d1 == d2
  {
    ParseFormat(d1);
    ParseFormat(d2);
  }
}
