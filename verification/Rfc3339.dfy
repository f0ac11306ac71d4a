/** Times as the access lists write them: RFC 3339 in UTC with whole seconds, as section 5.6 of
    RFC 3339 has it, and the proleptic Gregorian calendar behind it. What is written reads back,
    for every second of the years 0 to 9999. */
module Rfc3339 {
  import opened Bytes

  const DAY := 86400

  /** A second of a year of four digits. Seconds count from the start of year 1, which is the zero
      time; year 0 is the leap year before. */
  predicate Stamped(t: int) {
    -366 * DAY <= t < 3652059 * DAY
  }

  // ----- the calendar

  predicate Leap(y: nat) {
    y % 4 == 0 && (y % 100 != 0 || y % 400 == 0)
  }

  function YearDays(y: nat): (d: nat) {
    if Leap(y) then 366 else 365
  }

  /** How many days before year y, from the start of year 0. */
  function YearStart(y: nat): nat {
    if y == 0 then 0 else YearStart(y - 1) + YearDays(y - 1)
  }

  lemma Fourths(y: nat)
    ensures (y + 4) / 4 == (y + 3) / 4 + if y % 4 == 0 then 1 else 0
  {
  }

  lemma Hundredths(y: nat)
    ensures (y + 100) / 100 == (y + 99) / 100 + if y % 100 == 0 then 1 else 0
  {
  }

  lemma FourHundredths(y: nat)
    ensures (y + 400) / 400 == (y + 399) / 400 + if y % 400 == 0 then 1 else 0
  {
    var q, r := y / 400, y % 400;
    assert y == 400 * q + r;
    assert (y + 399) / 400 == if r == 0 then q else q + 1;
  }

  lemma Centuries(y: nat)
    ensures (y % 400 == 0 ==> y % 100 == 0) && (y % 100 == 0 ==> y % 4 == 0)
  {
    if y % 400 == 0 {
      assert y == 100 * (4 * (y / 400));
    }
    if y % 100 == 0 {
      assert y == 4 * (25 * (y / 100));
    }
  }

  /** The same by a formula: 365 days a year, and the leap days before. */
  lemma {:induction false} YearStartFormula(y: nat)
    ensures YearStart(y) == 365 * y + (y + 3) / 4 - (y + 99) / 100 + (y + 399) / 400
  {
    if y > 0 {
      YearStartFormula(y - 1);
      Fourths(y - 1);
      Hundredths(y - 1);
      FourHundredths(y - 1);
      Centuries(y - 1);
    }
  }

  /** The year that day d, counted from the start of year 0, is in. */
  function YearOf(d: nat, y: nat): (year: nat)
    requires YearStart(y) <= d
    ensures YearStart(year) <= d < YearStart(year + 1)
    decreases d - YearStart(y)
  {
    if d < YearStart(y + 1) then y else YearOf(d, y + 1)
  }

  lemma {:induction false} YearsInOrder(y: nat, z: nat)
    requires y <= z
    ensures YearStart(y) <= YearStart(z)
  {
    if y < z {
      YearsInOrder(y, z - 1);
      }
  }

  lemma TenThousandYears(y: nat)
    requires YearStart(y) < 3652425
    ensures y < 10000
  {
    YearStartFormula(10000);
    if y >= 10000 {
      YearsInOrder(10000, y);
    }
  }

  function MonthDays(y: nat, m: nat): (d: nat)
    ensures 28 <= d <= 31
  {
    if m == 4 || m == 6 || m == 9 || m == 11 then 30 else if m != 2 then 31 else if Leap(y) then 29 else 28
  }

  /** How many days of year y before month m. */
  function MonthStart(y: nat, m: nat): (d: nat)
    requires 1 <= m <= 13
  {
    if m == 1 then 0 else MonthStart(y, m - 1) + MonthDays(y, m - 1)
  }

  lemma TwelveMonths(y: nat)
    ensures MonthStart(y, 13) == YearDays(y)
  {
    assert MonthStart(y, 2) == 31;
    assert MonthStart(y, 3) == 31 + MonthDays(y, 2);
    assert MonthStart(y, 5) == MonthStart(y, 4) + 30 == MonthStart(y, 3) + 61;
    assert MonthStart(y, 7) == MonthStart(y, 6) + 30 == MonthStart(y, 5) + 61;
    assert MonthStart(y, 9) == MonthStart(y, 8) + 31 == MonthStart(y, 7) + 62;
    assert MonthStart(y, 11) == MonthStart(y, 10) + 31 == MonthStart(y, 9) + 61;
    assert MonthStart(y, 13) == MonthStart(y, 12) + 31 == MonthStart(y, 11) + 61;
  }

  /** The same by a formula for the lengths 31, 30, 31, 30, 31: no month is too long or too short. */
  lemma MonthStartFormula(y: nat, m: nat)
    requires 1 <= m <= 12
    ensures MonthStart(y, m) == (367 * m - 362) / 12 - (if m <= 2 then 0 else if Leap(y) then 1 else 2)
  {
    assert MonthStart(y, 3) == MonthStart(y, 2) + MonthDays(y, 2);
    if m > 3 {
      MonthStartFormula(y, m - 1);
    }
  }

  /** The month that day d of year y is in. */
  function MonthOf(y: nat, d: nat, m: nat): (month: nat)
    requires 1 <= m <= 12 && MonthStart(y, m) <= d < YearDays(y)
    ensures 1 <= month <= 12 && MonthStart(y, month) <= d < MonthStart(y, month) + MonthDays(y, month)
    decreases 12 - m, d
  {
    TwelveMonths(y);
    if d < MonthStart(y, m) + MonthDays(y, m) then m else MonthOf(y, d, m + 1)
  }

  // ----- digits

  /** The last n decimal digits of k. */
  function Digits(n: nat, k: nat): (s: bytes)
    ensures |s| == n && forall i :: 0 <= i < n ==> 48 <= s[i] <= 57
  {
    if n == 0 then [] else Digits(n - 1, k / 10) + [48 + k % 10]
  }

  function Pow10(n: nat): (p: nat)
    ensures p > 0
  {
    if n == 0 then 1 else 10 * Pow10(n - 1)
  }

  /** The first digit counts the most. */
  lemma {:induction false} DigitAt(n: nat, k: nat, i: nat)
    requires i < n
    ensures Digits(n, k)[i] == 48 + k / Pow10(n - 1 - i) % 10
  {
    if i < n - 1 {
      DigitAt(n - 1, k / 10, i);
      DivideTwice(k, 10, Pow10(n - 2 - i));
    }
  }

  lemma {:induction false} NumberOfDigits(n: nat, k: nat)
    requires k < Pow10(n)
    ensures FromDecimal(Digits(n, k)) == k
  {
    if n > 0 {
      NumberOfDigits(n - 1, k / 10);
      assert Digits(n, k)[..n - 1] == Digits(n - 1, k / 10);
    }
  }

  // ----- the text

  datatype Date = Date(year: int, month: int, day: int, hour: int, minute: int, second: int)

  /** Second s of a day. */
  function At(year: int, month: int, day: int, s: nat): Date {
    Date(year, month, day, s / 3600, s / 60 % 60, s % 60)
  }

  /** Second s of day d, counted from the start of year 0. */
  function DateOn(d: nat, s: nat): Date {
    var year := YearOf(d, 0);
    var inYear := d - YearStart(year);
    var month := MonthOf(year, inYear, 1);
    At(year, month, inYear - MonthStart(year, month) + 1, s)
  }

  function DateOf(t: int): Date
    requires Stamped(t)
  {
    DateOn(t / DAY + 366, t % DAY)
  }

  predicate ValidDate(d: Date) {
    && 0 <= d.year < 10000 && 1 <= d.month <= 12 && 1 <= d.day <= MonthDays(d.year, d.month)
    && 0 <= d.hour < 24 && 0 <= d.minute < 60 && 0 <= d.second < 60
  }

  /** Its day, counted from the start of year 0, and the second of that day. */
  function DayNumber(d: Date): (n: nat)
    requires ValidDate(d)
  {
    YearStart(d.year) + MonthStart(d.year, d.month) + d.day - 1
  }

  function SecondOf(d: Date): nat
    requires ValidDate(d)
  {
    d.hour * 3600 + d.minute * 60 + d.second
  }

  function TimeOf(d: Date): int
    requires ValidDate(d)
  {
    (DayNumber(d) - 366) * DAY + SecondOf(d)
  }

  lemma DateRoundTrip(t: int)
    requires Stamped(t)
    ensures ValidDate(DateOf(t)) && TimeOf(DateOf(t)) == t
  {
    var d := DateOf(t);
    TenThousandYears(d.year);
  }

  lemma YearNotBefore(d: nat, y: nat, z: nat)
    requires YearStart(z) <= d < YearStart(y + 1)
    ensures z <= y
  {
    if y < z {
      YearsInOrder(y + 1, z);
    }
  }

  lemma YearIs(d: nat, y: nat, z: nat)
    requires YearStart(y) <= d < YearStart(y + 1) && YearStart(z) <= d < YearStart(z + 1)
    ensures y == z
  {
    YearNotBefore(d, y, z);
    YearNotBefore(d, z, y);
  }

  lemma {:induction false} MonthsInOrder(y: nat, m: nat, n: nat)
    requires 1 <= m < n <= 13
    ensures MonthStart(y, m) + MonthDays(y, m) <= MonthStart(y, n)
  {
    if m < n - 1 {
      MonthsInOrder(y, m, n - 1);
    }
  }

  lemma MonthIs(y: nat, d: nat, m: nat, n: nat)
    requires 1 <= m <= 12 && MonthStart(y, m) <= d < MonthStart(y, m) + MonthDays(y, m)
    requires 1 <= n <= 12 && MonthStart(y, n) <= d < MonthStart(y, n) + MonthDays(y, n)
    ensures m == n
  {
    if m < n {
      MonthsInOrder(y, m, n);
    } else if n < m {
      MonthsInOrder(y, n, m);
    }
  }

  lemma YearOfIs(y: nat, d: nat)
    requires YearStart(y) <= d < YearStart(y + 1)
    ensures YearOf(d, 0) == y
  {
    YearIs(d, YearOf(d, 0), y);
  }

  lemma InYear(y: nat, m: nat, d: nat)
    requires 1 <= m <= 12 && d < MonthStart(y, m) + MonthDays(y, m)
    ensures d < YearDays(y)
  {
    MonthsInOrder(y, m, 13);
    TwelveMonths(y);
  }

  lemma MonthOfIs(y: nat, m: nat, d: nat)
    requires 1 <= m <= 12 && MonthStart(y, m) <= d < MonthStart(y, m) + MonthDays(y, m)
    ensures d < YearDays(y) && MonthOf(y, d, 1) == m
  {
    InYear(y, m, d);
    MonthIs(y, d, MonthOf(y, d, 1), m);
  }

  lemma YearInRange(y: nat)
    requires y < 10000
    ensures 0 <= YearStart(y) && YearStart(y + 1) <= 3652425
  {
    YearStartFormula(10000);
    YearsInOrder(y + 1, 10000);
  }

  /** Every date of these years, to the second, is the date of one time and of no other. */
  lemma TimeRoundTrip(d: Date)
    requires ValidDate(d)
    ensures Stamped(TimeOf(d)) && DateOf(TimeOf(d)) == d
  {
    DayInRange(d);
    DayAndSecond(DayNumber(d) - 366, SecondOf(d));
    DateOfDay(d);
  }

  lemma DateOfDay(d: Date)
    requires ValidDate(d)
    ensures DateOn(DayNumber(d), SecondOf(d)) == d
  {
    var inYear := MonthStart(d.year, d.month) + d.day - 1;
    MonthOfIs(d.year, d.month, inYear);
    YearOfIs(d.year, DayNumber(d));
    DateOnIs(DayNumber(d), SecondOf(d), d.year, inYear, d.month);
    AtIs(d);
  }

  lemma DateOnIs(d: nat, s: nat, year: nat, inYear: nat, month: nat)
    requires YearOf(d, 0) == year && d == YearStart(year) + inYear && inYear < YearDays(year)
    requires MonthOf(year, inYear, 1) == month
    ensures DateOn(d, s) == At(year, month, inYear - MonthStart(year, month) + 1, s)
  {
  }

  lemma AtIs(d: Date)
    requires ValidDate(d)
    ensures At(d.year, d.month, d.day, SecondOf(d)) == d
  {
    ClockOf(d.hour, d.minute, d.second);
  }

  lemma DayInRange(d: Date)
    requires ValidDate(d)
    ensures DayNumber(d) < 3652425 && SecondOf(d) < DAY && Stamped(TimeOf(d))
  {
    InYear(d.year, d.month, MonthStart(d.year, d.month) + d.day - 1);
    YearInRange(d.year);
  }

  lemma DayAndSecond(day: int, s: nat)
    requires s < DAY
    ensures (day * DAY + s) / DAY == day && (day * DAY + s) % DAY == s
  {
  }

  lemma ClockOf(hour: nat, minute: nat, second: nat)
    requires minute < 60 && second < 60
    ensures var s := hour * 3600 + minute * 60 + second;
            s / 3600 == hour && s / 60 % 60 == minute && s % 60 == second
  {
    var s := hour * 3600 + minute * 60 + second;
    assert s / 60 == hour * 60 + minute;
  }

  function Text(d: Date): bytes
    requires ValidDate(d)
  {
    Digits(4, d.year) + [45] + Digits(2, d.month) + [45] + Digits(2, d.day) + [84]
    + Digits(2, d.hour) + [58] + Digits(2, d.minute) + [58] + Digits(2, d.second) + [90]
  }

  function Fields(s: bytes): Date
    requires |s| == 20
  {
    Date(FromDecimal(s[..4]), FromDecimal(s[5..7]), FromDecimal(s[8..10]),
         FromDecimal(s[11..13]), FromDecimal(s[14..16]), FromDecimal(s[17..19]))
  }

  function Format(t: int): bytes
    requires Stamped(t)
  {
    DateRoundTrip(t);
    Text(DateOf(t))
  }

  /** The zero time for a text that is not of this form, or is no date. */
  function Parse(s: bytes): int {
    if |s| == 20 && ValidDate(Fields(s)) && s == Text(Fields(s)) then TimeOf(Fields(s)) else 0
  }

  predicate Printing(s: bytes) {
    forall i :: 0 <= i < |s| ==> 32 < s[i] < 127
  }

  lemma TextPrints(d: Date)
    requires ValidDate(d)
    ensures |Text(d)| == 20 && Printing(Text(d))
  {
  }

  lemma FieldsOfText(d: Date)
    requires ValidDate(d)
    ensures |Text(d)| == 20 && Fields(Text(d)) == d
  {
    var s := Text(d);
    assert Pow10(2) == 100 && Pow10(4) == 10000 by { assert Pow10(3) == 10 * Pow10(2); }
    assert s[..4] == Digits(4, d.year) && s[5..7] == Digits(2, d.month) && s[8..10] == Digits(2, d.day);
    assert s[11..13] == Digits(2, d.hour) && s[14..16] == Digits(2, d.minute) && s[17..19] == Digits(2, d.second);
    NumberOfDigits(4, d.year);
    NumberOfDigits(2, d.month);
    NumberOfDigits(2, d.day);
    NumberOfDigits(2, d.hour);
    NumberOfDigits(2, d.minute);
    NumberOfDigits(2, d.second);
  }

  lemma ParseOfText(d: Date)
    requires ValidDate(d)
    ensures Parse(Text(d)) == TimeOf(d)
  {
    FieldsOfText(d);
  }

  /** Every second of four-digit years survives being written and read, in 20 printing bytes. */
  lemma FormatRoundTrip(t: int)
    requires Stamped(t)
    ensures Parse(Format(t)) == t
    ensures |Format(t)| == 20 && Printing(Format(t))
  {
    DateRoundTrip(t);
    ParseOfText(DateOf(t));
    TextPrints(DateOf(t));
  }

  /** The last second but one of a leap day. */
  lemma LeapDay(d: Date)
    requires d == Date(2024, 2, 29, 23, 59, 58)
    ensures ValidDate(d) && Text(d) == Ascii("2024-02-29T23:59:58Z")
  {
    assert Leap(d.year);
    TextIs(d, Ascii("2024-02-29T23:59:58Z"));
  }

  /** Year 1 starts with the zero time. */
  lemma ZeroTime(d: Date)
    requires ValidDate(d) && d.year == d.month == d.day == 1 && d.hour == d.minute == d.second == 0
    ensures TimeOf(d) == 0
  {
    assert YearStart(1) == 366;
    assert MonthStart(1, 1) == 0;
    assert DayNumber(d) == 366;
  }

  lemma TextIs(d: Date, t: bytes)
    requires ValidDate(d) && |t| == 20
    requires t[0] == 48 + d.year / 1000 && t[1] == 48 + d.year / 100 % 10
    requires t[2] == 48 + d.year / 10 % 10 && t[3] == 48 + d.year % 10
    requires t[4] == t[7] == '-' as int && t[10] == 'T' as int && t[13] == t[16] == ':' as int && t[19] == 'Z' as int
    requires t[5] == 48 + d.month / 10 && t[6] == 48 + d.month % 10
    requires t[8] == 48 + d.day / 10 && t[9] == 48 + d.day % 10
    requires t[11] == 48 + d.hour / 10 && t[12] == 48 + d.hour % 10
    requires t[14] == 48 + d.minute / 10 && t[15] == 48 + d.minute % 10
    requires t[17] == 48 + d.second / 10 && t[18] == 48 + d.second % 10
    ensures Text(d) == t
  {
    var s := Text(d);
    TextOf(d);
    SameTen(s, t, 0);
    SameTen(s, t, 10);
    SameHalves(s, t);
  }

  lemma SameTen(s: bytes, t: bytes, k: nat)
    requires |s| == |t| == 20 && k <= 10
    requires s[k] == t[k] && s[k + 1] == t[k + 1] && s[k + 2] == t[k + 2] && s[k + 3] == t[k + 3]
    requires s[k + 4] == t[k + 4] && s[k + 5] == t[k + 5] && s[k + 6] == t[k + 6] && s[k + 7] == t[k + 7]
    requires s[k + 8] == t[k + 8] && s[k + 9] == t[k + 9]
    ensures s[k..k + 10] == t[k..k + 10]
  {
  }

  lemma SameHalves(s: bytes, t: bytes)
    requires |s| == |t| == 20 && s[0..10] == t[0..10] && s[10..20] == t[10..20]
    ensures s == t
  {
    assert s == s[0..10] + s[10..20] && t == t[0..10] + t[10..20];
  }

  /** Four digits of the year, two of everything else, and what stands between them. */
  lemma TextOf(d: Date)
    requires ValidDate(d)
    ensures var s := Text(d);
            && |s| == 20 && s[0] == 48 + d.year / 1000 && s[1] == 48 + d.year / 100 % 10
            && s[2] == 48 + d.year / 10 % 10 && s[3] == 48 + d.year % 10
            && s[4] == s[7] == '-' as int && s[10] == 'T' as int && s[13] == s[16] == ':' as int && s[19] == 'Z' as int
            && s[5] == 48 + d.month / 10 && s[6] == 48 + d.month % 10
            && s[8] == 48 + d.day / 10 && s[9] == 48 + d.day % 10
            && s[11] == 48 + d.hour / 10 && s[12] == 48 + d.hour % 10
            && s[14] == 48 + d.minute / 10 && s[15] == 48 + d.minute % 10
            && s[17] == 48 + d.second / 10 && s[18] == 48 + d.second % 10
  {
    var s := Text(d);
    TextParts(d);
    FourDigits(d.year);
    TwoDigits(d.month);
    TwoDigits(d.day);
    TwoDigits(d.hour);
    TwoDigits(d.minute);
    TwoDigits(d.second);
    assert s[0] == s[..4][0] && s[1] == s[..4][1] && s[2] == s[..4][2] && s[3] == s[..4][3];
    assert s[5] == s[5..7][0] && s[6] == s[5..7][1] && s[8] == s[8..10][0] && s[9] == s[8..10][1];
    assert s[11] == s[11..13][0] && s[12] == s[11..13][1] && s[14] == s[14..16][0] && s[15] == s[14..16][1];
    assert s[17] == s[17..19][0] && s[18] == s[17..19][1];
  }

  lemma TextParts(d: Date)
    requires ValidDate(d)
    ensures var s := Text(d);
            && |s| == 20 && s[..4] == Digits(4, d.year) && s[5..7] == Digits(2, d.month) && s[8..10] == Digits(2, d.day)
            && s[11..13] == Digits(2, d.hour) && s[14..16] == Digits(2, d.minute) && s[17..19] == Digits(2, d.second)
            && s[4] == s[7] == '-' as int && s[10] == 'T' as int && s[13] == s[16] == ':' as int && s[19] == 'Z' as int
  {
  }

  lemma TwoDigits(k: nat)
    requires k < 100
    ensures Digits(2, k) == [48 + k / 10, 48 + k % 10]
  {
    DigitAt(2, k, 0);
    DigitAt(2, k, 1);
  }

  lemma FourDigits(k: nat)
    requires k < 10000
    ensures Digits(4, k) == [48 + k / 1000, 48 + k / 100 % 10, 48 + k / 10 % 10, 48 + k % 10]
  {
    TwoDigits(k / 100);
    assert Digits(4, k) == Digits(3, k / 10) + [48 + k % 10];
    assert Digits(3, k / 10) == Digits(2, k / 10 / 10) + [48 + k / 10 % 10];
    assert k / 10 / 10 == k / 100 && k / 100 / 10 == k / 1000;
  }
}
