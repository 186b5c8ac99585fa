/**
 * The civil calendar behind JavaScript dates: section 21.4.1 of ECMA-262
 * (days, years, months, week days, MakeDay and the two-digit years of
 * Date.UTC) and the first ten characters of an ISO timestamp.
 */
module Calendar {
  const DAY := 86_400_000
  const HOUR := 3_600_000

  const JANUARY := 0

  /** A month counts from 0, a date from 1. */
  datatype Date = Date(year: int, month: int, date: int)

  function DayFromYear(y: int): int {
    365 * (y - 1970) + (y - 1969) / 4 - (y - 1901) / 100 + (y - 1601) / 400
  }

  predicate Leap(y: int) {
    y % 4 == 0 && (y % 100 != 0 || y % 400 == 0)
  }

  function DaysInYear(y: int): int {
    if Leap(y) then 366 else 365
  }

  function MonthLength(leap: bool, month: int): int {
    if month == 1 then (if leap then 29 else 28)
    else if month == 3 || month == 5 || month == 8 || month == 10 then 30
    else 31
  }

  /** The day within its year on which a month begins; month 12 is the year's end. */
  function MonthStart(leap: bool, month: int): (day: int)
    requires 0 <= month <= 12
    ensures 28 * month <= day <= 31 * month
    decreases month
  {
    if month == 0 then 0 else MonthStart(leap, month - 1) + MonthLength(leap, month - 1)
  }

  predicate Valid(d: Date) {
    && 0 <= d.month <= 11
    && 1 <= d.date <= MonthLength(Leap(d.year), d.month)
  }

  function DayOf(d: Date): int
    requires 0 <= d.month <= 11
  {
    DayFromYear(d.year) + MonthStart(Leap(d.year), d.month) + d.date - 1
  }

  lemma EveryFourth(y: int)
    ensures (y - 1968) / 4 == (y - 1969) / 4 + if y % 4 == 0 then 1 else 0
  {
  }

  lemma EveryHundredth(y: int)
    ensures (y - 1900) / 100 == (y - 1901) / 100 + if y % 100 == 0 then 1 else 0
  {
  }

  lemma EveryFourHundredth(y: int)
    ensures (y - 1600) / 400 == (y - 1601) / 400 + if y % 400 == 0 then 1 else 0
  {
  }

  lemma Divisors(y: int)
    ensures y % 100 == 0 ==> y % 4 == 0
    ensures y % 400 == 0 ==> y % 100 == 0
  {
    assert y % 100 == 0 ==> y == 4 * (25 * (y / 100));
    assert y % 400 == 0 ==> y == 100 * (4 * (y / 400));
  }

  lemma YearLength(y: int)
    ensures DayFromYear(y + 1) == DayFromYear(y) + DaysInYear(y)
  {
    EveryFourth(y);
    EveryHundredth(y);
    EveryFourHundredth(y);
    Divisors(y);
  }

  /** Later years begin later. */
  lemma YearsClimb(y: int, z: int)
    requires y < z
    ensures DayFromYear(y) + 365 <= DayFromYear(z)
    decreases z - y
  {
    YearLength(z - 1);
    if y < z - 1 {
      YearsClimb(y, z - 1);
    }
  }

  lemma YearSpan(y: int)
    ensures DayFromYear(y) + 365 <= DayFromYear(y + 1) <= DayFromYear(y) + 366
  {
    YearLength(y);
  }

  /** The year that holds a day, looked for from y. */
  function SearchYear(n: int, y: int): (found: int)
    ensures DayFromYear(found) <= n < DayFromYear(found + 1)
    decreases if n < DayFromYear(y) then DayFromYear(y) - n + 366 else n - DayFromYear(y)
  {
    var begin := DayFromYear(y);
    if n < begin then
      YearSpan(y - 1);
      SearchYear(n, y - 1)
    else
      YearSpan(y);
      if n >= DayFromYear(y + 1) then SearchYear(n, y + 1) else y
  }

  /** The largest year that begins no later than the day. */
  function YearFromDay(n: int): (y: int)
    ensures DayFromYear(y) <= n < DayFromYear(y + 1)
  {
    SearchYear(n, 1970)
  }

  lemma OneYear(n: int, y: int, z: int)
    requires DayFromYear(y) <= n < DayFromYear(y + 1) && DayFromYear(z) <= n < DayFromYear(z + 1)
    ensures y == z
  {
    if z + 1 < y {
      YearsClimb(z + 1, y);
    } else if y + 1 < z {
      YearsClimb(y + 1, z);
    }
  }

  lemma YearIsUnique(n: int, y: int)
    requires DayFromYear(y) <= n < DayFromYear(y + 1)
    ensures YearFromDay(n) == y
  {
    OneYear(n, y, YearFromDay(n));
  }

  /** The month that holds a day of the year, looked for from m on. */
  function MonthFromDay(leap: bool, within: int, m: int): (found: int)
    requires 0 <= m <= 11 && MonthStart(leap, m) <= within < MonthStart(leap, 12)
    ensures 0 <= found <= 11 && MonthStart(leap, found) <= within < MonthStart(leap, found + 1)
    decreases 12 - m
  {
    if within < MonthStart(leap, m + 1) then m else MonthFromDay(leap, within, m + 1)
  }

  /** The date of a day of the year y. */
  function DateIn(y: int, n: int): Date
    requires DayFromYear(y) <= n < DayFromYear(y + 1)
  {
    YearLength(y);
    var within := n - DayFromYear(y);
    var m := MonthFromDay(Leap(y), within, JANUARY);
    Date(y, m, within - MonthStart(Leap(y), m) + 1)
  }

  function DateOf(n: int): Date {
    DateIn(YearFromDay(n), n)
  }

  /** Every day has exactly one valid date ... */
  lemma DateOfDay(n: int)
    ensures Valid(DateOf(n)) && DayOf(DateOf(n)) == n
  {
  }

  lemma MonthsClimb(leap: bool, m: int, k: int)
    requires 0 <= m < k <= 12
    ensures MonthStart(leap, m) < MonthStart(leap, k)
  {
  }

  lemma DayInYear(d: Date)
    requires Valid(d)
    ensures DayFromYear(d.year) <= DayOf(d) < DayFromYear(d.year + 1)
  {
    YearLength(d.year);
    if d.month < 11 { MonthsClimb(Leap(d.year), d.month + 1, 12); }
    if d.month > 0 { MonthsClimb(Leap(d.year), 0, d.month); }
  }

  /** Days are ordered as their years are. */
  lemma YearOrder(d: Date, y: int)
    requires Valid(d)
    ensures DayFromYear(y) <= DayOf(d) <==> y <= d.year
  {
    DayInYear(d);
    if y < d.year { YearsClimb(y, d.year); }
    if d.year + 1 < y { YearsClimb(d.year + 1, y); }
  }

  lemma MonthIsUnique(leap: bool, within: int, m: int, k: int)
    requires 0 <= m <= 11 && 0 <= k <= 11
    requires MonthStart(leap, m) <= within < MonthStart(leap, m + 1)
    requires MonthStart(leap, k) <= within < MonthStart(leap, k + 1)
    ensures m == k
  {
    if m + 1 < k { MonthsClimb(leap, m + 1, k); }
    if k + 1 < m { MonthsClimb(leap, k + 1, m); }
  }

  lemma DateInMonthOf(y: int, n: int, m: int)
    requires 0 <= m <= 11 && DayFromYear(y) <= n < DayFromYear(y + 1)
    requires MonthStart(Leap(y), m) <= n - DayFromYear(y) < MonthStart(Leap(y), m + 1)
    ensures DateIn(y, n) == Date(y, m, n - DayFromYear(y) - MonthStart(Leap(y), m) + 1)
  {
    MonthIsUnique(Leap(y), n - DayFromYear(y), DateIn(y, n).month, m);
  }

  /** ... and every valid date exactly one day. */
  lemma DayOfDate(d: Date)
    requires Valid(d)
    ensures DateOf(DayOf(d)) == d
  {
    DayInYear(d);
    YearIsUnique(DayOf(d), d.year);
    DateInMonthOf(d.year, DayOf(d), d.month);
  }

  /** 0 is Sunday. */
  function WeekDay(n: int): int {
    (n + 4) % 7
  }

  /** Two-digit years mean the twentieth century. */
  function MakeFullYear(y: int): int {
    if 0 <= y <= 99 then 1900 + y else y
  }

  /** The day that Date.UTC names; a month of 12 is January of the next year. */
  function UtcDay(year: int, month: int, date: int): int {
    var full := MakeFullYear(year) + month / 12;
    DayFromYear(full) + MonthStart(Leap(full), month % 12) + date - 1
  }

  lemma UtcDayOfFullYear(d: Date)
    requires Valid(d) && !(0 <= d.year <= 99)
    ensures UtcDay(d.year, d.month, d.date) == DayOf(d)
  {
  }

  /** The first day of a month; month 12 is the first day of the next year. */
  function MonthBegin(y: int, month: int): int
    requires 0 <= month <= 12
  {
    DayFromYear(y) + MonthStart(Leap(y), month)
  }

  lemma MonthsWithinTheYear(y: int, month: int)
    requires 0 <= month <= 12
    ensures DayFromYear(y) <= MonthBegin(y, month) <= DayFromYear(y + 1)
  {
    YearLength(y);
    MonthsInside(Leap(y), month);
  }

  lemma UtcMonthBegin(y: int, month: int)
    requires 0 <= month <= 12 && !(0 <= y <= 99)
    ensures UtcDay(y, month, 1) == MonthBegin(y, month)
  {
    hide DayFromYear;
    YearLength(y);
  }

  lemma DateInMonth(d: Date)
    requires Valid(d)
    ensures MonthBegin(d.year, d.month) <= DayOf(d) < MonthBegin(d.year, d.month + 1)
  {
  }

  /** A date whose day lies in a month is a date of that month. */
  lemma MonthOfDate(e: Date, y: int, month: int)
    requires Valid(e) && 0 <= month <= 11
    requires MonthBegin(y, month) <= DayOf(e) < MonthBegin(y, month + 1)
    ensures e.year == y && e.month == month
  {
    DayOfDate(e);
    DayInMonth(DayOf(e), y, month);
  }

  lemma DayInMonth(n: int, y: int, month: int)
    requires 0 <= month <= 11 && MonthBegin(y, month) <= n < MonthBegin(y, month + 1)
    ensures DateOf(n) == Date(y, month, n - MonthBegin(y, month) + 1)
  {
    DayOfDate(Date(y, month, n - MonthBegin(y, month) + 1));
  }

  /** A date in the years 0 to 99 is moved nineteen centuries ahead. */
  lemma CenturyMoves(d: Date, month: int, date: int)
    requires Valid(d) && 0 <= d.year <= 99 && 0 <= month <= 12 && date >= 1
    ensures UtcDay(d.year, month, date) > DayOf(d) + 1000
  {
    var full := MakeFullYear(d.year) + month / 12;
    YearsApart(d.year, full);
    DateInMonth(d);
    YearSpan(d.year);
    MonthsInside(Leap(d.year), d.month + 1);
    YearLength(d.year);
    MonthsInside(Leap(full), month % 12);
  }

  lemma MonthsInside(leap: bool, m: int)
    requires 0 <= m <= 12
    ensures 0 <= MonthStart(leap, m) <= MonthStart(leap, 12)
  {
  }

  lemma YearsApart(y: int, z: int)
    requires y + 1000 < z
    ensures DayFromYear(y) + 365000 < DayFromYear(z)
  {
  }

  /** The last Monday up to a day. */
  function Monday(day: int, weekDay: int): int {
    day - (weekDay + 6) % 7
  }

  lemma MondayIsMonday(day: int)
    ensures WeekDay(Monday(day, WeekDay(day))) == 1
    ensures Monday(day, WeekDay(day)) <= day < Monday(day, WeekDay(day)) + 7
  {
  }

  // ----- the text of a date -----

  function Digit(n: int): char
    requires 0 <= n <= 9
  {
    ('0' as int + n) as char
  }

  /** The digit of a number at a power of ten. */
  function DigitAt(n: nat, power: nat): char
    requires power > 0
  {
    Digit(n / power % 10)
  }

  function Absolute(n: int): nat {
    if n < 0 then -n else n
  }

  /** YYYY-MM-DD. */
  function PlainChar(d: Date, i: nat): char
    requires Valid(d) && 0 <= d.year && i < 10
  {
    match i
    case 0 => DigitAt(d.year, 1000)
    case 1 => DigitAt(d.year, 100)
    case 2 => DigitAt(d.year, 10)
    case 3 => DigitAt(d.year, 1)
    case 5 => DigitAt(d.month + 1, 10)
    case 6 => DigitAt(d.month + 1, 1)
    case 8 => DigitAt(d.date, 10)
    case 9 => DigitAt(d.date, 1)
    case _ => '-'
  }

  /** The first ten characters of a sign, six digits of the year and the month. */
  function WideChar(d: Date, i: nat): char
    requires Valid(d) && i < 10
  {
    match i
    case 0 => if d.year < 0 then '-' else '+'
    case 1 => DigitAt(Absolute(d.year), 100000)
    case 2 => DigitAt(Absolute(d.year), 10000)
    case 3 => DigitAt(Absolute(d.year), 1000)
    case 4 => DigitAt(Absolute(d.year), 100)
    case 5 => DigitAt(Absolute(d.year), 10)
    case 6 => DigitAt(Absolute(d.year), 1)
    case 7 => '-'
    case 8 => DigitAt(d.month + 1, 10)
    case 9 => DigitAt(d.month + 1, 1)
  }

  function LabelChar(d: Date, i: nat): char
    requires Valid(d) && i < 10
  {
    if 0 <= d.year <= 9999 then PlainChar(d, i) else WideChar(d, i)
  }

  /** The first ten characters of toISOString; a year outside 0..9999 takes a sign and six digits. */
  function Label(d: Date): (s: string)
    requires Valid(d)
    ensures |s| == 10
  {
    seq(10, i requires 0 <= i < 10 => LabelChar(d, i))
  }

  function DateKey(n: int): (s: string)
    ensures |s| == 10
  {
    DateOfDay(n);
    Label(DateOf(n))
  }

  predicate IsDigit(c: char) {
    '0' <= c <= '9'
  }

  predicate Formatted(s: string) {
    && |s| == 10
    && s[4] == '-' && s[7] == '-'
    && forall i :: 0 <= i < 10 && i != 4 && i != 7 ==> IsDigit(s[i])
  }

  function DigitValue(c: char): int {
    c as int - '0' as int
  }

  /** The numbers of a well-formed label. */
  function KeyedDate(s: string): Date
    requires |s| == 10
  {
    Date(1000 * DigitValue(s[0]) + 100 * DigitValue(s[1]) + 10 * DigitValue(s[2]) + DigitValue(s[3]),
         10 * DigitValue(s[5]) + DigitValue(s[6]) - 1,
         10 * DigitValue(s[8]) + DigitValue(s[9]))
  }

  lemma ShortMonths(d: Date)
    requires Valid(d)
    ensures d.date <= 31
  {
  }

  lemma ParseDigits(n: nat)
    requires n < 10000
    ensures n == 1000 * DigitValue(DigitAt(n, 1000)) + 100 * DigitValue(DigitAt(n, 100)) +
        10 * DigitValue(DigitAt(n, 10)) + DigitValue(DigitAt(n, 1))
    ensures n < 100 ==> n == 10 * DigitValue(DigitAt(n, 10)) + DigitValue(DigitAt(n, 1))
    ensures IsDigit(DigitAt(n, 1000)) && IsDigit(DigitAt(n, 100)) && IsDigit(DigitAt(n, 10)) && IsDigit(DigitAt(n, 1))
  {
    assert n / 1000 % 10 == n / 1000;
    assert n / 100 == 10 * (n / 1000) + n / 100 % 10;
    assert n / 10 == 10 * (n / 100) + n / 10 % 10;
    assert n / 1 == n;
  }

  /** Reading a label gives back the date. */
  lemma LabelRoundTrip(d: Date)
    requires Valid(d) && 0 <= d.year <= 9999
    ensures Formatted(Label(d)) && KeyedDate(Label(d)) == d
  {
    ShortMonths(d);
    ParseDigits(d.year);
    ParseDigits(d.month + 1);
    ParseDigits(d.date);
    var s := Label(d);
    assert s[0] == LabelChar(d, 0) && s[1] == LabelChar(d, 1) && s[2] == LabelChar(d, 2) && s[3] == LabelChar(d, 3);
    assert s[5] == LabelChar(d, 5) && s[6] == LabelChar(d, 6) && s[8] == LabelChar(d, 8) && s[9] == LabelChar(d, 9);
    assert s[4] == LabelChar(d, 4) && s[7] == LabelChar(d, 7);
  }

  /** Writing the date that was read gives back a well-formed label. */
  lemma LabelOfKeyed(s: string)
    requires Formatted(s) && Valid(KeyedDate(s))
    ensures 0 <= KeyedDate(s).year <= 9999 && Label(KeyedDate(s)) == s
  {
    var d := KeyedDate(s);
    LabelRoundTrip(d);
    SameNumbersSameLabel(Label(d), s);
  }

  lemma SameNumbersSameLabel(a: string, b: string)
    requires Formatted(a) && Formatted(b) && KeyedDate(a) == KeyedDate(b)
    ensures a == b
  {
    var x, y := KeyedDate(a), KeyedDate(b);
    assert x.year == y.year && x.month == y.month && x.date == y.date;
    SameFour(a[0], a[1], a[2], a[3], b[0], b[1], b[2], b[3]);
    SameFour('0', '0', a[5], a[6], '0', '0', b[5], b[6]);
    SameFour('0', '0', a[8], a[9], '0', '0', b[8], b[9]);
  }

  lemma SameLastDigit(x: int, a: char, y: int, b: char)
    requires IsDigit(a) && IsDigit(b) && 10 * x + DigitValue(a) == 10 * y + DigitValue(b)
    ensures x == y && a == b
  {
  }

  lemma SameFour(a: char, b: char, c: char, d: char, e: char, f: char, g: char, h: char)
    requires IsDigit(a) && IsDigit(b) && IsDigit(c) && IsDigit(d) && IsDigit(e) && IsDigit(f) && IsDigit(g)
        && IsDigit(h)
    requires 1000 * DigitValue(a) + 100 * DigitValue(b) + 10 * DigitValue(c) + DigitValue(d)
          == 1000 * DigitValue(e) + 100 * DigitValue(f) + 10 * DigitValue(g) + DigitValue(h)
    ensures a == e && b == f && c == g && d == h
  {
    var x, y := 10 * DigitValue(a) + DigitValue(b), 10 * DigitValue(e) + DigitValue(f);
    SameLastDigit(10 * x + DigitValue(c), d, 10 * y + DigitValue(g), h);
    SameLastDigit(x, c, y, g);
    SameLastDigit(DigitValue(a), b, DigitValue(e), f);
  }

  predicate FourDigit(n: int) {
    DayFromYear(0) <= n < DayFromYear(10000)
  }

  lemma FourDigitDate(d: Date)
    requires Valid(d)
    ensures FourDigit(DayOf(d)) <==> 0 <= d.year <= 9999
  {
    YearOrder(d, 0);
    YearOrder(d, 10000);
  }

  lemma FourDigitYear(n: int)
    ensures FourDigit(n) <==> 0 <= DateOf(n).year <= 9999
  {
    DateOfDay(n);
    FourDigitDate(DateOf(n));
  }

  /** Within the four-digit years no two days share a label. */
  lemma KeysAreDistinct(n: int, k: int, text: string)
    requires FourDigit(n) && FourDigit(k) && DateKey(n) == text && DateKey(k) == text
    ensures n == k
  {
    FourDigitYear(n);
    FourDigitYear(k);
    DateOfDay(n);
    DateOfDay(k);
    LabelRoundTrip(DateOf(n));
    LabelRoundTrip(DateOf(k));
  }

  /** From the year 10000 on, the ten characters end with the month. */
  lemma WideLabelsForgetTheDay(d: Date, e: Date)
    requires Valid(d) && Valid(e) && d.year > 9999 && e.year == d.year && e.month == d.month
    ensures Label(d) == Label(e)
  {
    assert forall i :: 0 <= i < 10 ==> LabelChar(d, i) == LabelChar(e, i);
  }

  lemma KeyOfDate(d: Date)
    requires Valid(d)
    ensures DateKey(DayOf(d)) == Label(d)
  {
    DayOfDate(d);
  }
}
