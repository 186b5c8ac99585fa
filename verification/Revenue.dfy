/**
 * The revenue report: which instants a period covers, which days it lists,
 * and how the sums over days and branches relate to the summary. Moscow time
 * is taken as a fixed three hours ahead of UTC.
 */
module Revenue {
  import opened Wrappers
  import opened Calendar

  const MSK := 3 * HOUR

  datatype Period = TODAY | YESTERDAY | WEEK | MONTH | YEAR | CUSTOM

  datatype RangeError = DatesNotSupported | BadFormat | BadDate | BadLength

  /** Instants from `from` up to but not including `end`, and the days listed for them. */
  datatype Range = Range(from: int, end: int, days: seq<string>)

  datatype Answer<T> = Ok(value: T) | Err(error: RangeError)

  function MoscowDay(t: int): int {
    (t + MSK) / DAY
  }

  // ----- custom dates -----

  /** The day a custom date names: a calendar date from 2000 on, in the one format. */
  function AcceptDate(value: Option<string>): Answer<int> {
    if value.None? || !Formatted(value.value) then Err(BadFormat)
    else
      var d := KeyedDate(value.value);
      if Valid(d) && d.year >= 2000 then Ok(DayOf(d)) else Err(BadDate)
  }

  /**
   * Date.parse of the date at midnight UTC. A day past the end of its month
   * is NaN in the standard; a lenient engine rolls it into the next month.
   */
  function Parse(s: string, lenient: bool): Option<int>
    requires Formatted(s)
  {
    var d := KeyedDate(s);
    if !(0 <= d.month <= 11) || !(1 <= d.date <= 31) || (!lenient && !Valid(d)) then None else Some(DayOf(d))
  }

  /** The order of strings. */
  function Less(a: string, b: string): bool {
    if b == "" then false
    else if a == "" then true
    else if a[0] != b[0] then a[0] < b[0]
    else Less(a[1..], b[1..])
  }

  lemma {:induction false} FirstDifference(a: string, b: string, k: nat)
    requires |a| == |b| && k <= |a| && (k < |a| ==> a[k] > b[k])
    requires forall i :: 0 <= i < k ==> a[i] == b[i]
    ensures !Less(a, b)
    decreases k
  {
    if k > 0 {
      FirstDifference(a[1..], b[1..], k - 1);
    }
  }

  /** A well-formed date sorts before 2000-01-01 exactly when its year is before 2000. */
  lemma SortsBefore2000(s: string)
    requires Formatted(s) && Valid(KeyedDate(s))
    ensures Less(s, "2000-01-01") <==> KeyedDate(s).year < 2000
  {
    var t := "2000-01-01";
    if s[0] >= '2' {
      FirstDifference(s, t,
                      if s[0] > '2' then 0 else if s[1] > '0' then 1 else if s[2] > '0' then 2 else if s[3] > '0' then 3
                      else if s[5] > '0' then 5 else if s[6] > '1' then 6 else if s[8] > '0' then 8
                          else if s[9] > '1' then 9 else 10);
    }
  }

  /** The echo check: the stamp prints the text it was read from exactly when the text is a calendar date. */
  lemma EchoExactly(s: string, stamp: int)
    requires Formatted(s)
    requires 0 <= KeyedDate(s).month <= 11 && stamp == DayOf(KeyedDate(s))
    ensures DateKey(stamp) == s <==> Valid(KeyedDate(s))
  {
    var d := KeyedDate(s);
    if Valid(d) {
      DayOfDate(d);
      LabelOfKeyed(s);
    } else {
      var e := DateOf(stamp);
      DateOfDay(stamp);
      SignedUnlessPlain(e);
      if 0 <= e.year <= 9999 {
        LabelRoundTrip(e);
      }
    }
  }

  lemma SignedUnlessPlain(d: Date)
    requires Valid(d)
    ensures 0 <= d.year <= 9999 || !IsDigit(Label(d)[0])
  {
    if !(0 <= d.year <= 9999) {
      assert Label(d)[0] == LabelChar(d, 0);
    }
  }

  /** The check on one custom date, on its text and its stamp. */
  method ParseCustomDate(value: Option<string>, lenient: bool) returns (answer: Answer<int>)
    ensures answer == AcceptDate(value)
  {
    if value.None? || !Formatted(value.value) {
      return Err(BadFormat);
    }
    var stamp := Parse(value.value, lenient);
    if stamp.None? {
      return Err(BadDate);
    }
    EchoExactly(value.value, stamp.value);
    if DateKey(stamp.value) != value.value {
      return Err(BadDate);
    }
    SortsBefore2000(value.value);
    if Less(value.value, "2000-01-01") {
      return Err(BadDate);
    }
    return Ok(stamp.value);
  }

  // ----- the spans of the periods, in days -----

  datatype Span = Span(start: int, end: int)

  function TodaySpan(d: Date): Span
    requires 0 <= d.month <= 11
  {
    var start := UtcDay(d.year, d.month, d.date);
    Span(start, start + 1)
  }

  function YesterdaySpan(d: Date): Span
    requires 0 <= d.month <= 11
  {
    var start := UtcDay(d.year, d.month, d.date);
    Span(start - 1, start)
  }

  function WeekSpan(d: Date, weekDay: int): Span
    requires 0 <= d.month <= 11
  {
    var start := Monday(UtcDay(d.year, d.month, d.date), weekDay);
    Span(start, start + 7)
  }

  function MonthSpan(d: Date): Span
    requires 0 <= d.month <= 11
  {
    Span(UtcDay(d.year, d.month, 1), UtcDay(d.year, d.month + 1, 1))
  }

  function CalendarYear(d: Date): Span {
    Span(UtcDay(d.year, 0, 1), UtcDay(d.year + 1, 0, 1))
  }

  function SpanAround(period: Period, d: Date, weekDay: int): Span
    requires !period.CUSTOM? && 0 <= d.month <= 11
  {
    match period
    case TODAY => TodaySpan(d)
    case YESTERDAY => YesterdaySpan(d)
    case WEEK => WeekSpan(d, weekDay)
    case MONTH => MonthSpan(d)
    case YEAR => CalendarYear(d)
  }

  /** The span of a period at an instant, by the Moscow day. */
  function SpanAt(period: Period, now: int): Span
    requires !period.CUSTOM?
  {
    var today := MoscowDay(now);
    DateOfDay(today);
    SpanAround(period, DateOf(today), WeekDay(today))
  }

  function CustomSpan(dateFrom: Option<string>, dateTo: Option<string>): Answer<Span> {
    var first := AcceptDate(dateFrom);
    if first.Err? then Err(first.error)
    else
      var last := AcceptDate(dateTo);
      if last.Err? then Err(last.error)
      else if last.value + 1 <= first.value || last.value + 1 - first.value > 3660 then Err(BadLength)
      else Ok(Span(first.value, last.value + 1))
  }

  function Days(span: Span): seq<string> {
    seq(Max(0, span.end - span.start), i => DateKey(span.start + i))
  }

  function RangeOfSpan(span: Span): Range {
    Range(span.start * DAY - MSK, span.end * DAY - MSK, Days(span))
  }

  function RangeOf(period: Period, dateFrom: Option<string>, dateTo: Option<string>, now: int): Answer<Range> {
    if period.CUSTOM? then
      var span := CustomSpan(dateFrom, dateTo);
      if span.Err? then Err(span.error) else Ok(RangeOfSpan(span.value))
    else if dateFrom.Some? || dateTo.Some? then Err(DatesNotSupported)
    else Ok(RangeOfSpan(SpanAt(period, now)))
  }

  method ListDays(start: int, end: int, ghost span: Span) returns (days: seq<string>)
    requires start == span.start * DAY && end == span.end * DAY
    ensures days == Days(span)
  {
    days := [];
    var day := start;
    ghost var all := Days(span);
    while day < end
      invariant day == (span.start + |days|) * DAY
      invariant |days| <= |all|
      invariant days == all[..|days|]
      decreases end - day
    {
      assert day / DAY == span.start + |days|;
      days := days + [DateKey(day / DAY)];
      day := day + DAY;
    }
  }

  /** Start and end, reassigned as the period asks. */
  method Bounds(period: Period, today: Date, weekDay: int) returns (start: int, end: int)
    requires !period.CUSTOM? && 0 <= today.month <= 11
    ensures var span := SpanAround(period, today, weekDay); start == span.start * DAY && end == span.end * DAY
  {
    start := UtcDay(today.year, today.month, today.date) * DAY;
    end := start + DAY;
    if period == YESTERDAY {
      start, end := start - DAY, end - DAY;
    }
    if period == WEEK {
      start := start - (weekDay + 6) % 7 * DAY;
      end := start + 7 * DAY;
    }
    if period == MONTH {
      start := UtcDay(today.year, today.month, 1) * DAY;
      end := UtcDay(today.year, today.month + 1, 1) * DAY;
    }
    if period == YEAR {
      start := UtcDay(today.year, 0, 1) * DAY;
      end := UtcDay(today.year + 1, 0, 1) * DAY;
    }
  }

  /** Today is the date of the clock three hours on. */
  method BoundsAt(period: Period, now: int) returns (start: int, end: int)
    requires !period.CUSTOM?
    ensures start == SpanAt(period, now).start * DAY && end == SpanAt(period, now).end * DAY
  {
    var today := (now + MSK) / DAY;
    DateOfDay(today);
    start, end := Bounds(period, DateOf(today), WeekDay(today));
  }

  /** Start and end of a custom period. */
  method CustomBounds(dateFrom: Option<string>, dateTo: Option<string>, lenient: bool)
    returns (answer: Answer<(int, int)>)
    ensures var span := CustomSpan(dateFrom, dateTo);
            if span.Err? then answer == Err(span.error)
                else answer == Ok((span.value.start * DAY, span.value.end * DAY))
  {
    var first := ParseCustomDate(dateFrom, lenient);
    if first.Err? {
      return Err(first.error);
    }
    var start := first.value * DAY;
    var last := ParseCustomDate(dateTo, lenient);
    if last.Err? {
      return Err(last.error);
    }
    var end := last.value * DAY + DAY;
    if end <= start || end - start > 3660 * DAY {
      return Err(BadLength);
    }
    return Ok((start, end));
  }

  method RangeBetween(start: int, end: int, ghost span: Span) returns (answer: Answer<Range>)
    requires start == span.start * DAY && end == span.end * DAY
    ensures answer == Ok(RangeOfSpan(span))
  {
    var days := ListDays(start, end, span);
    return Ok(Range(start - MSK, end - MSK, days));
  }

  /** The range as it is computed. */
  method RevenueRange(requested: Option<Period>, dateFrom: Option<string>, dateTo: Option<string>, now: int,
                      lenient: bool)
    returns (answer: Answer<Range>)
    ensures answer == RangeOf(if requested.Some? then requested.value else TODAY, dateFrom, dateTo, now)
  {
    var period := if requested.Some? then requested.value else TODAY;
    if period == CUSTOM {
      var bounds := CustomBounds(dateFrom, dateTo, lenient);
      if bounds.Err? {
        return Err(bounds.error);
      }
      answer := RangeBetween(bounds.value.0, bounds.value.1, CustomSpan(dateFrom, dateTo).value);
    } else {
      if dateFrom.Some? || dateTo.Some? {
        return Err(DatesNotSupported);
      }
      var start, end := BoundsAt(period, now);
      answer := RangeBetween(start, end, SpanAt(period, now));
    }
  }

  // ----- the spans contain now -----

  ghost predicate Contains(range: Range, t: int) {
    range.from <= t < range.end
  }

  ghost predicate Covers(span: Span, day: int) {
    span.start <= day < span.end
  }

  /** An instant is in the range exactly when its Moscow day is in the span. */
  lemma InstantsByDay(span: Span, t: int)
    ensures Contains(RangeOfSpan(span), t) <==> Covers(span, MoscowDay(t))
  {
  }

  /** The years 0 to 99, which Date.UTC takes for 1900 to 1999. */
  predicate FirstCentury(d: Date) {
    0 <= d.year <= 99
  }

  /** Today is the one day that is today, exactly when the year is not 0 to 99. */
  lemma TodayIsToday(d: Date)
    requires Valid(d)
    ensures Covers(TodaySpan(d), DayOf(d)) <==> !FirstCentury(d)
    ensures !FirstCentury(d) ==> TodaySpan(d) == Span(DayOf(d), DayOf(d) + 1)
  {
    if FirstCentury(d) {
      CenturyMoves(d, d.month, d.date);
    } else {
      UtcDayOfFullYear(d);
    }
  }

  /** Yesterday ends where today begins. */
  lemma YesterdayMeetsToday(d: Date)
    requires Valid(d)
    ensures YesterdaySpan(d).end == TodaySpan(d).start
    ensures !FirstCentury(d) ==> YesterdaySpan(d) == Span(DayOf(d) - 1, DayOf(d))
  {
    TodayIsToday(d);
  }

  /** A week is seven days from a Monday, and contains today exactly when the year is not 0 to 99. */
  lemma WeekStartsOnMonday(d: Date)
    requires Valid(d)
    ensures var span := WeekSpan(d, WeekDay(DayOf(d)));
            && span.end == span.start + 7
            && (!FirstCentury(d) ==> WeekDay(span.start) == 1)
            && (Covers(span, DayOf(d)) <==> !FirstCentury(d))
  {
    MondayIsMonday(DayOf(d));
    if FirstCentury(d) {
      CenturyMoves(d, d.month, d.date);
    } else {
      UtcDayOfFullYear(d);
    }
  }

  lemma MonthSpanIsMonth(d: Date)
    requires Valid(d) && !FirstCentury(d)
    ensures MonthSpan(d) == Span(MonthBegin(d.year, d.month), MonthBegin(d.year, d.month + 1))
  {
    UtcMonthBegin(d.year, d.month);
    UtcMonthBegin(d.year, d.month + 1);
  }

  /** A month is all the days of its calendar month. */
  lemma MonthIsWhole(d: Date, e: Date)
    requires Valid(d) && !FirstCentury(d) && Valid(e)
    ensures Covers(MonthSpan(d), DayOf(e)) <==> e.year == d.year && e.month == d.month
  {
    MonthSpanIsMonth(d);
    DateInMonth(e);
    if MonthBegin(d.year, d.month) <= DayOf(e) < MonthBegin(d.year, d.month + 1) {
      MonthOfDate(e, d.year, d.month);
    }
  }

  lemma CalendarYearSpan(d: Date)
    requires !FirstCentury(d) && d.year != -1
    ensures CalendarYear(d) == Span(DayFromYear(d.year), DayFromYear(d.year + 1))
  {
    UtcMonthBegin(d.year, 0);
    UtcMonthBegin(d.year + 1, 0);
  }

  /** A year is all the days of its calendar year; only the year before the first century runs on to 1900. */
  lemma YearIsWhole(d: Date, e: Date)
    requires Valid(d) && !FirstCentury(d) && d.year != -1 && Valid(e)
    ensures Covers(CalendarYear(d), DayOf(e)) <==> e.year == d.year
  {
    CalendarYearSpan(d);
    YearOrder(e, d.year);
    YearOrder(e, d.year + 1);
  }

  lemma YearContainsItsDays(d: Date)
    requires Valid(d)
    ensures Covers(CalendarYear(d), DayOf(d)) <==> !FirstCentury(d)
  {
    if FirstCentury(d) {
      CenturyMoves(d, 0, 1);
    } else if d.year != -1 {
      YearIsWhole(d, d);
    } else {
      UtcMonthBegin(-1, 0);
      DayInYear(d);
      assert CalendarYear(d).end == UtcDay(0, 0, 1);
      YearsApart(0, 1900);
    }
  }

  lemma MonthContainsItsDays(d: Date)
    requires Valid(d)
    ensures Covers(MonthSpan(d), DayOf(d)) <==> !FirstCentury(d)
  {
    if FirstCentury(d) {
      CenturyMoves(d, d.month, 1);
    } else {
      MonthIsWhole(d, d);
    }
  }

  /** Today, week, month and year contain now exactly when the Moscow year is not one of 0 to 99. */
  lemma PeriodsContainNowExactly(period: Period, now: int)
    requires period.TODAY? || period.WEEK? || period.MONTH? || period.YEAR?
    ensures Contains(RangeOfSpan(SpanAt(period, now)), now) <==> !FirstCentury(DateOf(MoscowDay(now)))
  {
    var d := DateOf(MoscowDay(now));
    DateOfDay(MoscowDay(now));
    InstantsByDay(SpanAt(period, now), now);
    match period
    case TODAY => TodayIsToday(d);
    case WEEK => WeekStartsOnMonday(d);
    case MONTH => MonthContainsItsDays(d);
    case YEAR => YearContainsItsDays(d);
  }

  // ----- the listed days -----

  ghost predicate Distinct(days: seq<string>) {
    forall i, j :: 0 <= i < j < |days| ==> days[i] != days[j]
  }

  predicate FourDigitSpan(span: Span) {
    DayFromYear(0) <= span.start && span.end <= DayFromYear(10000)
  }

  lemma ListedDay(span: Span, i: nat)
    requires span.start + i < span.end
    ensures i < |Days(span)| && Days(span)[i] == DateKey(span.start + i)
  {
  }

  /** The sequence names the days from `start` on. */
  ghost predicate Names(days: seq<string>, start: int) {
    forall i :: 0 <= i < |days| ==> days[i] == DateKey(start + i)
  }

  lemma DaysNameTheSpan(span: Span)
    ensures Names(Days(span), span.start)
  {
    var days := Days(span);
    forall i | 0 <= i < |days|
      ensures days[i] == DateKey(span.start + i)
    {
      ListedDay(span, i);
    }
  }

  lemma NamedDay(days: seq<string>, start: int, i: nat)
    requires Names(days, start) && i < |days| && FourDigit(start) && FourDigit(start + |days| - 1)
    ensures days[i] == DateKey(start + i) && FourDigit(start + i)
  {
  }

  lemma NamedDaysDiffer(days: seq<string>, start: int, i: nat, j: nat)
    requires Names(days, start) && i < j < |days| && FourDigit(start) && FourDigit(start + |days| - 1)
    ensures days[i] != days[j]
  {
    var n, k, a, b := start + i, start + j, days[i], days[j];
    NamedDay(days, start, i);
    NamedDay(days, start, j);
    if a == b {
      KeysAreDistinct(n, k, a);
    }
  }

  lemma NamedDaysAreDistinct(days: seq<string>, start: int)
    requires Names(days, start) && (days != [] ==> FourDigit(start) && FourDigit(start + |days| - 1))
    ensures Distinct(days)
  {
    forall i, j | 0 <= i < j < |days|
      ensures days[i] != days[j]
    {
      NamedDaysDiffer(days, start, i, j);
    }
  }

  /** No day is listed twice. */
  lemma DaysAreDistinct(span: Span)
    requires FourDigitSpan(span)
    ensures Distinct(Days(span))
  {
    DaysNameTheSpan(span);
    NamedDaysAreDistinct(Days(span), span.start);
  }

  lemma OnlyIndex(days: seq<string>, i: nat)
    requires Distinct(days) && i < |days|
    ensures forall j :: 0 <= j < |days| ==> (days[j] == days[i] <==> j == i)
  {
    forall j | 0 <= j < |days|
      ensures days[j] == days[i] <==> j == i
    {
      if j < i {
        assert days[j] != days[i];
      } else if i < j {
        assert days[i] != days[j];
      }
    }
  }

  lemma DayIsListedOnce(span: Span, n: int)
    requires FourDigitSpan(span) && Covers(span, n)
    ensures var days, i := Days(span), n - span.start;
            && 0 <= i < |days| && days[i] == DateKey(n)
            && forall j :: 0 <= j < |days| ==> (days[j] == days[i] <==> j == i)
  {
    DaysAreDistinct(span);
    ListedDay(span, n - span.start);
    OnlyIndex(Days(span), n - span.start);
  }

  /** Every instant of the range falls on exactly one listed day, the one that names its Moscow date. */
  lemma InstantsFallOnOneDay(span: Span, t: int)
    requires FourDigitSpan(span) && Contains(RangeOfSpan(span), t)
    ensures var days, i := Days(span), MoscowDay(t) - span.start;
            && 0 <= i < |days| && days[i] == DateKey(MoscowDay(t))
            && forall j :: 0 <= j < |days| ==> (days[j] == days[i] <==> j == i)
  {
    InstantsByDay(span, t);
    DayIsListedOnce(span, MoscowDay(t));
  }

  lemma InFourDigitYears(d: Date)
    requires Valid(d) && 100 <= d.year <= 9999
    ensures DayFromYear(0) + 400 <= DayFromYear(d.year) <= DayOf(d) < DayFromYear(d.year + 1) <= DayFromYear(10000)
  {
    if d.year < 9999 { YearsClimb(d.year + 1, 10000); }
    YearsClimb(0, 1);
    YearsClimb(1, d.year);
    DayInYear(d);
  }

  lemma MonthSpanInYear(d: Date)
    requires Valid(d) && !FirstCentury(d)
    ensures DayFromYear(d.year) <= MonthSpan(d).start && MonthSpan(d).end <= DayFromYear(d.year + 1)
  {
    hide Calendar.DayFromYear;
    MonthSpanIsMonth(d);
    MonthsWithinTheYear(d.year, d.month);
    MonthsWithinTheYear(d.year, d.month + 1);
  }

  lemma MonthIsFourDigit(d: Date)
    requires Valid(d) && 100 <= d.year <= 9999
    ensures FourDigitSpan(MonthSpan(d))
  {
    InFourDigitYears(d);
    MonthSpanInYear(d);
  }

  /** The days of a day, a month or a year with four digits are all named with four digits. */
  lemma NamedSpansAreFourDigit(period: Period, d: Date)
    requires period.TODAY? || period.MONTH? || period.YEAR?
    requires Valid(d) && 100 <= d.year <= 9999
    ensures FourDigitSpan(SpanAround(period, d, WeekDay(DayOf(d))))
  {
    InFourDigitYears(d);
    match period
    case TODAY => TodayIsToday(d);
    case MONTH => MonthIsFourDigit(d);
    case YEAR => CalendarYearSpan(d);
  }

  lemma LastSaturday(monday: int)
    requires WeekDay(monday) == 1 && monday < DayFromYear(10000) < monday + 7
    ensures monday + 5 == DayOf(Date(10000, 0, 1)) && monday + 6 == DayOf(Date(10000, 0, 2))
  {
    assert DayFromYear(10000) == 2932897;
  }

  lemma RepeatedLabel(span: Span, i: nat, d: Date, e: Date)
    requires span.start + i + 1 < span.end && Valid(d) && Valid(e)
    requires DayOf(d) == span.start + i && DayOf(e) == span.start + i + 1
    requires d.year > 9999 && e.year == d.year && e.month == d.month
    ensures Days(span)[i] == Days(span)[i + 1]
  {
    ListedDay(span, i);
    ListedDay(span, i + 1);
    KeyOfDate(d);
    KeyOfDate(e);
    WideLabelsForgetTheDay(d, e);
  }

  lemma LastWeekRepeatsALabel(span: Span)
    requires WeekDay(span.start) == 1 && span.start < DayFromYear(10000) < span.end == span.start + 7
    ensures Days(span)[5] == Days(span)[6]
  {
    LastSaturday(span.start);
    RepeatedLabel(span, 5, Date(10000, 0, 1), Date(10000, 0, 2));
  }

  /** A week lists each of its days once exactly when it ends by the end of the year 9999. */
  lemma WeekDaysAreDistinctExactly(d: Date)
    requires Valid(d) && 100 <= d.year <= 9999
    ensures var span := WeekSpan(d, WeekDay(DayOf(d)));
            Distinct(Days(span)) <==> span.end <= DayFromYear(10000)
  {
    var span := WeekSpan(d, WeekDay(DayOf(d)));
    WeekStartsOnMonday(d);
    InFourDigitYears(d);
    if span.end <= DayFromYear(10000) {
      DaysAreDistinct(span);
    } else {
      LastWeekRepeatsALabel(span);
    }
  }

  lemma AcceptedDatesAreLabels(s: string)
    requires AcceptDate(Some(s)).Ok?
    ensures var n := AcceptDate(Some(s)).value; DayFromYear(2000) <= n && FourDigit(n) && DateKey(n) == s
  {
    var d := KeyedDate(s);
    LabelOfKeyed(s);
    KeyOfDate(d);
    FourDigitDate(d);
    YearOrder(d, 2000);
  }

  lemma LabelsAreAccepted(n: int)
    requires DayFromYear(2000) <= n && FourDigit(n)
    ensures AcceptDate(Some(DateKey(n))) == Ok(n)
  {
    var d := DateOf(n);
    DateOfDay(n);
    FourDigitYear(n);
    LabelRoundTrip(d);
    FourDigitDate(d);
    YearOrder(d, 2000);
  }

  /** A custom date is accepted exactly when it is the label of a day from 2000-01-01 on: formatting inverts parsing. */
  lemma CustomDatesAreLabels(s: string, n: int)
    ensures AcceptDate(Some(s)) == Ok(n) <==> DayFromYear(2000) <= n && FourDigit(n) && DateKey(n) == s
  {
    if AcceptDate(Some(s)) == Ok(n) {
      AcceptedDatesAreLabels(s);
    }
    if DayFromYear(2000) <= n && FourDigit(n) {
      LabelsAreAccepted(n);
    }
  }

  /**
   * A custom period is accepted exactly when its dates are and it has 1 to 3660
   * days; it runs from the first date to the last.
   */
  lemma CustomPeriodIsItsDates(first: string, last: string)
    ensures var a, b, span := AcceptDate(Some(first)), AcceptDate(Some(last)), CustomSpan(Some(first), Some(last));
            && (span.Ok? <==> a.Ok? && b.Ok? && 1 <= b.value - a.value + 1 <= 3660)
            && (span.Ok? ==> span.value == Span(a.value, b.value + 1) && FourDigitSpan(span.value))
  {
    var a, b := AcceptDate(Some(first)), AcceptDate(Some(last));
    if a.Ok? && b.Ok? {
      AcceptedDatesAreFourDigit(first);
      AcceptedDatesAreFourDigit(last);
    }
  }

  lemma AcceptedDatesAreFourDigit(s: string)
    requires AcceptDate(Some(s)).Ok?
    ensures FourDigit(AcceptDate(Some(s)).value)
  {
    AcceptedDatesAreLabels(s);
  }
}
