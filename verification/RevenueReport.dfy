/**
 * The revenue report's sums: the rows of a GROUP BY, the list by day filled
 * with zeros, the groups by branch, and the summary they must all add up to.
 * Money is counted in kopecks.
 */
module RevenueReport {
  import opened Calendar
  import opened Revenue

  /** A completed order. */
  datatype Sale = Sale(at: int, branch: string, amount: int)

  datatype Row = Row(key: string, total: int, count: nat)

  datatype Summary = Summary(total: int, count: nat)

  /** The orders completed inside the range. */
  function Selected(sales: seq<Sale>, range: Range): (selected: seq<Sale>)
    ensures forall i :: 0 <= i < |selected| ==> range.from <= selected[i].at < range.end
  {
    if sales == [] then []
    else
      var rest := Selected(sales[..|sales| - 1], range);
      var last := sales[|sales| - 1];
      if range.from <= last.at < range.end then rest + [last] else rest
  }

  function Total(sales: seq<Sale>): int {
    if sales == [] then 0 else Total(sales[..|sales| - 1]) + sales[|sales| - 1].amount
  }

  /** What one group holds. */
  function GroupRow(sales: seq<Sale>, keyOf: Sale -> string, key: string): Row {
    if sales == [] then Row(key, 0, 0)
    else
      var rest := GroupRow(sales[..|sales| - 1], keyOf, key);
      var last := sales[|sales| - 1];
      if keyOf(last) == key then Row(key, rest.total + last.amount, rest.count + 1) else rest
  }

  /** One row for each of the keys. */
  function Grouped(sales: seq<Sale>, keyOf: Sale -> string, keys: seq<string>): (rows: seq<Row>)
    ensures |rows| == |keys|
  {
    if keys == [] then []
    else Grouped(sales, keyOf, keys[..|keys| - 1]) + [GroupRow(sales, keyOf, keys[|keys| - 1])]
  }

  function Sum(rows: seq<Row>): Summary {
    if rows == [] then Summary(0, 0)
    else
      var rest := Sum(rows[..|rows| - 1]);
      Summary(rest.total + rows[|rows| - 1].total, rest.count + rows[|rows| - 1].count)
  }

  /** The keys of a GROUP BY: those that occur, once each. */
  ghost predicate Keys(sales: seq<Sale>, keyOf: Sale -> string, keys: seq<string>) {
    && Distinct(keys)
    && (forall i :: 0 <= i < |sales| ==> keyOf(sales[i]) in keys)
    && (forall k :: k in keys ==> exists i :: 0 <= i < |sales| && keyOf(sales[i]) == k)
  }

  /** The row of a day, or zeros. */
  function DayRow(rows: seq<Row>, day: string): Row {
    if rows == [] then Row(day, 0, 0)
    else if rows[|rows| - 1].key == day then rows[|rows| - 1]
    else DayRow(rows[..|rows| - 1], day)
  }

  function ByDay(days: seq<string>, rows: seq<Row>): (list: seq<Row>)
    ensures |list| == |days|
  {
    if days == [] then [] else ByDay(days[..|days| - 1], rows) + [DayRow(rows, days[|days| - 1])]
  }

  /** The Moscow date of an order. */
  function MoscowDate(): Sale -> string {
    (sale: Sale) => DateKey(MoscowDay(sale.at))
  }

  // ----- every grouping adds up -----

  function One(sale: Sale): Summary {
    Summary(sale.amount, 1)
  }

  function Plus(a: Summary, b: Summary): Summary {
    Summary(a.total + b.total, a.count + b.count)
  }

  lemma {:induction false} NoSalesNoSum(keyOf: Sale -> string, keys: seq<string>)
    ensures Sum(Grouped([], keyOf, keys)) == Summary(0, 0)
    decreases |keys|
  {
    if keys != [] {
      var rows := Grouped([], keyOf, keys);
      assert rows[..|rows| - 1] == Grouped([], keyOf, keys[..|keys| - 1]);
      NoSalesNoSum(keyOf, keys[..|keys| - 1]);
    }
  }

  /** One more sale adds to the one group it belongs to. */
  lemma {:induction false} OneMoreSale(sales: seq<Sale>, sale: Sale, keyOf: Sale -> string, keys: seq<string>)
    requires Distinct(keys)
    ensures Sum(Grouped(sales + [sale], keyOf, keys))
         == if keyOf(sale) in keys then Plus(Sum(Grouped(sales, keyOf, keys)), One(sale))
             else Sum(Grouped(sales, keyOf, keys))
    decreases |keys|
  {
    assert (sales + [sale])[..|sales|] == sales;
    if keys != [] {
      var before, last := keys[..|keys| - 1], keys[|keys| - 1];
      OneMoreSale(sales, sale, keyOf, before);
      var rows, more := Grouped(sales, keyOf, keys), Grouped(sales + [sale], keyOf, keys);
      assert rows[..|rows| - 1] == Grouped(sales, keyOf, before);
      assert more[..|more| - 1] == Grouped(sales + [sale], keyOf, before);
      assert keys == before + [last];
      assert forall i :: 0 <= i < |before| ==> before[i] == keys[i];
    }
  }

  lemma AddUpStep(before: seq<Sale>, last: Sale, keyOf: Sale -> string, keys: seq<string>)
    requires Distinct(keys) && keyOf(last) in keys
    requires forall i :: 0 <= i < |before| ==> keyOf(before[i]) in keys
    ensures Sum(Grouped(before + [last], keyOf, keys)) == Summary(Total(before + [last]), |before| + 1)
    decreases |before|, 1
  {
    GroupsAddUp(before, keyOf, keys);
    OneMoreSale(before, last, keyOf, keys);
    assert (before + [last])[..|before|] == before;
  }

  /** Whatever the keys are, if every sale has one of them the groups add up to all the sales. */
  lemma {:induction false} GroupsAddUp(sales: seq<Sale>, keyOf: Sale -> string, keys: seq<string>)
    requires Distinct(keys) && forall i :: 0 <= i < |sales| ==> keyOf(sales[i]) in keys
    ensures Sum(Grouped(sales, keyOf, keys)) == Summary(Total(sales), |sales|)
    decreases |sales|, 0
  {
    if sales == [] {
      NoSalesNoSum(keyOf, keys);
    } else {
      var before, last := sales[..|sales| - 1], sales[|sales| - 1];
      assert before + [last] == sales;
      assert keyOf(sales[|sales| - 1]) in keys;
      AddUpStep(before, last, keyOf, keys);
    }
  }

  // ----- the list by day -----

  lemma {:induction false} EmptyGroup(sales: seq<Sale>, keyOf: Sale -> string, key: string)
    requires forall i :: 0 <= i < |sales| ==> keyOf(sales[i]) != key
    ensures GroupRow(sales, keyOf, key) == Row(key, 0, 0)
    decreases |sales|
  {
    if sales != [] {
      EmptyGroup(sales[..|sales| - 1], keyOf, key);
    }
  }

  lemma {:induction false} GroupKey(sales: seq<Sale>, keyOf: Sale -> string, key: string)
    ensures GroupRow(sales, keyOf, key).key == key
    decreases |sales|
  {
    if sales != [] {
      GroupKey(sales[..|sales| - 1], keyOf, key);
    }
  }

  /** Looking a day up in the grouped rows gives its group, present or not. */
  lemma {:induction false} LookupIsTheGroup(sales: seq<Sale>, keyOf: Sale -> string, keys: seq<string>, day: string)
    requires day in keys || forall i :: 0 <= i < |sales| ==> keyOf(sales[i]) != day
    ensures DayRow(Grouped(sales, keyOf, keys), day) == GroupRow(sales, keyOf, day)
    decreases |keys|
  {
    if keys == [] {
      EmptyGroup(sales, keyOf, day);
    } else {
      var before, last := keys[..|keys| - 1], keys[|keys| - 1];
      var rows := Grouped(sales, keyOf, keys);
      assert rows[..|rows| - 1] == Grouped(sales, keyOf, before);
      GroupKey(sales, keyOf, last);
      if last != day {
        assert day in keys ==> day in before;
        LookupIsTheGroup(sales, keyOf, before, day);
      }
    }
  }

  lemma {:induction false} ByDayIsGrouped(sales: seq<Sale>, keyOf: Sale -> string, keys: seq<string>, days: seq<string>)
    requires Keys(sales, keyOf, keys)
    ensures ByDay(days, Grouped(sales, keyOf, keys)) == Grouped(sales, keyOf, days)
    decreases |days|
  {
    if days != [] {
      var last := days[|days| - 1];
      ByDayIsGrouped(sales, keyOf, keys, days[..|days| - 1]);
      assert last in keys || forall i :: 0 <= i < |sales| ==> keyOf(sales[i]) != last;
      LookupIsTheGroup(sales, keyOf, keys, last);
    }
  }

  /** The orders of the range all fall on its days. */
  lemma SelectedFallOnDays(sales: seq<Sale>, span: Span, i: nat)
    requires FourDigitSpan(span) && i < |Selected(sales, RangeOfSpan(span))|
    ensures MoscowDate()(Selected(sales, RangeOfSpan(span))[i]) in Days(span)
  {
    var sale := Selected(sales, RangeOfSpan(span))[i];
    InstantsFallOnOneDay(span, sale.at);
    assert Days(span)[MoscowDay(sale.at) - span.start] == DateKey(MoscowDay(sale.at));
  }

  function Branch(): Sale -> string {
    (sale: Sale) => sale.branch
  }

  /** The list by day adds up to the total and the number of the orders in the range. */
  lemma DaysAddUp(sales: seq<Sale>, span: Span, dates: seq<string>)
    requires FourDigitSpan(span)
    requires Keys(Selected(sales, RangeOfSpan(span)), MoscowDate(), dates)
    ensures var selected := Selected(sales, RangeOfSpan(span));
            Sum(ByDay(Days(span), Grouped(selected, MoscowDate(), dates))) == Summary(Total(selected), |selected|)
  {
    var selected, days, dateOf := Selected(sales, RangeOfSpan(span)), Days(span), MoscowDate();
    ByDayIsGrouped(selected, dateOf, dates, days);
    DaysAreDistinct(span);
    forall i | 0 <= i < |selected|
      ensures dateOf(selected[i]) in days
    {
      SelectedFallOnDays(sales, span, i);
    }
    GroupsAddUp(selected, dateOf, days);
  }

  /** The grouped rows behind the summary, the list by day and the groups by branch all add up to the same. */
  lemma ReportAddsUp(sales: seq<Sale>, span: Span, dates: seq<string>, branches: seq<string>)
    requires FourDigitSpan(span)
    requires Keys(Selected(sales, RangeOfSpan(span)), MoscowDate(), dates)
    requires Keys(Selected(sales, RangeOfSpan(span)), Branch(), branches)
    ensures var selected := Selected(sales, RangeOfSpan(span));
            var daily := Grouped(selected, MoscowDate(), dates);
            && Sum(daily) == Summary(Total(selected), |selected|)
            && Sum(ByDay(Days(span), daily)) == Sum(daily)
            && Sum(Grouped(selected, Branch(), branches)) == Sum(daily)
  {
    var selected := Selected(sales, RangeOfSpan(span));
    GroupsAddUp(selected, MoscowDate(), dates);
    GroupsAddUp(selected, Branch(), branches);
    DaysAddUp(sales, span, dates);
  }
}
