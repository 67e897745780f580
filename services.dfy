/**
 * src/services.py: the three categories of a calendar month and the 10 %
 * cashback on each. The records given as a list of dictionaries are taken
 * here as the table pandas builds from them.
 */
module Services {
  import opened Wrappers
  import opened Text
  import opened Dates
  import opened Money
  import opened Frames

  /** One `"category": value` pair of the JSON object, the value in kopecks. */
  datatype CategoryCashback = CategoryCashback(category: string, cashback: nat)

  const RequiredColumnsList: seq<string> := [OperationDate, Status, Amount, Category]

  /** The month's OK expenses, from the 1st at 00:00:00 to the last day at 00:00:00. */
  function MonthSpend(rows: seq<Row>, year: int, month: int): seq<Row>
  {
    Select(rows, CalendarMonthExpenses(year, month))
  }

  /** `round(abs(sum) * 0.1, 2)` in kopecks. */
  function TenPercent(rows: seq<Row>, category: string): nat
  {
    OneTenth(Abs(GroupTotal(rows, ByCategory, category)))
  }

  /**
   * `get_top_three_category(data, year, month)`: the first three groups of
   * `groupby("Категория")` over the month's OK expenses (the groupby's
   * ascending category order, not the largest spend), each with 10 % of its
   * spend. `Ok([])` is the `"{}"` the source returns when nothing survives.
   */
  function GetTopThreeCategory(data: Table, year: int, month: int): (r: Result<seq<CategoryCashback>, Error>)
    ensures r.Ok? ==> |r.value| <= 3
    ensures !(1 <= year <= 9999 && 1 <= month <= 12) <==> r == Err(InvalidYearOrMonth)
    ensures 1 <= year <= 9999 && 1 <= month <= 12 && MissingColumns(data.columns, RequiredColumnsList) != [] ==>
              r == Err(RequiredColumns(MissingColumns(data.columns, RequiredColumnsList)))
    ensures 1 <= year <= 9999 && 1 <= month <= 12 && MissingColumns(data.columns, RequiredColumnsList) == [] ==>
              (r.Ok? <==> CoerceDates(data.rows).Ok?)
    ensures 1 <= year <= 9999 && 1 <= month <= 12 && MissingColumns(data.columns, RequiredColumnsList) == [] ==>
              CoerceDates(data.rows).Err? ==> r == Err(CoerceDates(data.rows).error)
  {
    if !(1 <= year <= 9999 && 1 <= month <= 12) then Err(InvalidYearOrMonth)
    else
      var missing := MissingColumns(data.columns, RequiredColumnsList);
      if missing != [] then Err(RequiredColumns(missing))
      else
        match CoerceDates(data.rows)
        case Err(e) => Err(e)
        case Ok(rows) =>
          var spent := MonthSpend(rows, year, month);
          var groups := GroupKeys(spent, ByCategory);
          var n := Min(3, |groups|);
          Ok(seq(n, i requires 0 <= i < n => CategoryCashback(groups[i], TenPercent(spent, groups[i]))))
  }

  /** The pairs are the first min(3, n) groups of the month's spend, each with its 10 %. */
  lemma TopThreeAreFirstGroups(data: Table, year: int, month: int)
    requires GetTopThreeCategory(data, year, month).Ok?
    ensures var r := GetTopThreeCategory(data, year, month).value;
            var spent := MonthSpend(CoerceDates(data.rows).value, year, month);
            var groups := GroupKeys(spent, ByCategory);
            && |r| == Min(3, |groups|)
            && forall i :: 0 <= i < |r| ==> r[i] == CategoryCashback(groups[i], TenPercent(spent, groups[i]))
  {
  }

  /**
   * When the columns are present and the dates parse, the result lists the
   * categories of the month's OK expenses in ascending order, each at most
   * once: all of them when fewer than three, otherwise the three that sort
   * first.
   */
  lemma TopThreeCategories(data: Table, year: int, month: int)
    requires GetTopThreeCategory(data, year, month).Ok?
    ensures var r := GetTopThreeCategory(data, year, month).value;
            var spent := MonthSpend(CoerceDates(data.rows).value, year, month);
            && (forall i, j :: 0 <= i < j < |r| ==> StrLt(r[i].category, r[j].category))
            && (forall i :: 0 <= i < |r| ==>
                  exists x :: x in spent && x.category == Some(r[i].category))
            && (forall x :: x in spent && x.category.Some? ==>
                  (exists i :: 0 <= i < |r| && r[i].category == x.category.value)
                  || (|r| == 3 && forall i :: 0 <= i < 3 ==> StrLt(r[i].category, x.category.value)))
  {
    TopThreeAreFirstGroups(data, year, month);
    FirstGroups(MonthSpend(CoerceDates(data.rows).value, year, month), GetTopThreeCategory(data, year, month).value);
  }

  /** The first min(3, n) groups of some rows, as pairs: ascending, present, and the smallest. */
  lemma FirstGroups(spent: seq<Row>, r: seq<CategoryCashback>)
    requires |r| == Min(3, |GroupKeys(spent, ByCategory)|)
    requires forall i :: 0 <= i < |r| ==> r[i].category == GroupKeys(spent, ByCategory)[i]
    ensures forall i, j :: 0 <= i < j < |r| ==> StrLt(r[i].category, r[j].category)
    ensures forall i :: 0 <= i < |r| ==> exists x :: x in spent && x.category == Some(r[i].category)
    ensures forall x :: x in spent && x.category.Some? ==>
              (exists i :: 0 <= i < |r| && r[i].category == x.category.value)
              || (|r| == 3 && forall i :: 0 <= i < 3 ==> StrLt(r[i].category, x.category.value))
  {
    var groups := GroupKeys(spent, ByCategory);
    GroupKeysMembers(spent, ByCategory);
    forall i | 0 <= i < |r| ensures exists x :: x in spent && x.category == Some(r[i].category) {
      assert groups[i] in groups;
      var x :| x in spent && KeyOf(x, ByCategory) == Some(groups[i]);
    }
    forall x | x in spent && x.category.Some?
      ensures (exists i :: 0 <= i < |r| && r[i].category == x.category.value)
              || (|r| == 3 && forall i :: 0 <= i < 3 ==> StrLt(r[i].category, x.category.value))
    {
      var c := x.category.value;
      assert KeyOf(x, ByCategory) == Some(c);
      assert c in groups;
      var p :| 0 <= p < |groups| && groups[p] == c;
      if p >= 3 {
        forall i | 0 <= i < 3 ensures StrLt(r[i].category, c) { assert groups[i] == r[i].category; }
      } else {
        assert r[p].category == c;
      }
    }
  }

  /** Each value is the kopeck nearest to 10 % of the category's (positive) spend in the month. */
  lemma TopThreeValues(data: Table, year: int, month: int)
    requires GetTopThreeCategory(data, year, month).Ok?
    ensures var r := GetTopThreeCategory(data, year, month).value;
            var spent := MonthSpend(CoerceDates(data.rows).value, year, month);
            forall i :: 0 <= i < |r| ==>
              var spend := -GroupTotal(spent, ByCategory, r[i].category);
              spend > 0 && 2 * spend <= 20 * r[i].cashback + 10 && 20 * r[i].cashback <= 2 * spend + 10
  {
    var r := GetTopThreeCategory(data, year, month).value;
    var spent := MonthSpend(CoerceDates(data.rows).value, year, month);
    TopThreeAreFirstGroups(data, year, month);
    forall i | 0 <= i < |r|
      ensures var spend := -GroupTotal(spent, ByCategory, r[i].category);
              spend > 0 && 2 * spend <= 20 * r[i].cashback + 10 && 20 * r[i].cashback <= 2 * spend + 10
    {
      CategorySpendIsPositive(CoerceDates(data.rows).value, year, month, r[i].category);
    }
  }

  /** A category among the month's groups has spent a positive amount. */
  lemma CategorySpendIsPositive(rows: seq<Row>, year: int, month: int, c: string)
    requires c in GroupKeys(MonthSpend(rows, year, month), ByCategory)
    ensures GroupTotal(MonthSpend(rows, year, month), ByCategory, c) < 0
  {
    var spent := MonthSpend(rows, year, month);
    var group := Select(spent, KeyIs(ByCategory, c));
    GroupKeysMembers(spent, ByCategory);
    SelectMembers(spent, KeyIs(ByCategory, c));
    SelectMembers(rows, CalendarMonthExpenses(year, month));
    var x :| x in spent && KeyOf(x, ByCategory) == Some(c);
    assert x in group;
    ExpenseSumIsNegative(group);
  }

  /** `"{}"` exactly when no OK expense of the month has a category. */
  lemma TopThreeEmpty(data: Table, year: int, month: int)
    requires GetTopThreeCategory(data, year, month).Ok?
    ensures GetTopThreeCategory(data, year, month).value == [] <==>
              forall x :: x in CoerceDates(data.rows).value && Keeps(CalendarMonthExpenses(year, month), x) ==> x.category.None?
  {
    var rows := CoerceDates(data.rows).value;
    var spent := MonthSpend(rows, year, month);
    GroupKeysMembers(spent, ByCategory);
    SelectMembers(rows, CalendarMonthExpenses(year, month));
    var groups := GroupKeys(spent, ByCategory);
    if groups != [] {
      assert groups[0] in groups;
    }
  }

  /**
   * The window of the month: an operation counts only inside (year, month),
   * and on the last day only at exactly 00:00:00; later that day it is left out.
   */
  lemma CalendarMonthWindow(year: int, month: int, x: Row)
    requires 1 <= month <= 12 && x.operationDate.Parsed? && Valid(x.operationDate.time)
    ensures var t := x.operationDate.time;
            Keeps(CalendarMonthExpenses(year, month), x) ==>
              t.year == year && t.month == month && (t.day == DaysInMonth(year, month) ==> TimeOfDay(t) <= 0)
    ensures var t := x.operationDate.time;
            t.year == year && t.month == month && t.day == DaysInMonth(year, month) && TimeOfDay(t) > 0 ==>
              !Keeps(CalendarMonthExpenses(year, month), x)
  {
  }

  /** The status and amount filters: FAILED operations and incomes never count. */
  lemma OnlyOkExpensesCount(rows: seq<Row>, year: int, month: int, x: Row)
    requires x in rows && (!IsOk(x) || !IsExpense(x))
    ensures x !in MonthSpend(rows, year, month)
  {
    SelectMembers(rows, CalendarMonthExpenses(year, month));
  }
}
