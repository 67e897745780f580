/**
 * src/reports.py: the operations of one category in the 90 days up to a
 * reference date. The caller's frame has its date column converted in place.
 */
module Reports {
  import opened Wrappers
  import opened Dates
  import opened Frames
  import Utils

  const RequiredColumnsList: seq<string> := [OperationDate, Status, Amount, Category]

  /** Length of the window, in days, and the same in seconds. */
  const WindowDays: nat := 90
  const WindowSeconds: int := 7776000

  /**
   * The reference date: `now` (the clock, a parameter here) when no date or an
   * empty one is given, otherwise the date the text denotes.
   */
  function ReferenceDate(date: Option<string>, now: DateTime): (r: Result<DateTime, Error>)
    requires Valid(now)
    ensures r.Ok? ==> Valid(r.value)
    ensures date.None? || date == Some("") ==> r == Ok(now)
    ensures r.Err? ==> r == Err(UnsupportedFormat) && date.Some?
    ensures r.Ok? && date.Some? && date.value != "" ==>
              date.value == FormatIsoDate(r.value) || date.value == FormatIsoDateTime(r.value)
    ensures forall t :: Valid(t) && date == Some(FormatIsoDate(t)) ==> r == Ok(t.(hour := 0, minute := 0, second := 0))
    ensures forall t :: Valid(t) && date == Some(FormatIsoDateTime(t)) ==> r == Ok(t)
  {
    if date.None? || date.value == "" then Ok(now)
    else Utils.ValidateAndFormatDate(date.value)
  }

  /** The mask of src/reports.py:46-52 for a valid reference date; `date - timedelta(90)` may overflow. */
  function CategoryFilter(category: string, dateTo: DateTime): (r: Result<RowFilter, Error>)
    requires Valid(dateTo)
    ensures r.Err? <==> DayNumber(dateTo) <= WindowDays
    ensures r.Err? ==> r.error == DateOverflow
    ensures r.Ok? ==> r.value.CategoryExpenses? && r.value.category == category && r.value.to == dateTo
                      && Valid(r.value.from) && Seconds(r.value.from) == Seconds(dateTo) - WindowSeconds
                      && TimeOfDay(r.value.from) == TimeOfDay(dateTo)
  {
    match MinusDays(dateTo, WindowDays)
    case None => Err(DateOverflow)
    case Some(from) => Ok(CategoryExpenses(category, from, dateTo))
  }

  /**
   * What `spending_by_category` returns, the error first: the date, then the
   * window, then the columns (the message lists all four), then the
   * conversion of the date column; on success the rows the mask keeps.
   */
  function Spending(t: Table, category: string, date: Option<string>, now: DateTime): Result<Table, Error>
    requires Valid(now)
  {
    match ReferenceDate(date, now)
    case Err(e) => Err(e)
    case Ok(dateTo) =>
      match CategoryFilter(category, dateTo)
      case Err(e) => Err(e)
      case Ok(f) =>
        if MissingColumns(t.columns, RequiredColumnsList) != [] then Err(RequiredColumns(RequiredColumnsList))
        else
          match CoerceDates(t.rows)
          case Err(e) => Err(e)
          case Ok(rows) => Ok(Table(t.columns, Select(rows, f)))
  }

  /** The caller's rows afterwards: converted once src/reports.py:43 has run, untouched otherwise. */
  function RowsAfter(t: Table, category: string, date: Option<string>, now: DateTime): seq<Row>
    requires Valid(now)
  {
    if ReferenceDate(date, now).Err? || CategoryFilter(category, ReferenceDate(date, now).value).Err?
       || MissingColumns(t.columns, RequiredColumnsList) != [] || CoerceDates(t.rows).Err?
    then t.rows
    else CoerceDates(t.rows).value
  }

  /** `spending_by_category(transactions, category, date)`, with the clock's reading as `now`. */
  method SpendingByCategory(transactions: Frame, category: string, date: Option<string>, now: DateTime)
    returns (r: Result<Table, Error>)
    requires Valid(now)
    modifies transactions
    ensures r == Spending(old(transactions.Snapshot()), category, date, now)
    ensures transactions.columns == old(transactions.columns)
    ensures transactions.rows == RowsAfter(old(transactions.Snapshot()), category, date, now)
  {
    var reference := ReferenceDate(date, now);
    if reference.Err? {
      return Err(reference.error);
    }
    var dateTo := reference.value;
    var window := CategoryFilter(category, dateTo);
    if window.Err? {
      return Err(window.error);
    }
    if MissingColumns(transactions.columns, RequiredColumnsList) != [] {
      return Err(RequiredColumns(RequiredColumnsList));
    }
    var failure := transactions.ConvertOperationDates();
    if failure.Some? {
      return Err(failure.value);
    }
    r := Ok(Table(transactions.columns, Select(transactions.rows, window.value)));
  }

  /**
   * The window is the closed interval [date - 90 days, date]: a row is kept
   * exactly when it is an OK expense of the category whose timestamp lies at
   * most 7 776 000 seconds before the reference date and not after it.
   */
  lemma CategoryWindow(category: string, dateTo: DateTime, x: Row)
    requires Valid(dateTo) && DayNumber(dateTo) > WindowDays
    requires x.operationDate.Parsed? && Valid(x.operationDate.time)
    ensures Keeps(CategoryFilter(category, dateTo).value, x) <==>
              IsOk(x) && IsExpense(x) && x.category == Some(category)
              && Seconds(dateTo) - WindowSeconds <= Seconds(x.operationDate.time) <= Seconds(dateTo)
  {
    var f := CategoryFilter(category, dateTo).value;
    LessEqIsSecondsOrder(f.from, x.operationDate.time);
    LessEqIsSecondsOrder(x.operationDate.time, dateTo);
  }

  /**
   * On success the result holds exactly the converted rows that are OK
   * expenses of the category dated inside the window, in their input order.
   */
  lemma SpendingRows(t: Table, category: string, date: Option<string>, now: DateTime)
    requires Valid(now)
    ensures Spending(t, category, date, now).Ok? ==>
              var dateTo := ReferenceDate(date, now).value;
              var rows := CoerceDates(t.rows).value;
              var kept := Spending(t, category, date, now).value;
              && CategoryFilter(category, dateTo).Ok?
              && kept.columns == t.columns
              && IsSubsequence(kept.rows, rows)
              && forall x :: x in kept.rows <==> x in rows && Keeps(CategoryFilter(category, dateTo).value, x)
  {
    if Spending(t, category, date, now).Err? {
      return;
    }
    var f := CategoryFilter(category, ReferenceDate(date, now).value).value;
    var rows := CoerceDates(t.rows).value;
    SelectMembers(rows, f);
    SelectIsSubsequence(rows, f);
  }

  /** Any one of the four columns missing fails, and the error names all four. */
  lemma MissingColumnFails(t: Table, category: string, date: Option<string>, now: DateTime, c: string)
    requires Valid(now) && c in RequiredColumnsList && c !in t.columns
    ensures ReferenceDate(date, now).Ok? && DayNumber(ReferenceDate(date, now).value) > WindowDays ==>
              Spending(t, category, date, now) == Err(RequiredColumns([OperationDate, Status, Amount, Category]))
    ensures RowsAfter(t, category, date, now) == t.rows
  {
    assert c in MissingColumns(t.columns, RequiredColumnsList);
  }

  /** Running the report again on its own result, with the same arguments, returns it unchanged. */
  lemma SpendingIdempotent(t: Table, category: string, date: Option<string>, now: DateTime)
    requires Valid(now)
    ensures Spending(t, category, date, now).Ok? ==>
              Spending(Spending(t, category, date, now).value, category, date, now) == Spending(t, category, date, now)
  {
    if Spending(t, category, date, now).Err? {
      return;
    }
    var f := CategoryFilter(category, ReferenceDate(date, now).value).value;
    var rows := CoerceDates(t.rows).value;
    var kept := Select(rows, f);
    SelectIsSubsequence(rows, f);
    SubsequenceCoerced(kept, rows);
    CoerceDatesIdempotent(kept);
    SelectIdempotent(rows, f);
  }
}
