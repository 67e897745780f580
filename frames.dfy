/**
 * The in-memory table of bank operations (a pandas DataFrame): the set of
 * column headers present, and the rows in order. Every cell may be empty, as
 * in pandas (None / NaN / NaT). Amounts and cashback are in kopecks.
 */
module Frames {
  import opened Wrappers
  import opened Text
  import opened Dates

  // Column headers of the bank export.
  const OperationDate: string := "Дата операции"
  const Status: string := "Статус"
  const Amount: string := "Сумма платежа"
  const Category: string := "Категория"
  const CardNumber: string := "Номер карты"
  const Cashback: string := "Кэшбэк"
  const PaymentDate: string := "Дата платежа"
  const Description: string := "Описание"

  /** The exceptions the reports raise. */
  datatype Error =
    | KeyError(key: string)                  // a column or dictionary key that is absent
    | TypeError                              // strptime given something that is not a str
    | DateParseError(text: string)           // a date text that does not parse
    | MissingColumn(columns: seq<string>)    // ValueError "Отсутствует необходимый столбец: ..."
    | RequiredColumns(columns: seq<string>)  // ValueError "DataFrame должен содержать столбцы: [...]"
    | InvalidYearOrMonth                     // datetime(year, month, 1) / monthrange refuse the year or month
    | UnsupportedFormat                      // ValueError "Данного формата не поддерживается"
    | DateOverflow                           // OverflowError: a date before 0001-01-01

  /** A cell of the operation-date column: text as loaded, a parsed timestamp, or NaT. */
  datatype DateCell = Unparsed(text: string) | Parsed(time: DateTime) | NaT

  datatype Row = Row(
    operationDate: DateCell,
    status: Option<string>,
    amount: Option<int>,
    category: Option<string>,
    cardNumber: Option<string>,
    cashback: Option<int>,
    paymentDate: Option<string>,
    description: Option<string>)

  datatype Table = Table(columns: set<string>, rows: seq<Row>)

  /** `df.empty`: no rows or no columns. */
  predicate IsEmpty(t: Table) { |t.rows| == 0 || t.columns == {} }

  /** `a` is `b` with some elements left out, the rest in their order. */
  predicate IsSubsequence<T(==)>(a: seq<T>, b: seq<T>)
  {
    a == [] || (b != [] && ((a[0] == b[0] && IsSubsequence(a[1..], b[1..])) || IsSubsequence(a, b[1..])))
  }

  /** The headers of `required` that `columns` lacks, in the order of `required`. */
  function MissingColumns(columns: set<string>, required: seq<string>): (r: seq<string>)
    ensures forall c :: c in r <==> c in required && c !in columns
    ensures IsSubsequence(r, required)
  {
    if required == [] then []
    else if required[0] in columns then MissingColumns(columns, required[1..])
    else
      var rest := MissingColumns(columns, required[1..]);
      assert ([required[0]] + rest)[1..] == rest;
      [required[0]] + rest
  }

  // ---- Row predicates used by the masks ----

  predicate IsOk(r: Row) { r.status == Some("OK") }

  predicate IsExpense(r: Row) { r.amount.Some? && r.amount.value < 0 }

  /** A parsed date inside [from, to], both ends included; NaT and text never are. */
  predicate DateWithin(c: DateCell, from: DateTime, to: DateTime)
  {
    c.Parsed? && LessEq(from, c.time) && LessEq(c.time, to)
  }

  datatype GroupBy = ByCard | ByCategory

  function KeyOf(r: Row, g: GroupBy): Option<string>
  {
    match g
    case ByCard => r.cardNumber
    case ByCategory => r.category
  }

  /** The boolean masks the reports apply to a table. */
  datatype RowFilter =
    | MonthToDate(until: DateTime)               // OK operations from the 1st of the month to `until`
    | CalendarMonthExpenses(year: int, month: int) // OK expenses of a month, up to midnight of its last day
    | CategoryExpenses(category: string, from: DateTime, to: DateTime)
    | Expenses                                   // amount < 0
    | KeyIs(grouping: GroupBy, key: string)            // one group of a groupby

  predicate Keeps(f: RowFilter, r: Row)
  {
    match f
    case MonthToDate(until) =>
      DateWithin(r.operationDate, MonthStart(until), until) && IsOk(r)
    case CalendarMonthExpenses(y, m) =>
      1 <= m <= 12
      && DateWithin(r.operationDate, DateTime(y, m, 1, 0, 0, 0), DateTime(y, m, DaysInMonth(y, m), 0, 0, 0))
      && IsOk(r) && IsExpense(r)
    case CategoryExpenses(c, from, to) =>
      DateWithin(r.operationDate, from, to) && IsOk(r) && IsExpense(r) && r.category == Some(c)
    case Expenses => IsExpense(r)
    case KeyIs(g, k) => KeyOf(r, g) == Some(k)
  }

  /** `df[mask]`: the rows the filter keeps, in their order. */
  function Select(rows: seq<Row>, f: RowFilter): (r: seq<Row>)
    ensures |r| <= |rows|
  {
    if rows == [] then []
    else if Keeps(f, rows[0]) then [rows[0]] + Select(rows[1..], f)
    else Select(rows[1..], f)
  }

  /** The rows kept are exactly the rows of the table that pass the mask. */
  lemma {:induction false} SelectMembers(rows: seq<Row>, f: RowFilter)
    ensures forall x :: x in Select(rows, f) <==> x in rows && Keeps(f, x)
    ensures multiset(Select(rows, f)) <= multiset(rows)
  {
    if rows != [] {
      SelectMembers(rows[1..], f);
      assert rows == [rows[0]] + rows[1..];
    }
  }

  /** A row that passes the mask is kept as many times as it occurs in the table. */
  lemma {:induction false} SelectCounts(rows: seq<Row>, f: RowFilter, x: Row)
    ensures multiset(Select(rows, f))[x] == if Keeps(f, x) then multiset(rows)[x] else 0
  {
    if rows != [] {
      SelectCounts(rows[1..], f, x);
      assert multiset(rows) == multiset([rows[0]]) + multiset(rows[1..]) by {
        assert rows == [rows[0]] + rows[1..];
      }
      if Keeps(f, rows[0]) {
        assert multiset(Select(rows, f)) == multiset([rows[0]]) + multiset(Select(rows[1..], f));
      }
    }
  }

  lemma {:induction false} SelectIsSubsequence(rows: seq<Row>, f: RowFilter)
    ensures IsSubsequence(Select(rows, f), rows)
  {
    if rows != [] {
      SelectIsSubsequence(rows[1..], f);
      if Keeps(f, rows[0]) {
        assert ([rows[0]] + Select(rows[1..], f))[1..] == Select(rows[1..], f);
      }
    }
  }

  /** Applying a mask to rows that all pass it changes nothing. */
  lemma {:induction false} SelectKeepsAll(rows: seq<Row>, f: RowFilter)
    requires forall x :: x in rows ==> Keeps(f, x)
    ensures Select(rows, f) == rows
  {
    if rows != [] {
      SelectKeepsAll(rows[1..], f);
      assert rows == [rows[0]] + rows[1..];
    }
  }

  lemma SelectIdempotent(rows: seq<Row>, f: RowFilter)
    ensures Select(Select(rows, f), f) == Select(rows, f)
  {
    SelectMembers(rows, f);
    SelectKeepsAll(Select(rows, f), f);
  }

  /** pandas `sum()` of the amounts: empty cells are skipped. */
  function SumAmounts(rows: seq<Row>): int
  {
    if rows == [] then 0
    else (if rows[0].amount.Some? then rows[0].amount.value else 0) + SumAmounts(rows[1..])
  }

  lemma {:induction false} ExpenseSumIsNegative(rows: seq<Row>)
    requires forall x :: x in rows ==> IsExpense(x)
    ensures SumAmounts(rows) <= 0
    ensures rows != [] ==> SumAmounts(rows) < 0
  {
    if rows != [] {
      assert rows[0] in rows;
      assert forall x :: x in rows[1..] ==> x in rows;
      ExpenseSumIsNegative(rows[1..]);
    }
  }

  /** The non-empty group keys of the rows, in row order. */
  function PresentKeys(rows: seq<Row>, g: GroupBy): (r: seq<string>)
    ensures forall k :: k in r <==> exists x :: x in rows && KeyOf(x, g) == Some(k)
  {
    if rows == [] then []
    else
      var rest := PresentKeys(rows[1..], g);
      assert forall x :: x in rows <==> x == rows[0] || x in rows[1..] by {
        assert rows == [rows[0]] + rows[1..];
      }
      match KeyOf(rows[0], g)
      case Some(k) => [k] + rest
      case None => rest
  }

  /** The groups of `groupby(column)`, in its (sorted) order; empty keys are dropped. */
  function GroupKeys(rows: seq<Row>, g: GroupBy): (r: seq<string>)
    ensures StrictlyAscending(r)
  {
    SortedDistinct(PresentKeys(rows, g))
  }

  lemma GroupKeysMembers(rows: seq<Row>, g: GroupBy)
    ensures forall k :: k in GroupKeys(rows, g) <==> exists x :: x in rows && KeyOf(x, g) == Some(k)
  {
  }

  /** `groupby(column)[amount].sum()` for the group `k`. */
  function GroupTotal(rows: seq<Row>, g: GroupBy, k: string): int
  {
    SumAmounts(Select(rows, KeyIs(g, k)))
  }

  // ---- `pd.to_datetime(df["Дата операции"], dayfirst=True)` ----

  function ToDatetime(c: DateCell): Result<DateCell, Error>
  {
    match c
    case Unparsed(s) =>
      (match ParseOperationDate(s)
       case Some(t) => Ok(Parsed(t))
       case None => Err(DateParseError(s)))
    case _ => Ok(c)
  }

  predicate DatesCoerced(rows: seq<Row>)
  {
    forall i :: 0 <= i < |rows| ==> !rows[i].operationDate.Unparsed?
  }

  /** Row `b` is row `a` with its date text replaced by the timestamp it denotes. */
  predicate CoercedFrom(a: Row, b: Row)
  {
    b == a.(operationDate := b.operationDate)
    && !b.operationDate.Unparsed?
    && (a.operationDate.Unparsed? ==>
          b.operationDate.Parsed? && ParseOperationDate(a.operationDate.text) == Some(b.operationDate.time)
          && Valid(b.operationDate.time) && FormatOperationDate(b.operationDate.time) == a.operationDate.text)
    && (!a.operationDate.Unparsed? ==> b == a)
  }

  /**
   * The whole date column converted; a text that does not parse raises, and the
   * error names the first such text.
   */
  function CoerceDates(rows: seq<Row>): (r: Result<seq<Row>, Error>)
    ensures r.Ok? ==> |r.value| == |rows| && DatesCoerced(r.value)
    ensures r.Ok? ==> forall i :: 0 <= i < |rows| ==> CoercedFrom(rows[i], r.value[i])
    ensures r.Ok? <==> forall i :: 0 <= i < |rows| ==> ToDatetime(rows[i].operationDate).Ok?
    ensures r.Err? ==> exists i :: 0 <= i < |rows| && rows[i].operationDate.Unparsed?
                        && ParseOperationDate(rows[i].operationDate.text).None?
                        && r.error == DateParseError(rows[i].operationDate.text)
  {
    if rows == [] then Ok([])
    else
      match ToDatetime(rows[0].operationDate)
      case Err(e) => Err(e)
      case Ok(c) =>
        ToDatetimeKeepsText(rows[0]);
        match CoerceDates(rows[1..])
        case Err(e) => Err(e)
        case Ok(rest) => Ok([rows[0].(operationDate := c)] + rest)
  }

  lemma ToDatetimeKeepsText(a: Row)
    requires ToDatetime(a.operationDate).Ok?
    ensures CoercedFrom(a, a.(operationDate := ToDatetime(a.operationDate).value))
  {
    if a.operationDate.Unparsed? {
      FormatParseOperationDate(a.operationDate.text);
    }
  }

  /** Converting an already converted column again changes nothing. */
  lemma {:induction false} CoerceDatesIdempotent(rows: seq<Row>)
    requires DatesCoerced(rows)
    ensures CoerceDates(rows) == Ok(rows)
  {
    if rows != [] {
      assert DatesCoerced(rows[1..]) by {
        forall i | 0 <= i < |rows[1..]| ensures !rows[1..][i].operationDate.Unparsed? {
          assert rows[1..][i] == rows[i + 1];
        }
      }
      CoerceDatesIdempotent(rows[1..]);
      assert rows == [rows[0]] + rows[1..];
    }
  }

  /** A subsequence of converted rows is converted. */
  lemma {:induction false} SubsequenceCoerced(a: seq<Row>, b: seq<Row>)
    requires IsSubsequence(a, b) && DatesCoerced(b)
    ensures DatesCoerced(a)
    decreases |b|
  {
    if a != [] && b != [] {
      assert DatesCoerced(b[1..]) by {
        forall i | 0 <= i < |b[1..]| ensures !b[1..][i].operationDate.Unparsed? { assert b[1..][i] == b[i + 1]; }
      }
      if a[0] == b[0] && IsSubsequence(a[1..], b[1..]) {
        SubsequenceCoerced(a[1..], b[1..]);
        forall i | 0 <= i < |a| ensures !a[i].operationDate.Unparsed? {
          if i > 0 { assert a[i] == a[1..][i - 1]; }
        }
      } else {
        SubsequenceCoerced(a, b[1..]);
      }
    }
  }

  /** The caller's DataFrame, which some reports update in place. */
  class Frame {
    var columns: set<string>
    var rows: seq<Row>

    constructor (t: Table)
      ensures columns == t.columns && rows == t.rows
    {
      columns := t.columns;
      rows := t.rows;
    }

    function Snapshot(): Table
      reads this
    {
      Table(columns, rows)
    }

    /**
     * `df["Дата операции"] = pd.to_datetime(df["Дата операции"], dayfirst=True)`:
     * the column is replaced only when every cell converts.
     */
    method ConvertOperationDates() returns (e: Option<Error>)
      modifies this
      ensures columns == old(columns)
      ensures OperationDate !in columns ==> e == Some(KeyError(OperationDate)) && rows == old(rows)
      ensures OperationDate in columns && CoerceDates(old(rows)).Ok? ==>
                e == None && rows == CoerceDates(old(rows)).value
      ensures OperationDate in columns && CoerceDates(old(rows)).Err? ==>
                e == Some(CoerceDates(old(rows)).error) && rows == old(rows)
    {
      if OperationDate !in columns {
        return Some(KeyError(OperationDate));
      }
      var converted := CoerceDates(rows);
      if converted.Err? {
        return Some(converted.error);
      }
      rows := converted.value;
      e := None;
    }
  }
}
