/**
 * src/utils.py: the greeting, the month-to-date filter that rewrites the
 * caller's date column, the per-card report and the top-five ranking.
 */
module Utils {
  import opened Wrappers
  import opened Text
  import opened Dates
  import opened Money
  import opened Frames

  const Night: string := "Доброй ночи"
  const Morning: string := "Доброе утро"
  const Afternoon: string := "Добрый день"
  const Evening: string := "Добрый вечер"

  /** The greeting for the hour of `dateObj`. */
  function GreetingFromTimeToTime(dateObj: DateTime): (message: string)
    requires 0 <= dateObj.hour < 24
    ensures message == Night <==> dateObj.hour < 6
    ensures message == Morning <==> 6 <= dateObj.hour < 12
    ensures message == Afternoon <==> 12 <= dateObj.hour < 18
    ensures message == Evening <==> 18 <= dateObj.hour
  {
    var hours := dateObj.hour;
    if 0 <= hours < 6 then Night
    else if 6 <= hours < 12 then Morning
    else if 12 <= hours < 18 then Afternoon
    else Evening
  }

  /**
   * The report date a user types: "YYYY-MM-DD" or "YYYY-MM-DD HH:MM:SS",
   * anything else raising ValueError("Данного формата не поддерживается").
   */
  function ValidateAndFormatDate(date: string): (r: Result<DateTime, Error>)
    ensures r.Ok? ==> Valid(r.value) && (|date| == 10 ==> TimeOfDay(r.value) == 0)
    ensures r.Err? ==> r.error == UnsupportedFormat
    ensures r.Ok? ==> date == FormatIsoDate(r.value) || date == FormatIsoDateTime(r.value)
    ensures forall t :: Valid(t) && date == FormatIsoDate(t) ==> r == Ok(t.(hour := 0, minute := 0, second := 0))
    ensures forall t :: Valid(t) && date == FormatIsoDateTime(t) ==> r == Ok(t)
  {
    forall t | Valid(t) && date == FormatIsoDate(t)
      ensures ParseIsoDate(date) == Some(t.(hour := 0, minute := 0, second := 0))
    {
      ParseFormatIsoDate(t);
    }
    forall t | Valid(t) && date == FormatIsoDateTime(t) ensures ParseIsoDate(date) == Some(t) {
      ParseFormatIsoDateTime(t);
    }
    match ParseIsoDate(date)
    case Some(t) =>
      FormatParseIsoDate(date);
      Ok(t)
    case None => Err(UnsupportedFormat)
  }

  // ---- filter_operations_by_month_and_date (DataFrame version) ----

  /**
   * Converts the caller's date column in place, then keeps the OK operations
   * dated from the 1st of `dateObj`'s month at 00:00:00 to `dateObj`, both
   * included, in their order. The conversion stays even when the status
   * column turns out to be missing.
   */
  method FilterOperationsByMonthAndDate(df: Frame, dateObj: DateTime) returns (r: Result<Table, Error>)
    requires Valid(dateObj)
    modifies df
    ensures df.columns == old(df.columns)
    ensures OperationDate !in df.columns ==> r == Err(KeyError(OperationDate)) && df.rows == old(df.rows)
    ensures OperationDate in df.columns && CoerceDates(old(df.rows)).Err? ==>
              r == Err(CoerceDates(old(df.rows)).error) && df.rows == old(df.rows)
    ensures OperationDate in df.columns && CoerceDates(old(df.rows)).Ok? ==>
              df.rows == CoerceDates(old(df.rows)).value
              && r == (if Status in df.columns then Ok(Table(df.columns, Select(df.rows, MonthToDate(dateObj))))
                       else Err(KeyError(Status)))
  {
    var failure := df.ConvertOperationDates();
    if failure.Some? {
      return Err(failure.value);
    }
    if Status !in df.columns {
      return Err(KeyError(Status));
    }
    r := Ok(Table(df.columns, Select(df.rows, MonthToDate(dateObj))));
  }

  /**
   * A row is kept exactly when it is OK and dated inside the month-to-date
   * window, which is the part of `dateObj`'s own month up to `dateObj`.
   */
  lemma MonthToDateWindow(rows: seq<Row>, dateObj: DateTime, x: Row)
    requires Valid(dateObj)
    ensures x in Select(rows, MonthToDate(dateObj)) <==>
              x in rows && IsOk(x) && x.operationDate.Parsed?
              && LessEq(DateTime(dateObj.year, dateObj.month, 1, 0, 0, 0), x.operationDate.time)
              && LessEq(x.operationDate.time, dateObj)
    ensures x in Select(rows, MonthToDate(dateObj)) ==>
              x.operationDate.time.year == dateObj.year && x.operationDate.time.month == dateObj.month
  {
  }

  /** Filtering the filtered table again with the same date keeps it as it is. */
  lemma MonthToDateIdempotent(rows: seq<Row>, dateObj: DateTime)
    requires DatesCoerced(rows)
    ensures CoerceDates(Select(rows, MonthToDate(dateObj))) == Ok(Select(rows, MonthToDate(dateObj)))
    ensures Select(Select(rows, MonthToDate(dateObj)), MonthToDate(dateObj)) == Select(rows, MonthToDate(dateObj))
  {
    var kept := Select(rows, MonthToDate(dateObj));
    SelectIsSubsequence(rows, MonthToDate(dateObj));
    SubsequenceCoerced(kept, rows);
    CoerceDatesIdempotent(kept);
    SelectIdempotent(rows, MonthToDate(dateObj));
  }

  // ---- generate_card_report ----

  datatype CardSummary = CardSummary(lastDigits: string, totalSpent: nat, cashback: nat)

  /** The expense rows that `generate_card_report` groups. */
  function CardExpenses(df: Table): seq<Row>
  {
    Select(df.rows, Expenses)
  }

  /** One card's line: last four characters, spend, and 1 kopeck per 100 spent. */
  function CardLine(expenses: seq<Row>, card: string): CardSummary
  {
    var total := Abs(GroupTotal(expenses, ByCard, card));
    CardSummary(LastFour(card), total, OnePercent(total))
  }

  /**
   * `[]` for an empty frame before any column is looked up; otherwise the
   * first of "Сумма платежа", "Номер карты", "Кэшбэк" that is missing raises;
   * otherwise one line per card that has expenses, in the groupby's card order.
   */
  method GenerateCardReport(df: Table) returns (r: Result<seq<CardSummary>, Error>)
    ensures IsEmpty(df) ==> r == Ok([])
    ensures !IsEmpty(df) && Amount !in df.columns ==> r == Err(MissingColumn([Amount]))
    ensures !IsEmpty(df) && Amount in df.columns && CardNumber !in df.columns ==> r == Err(MissingColumn([CardNumber]))
    ensures !IsEmpty(df) && Amount in df.columns && CardNumber in df.columns && Cashback !in df.columns ==>
              r == Err(MissingColumn([Cashback]))
    ensures !IsEmpty(df) && Amount in df.columns && CardNumber in df.columns && Cashback in df.columns ==>
              r.Ok? && |r.value| == |GroupKeys(CardExpenses(df), ByCard)|
              && forall j :: 0 <= j < |r.value| ==>
                   r.value[j] == CardLine(CardExpenses(df), GroupKeys(CardExpenses(df), ByCard)[j])
  {
    if IsEmpty(df) {
      return Ok([]);
    }
    if Amount !in df.columns {
      return Err(MissingColumn([Amount]));
    }
    var expenses := Select(df.rows, Expenses);
    if CardNumber !in df.columns {
      return Err(MissingColumn([CardNumber]));
    }
    if Cashback !in df.columns {
      return Err(MissingColumn([Cashback]));
    }
    var cards := GroupKeys(expenses, ByCard);
    var result: seq<CardSummary> := [];
    var i := 0;
    while i < |cards|
      invariant 0 <= i <= |cards|
      invariant |result| == i
      invariant forall j :: 0 <= j < i ==> result[j] == CardLine(expenses, cards[j])
    {
      var lastDigits := LastFour(cards[i]);
      var totalSpent := Abs(GroupTotal(expenses, ByCard, cards[i]));
      var cashback := OnePercent(totalSpent);
      result := result + [CardSummary(lastDigits, totalSpent, cashback)];
      i := i + 1;
    }
    r := Ok(result);
  }

  /**
   * The cards of the report are exactly the cards with at least one expense,
   * each once, in ascending order; income rows and rows without a card add
   * nothing; the spend is the (positive) size of that card's expenses and
   * the cashback the kopeck nearest to 1 % of it.
   */
  lemma CardReportLines(df: Table, j: int)
    requires 0 <= j < |GroupKeys(CardExpenses(df), ByCard)|
    ensures var cards := GroupKeys(CardExpenses(df), ByCard);
            var line := CardLine(CardExpenses(df), cards[j]);
            && (exists x :: x in df.rows && IsExpense(x) && x.cardNumber == Some(cards[j]))
            && line.lastDigits == cards[j][|cards[j]| - |line.lastDigits|..]
            && |line.lastDigits| == Min(4, |cards[j]|)
            && line.totalSpent > 0
            && line.totalSpent == -SumAmounts(Select(CardExpenses(df), KeyIs(ByCard, cards[j])))
            && 2 * line.totalSpent <= 200 * line.cashback + 100
            && 200 * line.cashback <= 2 * line.totalSpent + 100
  {
    var cards := GroupKeys(CardExpenses(df), ByCard);
    assert cards[j] in cards;
    CardHasExpenses(df, cards[j]);
  }

  /** A card among the groups has an expense row, and its expenses sum to a negative amount. */
  lemma CardHasExpenses(df: Table, card: string)
    requires card in GroupKeys(CardExpenses(df), ByCard)
    ensures exists x :: x in df.rows && IsExpense(x) && x.cardNumber == Some(card)
    ensures GroupTotal(CardExpenses(df), ByCard, card) < 0
  {
    var expenses := CardExpenses(df);
    SelectMembers(df.rows, Expenses);
    GroupKeysMembers(expenses, ByCard);
    var group := Select(expenses, KeyIs(ByCard, card));
    SelectMembers(expenses, KeyIs(ByCard, card));
    var x :| x in expenses && KeyOf(x, ByCard) == Some(card);
    assert x in group;
    ExpenseSumIsNegative(group);
  }

  /** Every card with an expense gets a line. */
  lemma CardReportCoversExpenses(df: Table, x: Row)
    requires x in df.rows && IsExpense(x) && x.cardNumber.Some?
    ensures x.cardNumber.value in GroupKeys(CardExpenses(df), ByCard)
  {
    SelectMembers(df.rows, Expenses);
    GroupKeysMembers(CardExpenses(df), ByCard);
    assert x in CardExpenses(df);
  }

  // ---- generator_top_five_transactions ----

  datatype TopTransaction = TopTransaction(
    date: Option<string>, amount: Option<int>, category: Option<string>, description: Option<string>)

  function Entry(x: Row): TopTransaction
  {
    TopTransaction(x.paymentDate, x.amount, x.category, x.description)
  }

  function Entries(rows: seq<Row>): (r: seq<TopTransaction>)
    ensures |r| == |rows|
  {
    seq(|rows|, i requires 0 <= i < |rows| => Entry(rows[i]))
  }

  /** `a` may precede `b` in a descending sort of amounts with empty cells last. */
  predicate RanksAbove(a: Option<int>, b: Option<int>)
  {
    b.None? || (a.Some? && a.value >= b.value)
  }

  predicate RankedDesc(s: seq<Row>)
  {
    forall i, j :: 0 <= i < j < |s| ==> RanksAbove(s[i].amount, s[j].amount)
  }

  function InsertByAmount(x: Row, s: seq<Row>): (r: seq<Row>)
    requires RankedDesc(s)
    ensures RankedDesc(r)
    ensures multiset(r) == multiset(s) + multiset{x}
  {
    if s == [] || RanksAbove(x.amount, s[0].amount) then
      assert multiset([x] + s) == multiset{x} + multiset(s);
      [x] + s
    else
      var t := InsertByAmount(x, s[1..]);
      InsertedAfterHead(x, s, t);
      [s[0]] + t
  }

  /** Putting the head back in front of the rest with `x` inserted keeps the ranking. */
  lemma InsertedAfterHead(x: Row, s: seq<Row>, t: seq<Row>)
    requires s != [] && RankedDesc(s) && !RanksAbove(x.amount, s[0].amount)
    requires RankedDesc(t) && multiset(t) == multiset(s[1..]) + multiset{x}
    ensures RankedDesc([s[0]] + t)
    ensures multiset([s[0]] + t) == multiset(s) + multiset{x}
  {
    assert s == [s[0]] + s[1..];
    forall y | y in t ensures RanksAbove(s[0].amount, y.amount) {
      assert y in multiset(t);
      if y != x {
        assert y in multiset(s[1..]);
        var k :| 0 <= k < |s[1..]| && s[1..][k] == y;
        assert s[k + 1] == y;
      }
    }
    var r := [s[0]] + t;
    forall i, j | 0 <= i < j < |r| ensures RanksAbove(r[i].amount, r[j].amount) {
      if i == 0 {
        assert r[j] == t[j - 1] && t[j - 1] in t;
      } else {
        assert r[i] == t[i - 1] && r[j] == t[j - 1];
      }
    }
  }

  /** `sort_values(by="Сумма платежа", ascending=False)`, one of its tie orders. */
  function SortByAmountDesc(s: seq<Row>): (r: seq<Row>)
    ensures RankedDesc(r)
    ensures multiset(r) == multiset(s)
  {
    if s == [] then []
    else
      assert s == [s[0]] + s[1..];
      InsertByAmount(s[0], SortByAmountDesc(s[1..]))
  }

  /**
   * `entries` are the four projected fields of a largest-five selection of
   * `rows`: min(5, n) rows, in non-increasing amount, none ranked below an
   * unselected row. Which of several equal amounts is selected is left open.
   */
  ghost predicate IsTopFive(rows: seq<Row>, entries: seq<TopTransaction>)
  {
    exists top: seq<Row>, rest: seq<Row> ::
      && multiset(top) + multiset(rest) == multiset(rows)
      && |top| == Min(5, |rows|)
      && RankedDesc(top)
      && (forall a, b :: a in top && b in rest ==> RanksAbove(a.amount, b.amount))
      && entries == Entries(top)
  }

  method GeneratorTopFiveTransactions(df: Table) returns (r: Result<seq<TopTransaction>, Error>)
    ensures IsEmpty(df) ==> r == Ok([])
    ensures !IsEmpty(df) && MissingColumns(df.columns, [PaymentDate, Amount, Category, Description]) != [] ==>
              r == Err(MissingColumn(MissingColumns(df.columns, [PaymentDate, Amount, Category, Description])))
    ensures !IsEmpty(df) && MissingColumns(df.columns, [PaymentDate, Amount, Category, Description]) == [] ==>
              r.Ok? && IsTopFive(df.rows, r.value)
  {
    if IsEmpty(df) {
      return Ok([]);
    }
    var missing := MissingColumns(df.columns, [PaymentDate, Amount, Category, Description]);
    if missing != [] {
      return Err(MissingColumn(missing));
    }
    var sorted := SortByAmountDesc(df.rows);
    var k := Min(5, |sorted|);
    var top := sorted[..k];
    var formatted: seq<TopTransaction> := [];
    var i := 0;
    while i < k
      invariant 0 <= i <= k
      invariant |formatted| == i
      invariant forall j :: 0 <= j < i ==> formatted[j] == Entry(top[j])
    {
      formatted := formatted + [TopTransaction(top[i].paymentDate, top[i].amount, top[i].category, top[i].description)];
      i := i + 1;
    }
    assert formatted == Entries(top);
    RankedSplit(df.rows, sorted, k);
    r := Ok(formatted);
  }

  /** Cutting a ranked permutation of `rows` after `k` rows gives a top-`k` selection. */
  lemma RankedSplit(rows: seq<Row>, sorted: seq<Row>, k: nat)
    requires RankedDesc(sorted) && multiset(sorted) == multiset(rows) && k == Min(5, |sorted|)
    ensures IsTopFive(rows, Entries(sorted[..k]))
  {
    var top, rest := sorted[..k], sorted[k..];
    assert sorted == top + rest;
    assert multiset(top) + multiset(rest) == multiset(rows);
    forall a, b | a in top && b in rest ensures RanksAbove(a.amount, b.amount) {
      var p :| 0 <= p < k && top[p] == a;
      var q :| 0 <= q < |rest| && rest[q] == b;
      assert sorted[p] == a && sorted[k + q] == b;
    }
    assert |sorted| == |multiset(sorted)| == |multiset(rows)| == |rows|;
    assert RankedDesc(top);
  }

  /**
   * What a top-five result promises: min(5, n) entries, each the projection
   * of an input row, with amounts in non-increasing order (empty last), and
   * no unselected row with an amount ranked above a selected one.
   */
  lemma TopFiveProperties(rows: seq<Row>, entries: seq<TopTransaction>)
    requires IsTopFive(rows, entries)
    ensures |entries| == Min(5, |rows|)
    ensures forall i, j :: 0 <= i < j < |entries| ==> RanksAbove(entries[i].amount, entries[j].amount)
    ensures forall e :: e in entries ==> exists x :: x in rows && e == Entry(x)
    ensures |rows| <= 5 ==> multiset(entries) == multiset(Entries(rows))
  {
    var top: seq<Row>, rest: seq<Row> :| && multiset(top) + multiset(rest) == multiset(rows)
                     && |top| == Min(5, |rows|)
                     && RankedDesc(top)
                     && (forall a, b :: a in top && b in rest ==> RanksAbove(a.amount, b.amount))
                     && entries == Entries(top);
    forall e | e in entries ensures exists x :: x in rows && e == Entry(x) {
      var i :| 0 <= i < |entries| && entries[i] == e;
      assert top[i] in multiset(top);
      assert top[i] in multiset(rows);
    }
    if |rows| <= 5 {
      assert |multiset(top)| == |top| == |rows| == |multiset(rows)|;
      assert multiset(rest) == multiset{};
      EntriesMultiset(top, rows);
    }
  }

  lemma {:induction false} EntriesMultiset(a: seq<Row>, b: seq<Row>)
    requires multiset(a) == multiset(b)
    ensures multiset(Entries(a)) == multiset(Entries(b))
    decreases |a|
  {
    if a != [] {
      assert a[0] in multiset(b);
      var i :| 0 <= i < |b| && b[i] == a[0];
      RemoveAt(b, i);
      RemoveAt(a, 0);
      assert a[..0] + a[1..] == a[1..];
      EntriesMultiset(a[1..], b[..i] + b[i + 1..]);
      EntriesMatched(a, b, i);
    }
  }

  /** Matching the first row of `a` with row `i` of `b` reduces the claim to the rest. */
  lemma EntriesMatched(a: seq<Row>, b: seq<Row>, i: nat)
    requires a != [] && i < |b| && b[i] == a[0]
    requires multiset(Entries(a[1..])) == multiset(Entries(b[..i] + b[i + 1..]))
    ensures multiset(Entries(a)) == multiset(Entries(b))
  {
    var x, front, back := a[0], b[..i], b[i + 1..];
    assert b == front + [x] + back;
    EntriesSplit(front, x, back);
    assert a == [x] + a[1..];
    EntriesConcat([x], a[1..]);
    assert Entries([x]) == [Entry(x)];
  }

  lemma EntriesConcat(s: seq<Row>, t: seq<Row>)
    ensures Entries(s + t) == Entries(s) + Entries(t)
  {
  }

  lemma RemoveAt<T>(s: seq<T>, i: nat)
    requires i < |s|
    ensures multiset(s[..i] + s[i + 1..]) == multiset(s) - multiset{s[i]}
  {
    assert s == s[..i] + [s[i]] + s[i + 1..];
  }

  /** Taking one row out of the middle takes its entry out of the middle. */
  lemma EntriesSplit(front: seq<Row>, x: Row, back: seq<Row>)
    ensures multiset(Entries(front + [x] + back)) == multiset{Entry(x)} + multiset(Entries(front + back))
  {
    EntriesConcat(front, [x]);
    EntriesConcat(front + [x], back);
    EntriesConcat(front, back);
    assert Entries([x]) == [Entry(x)];
  }
}
