# Bank-operation reports, modelled in Dafny

The repository turns a bank statement (one row per card operation, read from
an Excel sheet into a pandas DataFrame or kept as a list of dictionaries)
into the values of a personal-finance report:

- the operations of the current month up to a reference date (two versions:
  one on a DataFrame that also keeps only `OK` operations, one on a list of
  dictionaries with no status filter);
- a per-card report: last four characters of the card, total spent, and
  cashback at one rouble per hundred;
- the five largest operations by signed amount;
- the three categories of a calendar month with 10 % cashback on each;
- the spending of one category in the 90 days up to a date;
- a greeting chosen by the hour of the day, and an unfinished draft that
  groups operations by card.

The model is a set of modules, one per source file plus shared ones:

| module | file | models |
|---|---|---|
| `Wrappers` | wrappers.dfy | `Option`, `Result`, `Min` |
| `Text` | text.dfy | digits, number text, `s[-4:]`, Python's string order, the sorted distinct keys of a `groupby` |
| `Dates` | dates.dfy | `datetime`: calendar, order, day numbers and seconds, `- timedelta(days=n)`, the "DD.MM.YYYY HH:MM:SS" and "YYYY-MM-DD[ HH:MM:SS]" formats |
| `Money` | money.dfy | amounts in kopecks; `round(x, 2)` as rounding to the nearest kopeck, ties to even |
| `Frames` | frames.dfy | a DataFrame as a set of column names and a sequence of rows; masks, `groupby`, `sum`, `pd.to_datetime` on the date column; the `Frame` class for frames the source changes in place |
| `Records` | records.dfy | operations as dictionaries and `str()` of their values |
| `Utils` | utils.dfy | src/utils.py |
| `Services` | services.dfy | src/services.py |
| `Reports` | reports.dfy | src/reports.py |
| `OperationsFilters` | operations_filters.dfy | src/operations_filters.py |
| `Views` | views.dfy | src/views.py |

Representation choices:

- Money is an integer number of kopecks. Every amount in a statement has two
  decimals, so sums are exact, and `round(x, 2)` of a quotient is the kopeck
  nearest to it, an exact half going to the even neighbour.
- Every cell of a row may be empty (`None` in the model, `NaN`/`NaT` in
  pandas). An empty amount is skipped by `sum()` and fails every comparison;
  an empty group key is dropped by `groupby`.
- A date cell is either the statement's text, a parsed timestamp, or `NaT`.
  `pd.to_datetime(..., dayfirst=True)` is modelled as reading the fixed
  "DD.MM.YYYY HH:MM:SS" format; a text that does not read raises, naming the
  text, and leaves the column as it was.
- `groupby` lists its groups in ascending key order (Python's code-point
  order on strings), each once.
- Python exceptions are the `Error` datatype (`KeyError`, `TypeError`, the
  `ValueError`s of a date that does not read, of missing columns, of a month
  outside 1..12, of an unsupported date format, and the `OverflowError` of a
  date before year 1).
- `datetime.datetime.now()` is the parameter `now`.
- The code and its docstring disagree for `get_top_three_category`, and the
  model follows the code: the docstring speaks of the three best categories,
  but the code takes the first three groups in key order.
- The two versions of `filter_operations_by_month_and_date` differ: the
  DataFrame one in src/utils.py keeps only `OK` operations, the list one in
  src/operations_filters.py keeps operations of any status. Each is modelled
  as written.

## Model

| member | source | states |
|---|---|---|
| Utils.GreetingFromTimeToTime | src/utils.py:25-39 | "Доброй ночи" exactly for hours 0-5, "Доброе утро" exactly for 6-11, "Добрый день" exactly for 12-17, "Добрый вечер" exactly for 18-23 |
| Views.GreetingFromTimeToTime | src/views.py:57-74 | every hour of the day gets one of the four messages |
| Views.GreetingsAgree | src/views.py:63-72 | the copy in src/views.py greets exactly as the one in src/utils.py at every hour |
| Utils.ValidateAndFormatDate | tests/test_utils.py:18-38 | a date written "YYYY-MM-DD" or "YYYY-MM-DD HH:MM:SS" reads back as that datetime (midnight for the short form); a date that reads is the text written back in one of the two forms, so any other text fails, and only with the unsupported-format error |
| Utils.FilterOperationsByMonthAndDate | src/utils.py:175-192 | the caller's date column is replaced by parsed timestamps for every row, kept or not; the result is the OK rows from the 1st of the month at 00:00:00 to the reference date; missing date or status column raises KeyError; a date that does not read raises and leaves the frame as it was |
| Utils.MonthToDateWindow | src/utils.py:182-190 | a row is kept exactly when it is OK and dated between the 1st of the reference month at 00:00:00 and the reference date, both included, so it falls in the reference month |
| Utils.MonthToDateIdempotent | src/utils.py:187-190 | the filtered rows are already converted and filtering them again returns them unchanged |
| Utils.GenerateCardReport | src/utils.py:218-246 | an empty frame gives [] before any column is looked up; otherwise the first missing of "Сумма платежа", "Номер карты", "Кэшбэк" raises naming it; otherwise one line per card with expenses, in the groupby's card order |
| Utils.CardReportLines | src/utils.py:225-236 | each reported card has an expense row; its last digits are the last min(4, n) characters of the card; total spent is the positive sum of its expenses; cashback is the kopeck nearest to 1 % of it, whatever the "Кэшбэк" column holds |
| Utils.CardReportCoversExpenses | src/utils.py:225-226 | every card with an expense row is reported |
| Utils.CardHasExpenses | src/utils.py:225-226 | a reported card has an expense row and its expenses sum to a negative amount |
| Utils.EntriesMultiset | src/utils.py:339-346 | rows that are a permutation of each other give entries that are a permutation of each other |
| Utils.GeneratorTopFiveTransactions | src/utils.py:321-350 | [] for an empty frame; the missing ones of the four columns raise, in column order; otherwise the date, amount, category and description of a largest-five selection of the rows |
| Utils.SortByAmountDesc | src/utils.py:329 | `sort_values(ascending=False)` on the amount: the rows in non-increasing amount, empty amounts last, as a permutation of the input |
| Utils.RankedSplit | src/utils.py:329 | the first min(5, n) rows of any ordering by non-increasing amount are a largest-five selection |
| Utils.TopFiveProperties | src/utils.py:329-346 | a selection has min(5, n) entries, in non-increasing amount (empty amounts last), each projected from an input row, none ranked below an unselected row; with at most five rows every row appears |
| Services.GetTopThreeCategory | src/services.py:24-77 | at most three pairs; a month outside 1..12 (or a year outside 1..9999) raises first; then the missing required columns raise, listed in required order; then a date that does not read raises the conversion's own error |
| Services.TopThreeCategories | src/services.py:57-75 | the categories are distinct, ascending, each spent on in the month by an OK expense; they are all such categories when fewer than three, otherwise the three that sort first, not the three largest |
| Services.TopThreeValues | src/services.py:65-68 | each value is the kopeck nearest to 10 % of the category's spend, which is positive |
| Services.CategorySpendIsPositive | src/services.py:60-65 | a category among the month's groups has a negative sum of amounts |
| Services.TopThreeEmpty | src/services.py:70-72 | the result is "{}" exactly when no OK expense of the month has a category |
| Services.CalendarMonthWindow | src/services.py:41-43 | a kept operation lies in the given month, and on its last day (leap Februaries included) only at 00:00:00 |
| Services.OnlyOkExpensesCount | src/services.py:57-62 | a FAILED operation or an income never counts |
| Reports.ReferenceDate | src/reports.py:27-32 | no date or an empty one means now; a non-empty text gives a date exactly when it is that date written in one of the two ISO forms (midnight for the short one), and otherwise the unsupported-format error |
| Reports.CategoryFilter | src/reports.py:33-34 | the window starts exactly 90 days (7 776 000 seconds) before the reference date, at the same time of day; it overflows exactly when the reference date is within the first 90 days of year 1 |
| Reports.SpendingByCategory | src/reports.py:23-57 | the result and the caller's rows afterwards are those of the reference functions: errors in the order date, window, columns, conversion; the date column is converted in place once the columns are present |
| Reports.CategoryWindow | src/reports.py:46-52 | a row is kept exactly when it is an OK expense of the category dated at most 90 days before the reference date and not after it |
| Reports.SpendingRows | src/reports.py:46-57 | on success the result keeps the columns and is a subsequence of the converted rows holding exactly the rows the mask keeps |
| Reports.MissingColumnFails | src/reports.py:36-40 | with a valid date and window, any one of the four columns missing raises with all four named, and the frame is not converted |
| Reports.SpendingIdempotent | src/reports.py:46-52 | on success, running the report on its own result with the same category and date returns the same result |
| OperationsFilters.OperationTime | src/operations_filters.py:22 | a missing date key raises KeyError, a value that is not text raises TypeError, a text that does not read raises naming it; a read date exists in the calendar |
| OperationsFilters.OperationTimeFormat | src/operations_filters.py:22 | a date text reads as a time exactly when it is that time written "%d.%m.%Y %H:%M:%S" |
| OperationsFilters.FilterOperationsByMonthAndDate | src/operations_filters.py:8-23 | succeeds exactly when every date reads; otherwise the error is that of the first operation whose date does not read |
| OperationsFilters.FilterMembers | src/operations_filters.py:12-23 | an operation is kept exactly when its date lies between the 1st of the month at 00:00:00 and the reference date, both included, whatever its status |
| OperationsFilters.FilterCounts | src/operations_filters.py:19-23 | a kept operation comes back as many times as it occurs in the input; others not at all |
| OperationsFilters.FilterIsSubsequence | src/operations_filters.py:19-23 | the result is the input with some operations left out, the rest in order |
| OperationsFilters.FilterIdempotent | src/operations_filters.py:19-23 | filtering the result again with the same date returns it unchanged |
| OperationsFilters.BoundsInclusive | src/operations_filters.py:17-22 | a FAILED operation at the 1st 00:00:00 and one exactly at the reference date are both kept |
| OperationsFilters.MissingDateRaises | src/operations_filters.py:22 | an operation without the date key raises KeyError when every operation before it reads |
| Views.GetLastDigitAndTotalSpentAndCashback | src/views.py:82-106 | the loop builds the dictionary of the reference function over the operations' card texts |
| Views.DraftShape | src/views.py:83-88 | no operations give {}; otherwise the only key is the literal "card", holding the last digits of the last operation whose card text is not "card" (the first operation always writes) |
| Views.StoredDigits | src/views.py:85-88 | the stored digits are a suffix of at most four characters of the card text, and empty when the operation has no card number |
| Views.LastWriter | src/views.py:87-88 | the operation whose digits are stored is the first one or has a card text other than "card", and every later one has the text "card" |
| Frames.MissingColumns | src/services.py:47 | the missing headers are exactly the required ones absent from the frame, in required order |
| Frames.Select | src/utils.py:188-190 | `df[mask]`: never more rows than the table; which rows, how many times and in what order are stated by Frames.SelectMembers, Frames.SelectCounts and Frames.SelectIsSubsequence |
| Frames.SelectMembers | src/utils.py:188-190 | a mask keeps exactly the rows that pass it, each no more often than it occurs |
| Frames.SelectCounts | src/utils.py:188-190 | `df[mask]` keeps a passing row as many times as it occurs in the table, and a failing one not at all |
| Frames.SelectIsSubsequence | src/reports.py:46-52 | a masked frame keeps its rows in order |
| Frames.SelectIdempotent | src/reports.py:46-52 | applying a mask twice is applying it once |
| Frames.ExpenseSumIsNegative | src/utils.py:225-226 | a non-empty group of expenses sums to a negative amount |
| Frames.GroupKeys | src/utils.py:226 | the group keys are strictly ascending |
| Frames.GroupKeysMembers | src/services.py:65 | the group keys are exactly the non-empty keys of the rows |
| Frames.CoerceDates | src/utils.py:187 | the column converts exactly when every text reads; each converted row differs only in its date, which writes back to the original text; otherwise the error names a text that does not read |
| Frames.CoerceDatesIdempotent | src/reports.py:43 | converting an already converted column changes nothing |
| Frames.SubsequenceCoerced | src/reports.py:43-52 | rows kept from a converted column are converted |
| Frames.Frame.ConvertOperationDates | src/reports.py:43 | the frame's rows become the converted rows, or stay as they were when the column is missing or a text does not read |
| Dates.DaysInMonth | src/services.py:42 | 28 to 31 days, 29 in February exactly in leap years |
| Dates.DayNumberFollowsCalendar | src/services.py:57-59 | day numbers start at 1 and follow calendar order, equal exactly for the same date |
| Dates.LessEqIsSecondsOrder | src/reports.py:47-48 | comparing two datetimes field by field is comparing their seconds since 0001-01-01 |
| Dates.PrevDay | src/reports.py:34 | the day before, at the same time, one day number less; none before 0001-01-01 |
| Dates.MinusDays | src/reports.py:34 | n days earlier is exactly n × 86 400 seconds earlier at the same time of day; none when that falls before year 1 |
| Dates.ParseOperationDate | src/operations_filters.py:22 | `strptime(..., "%d.%m.%Y %H:%M:%S")`: whatever reads is a calendar datetime (the text it reads is its datetime written back, by Dates.FormatParseOperationDate) |
| Dates.ParseFormatOperationDate | src/operations_filters.py:22 | every calendar datetime written "DD.MM.YYYY HH:MM:SS" reads back as itself |
| Dates.FormatParseOperationDate | src/utils.py:187 | a text that reads is that datetime written back |
| Dates.ParseFormatIsoDateTime | tests/test_utils.py:18-28 | every calendar datetime written "YYYY-MM-DD HH:MM:SS" reads back as itself |
| Dates.ParseFormatIsoDate | tests/test_utils.py:18-28 | every calendar date written "YYYY-MM-DD" reads back as its midnight |
| Dates.FormatParseIsoDate | tests/test_utils.py:31-38 | a text that reads as a report date is that date written back in the short or the long form, so text such as "01-01-2020" does not read |
| Text.SortedDistinct | src/utils.py:226 | the groups of a groupby: strictly ascending and holding exactly the keys present |
| Text.StrLtTotal | src/services.py:65 | two different keys are ordered one way or the other |
| Text.StrLtTransitive | src/services.py:65 | the key order is transitive |
| Text.LastFour | src/utils.py:234 | `s[-4:]`: the whole text when at most four characters, otherwise its last four |
| Money.OnePercent | src/utils.py:236 | `round(total / 100, 2)`: the kopeck nearest to 1 % of the amount, an exact half going to the even neighbour |
| Money.OneTenth | src/services.py:68 | `round(abs(sum) * 0.1, 2)`: the kopeck nearest to 10 % of the amount, an exact half going to the even neighbour |
| Records.Str | src/views.py:85 | `str()` of text is the text, of None is "None", of an integer its decimal digits with no leading zero (just "0" for zero), preceded by "-" when negative |

## Left out

- Logging, the module-level logger set-up and the `print` in the card draft: output only.
- The network functions, the file loaders, `views_home` and src/external_api.py: I/O over HTTP, files and environment variables.
- Commented-out drafts in src/utils.py, src/services.py and src/views.py.
- `datetime.datetime.now()`: the reading of the clock is the parameter `now` of Reports.SpendingByCategory.
- Reports.CategoryWindow: datetimes are kept to the second; the microseconds of `datetime.now()` are dropped. With no date given, Python's `date_from` carries the clock's fraction of a second, so a row stamped exactly at the whole second of the window's start is dropped by Python and kept by the model: the window's lower bound moves by less than one second.
- `validate_and_format_date` is imported from src/utils.py but not defined in it; Utils.ValidateAndFormatDate takes its behaviour from its tests: the two ISO forms, and the error for any other text.
- Frames.CoerceDates: `pd.to_datetime(..., dayfirst=True)` also reads many other layouts (single-digit fields, other separators, ISO text, numbers); the model reads only the statement's "DD.MM.YYYY HH:MM:SS" and raises on anything else. In the other direction, pandas' nanosecond timestamps cover only 1677-09-21 00:12:43 to 2262-04-11 23:47:16, and `pd.to_datetime` raises `OutOfBoundsDatetime` outside that range; the model converts every calendar date of years 1 to 9999, so for a statement dated outside the range Utils.FilterOperationsByMonthAndDate, Reports.SpendingByCategory and Services.GetTopThreeCategory succeed where the program raises.
- OperationsFilters.OperationTime: `strptime` also accepts single-digit or space-padded fields (" 1" for the day) and any run of whitespace where the format has its one space ("01.06.2018  12:00:00"); the model reads exactly two-digit fields and a single space, so OperationsFilters.FilterOperationsByMonthAndDate raises the date error on such texts where the program reads them.
- Utils.GeneratorTopFiveTransactions: the order among rows of equal amount is left open, as pandas' unstable sort leaves it; a selection's projected dates, categories and descriptions are passed through as they are.
- Utils.GenerateCardReport: the KeyError message is modelled by the missing column's name, not its text; `Кэшбэк` is required but its sum is not used, which the model reproduces.
- Float arithmetic: amounts are exact kopecks; binary-float effects of `round(x, 2)` and the float-to-text formatting of `json.dumps` are not modelled. The JSON object of `get_top_three_category` is an ordered list of (category, kopecks) pairs, `{}` being the empty list.
- Services.GetTopThreeCategory: its input is the DataFrame that `pd.DataFrame(data)` builds from the list of dictionaries; that constructor is not modelled.
- Views.GreetingFromTimeToTime: the `except` that re-raises any error with a prefixed message cannot fire for a `datetime` argument, whose hour is always in 0..23, and is not modelled.
- Records.Str: values other than text, integers and None (floats, timestamps) are not modelled.
- Integer widths: pandas' 64-bit integers and float amounts cannot overflow at statement sizes, so amounts are unbounded integers.
