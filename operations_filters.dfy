/**
 * src/operations_filters.py: the list version of the month-to-date filter.
 * Each operation's date text is read with the fixed format
 * "%d.%m.%Y %H:%M:%S"; there is no status filter.
 */
module OperationsFilters {
  import opened Wrappers
  import opened Dates
  import opened Frames
  import opened Records

  /** `datetime.strptime(operation["Дата операции"], "%d.%m.%Y %H:%M:%S")`. */
  function OperationTime(op: Operation): (r: Result<DateTime, Error>)
    ensures OperationDate !in op <==> r == Err(KeyError(OperationDate))
    ensures OperationDate in op && !op[OperationDate].Text? <==> r == Err(TypeError)
    ensures OperationDate in op && op[OperationDate].Text? && r.Err? ==>
              r == Err(DateParseError(op[OperationDate].text))
    ensures r.Ok? ==> Valid(r.value)
  {
    if OperationDate !in op then Err(KeyError(OperationDate))
    else
      match op[OperationDate]
      case Text(s) =>
        (match ParseOperationDate(s)
         case Some(t) => Ok(t)
         case None => Err(DateParseError(s)))
      case _ => Err(TypeError)
  }

  /**
   * The text reads back to a time exactly when it is that time written in
   * the format; any other text, or a date no calendar has, raises.
   */
  lemma OperationTimeFormat(op: Operation, t: DateTime)
    requires Valid(t) && OperationDate in op
    ensures OperationTime(op) == Ok(t) <==> op[OperationDate] == Text(FormatOperationDate(t))
  {
    if op[OperationDate] == Text(FormatOperationDate(t)) {
      ParseFormatOperationDate(t);
    }
    if OperationTime(op) == Ok(t) {
      FormatParseOperationDate(op[OperationDate].text);
    }
  }

  /** `date_from <= parsed <= date_to` with `date_from = datetime(year, month, 1)`. */
  predicate InMonthToDate(t: DateTime, dateObj: DateTime)
  {
    LessEq(MonthStart(dateObj), t) && LessEq(t, dateObj)
  }

  /**
   * The comprehension of src/operations_filters.py:19-23: the operations in the window, in their
   * order; the first operation whose date cannot be read raises, and the
   * error is that operation's.
   */
  function FilterOperationsByMonthAndDate(operations: seq<Operation>, dateObj: DateTime): (r: Result<seq<Operation>, Error>)
    ensures r.Ok? <==> forall i :: 0 <= i < |operations| ==> OperationTime(operations[i]).Ok?
    ensures r.Err? ==> exists i :: 0 <= i < |operations| && OperationTime(operations[i]) == Err(r.error)
                                   && forall j :: 0 <= j < i ==> OperationTime(operations[j]).Ok?
    ensures r.Ok? ==> |r.value| <= |operations|
  {
    if operations == [] then Ok([])
    else
      match OperationTime(operations[0])
      case Err(e) => Err(e)
      case Ok(t) =>
        match FilterOperationsByMonthAndDate(operations[1..], dateObj)
        case Err(e) =>
          var i :| 0 <= i < |operations[1..]| && OperationTime(operations[1..][i]) == Err(e)
                   && forall j :: 0 <= j < i ==> OperationTime(operations[1..][j]).Ok?;
          assert OperationTime(operations[i + 1]) == Err(e);
          Err(e)
        case Ok(rest) =>
          assert forall i :: 1 <= i < |operations| ==> operations[i] == operations[1..][i - 1];
          if InMonthToDate(t, dateObj) then Ok([operations[0]] + rest) else Ok(rest)
  }

  /** One step of the comprehension: the head is checked, then the tail is filtered. */
  lemma FilterUnfold(operations: seq<Operation>, dateObj: DateTime)
    requires operations != [] && FilterOperationsByMonthAndDate(operations, dateObj).Ok?
    ensures OperationTime(operations[0]).Ok?
    ensures FilterOperationsByMonthAndDate(operations[1..], dateObj).Ok?
    ensures FilterOperationsByMonthAndDate(operations, dateObj).value ==
              if InMonthToDate(OperationTime(operations[0]).value, dateObj)
              then [operations[0]] + FilterOperationsByMonthAndDate(operations[1..], dateObj).value
              else FilterOperationsByMonthAndDate(operations[1..], dateObj).value
  {
    var tail := operations[1..];
    assert FilterOperationsByMonthAndDate(tail, dateObj).Ok? by {
      assert forall i :: 0 <= i < |tail| ==> tail[i] == operations[i + 1];
    }
  }

  /**
   * An operation is kept exactly when its date reads and lies between the
   * 1st of `dateObj`'s month at 00:00:00 and `dateObj`, both included,
   * whatever its status.
   */
  lemma {:induction false} FilterMembers(operations: seq<Operation>, dateObj: DateTime, x: Operation)
    requires FilterOperationsByMonthAndDate(operations, dateObj).Ok?
    ensures x in FilterOperationsByMonthAndDate(operations, dateObj).value <==>
              x in operations && OperationTime(x).Ok? && InMonthToDate(OperationTime(x).value, dateObj)
  {
    if operations != [] {
      var head, tail := operations[0], operations[1..];
      FilterUnfold(operations, dateObj);
      FilterMembers(tail, dateObj, x);
      assert x in operations <==> x == head || x in tail by {
        assert operations == [head] + tail;
      }
    }
  }

  /** A kept operation comes back as often as it occurs in the input. */
  lemma {:induction false} FilterCounts(operations: seq<Operation>, dateObj: DateTime, x: Operation)
    requires FilterOperationsByMonthAndDate(operations, dateObj).Ok?
    ensures multiset(FilterOperationsByMonthAndDate(operations, dateObj).value)[x] ==
              if OperationTime(x).Ok? && InMonthToDate(OperationTime(x).value, dateObj)
              then multiset(operations)[x] else 0
  {
    if operations != [] {
      var head, tail := operations[0], operations[1..];
      FilterUnfold(operations, dateObj);
      FilterCounts(tail, dateObj, x);
      var kept := FilterOperationsByMonthAndDate(operations, dateObj).value;
      var rest := FilterOperationsByMonthAndDate(tail, dateObj).value;
      assert multiset(operations) == multiset([head]) + multiset(tail) by {
        assert operations == [head] + tail;
      }
      if InMonthToDate(OperationTime(head).value, dateObj) {
        assert multiset(kept) == multiset([head]) + multiset(rest);
      } else {
        assert kept == rest;
      }
    }
  }

  /** The result is the input with some operations removed, the rest in order. */
  lemma {:induction false} FilterIsSubsequence(operations: seq<Operation>, dateObj: DateTime)
    requires FilterOperationsByMonthAndDate(operations, dateObj).Ok?
    ensures IsSubsequence(FilterOperationsByMonthAndDate(operations, dateObj).value, operations)
  {
    if operations != [] {
      FilterIsSubsequence(operations[1..], dateObj);
    }
  }

  /** Filtering the result again with the same date changes nothing. */
  lemma {:induction false} FilterIdempotent(operations: seq<Operation>, dateObj: DateTime)
    requires FilterOperationsByMonthAndDate(operations, dateObj).Ok?
    ensures FilterOperationsByMonthAndDate(FilterOperationsByMonthAndDate(operations, dateObj).value, dateObj)
            == FilterOperationsByMonthAndDate(operations, dateObj)
  {
    if operations != [] {
      FilterIdempotent(operations[1..], dateObj);
    }
  }

  /** The two ends of the window, written in the source's date format. */
  function AtMonthStart(dateObj: DateTime, status: string): Operation
    requires Valid(dateObj)
  {
    map[OperationDate := Text(FormatOperationDate(MonthStart(dateObj))), Status := Text(status)]
  }

  function AtReferenceDate(dateObj: DateTime, status: string): Operation
    requires Valid(dateObj)
  {
    map[OperationDate := Text(FormatOperationDate(dateObj)), Status := Text(status)]
  }

  /**
   * Both bounds are inclusive and the status plays no part: a FAILED
   * operation at the 1st 00:00:00 and one exactly at `dateObj` are both kept.
   */
  lemma BoundsInclusive(dateObj: DateTime)
    requires Valid(dateObj)
    ensures var first := AtMonthStart(dateObj, "FAILED");
            var last := AtReferenceDate(dateObj, "FAILED");
            FilterOperationsByMonthAndDate([first, last], dateObj) == Ok([first, last])
  {
    var first := AtMonthStart(dateObj, "FAILED");
    var last := AtReferenceDate(dateObj, "FAILED");
    OperationTimeFormat(first, MonthStart(dateObj));
    OperationTimeFormat(last, dateObj);
    KeepsWindowEnds(first, last, dateObj);
  }

  lemma KeepsWindowEnds(first: Operation, last: Operation, dateObj: DateTime)
    requires Valid(dateObj)
    requires OperationTime(first) == Ok(MonthStart(dateObj)) && OperationTime(last) == Ok(dateObj)
    ensures FilterOperationsByMonthAndDate([first, last], dateObj) == Ok([first, last])
  {
    assert InMonthToDate(MonthStart(dateObj), dateObj);
    assert InMonthToDate(dateObj, dateObj);
    assert FilterOperationsByMonthAndDate([], dateObj) == Ok([]);
    KeepsInWindow(last, [], dateObj);
    assert [last] + [] == [last];
    KeepsInWindow(first, [last], dateObj);
    assert [first] + [last] == [first, last];
  }

  /** One step of the comprehension: an operation in the window is put in front of the rest's result. */
  lemma KeepsInWindow(op: Operation, rest: seq<Operation>, dateObj: DateTime)
    requires OperationTime(op).Ok? && InMonthToDate(OperationTime(op).value, dateObj)
    requires FilterOperationsByMonthAndDate(rest, dateObj).Ok?
    ensures FilterOperationsByMonthAndDate([op] + rest, dateObj)
            == Ok([op] + FilterOperationsByMonthAndDate(rest, dateObj).value)
  {
    assert ([op] + rest)[1..] == rest;
  }

  /** An operation without the date key raises KeyError, whatever comes after it. */
  lemma MissingDateRaises(operations: seq<Operation>, dateObj: DateTime, i: nat)
    requires i < |operations| && OperationDate !in operations[i]
    requires forall j :: 0 <= j < i ==> OperationTime(operations[j]).Ok?
    ensures FilterOperationsByMonthAndDate(operations, dateObj) == Err(KeyError(OperationDate))
  {
    var r := FilterOperationsByMonthAndDate(operations, dateObj);
    assert !OperationTime(operations[i]).Ok?;
    var k :| 0 <= k < |operations| && OperationTime(operations[k]) == Err(r.error)
             && forall j :: 0 <= j < k ==> OperationTime(operations[j]).Ok?;
    assert k == i;
  }
}
