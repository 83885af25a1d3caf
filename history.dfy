/** `write_history(csv_writer, start_date, headers)`: one row per date from the start date
    through today, in order, each from that day's responses of `list_payments`. The payments
    service is the function `fetch`, which gives the responses for a day's window in the order
    the cursor loop requests them; `today` is a parameter. */
module History {
  import opened Wrappers
  import opened Errors
  import opened Calendar
  import opened DateText
  import opened DateRange
  import opened SalesAggregation
  import opened LedgerCsv
  import AggregationFacts
  import SalesDay

  /** The responses `list_payments` gives for each day's window, in request order. */
  type Payments = Window -> seq<Response>

  /** One day's row: the day's dictionary, its `Sales` date, then `writerow`. */
  function DayRow(v: FeeConvention, headers: seq<string>, d: Date, fetch: Payments): Result<seq<Cell>, Error> {
    var a :- DayAmounts(v, headers, fetch(DayWindow(d)));
    WriteRow(headers, RowDict(a, d))
  }

  /** What the writer received before the loop stopped, and the exception that stopped it. */
  datatype Outcome = Outcome(rows: seq<seq<Cell>>, error: Option<Error>)

  /** The rows a writer receives from the per-day results, in order, up to the first
      result that is an error. */
  function Written(days: seq<Result<seq<Cell>, Error>>): Outcome {
    if days == [] then Outcome([], None)
    else
      match days[0]
      case Err(e) => Outcome([], Some(e))
      case Ok(row) =>
        var rest := Written(days[1..]);
        Outcome([row] + rest.rows, rest.error)
  }

  /** Each date's row, or the exception its day raises. */
  function DayResults(v: FeeConvention, headers: seq<string>, dates: seq<Date>, fetch: Payments): (r: seq<Result<seq<Cell>, Error>>)
    ensures |r| == |dates|
  {
    seq(|dates|, i requires 0 <= i < |dates| => DayRow(v, headers, dates[i], fetch))
  }

  /** The rows written for `dates`, in order, up to the first day that raises. */
  function WrittenRows(v: FeeConvention, headers: seq<string>, dates: seq<Date>, fetch: Payments): Outcome {
    Written(DayResults(v, headers, dates, fetch))
  }

  /** The whole of `write_history`: the rows of every date in the range; when all of them
      were written and the range ends at 9999-12-31, the generator then overflows. */
  function HistoryOf(v: FeeConvention, headers: seq<string>, start: Date, today: Date, fetch: Payments): Outcome {
    var w := WrittenRows(v, headers, DatesBetween(start, today), fetch);
    if w.error.None? && RangeOverflows(start, today) then Outcome(w.rows, Some(DateOverflow)) else w
  }

  /** One round of the `for date in ...` loop: the day's window, its responses, its
      dictionary, and the row handed to `writerow`. */
  method WriteDay(v: FeeConvention, headers: seq<string>, date: Date, fetch: Payments) returns (row: Result<seq<Cell>, Error>)
    ensures row == DayRow(v, headers, date, fetch)
  {
    var window := DayWindow(date);
    var responses := fetch(window);
    var amounts := SalesDay.CollectDay(v, headers, responses);
    if amounts.Err? {
      return Err(amounts.error);
    }
    row := WriteRow(headers, RowDict(amounts.value, date));
  }

  /** The `for date in generate_date_range(...)` loop over the dates the generator yields:
      each day's row is written before the next day is fetched, and the first exception ends
      the loop. */
  method WriteDays(v: FeeConvention, headers: seq<string>, dates: seq<Date>, fetch: Payments)
    returns (rows: seq<seq<Cell>>, err: Option<Error>)
    ensures Outcome(rows, err) == WrittenRows(v, headers, dates, fetch)
  {
    ghost var days := DayResults(v, headers, dates, fetch);
    rows := [];
    var i := 0;
    while i < |dates|
      invariant 0 <= i <= |dates|
      invariant WrittenFrom(days, i, rows)
    {
      var row := WriteDay(v, headers, dates[i], fetch);
      assert days[i] == row;
      WrittenStep(days, i, rows);
      if row.Err? {
        return rows, Some(row.error);
      }
      rows := rows + [row.value];
      i := i + 1;
    }
    WrittenStep(days, i, rows);
    err := None;
  }

  /** The rows `rows` have been written for the results before position `i`, and what the
      writer receives overall is them followed by what it receives from position `i` on. */
  predicate WrittenFrom(days: seq<Result<seq<Cell>, Error>>, i: nat, rows: seq<seq<Cell>>)
    requires i <= |days|
  {
    var w := Written(days[i..]);
    Written(days) == Outcome(rows + w.rows, w.error)
  }

  /** Writing the results from position `i` on: nothing more at the end, the error at `i`,
      or the row at `i` and then the rest. */
  lemma WrittenStep(days: seq<Result<seq<Cell>, Error>>, i: nat, rows: seq<seq<Cell>>)
    requires i <= |days| && WrittenFrom(days, i, rows)
    ensures i == |days| ==> Written(days) == Outcome(rows, None)
    ensures i < |days| && days[i].Err? ==> Written(days) == Outcome(rows, Some(days[i].error))
    ensures i < |days| && days[i].Ok? ==> WrittenFrom(days, i + 1, rows + [days[i].value])
  {
    if i == |days| {
      assert days[i..] == [];
      assert rows + [] == rows;
    } else {
      assert days[i..][0] == days[i] && days[i..][1..] == days[i + 1..];
      if days[i].Ok? {
        var w := Written(days[i + 1..]);
        assert (rows + [days[i].value]) + w.rows == rows + ([days[i].value] + w.rows);
      }
    }
  }

  /** `write_history` as the source runs it: the dates from the start through today, their
      rows, and the generator's overflow when it steps past 9999-12-31 after the last row. */
  method WriteHistory(v: FeeConvention, headers: seq<string>, start: Date, today: Date, fetch: Payments)
    returns (rows: seq<seq<Cell>>, err: Option<Error>)
    ensures Outcome(rows, err) == HistoryOf(v, headers, start, today, fetch)
  {
    var dates, overflow := GenerateDateRange(start, today);
    rows, err := WriteDays(v, headers, dates, fetch);
    if err.None? && overflow {
      err := Some(DateOverflow);
    }
  }

  /** The rows written are the first results' rows, in order; the writer stops exactly at the
      first error, or writes every row. */
  lemma {:induction false} WrittenPrefix(days: seq<Result<seq<Cell>, Error>>)
    ensures var w := Written(days);
      && |w.rows| <= |days|
      && (forall i :: 0 <= i < |w.rows| ==> days[i] == Ok(w.rows[i]))
      && (w.error.None? <==> |w.rows| == |days|)
      && (w.error.Some? ==> days[|w.rows|] == Err(w.error.value))
    decreases |days|
  {
    if days != [] && days[0].Ok? {
      WrittenPrefix(days[1..]);
      var w := Written(days);
      var rest := Written(days[1..]);
      assert w.rows == [days[0].value] + rest.rows;
      forall i | 0 <= i < |w.rows| ensures days[i] == Ok(w.rows[i]) {
        if i > 0 {
          assert w.rows[i] == rest.rows[i - 1] && days[i] == days[1..][i - 1];
        }
      }
      if w.error.Some? {
        assert days[|w.rows|] == days[1..][|rest.rows|];
      }
    }
  }

  /** The same for the dates of `write_history`: one row per date, in date order, up to the
      first date whose day raises. */
  lemma WrittenRowsPrefix(v: FeeConvention, headers: seq<string>, dates: seq<Date>, fetch: Payments)
    ensures var w := WrittenRows(v, headers, dates, fetch);
      && |w.rows| <= |dates|
      && (forall i :: 0 <= i < |w.rows| ==> DayRow(v, headers, dates[i], fetch) == Ok(w.rows[i]))
      && (w.error.None? <==> |w.rows| == |dates|)
      && (w.error.Some? ==> DayRow(v, headers, dates[|w.rows|], fetch) == Err(w.error.value))
  {
    var days := DayResults(v, headers, dates, fetch);
    WrittenPrefix(days);
    assert forall i :: 0 <= i < |dates| ==> days[i] == DayRow(v, headers, dates[i], fetch);
  }

  /** A row written with a header list that starts with `Sales` starts with its date, and has
      one cell per header. */
  lemma DayRowFirstCell(v: FeeConvention, headers: seq<string>, d: Date, fetch: Payments)
    requires headers != [] && headers[0] == SalesKey
    requires DayRow(v, headers, d, fetch).Ok?
    ensures |DayRow(v, headers, d, fetch).value| == |headers|
    ensures DayRow(v, headers, d, fetch).value[0] == Text(FormatMDY(d))
  {
  }

  /** Every cell of a written row is an amount, the row's date, or the empty `restval`. */
  lemma DayRowCells(v: FeeConvention, headers: seq<string>, d: Date, fetch: Payments)
    requires DayRow(v, headers, d, fetch).Ok?
    ensures var r := DayRow(v, headers, d, fetch).value;
      forall i :: 0 <= i < |r| ==> r[i].Number? || r[i] == Text(FormatMDY(d)) || r[i] == Text("")
  {
    var a := DayAmounts(v, headers, fetch(DayWindow(d))).value;
    var rowdict := RowDict(a, d);
    assert forall k :: k in rowdict ==> rowdict[k].Number? || rowdict[k] == Text(FormatMDY(d));
  }

  /** `write_history` writes exactly one row per date from the start date through today, each
      for its own date and in increasing order, unless a day raises, in which case the rows
      of the dates before it were written; a range ending on 9999-12-31 overflows only after
      its last row. */
  lemma HistoryRows(v: FeeConvention, headers: seq<string>, start: Date, today: Date, fetch: Payments)
    ensures var h := HistoryOf(v, headers, start, today, fetch);
      var dates := DatesBetween(start, today);
      && |h.rows| <= |dates|
      && (forall i :: 0 <= i < |h.rows| ==>
            Ordinal(dates[i]) == Ordinal(start) + i && DayRow(v, headers, dates[i], fetch) == Ok(h.rows[i]))
      && (h.error.None? <==> |h.rows| == |dates| && !RangeOverflows(start, today))
      && (h.error.None? ==> |h.rows| == if DateLe(start, today) then Ordinal(today) - Ordinal(start) + 1 else 0)
      && (h.error.Some? && |h.rows| < |dates| ==> DayRow(v, headers, dates[|h.rows|], fetch) == Err(h.error.value))
      && (h.error.Some? && |h.rows| == |dates| ==> h.error == Some(DateOverflow) && RangeOverflows(start, today))
  {
    var dates := DatesBetween(start, today);
    DatesBetweenOrdinals(start, today);
    OrdinalOrder(start, today);
    WrittenRowsPrefix(v, headers, dates, fetch);
  }

  /** A day's dictionary over the default columns has exactly those columns, all 0.0 when the
      first response was not usable. */
  lemma DefaultDayKeys(v: FeeConvention, responses: seq<Response>)
    requires DayAmounts(v, DefaultHeaders, responses).Ok?
    ensures DayAmounts(v, DefaultHeaders, responses).value.Keys == set h | h in DefaultHeaders
    ensures !Usable(responses[0]) ==>
      forall k :: k in DayAmounts(v, DefaultHeaders, responses).value ==> DayAmounts(v, DefaultHeaders, responses).value[k] == 0.0
  {
    assert forall k :: k in AccumulatedKeys ==> k in DefaultHeaders;
    AggregationFacts.DayAmountsClosedForm(v, DefaultHeaders, responses);
    if Usable(responses[0]) {
      AggregationFacts.DayRecordValues(v, DefaultHeaders, AggregationFacts.DayPayments(responses));
      assert DerivedKeys <= set h | h in DefaultHeaders;
    }
  }

  /** The row `writerow` makes of a dictionary over exactly the default columns. */
  lemma DefaultRowCells(a: Amounts, d: Date)
    requires a.Keys == set h | h in DefaultHeaders
    ensures var r := WriteRow(DefaultHeaders, RowDict(a, d));
      && r.Ok? && |r.value| == 17 && r.value[0] == Text(FormatMDY(d))
      && forall i :: 1 <= i < 17 ==> DefaultHeaders[i] in a && r.value[i] == Number(a[DefaultHeaders[i]])
  {
    var rowdict := RowDict(a, d);
    assert forall k :: k in rowdict ==> k in DefaultHeaders;
    assert forall i :: 1 <= i < 17 ==> DefaultHeaders[i] != SalesKey;
  }

  /** With the default columns, a day whose dictionary was computed is always written: its
      first cell is the date, and every other cell is that column's amount in dollars. When
      the first response was not usable, every amount is 0.0. */
  lemma DefaultRow(v: FeeConvention, d: Date, fetch: Payments)
    requires DayAmounts(v, DefaultHeaders, fetch(DayWindow(d))).Ok?
    ensures var a := DayAmounts(v, DefaultHeaders, fetch(DayWindow(d))).value;
      var r := DayRow(v, DefaultHeaders, d, fetch);
      && r.Ok? && |r.value| == 17 && r.value[0] == Text(FormatMDY(d))
      && (forall i :: 1 <= i < 17 ==> DefaultHeaders[i] in a && r.value[i] == Number(a[DefaultHeaders[i]]))
      && (!Usable(fetch(DayWindow(d))[0]) ==> forall i :: 1 <= i < 17 ==> r.value[i] == Number(0.0))
  {
    var responses := fetch(DayWindow(d));
    DefaultDayKeys(v, responses);
    DefaultRowCells(DayAmounts(v, DefaultHeaders, responses).value, d);
  }
}
