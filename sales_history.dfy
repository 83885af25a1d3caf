/** What the two utilities do to their ledger files, shared by both: `update_history` opens the
    ledger in append mode and writes the rows of `write_history` after what is there;
    `refresh_history` opens a dated ledger in write mode, writes the header line, then the rows
    from 2022-11-01; `get_last_update_date` reads a ledger back. A row that `writerow` rejects is
    not written, and the rows written before an exception stay in the file. */
module SalesHistory {
  import opened Wrappers
  import opened Errors
  import opened Calendar
  import opened DateText
  import opened DateRange
  import opened SalesAggregation
  import opened LedgerCsv
  import opened LedgerResolver
  import opened History
  import opened LedgerFiles

  /** `datetime.datetime(2022, 11, 1).date()`, where a refreshed ledger starts. */
  const FirstDate: Date := RawDate(2022, 11, 1)

  /** The ledger `update_history` appends to (when no other path is given). */
  const DefaultLedgerPath := "data/aggregated_sales.csv"

  /** `f'data/aggregated_sales_{datetime.datetime.now().strftime("%Y%m%d")}.csv'` */
  function RefreshPath(stamp: Date): string {
    "data/aggregated_sales_" + FormatYMD(stamp) + ".csv"
  }

  /** A refresh writes a ledger named after its day: never the live ledger, and never the
      ledger of another day. */
  lemma RefreshPathsDistinct(a: Date, b: Date)
    ensures RefreshPath(a) != DefaultLedgerPath
    ensures RefreshPath(a) == RefreshPath(b) <==> a == b
  {
    if RefreshPath(a) == RefreshPath(b) {
      var n := |"data/aggregated_sales_"|;
      assert FormatYMD(a) == RefreshPath(a)[n..n + 8];
      assert FormatYMD(b) == RefreshPath(b)[n..n + 8];
      FormatYMDInjective(a, b);
    }
  }

  /** The line `writer.writeheader()` writes. */
  function HeaderLine(headers: seq<string>, fmt: FloatText): string {
    RenderRow(HeaderRow(headers), fmt)
  }

  /** The text `write_history` adds to its file: the rows written before it stopped. */
  function HistoryText(v: FeeConvention, headers: seq<string>, start: Date, today: Date, fetch: Payments, fmt: FloatText): string {
    RenderRows(HistoryOf(v, headers, start, today, fetch).rows, fmt)
  }

  /** The whole text of a refreshed ledger. */
  function RefreshedText(v: FeeConvention, headers: seq<string>, today: Date, fetch: Payments, fmt: FloatText): string {
    HeaderLine(headers, fmt) + HistoryText(v, headers, FirstDate, today, fetch, fmt)
  }

  /** `get_last_update_date(path)` on the files as they are: FileNotFoundError for a missing
      file, otherwise the day after the date of its last line. */
  function LastUpdateOf(files: map<string, string>, path: string): Result<Date, Error> {
    if path in files then NextDateAfterLedger(files[path]) else Err(FileNotFound(path))
  }

  /** A text that a ledger line can follow: empty, or ended by a newline after at least one
      other character. */
  predicate EndsWithLine(t: string) {
    t == [] || (|t| >= 2 && t[|t| - 1] == '\n')
  }

  /** `with open(path, 'a', newline='') as csvfile:` then `write_history(writer, start, headers)`. */
  method AppendHistory(store: FileStore, v: FeeConvention, path: string, headers: seq<string>,
                       start: Date, today: Date, fetch: Payments, fmt: FloatText)
    returns (err: Option<Error>)
    modifies store
    ensures store.files == Appended(old(store.files), path, HistoryText(v, headers, start, today, fetch, fmt))
    ensures err == HistoryOf(v, headers, start, today, fetch).error
  {
    var rows, e := WriteHistory(v, headers, start, today, fetch);
    store.Append(path, RenderRows(rows, fmt));
    err := e;
  }

  /** `with open(path, 'w', newline='') as csvfile:`, `writer.writeheader()`, then
      `write_history(writer, first_date, headers)`. */
  method RewriteHistory(store: FileStore, v: FeeConvention, path: string, headers: seq<string>,
                        today: Date, fetch: Payments, fmt: FloatText)
    returns (err: Option<Error>)
    modifies store
    ensures store.files == old(store.files)[path := RefreshedText(v, headers, today, fetch, fmt)]
    ensures err == HistoryOf(v, headers, FirstDate, today, fetch).error
  {
    var header := HeaderLine(headers, fmt);
    store.Overwrite(path, header);
    err := AppendHistory(store, v, path, headers, FirstDate, today, fetch, fmt);
    OverwriteThenAppend(old(store.files), path, header, HistoryText(v, headers, FirstDate, today, fetch, fmt));
  }

  /** `get_last_update_date(path)`. */
  method ReadLastUpdate(store: FileStore, path: string) returns (r: Result<Date, Error>)
    ensures r == LastUpdateOf(store.files, path)
  {
    if path !in store.files {
      return Err(FileNotFound(path));
    }
    r := GetLastUpdateDate(store.files[path]);
  }

  lemma AppendAssoc(a: string, b: string, c: string)
    ensures a + (b + c) == (a + b) + c
  {
  }

  lemma RenderSingleRow(row: seq<Cell>, fmt: FloatText)
    ensures RenderRows([row], fmt) == RenderRow(row, fmt)
  {
    var lines := Lines([row], fmt);
    assert lines == [RenderRow(row, fmt)];
    assert lines[..0] == [];
    assert Concat(lines) == Concat(lines[..0]) + lines[0];
  }

  /** The last row `write_history` writes, when it writes every date through today, is
      today's, and it is a date followed by fields without a line break. */
  lemma LastWrittenRow(v: FeeConvention, headers: seq<string>, start: Date, today: Date, fetch: Payments, fmt: FloatText)
    requires forall x :: '\n' !in fmt(x)
    requires headers != [] && headers[0] == SalesKey
    requires DateLe(start, today)
    requires HistoryOf(v, headers, start, today, fetch).error.None?
    ensures today != MaxDate
    ensures var rows := HistoryOf(v, headers, start, today, fetch).rows;
      && rows != []
      && exists rest :: RenderRow(rows[|rows| - 1], fmt) == FormatMDY(today) + rest + "\r\n"
                        && '\n' !in rest && (rest == [] || rest[0] == ',')
  {
    var rows := HistoryOf(v, headers, start, today, fetch).rows;
    HistoryRows(v, headers, start, today, fetch);
    DatesBetweenEnds(start, today);
    var last := rows[|rows| - 1];
    assert DayRow(v, headers, today, fetch) == Ok(last);
    DayRowFirstCell(v, headers, today, fetch);
    DayRowCells(v, headers, today, fetch);
    FormatHasNoSeparator(today);
    DateRowLine(today, last, fmt);
  }

  /** Rendered rows keep a ledger that ends with a full line ending with one. */
  lemma EndsWithLineAfterRows(prior: string, rows: seq<seq<Cell>>, fmt: FloatText)
    requires EndsWithLine(prior)
    ensures EndsWithLine(prior + RenderRows(rows, fmt))
  {
    RenderedRowsEndInNewline(rows, fmt);
  }

  /** A ledger whose last row is a date followed by fields without a line break resumes the
      day after that date. */
  lemma ResumesAfterRows(prior: string, rows: seq<seq<Cell>>, d: Date, fmt: FloatText)
    requires EndsWithLine(prior) && rows != []
    requires exists rest :: RenderRow(rows[|rows| - 1], fmt) == FormatMDY(d) + rest + "\r\n"
                            && '\n' !in rest && (rest == [] || rest[0] == ',')
    ensures NextDateAfterLedger(prior + RenderRows(rows, fmt))
         == if d == MaxDate then Err(DateOverflow) else Ok(NextDay(d).value)
  {
    var last := rows[|rows| - 1];
    var rest :| RenderRow(last, fmt) == FormatMDY(d) + rest + "\r\n"
                && '\n' !in rest && (rest == [] || rest[0] == ',');
    var init := rows[..|rows| - 1];
    assert rows == init + [last];
    RenderRowsAppend(init, [last], fmt);
    RenderSingleRow(last, fmt);
    var prefix := prior + RenderRows(init, fmt);
    EndsWithLineAfterRows(prior, init, fmt);
    var line := RenderRow(last, fmt);
    AppendAssoc(prior, RenderRows(init, fmt), line);
    ResumesAfterLine(prefix, line, d, rest);
  }

  /** The same for a ledger given as its text before the last line and that line. */
  lemma ResumesAfterLine(prefix: string, line: string, d: Date, rest: string)
    requires EndsWithLine(prefix)
    requires line == FormatMDY(d) + rest + "\r\n" && '\n' !in rest && (rest == [] || rest[0] == ',')
    ensures NextDateAfterLedger(prefix + line)
         == if d == MaxDate then Err(DateOverflow) else Ok(NextDay(d).value)
  {
    var f := FormatMDY(d);
    AppendAssoc(prefix, f + rest, "\r\n");
    AppendAssoc(prefix, f, rest);
    ResolvesDayAfterLastRow(prefix, d, rest, "\r\n");
  }

  /** After an update that wrote every date from `start` through today without an exception,
      `get_last_update_date` on the ledger gives the day after today: the next update starts
      exactly where this one ended, so no day is written twice or skipped. */
  lemma UpdateResumesNextDay(v: FeeConvention, prior: string, headers: seq<string>, start: Date, today: Date,
                             fetch: Payments, fmt: FloatText)
    requires EndsWithLine(prior)
    requires forall x :: '\n' !in fmt(x)
    requires headers != [] && headers[0] == SalesKey
    requires DateLe(start, today)
    requires HistoryOf(v, headers, start, today, fetch).error.None?
    ensures today != MaxDate
    ensures NextDateAfterLedger(prior + HistoryText(v, headers, start, today, fetch, fmt)) == Ok(NextDay(today).value)
  {
    LastWrittenRow(v, headers, start, today, fetch, fmt);
    ResumesAfterRows(prior, HistoryOf(v, headers, start, today, fetch).rows, today, fmt);
  }

  /** An update whose start date is after today writes nothing and raises nothing. */
  lemma NothingToUpdate(v: FeeConvention, headers: seq<string>, start: Date, today: Date, fetch: Payments, fmt: FloatText)
    requires !DateLe(start, today)
    ensures HistoryText(v, headers, start, today, fetch, fmt) == ""
    ensures HistoryOf(v, headers, start, today, fetch).error.None?
  {
    assert DatesBetween(start, today) == [];
    assert Lines([], fmt) == [];
  }

  /** A refreshed ledger that wrote every date from 2022-11-01 through today resumes the day
      after today. */
  lemma RefreshResumesNextDay(v: FeeConvention, headers: seq<string>, today: Date, fetch: Payments, fmt: FloatText)
    requires forall x :: '\n' !in fmt(x)
    requires headers != [] && headers[0] == SalesKey
    requires DateLe(FirstDate, today)
    requires HistoryOf(v, headers, FirstDate, today, fetch).error.None?
    ensures NextDateAfterLedger(RefreshedText(v, headers, today, fetch, fmt)) == Ok(NextDay(today).value)
  {
    var h := HeaderLine(headers, fmt);
    assert h[|h| - 2..] == "\r\n";
    UpdateResumesNextDay(v, h, headers, FirstDate, today, fetch, fmt);
  }

  /** The header line of a header list that starts with `Sales` and has no line breaks is a
      line starting with `S`. */
  lemma HeaderLineShape(headers: seq<string>, fmt: FloatText)
    requires headers != [] && headers[0] == SalesKey
    requires forall i :: 0 <= i < |headers| ==> '\n' !in headers[i]
    ensures exists joined :: HeaderLine(headers, fmt) == joined + "\r\n" && '\n' !in joined
                             && joined != [] && joined[0] == 'S'
  {
    var cells := HeaderRow(headers);
    var joined := JoinFields(cells, fmt);
    JoinedTailFlat(cells, fmt);
    assert RenderField(cells[0], fmt) == SalesKey by {
      assert !NeedsQuotes(SalesKey);
    }
    assert joined[0] == 'S';
    assert HeaderLine(headers, fmt) == joined + "\r\n";
  }

  /** A refresh run before 2022-11-01 leaves only the header line, from which
      `get_last_update_date` cannot read a date. */
  lemma RefreshBeforeFirstDate(v: FeeConvention, headers: seq<string>, today: Date, fetch: Payments, fmt: FloatText)
    requires headers != [] && headers[0] == SalesKey
    requires forall i :: 0 <= i < |headers| ==> '\n' !in headers[i]
    requires !DateLe(FirstDate, today)
    ensures RefreshedText(v, headers, today, fetch, fmt) == HeaderLine(headers, fmt)
    ensures NextDateAfterLedger(RefreshedText(v, headers, today, fetch, fmt)) == Err(DateParseError)
  {
    NothingToUpdate(v, headers, FirstDate, today, fetch, fmt);
    assert HeaderLine(headers, fmt) + "" == HeaderLine(headers, fmt);
    HeaderLineShape(headers, fmt);
    var joined :| HeaderLine(headers, fmt) == joined + "\r\n" && '\n' !in joined && joined != [] && joined[0] == 'S';
    HeaderOnlyLedgerFails(joined, "\r\n");
  }
}
