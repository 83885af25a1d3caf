/** `squareup/sales_util.py`: the utility that keeps fees positive (`Fees += fee`,
    `Net Total = Total - Fees`) and lets the caller choose the ledger of `update_history`. */
module SalesUtil {
  import opened Wrappers
  import opened Errors
  import opened Calendar
  import opened DateText
  import opened SalesAggregation
  import opened LedgerCsv
  import opened History
  import opened LedgerFiles
  import opened SalesHistory

  /** `get_last_update_date(csv_file)` */
  method GetLastUpdateDate(store: FileStore, csvFile: string) returns (r: Result<Date, Error>)
    ensures r == LastUpdateOf(store.files, csvFile)
  {
    r := ReadLastUpdate(store, csvFile);
  }

  /** `update_history(last_date, file_path=None, headers=None)`, with today's date given. */
  method UpdateHistory(store: FileStore, lastDate: Date, filePath: Option<string>, headers: Option<seq<string>>,
                       today: Date, fetch: Payments, fmt: FloatText)
    returns (err: Option<Error>)
    modifies store
    ensures var path := if filePath.Some? then filePath.value else DefaultLedgerPath;
      store.files == Appended(old(store.files), path, HistoryText(Additive, ResolveHeaders(headers), lastDate, today, fetch, fmt))
    ensures err == HistoryOf(Additive, ResolveHeaders(headers), lastDate, today, fetch).error
  {
    var fields := ResolveHeaders(headers);
    var path := if filePath.Some? then filePath.value else DefaultLedgerPath;
    err := AppendHistory(store, Additive, path, fields, lastDate, today, fetch, fmt);
  }

  /** `refresh_history(headers=None)`: `stamp` is the date that names the file and `today` the
      date `write_history` stops at; the source reads the clock for each. */
  method RefreshHistory(store: FileStore, headers: Option<seq<string>>, stamp: Date, today: Date,
                        fetch: Payments, fmt: FloatText)
    returns (err: Option<Error>)
    modifies store
    ensures store.files == old(store.files)[RefreshPath(stamp) := RefreshedText(Additive, ResolveHeaders(headers), today, fetch, fmt)]
    ensures err == HistoryOf(Additive, ResolveHeaders(headers), FirstDate, today, fetch).error
  {
    var fields := ResolveHeaders(headers);
    err := RewriteHistory(store, Additive, RefreshPath(stamp), fields, today, fetch, fmt);
  }
}
