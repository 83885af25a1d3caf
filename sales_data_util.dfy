/** `squareup/sales_data_util.py`: the utility that keeps fees negative (`Fees -= fee`,
    `Net Total = Total + Fees`) and always appends to the same ledger. */
module SalesDataUtil {
  import opened Wrappers
  import opened Errors
  import opened Calendar
  import opened SalesAggregation
  import opened LedgerCsv
  import opened History
  import opened LedgerFiles
  import opened SalesHistory

  /** `get_last_update_date(csv_file)` */
  method GetLastUpdateDate(store: FileStore, csvFile: string) returns (r: Result<Date, Error>)
    ensures r == LastUpdateOf(store.files, csvFile)
  {
    r := ReadLastUpdate(store, csvFile);
  }

  /** `update_history(last_date, headers=None)`, with today's date given. */
  method UpdateHistory(store: FileStore, lastDate: Date, headers: Option<seq<string>>,
                       today: Date, fetch: Payments, fmt: FloatText)
    returns (err: Option<Error>)
    modifies store
    ensures store.files == Appended(old(store.files), DefaultLedgerPath,
                                    HistoryText(Subtractive, ResolveHeaders(headers), lastDate, today, fetch, fmt))
    ensures err == HistoryOf(Subtractive, ResolveHeaders(headers), lastDate, today, fetch).error
  {
    var fields := ResolveHeaders(headers);
    err := AppendHistory(store, Subtractive, DefaultLedgerPath, fields, lastDate, today, fetch, fmt);
  }

  /** `refresh_history(headers=None)`: `stamp` is the date that names the file and `today` the
      date `write_history` stops at; the source reads the clock for each. */
  method RefreshHistory(store: FileStore, headers: Option<seq<string>>, stamp: Date, today: Date,
                        fetch: Payments, fmt: FloatText)
    returns (err: Option<Error>)
    modifies store
    ensures store.files == old(store.files)[RefreshPath(stamp) := RefreshedText(Subtractive, ResolveHeaders(headers), today, fetch, fmt)]
    ensures err == HistoryOf(Subtractive, ResolveHeaders(headers), FirstDate, today, fetch).error
  {
    var fields := ResolveHeaders(headers);
    err := RewriteHistory(store, Subtractive, RefreshPath(stamp), fields, today, fetch, fmt);
  }
}
