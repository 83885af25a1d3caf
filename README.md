# Sunrise Donuts sales ledger and report helpers, in Dafny

This project models two parts of the Sunrise Donuts sales tooling and proves properties of them.

**The daily sales ledger.** This part is in `squareup/sales_util.py` and its near-twin `squareup/sales_data_util.py`.

- `get_last_update_date` reads the ledger backwards to the start of its last line. It parses that line's first field as `MM/DD/YYYY` and returns the day after.
- `generate_date_range` yields every date from a start date through today.
- For each date, `write_history` asks the payments service about that day's local window from midnight to midnight minus one millisecond. It follows the paging cursor, and `sum_sales` folds every page into a `sales_data` dictionary of cents. `convert_cents_to_usd` then divides every field by 100, and one ledger row is written per date.
- `update_history` appends these rows to a ledger.
- `refresh_history` writes a dated ledger from scratch: a header line, then rows from 2022-11-01.

The two files differ in two ways:

- The sign under which `Fees` is kept. `sales_util.py` adds each fee and subtracts `Fees` from `Total`. `sales_data_util.py` subtracts each fee and adds `Fees` to `Total`.
- `sales_data_util.py` always appends to `data/aggregated_sales.csv`.

Modules:

- `SalesAggregation`, `AggregationFacts` and `SalesDay` model the aggregation and its closed form.
- `SalesDay.SalesData` is a class whose methods update the dictionary in place. Its methods are proved against the functions of `SalesAggregation`.
- `Calendar`, `DateText` and `DateRange` model the proleptic Gregorian calendar of Python's `datetime.date`, the `%m/%d/%Y` and `%Y%m%d` notations, and the generator.
- `LedgerResolver` models the backward scan, with its file pointer and position, as a method with a loop.
- `LedgerCsv`, `History`, `LedgerFiles` and `SalesHistory` model the rows, their text, and the files as a `FileStore` object.
- `SalesUtil` and `SalesDataUtil` are the entry points of each file.

**The report-merging helpers.** These are in `scripts/merge_reports.py`, and also in `scripts/concat_report_data.py`, which has the same bodies. Module `ReportMerge` models:

- `add_suffix_to_filename`, with POSIX `os.path.split`, `splitext` and `join`;
- the `list(map(list, zip(*data)))` transposition of `transpose_csv`, with its IndexError;
- the `process_value` conversion: the `re.sub(r'[^-\d.]', '', x)` filter, then `decimal.Decimal` on the kept characters;
- the column selection of `combine_csv`.

Each module serves both files of its pair, whose bodies agree line for line apart from the differences above, so a row of the table below cites the lines of either file.

The core is deterministic once its inputs are fixed:

- The payments service is a function `fetch` from a day's window to the responses it returns, in the order the cursor loop asks for them.
- `today`, the date stamp of a refreshed ledger, and the text of a float are parameters.
- A Python exception is an `Err` of `Errors.Error`.

## Model

| member | source | states |
|---|---|---|
| SalesUtil.GetLastUpdateDate | squareup/sales_util.py:37-59 | FileNotFound for a missing ledger; otherwise the day after the date in the first field of the ledger's last line, or the parse or overflow error |
| SalesUtil.UpdateHistory | squareup/sales_util.py:78-112 | the ledger at `file_path` (default `data/aggregated_sales.csv`) gains the text of the rows `write_history` wrote, after its old text, with the default headers when none or an empty list is given; other files unchanged; the error is the one that stopped the loop |
| SalesUtil.RefreshHistory | squareup/sales_util.py:114-148 | the file named by the `%Y%m%d` stamp becomes the header line followed by the rows from 2022-11-01 through today; other files unchanged |
| SalesDataUtil.GetLastUpdateDate | squareup/sales_data_util.py:20-33 | FileNotFound for a missing ledger; otherwise the day after the date in the first field of its last line, or the parse or overflow error |
| SalesDataUtil.UpdateHistory | squareup/sales_data_util.py:42-67 | always appends to `data/aggregated_sales.csv`, under the subtractive fee convention |
| SalesDataUtil.RefreshHistory | squareup/sales_data_util.py:69-96 | header line then rows from 2022-11-01, under the subtractive fee convention |
| SalesAggregation.ResolveHeaders | squareup/sales_util.py:86-105 | a missing or empty header list becomes the 17 default columns; any other list is used as given |
| SalesAggregation.Derive | squareup/sales_util.py:179-182 | fails with KeyError exactly when one of the four read keys is absent; otherwise the identities `Net Total = Total ∓ Fees`, `Net Sales = Gross − Refunds`, `Total Collected = Card = Total` hold and no other key changes |
| AggregationFacts.AddPaymentValues | squareup/sales_util.py:173-177 | a counted payment adds its five amounts (absent ones as 0, only the first fee entry) and changes no other key |
| AggregationFacts.TallyClosedForm | squareup/sales_util.py:169-177 | the payment loop fails exactly when a counted payment has an empty fee list; otherwise each accumulator grows by the sum of its amount over the counted payments |
| AggregationFacts.TallyClosedFormStep | squareup/sales_util.py:169-177 | one more payment keeps that closed form |
| AggregationFacts.UncountedPaymentIgnored | squareup/sales_data_util.py:104-105 | a payment neither COMPLETED nor APPROVED changes nothing, wherever it stands in the page |
| AggregationFacts.TallyStopsAtError | squareup/sales_util.py:169-177 | once a payment raises, the rest of the page is never summed: the whole page fails with that error |
| AggregationFacts.SumSalesClosedForm | squareup/sales_util.py:162-182 | `sum_sales` is the closed-form accumulation followed by the four derived fields |
| AggregationFacts.CountedSumAppend | squareup/sales_util.py:169-177 | the sum over counted payments of two runs is the sum of their sums |
| AggregationFacts.HasEmptyFeeListAppend | squareup/sales_util.py:177 | a concatenation has a counted payment with an empty fee list exactly when one of its parts has |
| AggregationFacts.AccumulatedValues | squareup/sales_util.py:173-177 | the accumulated dictionary key by key: five grown sums, every other key as before |
| AggregationFacts.AccumulatedAppend | squareup/sales_util.py:209-221 | summing two runs of payments one after the other is summing their concatenation |
| AggregationFacts.DeriveIgnoresDerivedKeys | squareup/sales_util.py:179-182 | the derived fields depend only on the keys they do not assign |
| AggregationFacts.AccumulateAfterDerive | squareup/sales_util.py:209-221 | summing a further page after the derived fields were assigned differs only in those fields |
| AggregationFacts.AccumulateTwice | squareup/sales_util.py:209-221 | two `sum_sales` calls on two pages equal one call on their concatenation |
| AggregationFacts.AddPaymentStep | squareup/sales_util.py:169-177 | adding one counted payment to the accumulated dictionary gives the accumulation of the longer run |
| AggregationFacts.FollowCursorClosedForm | squareup/sales_util.py:212-221 | the cursor loop sums exactly the usable pages up to the first body without a cursor; a failed page adds nothing; an empty fee list on a read page fails; running out of responses with a cursor left fails |
| AggregationFacts.CursorStep | squareup/sales_util.py:212-221 | one round of the cursor loop keeps that closed form |
| AggregationFacts.FirstPageSummed | squareup/sales_util.py:213-221 | reading one more response either fails on its empty fee list or continues from the dictionary that includes its page |
| AggregationFacts.ReadPaymentsStep | squareup/sales_util.py:212-221 | the pages read after a response with a cursor are the next page, then those read after it |
| AggregationFacts.DayAmountsClosedForm | squareup/sales_util.py:204-223 | no responses is an error; an unusable first response leaves every header at 0.0 and skips pagination; otherwise the day is the sum over all pages read, in dollars, or the error that stopped it |
| AggregationFacts.DayRecordValues | squareup/sales_util.py:169-189 | in a summed day, each accumulated column is its sum over counted payments divided by 100, `Net Total` is total less fees, the derived columns follow the identities, and `Returns`, `Tax`, `Cash` and the other untouched columns stay 0.0 |
| AggregationFacts.BalancedInUsd | squareup/sales_util.py:184-189 | dividing every field by 100 keeps the keys and the four identities |
| AggregationFacts.InUsdAgree | squareup/sales_data_util.py:117-119 | the division keeps two dictionaries that differ only in the sign of `Fees` so |
| AggregationFacts.SumConventionsAgree | squareup/sales_data_util.py:110-112 | the two fee conventions give the same `Net Total` and every other column, with `Fees` of opposite sign |
| AggregationFacts.FeeConventionsAgree | squareup/sales_data_util.py:102-152 | for any responses, the two utilities succeed or fail alike, with the same error, and agree on every column but `Fees`, which they hold with opposite signs |
| SalesDay.SalesData.constructor | squareup/sales_util.py:204 | the dictionary maps every header to 0.0 |
| SalesDay.SalesData.AddInPlace | squareup/sales_util.py:169-177 | the in-place `+=` of one payment, in order, with each KeyError raised before its right-hand side, equals `AddPayment`; after an exception the dictionary keeps its keys and only the five accumulated keys may have changed |
| SalesDay.SalesData.DeriveInPlace | squareup/sales_util.py:179-182 | the four assignments in place equal `Derive`, including its KeyError; after the exception the old keys are kept, only the four derived keys may have been added or changed |
| SalesDay.SalesData.SumSales | squareup/sales_util.py:162-182 | the loop over the page, then the derived fields, equals `SumSalesOf`, stopping at the first error |
| SalesDay.SalesData.ConvertCentsToUsd | squareup/sales_data_util.py:117-119 | the key-by-key `/= 100.0` leaves every value divided by 100 |
| SalesDay.CollectDay | squareup/sales_util.py:198-223 | the day's dictionary from its responses, with the cursor loop reassigning the latest response, equals `DayAmounts` |
| Calendar.NextDay | squareup/sales_util.py:59 | `date + timedelta(days=1)`: OverflowError exactly at 9999-12-31, otherwise a later date |
| Calendar.NextDayOrdinal | squareup/sales_util.py:75 | the next day is one further in the day count |
| Calendar.OrdinalOrder | squareup/sales_util.py:73 | Python's date comparison agrees with the order of the day counts, and the day count determines the date |
| Calendar.OrdinalStrictlyMonotone | squareup/sales_util.py:73 | an earlier date has a smaller day count |
| Calendar.OrdinalWithinYear | squareup/sales_util.py:73 | a date's day count lies inside its year's block |
| Calendar.WindowsAdjacent | squareup/sales_util.py:192-194 | a day's window is one day minus 1 ms long, and the next day's window begins 1 ms after it ends, so the next window's start is not in this window |
| Calendar.WindowsDisjoint | squareup/sales_util.py:192-194 | the windows of two different dates share no instant |
| DateText.DigitChar | squareup/sales_util.py:226 | a digit character with the given value |
| DateText.MonthField | squareup/sales_util.py:58 | a `%m` field parses only to a month 1..12 |
| DateText.DayField | squareup/sales_util.py:58 | a `%d` field parses only to 1..31 |
| DateText.YearField | squareup/sales_util.py:58 | a `%Y` field parses only to a year 1..9999 |
| DateText.IndexOf | squareup/sales_util.py:57 | the first occurrence of a character, or the length |
| DateText.ParseFormat | squareup/sales_util.py:226 | parsing a formatted `MM/DD/YYYY` date gives the date back |
| DateText.FormatParse | squareup/sales_util.py:58 | a parsed date formats back to its input exactly when the input is ten characters without a space |
| DateText.FormatIsPadded | squareup/sales_util.py:226 | a formatted date is ten characters without a space |
| DateText.PaddedParse | squareup/sales_util.py:58 | a ten-character date without spaces formats back to itself |
| DateText.ParseRejectsNonDigit | squareup/sales_util.py:58 | a field that is empty or starts with a non-digit, such as `Sales`, raises the parse error |
| DateText.FormatYMDInjective | squareup/sales_util.py:143 | different dates have different `%Y%m%d` stamps |
| DateRange.GenerateDateRange | squareup/sales_util.py:61-75 | the `while start_date <= end_date` loop yields `DatesBetween(start, end)`, and overflows after 9999-12-31 exactly when the range ends there |
| DateRange.DatesBetweenOrdinals | squareup/sales_util.py:72-75 | the range has `end − start + 1` dates, none when start is after end, and its i-th date is `start + i` |
| DateRange.DatesBetweenContents | squareup/sales_data_util.py:37-39 | a date is in the range exactly when it lies between start and end, and the range strictly increases |
| DateRange.DatesBetweenEnds | squareup/sales_util.py:72-75 | a range that is not empty starts at the start date and ends at the end date |
| LedgerResolver.TrimLeft | squareup/sales_util.py:57 | removes exactly the leading white space |
| LedgerResolver.TrimRight | squareup/sales_util.py:57 | removes exactly the trailing white space |
| LedgerResolver.LineLength | squareup/sales_util.py:57 | `readline` stops at the first `\n` or `\r` |
| LedgerResolver.FirstField | squareup/sales_util.py:57 | `split(',')[0]` is the prefix before the first comma |
| LedgerResolver.NewlineBack | squareup/sales_util.py:53-55 | the backward scan stops just after the nearest newline at or before `pos`, examining no position 0, or reaches 0 |
| LedgerResolver.FindLastLineStart | squareup/sales_util.py:49-55 | the seek/read loop with its file pointer stops where `LastLineStart` says: the final character is never examined |
| LedgerResolver.GetLastUpdateDate | squareup/sales_util.py:47-59 | the scan, readline, strip, split and parse give `NextDateAfterLedger` |
| LedgerResolver.ResolvesDayAfterLastRow | squareup/sales_util.py:47-59 | after any prefix of full lines, a last row that starts with a formatted date resumes the day after it, whether it ends with nothing, `\n` or `\r\n`; OverflowError after 9999-12-31 |
| LedgerResolver.HeaderOnlyLedgerFails | squareup/sales_util.py:53-58 | a header-only or empty ledger is read from position 0 and raises the parse error |
| LedgerResolver.TwoTrailingNewlinesFail | squareup/sales_util.py:53-58 | a ledger ending in two newlines reads an empty last line and raises the parse error |
| LedgerResolver.TinyLedgerFails | squareup/sales_util.py:49-58 | a ledger of at most one character raises the parse error |
| LedgerResolver.FirstFieldOfLine | squareup/sales_util.py:57 | the first field of a line made of a plain field, then nothing or a comma and more, is that field |
| LedgerResolver.LastRowLine | squareup/sales_util.py:53-57 | the scan reads the line that follows a prefix made of full lines |
| LedgerCsv.RowDict | squareup/sales_util.py:226 | the day's dictionary with `Sales` set to the `MM/DD/YYYY` date and every other value kept |
| LedgerCsv.WriteRow | squareup/sales_util.py:228 | `writerow` raises ValueError exactly when the dictionary has keys that are not field names; otherwise one cell per field name, in order, the empty string for a missing one |
| LedgerCsv.DoubleQuotes | squareup/sales_util.py:228 | doubling quotes keeps every other character |
| LedgerCsv.RenderField | squareup/sales_util.py:228 | a field without delimiter, quote or line break is written as is; quoting adds no newline |
| LedgerCsv.RenderRowsAppend | squareup/sales_util.py:228 | writing two runs of rows writes each in turn |
| LedgerCsv.ConcatEndsInNewline | squareup/sales_util.py:228 | joined lines that each end with a newline are empty exactly when there are none, and otherwise end with a newline |
| LedgerCsv.RenderedRowsEndInNewline | squareup/sales_util.py:228 | the text of written rows is empty exactly when no rows were written, otherwise ends with `\n` |
| LedgerCsv.JoinedTailFlat | squareup/sales_util.py:228 | fields without newlines join into a line without one |
| LedgerCsv.DateRowLine | squareup/sales_util.py:226-228 | a row starting with a date is written as that date, then nothing or a comma and fields without line break, then `\r\n` |
| LedgerCsv.FormatHasNoSeparator | squareup/sales_util.py:226 | a formatted date is never quoted |
| History.DayResults | squareup/sales_util.py:191 | one result per date |
| History.WriteDay | squareup/sales_util.py:191-228 | one round of the date loop gives `DayRow`: the day's window, responses, dictionary and `writerow` |
| History.WriteDays | squareup/sales_data_util.py:121-156 | the loop over the yielded dates writes each day's row before the next day, and the first exception ends it |
| History.WriteHistory | squareup/sales_util.py:151-228 | `write_history` writes `HistoryOf`: the rows of the dates from the start through today, and the generator's overflow after 9999-12-31 |
| History.WrittenStep | squareup/sales_util.py:191-228 | one step of the loop invariant over the per-day results |
| History.WrittenPrefix | squareup/sales_util.py:191-228 | the rows written are the first results' rows in order; the writer stops exactly at the first error or writes every row |
| History.WrittenRowsPrefix | squareup/sales_util.py:191-228 | one row per date, in date order, up to the first date whose day raises |
| History.HistoryRows | squareup/sales_util.py:191-228 | `write_history` writes exactly one row per date from the start through today, the i-th for `start + i`, `today − start + 1` rows when nothing raises; otherwise the rows before the day that raised; overflow only after the last row of 9999-12-31 |
| History.DayRowFirstCell | squareup/sales_util.py:226-228 | with `Sales` first in the headers, a row has one cell per header and starts with its date |
| History.DayRowCells | squareup/sales_util.py:226-228 | every cell is an amount, the row's date, or the empty default |
| History.DefaultDayKeys | squareup/sales_data_util.py:134-152 | with the default headers, a day's dictionary has exactly those columns, all 0.0 when the first response is not usable |
| History.DefaultRowCells | squareup/sales_util.py:226-228 | over the default columns, the row is the date then the 16 amounts in header order |
| History.DefaultRow | squareup/sales_util.py:204-228 | with the default headers, a computed day is always written, as its date and its dollar amounts, all 0.0 when the first response is not usable |
| LedgerFiles.Appended | squareup/sales_util.py:110 | append mode creates a missing file, keeps the old text as a prefix, ends with the new text, and leaves other files alone |
| LedgerFiles.OverwriteThenAppend | squareup/sales_util.py:145-148 | writing a file anew and then writing more to it is writing both texts at once |
| LedgerFiles.FileStore.constructor | squareup/sales_util.py:110 | the store holds the given files |
| LedgerFiles.FileStore.Append | squareup/sales_util.py:110 | the files become `Appended(old, path, text)` |
| LedgerFiles.FileStore.Overwrite | squareup/sales_util.py:145 | only the file at `path` changes, to the new text |
| SalesHistory.RefreshPathsDistinct | squareup/sales_util.py:143 | a refreshed ledger's path is never the live ledger and differs for different dates |
| SalesHistory.AppendHistory | squareup/sales_util.py:110-112 | the ledger gains the written rows after its old text; the error is the one that stopped `write_history` |
| SalesHistory.RewriteHistory | squareup/sales_util.py:145-148 | the ledger becomes the header line followed by the rows from 2022-11-01 |
| SalesHistory.ReadLastUpdate | squareup/sales_util.py:47-59 | FileNotFound for a missing path, else the resolver on the file's text |
| SalesHistory.RenderSingleRow | squareup/sales_util.py:228 | the text of one row is its line |
| SalesHistory.LastWrittenRow | squareup/sales_util.py:191-228 | when every date through today was written, the last line is today's date followed by fields without a line break |
| SalesHistory.EndsWithLineAfterRows | squareup/sales_util.py:228 | written rows keep a ledger ending with a full line |
| SalesHistory.ResumesAfterRows | squareup/sales_util.py:47-59 | a ledger whose last row starts with a date resumes the day after it |
| SalesHistory.ResumesAfterLine | squareup/sales_util.py:47-59 | the same, with the ledger given as its earlier lines and its last line |
| SalesHistory.UpdateResumesNextDay | squareup/sales_util.py:110-112 | after an update that wrote every date through today, `get_last_update_date` gives the day after today, so no day is repeated or skipped |
| SalesHistory.NothingToUpdate | squareup/sales_util.py:73 | an update whose start is after today writes nothing and raises nothing |
| SalesHistory.RefreshResumesNextDay | squareup/sales_util.py:143-148 | a full refresh resumes the day after today |
| SalesHistory.HeaderLineShape | squareup/sales_util.py:147 | the header line is one line that starts with `S` |
| SalesHistory.RefreshBeforeFirstDate | squareup/sales_util.py:144-148 | a refresh before 2022-11-01 leaves only the header line, from which no date can be read |
| ReportMerge.RFind | scripts/merge_reports.py:38 | the last index holding a character, or -1 |
| ReportMerge.StripSlashes | scripts/merge_reports.py:38 | removes exactly the trailing slashes |
| ReportMerge.Split | scripts/concat_report_data.py:21 | the tail is everything after the last slash; the head is the rest, stripped of trailing slashes unless it is all slashes; the head is empty exactly when there is no slash |
| ReportMerge.SplitExt | scripts/concat_report_data.py:24 | the two parts concatenate to the name; the extension is empty or a dot with no further dot or slash; it is taken only when something other than a dot precedes it in the last component |
| ReportMerge.OnlyDotsBefore | scripts/merge_reports.py:41 | when only dots precede the last dot of a component, only dots precede any dot in it |
| ReportMerge.Join | scripts/concat_report_data.py:30 | an absolute second part replaces the first; otherwise exactly one slash goes between them unless the first is empty or ends with one |
| ReportMerge.AddSuffixToFilename | scripts/merge_reports.py:26-49 | with no directory, the result is just the new name, without a separator |
| ReportMerge.SuffixedNameParts | scripts/merge_reports.py:41-44 | the new name is one underscore and the suffix longer, keeps the stem in front, and keeps the extension at its end |
| ReportMerge.AddSuffixKeepsDirectory | scripts/merge_reports.py:38-47 | splitting the result gives the input's directory and the input's name with `_suffix` before its extension |
| ReportMerge.SplitOfPlainName | scripts/merge_reports.py:38 | a name without a slash splits into an empty head and itself |
| ReportMerge.SplitAfterDirectory | scripts/merge_reports.py:38 | a directory ending in a slash, then a plain name, splits back into the two |
| ReportMerge.SplitExtOfParts | scripts/merge_reports.py:41 | a stem holding something other than dots, a dot and a dot-free extension split at that dot |
| ReportMerge.AddSuffixUnderDirectory | scripts/merge_reports.py:38-47 | under a directory without a trailing slash, the result is the directory, one slash and the new name |
| ReportMerge.AddSuffixExample | scripts/merge_reports.py:113-121 | `./data/sales-summary-2022.csv` becomes `./data/sales-summary-2022_t.csv` |
| ReportMerge.MinLen | scripts/merge_reports.py:68 | the length of the shortest row |
| ReportMerge.PrependCell | scripts/merge_reports.py:68 | each column gains the row's cell in front |
| ReportMerge.TransposeShape | scripts/merge_reports.py:68 | the transposition has as many rows as the shortest row has cells, none without rows; each has one cell per input row, and `out[i][j] == data[j][i]` |
| ReportMerge.TransposeTwice | scripts/concat_report_data.py:41 | transposing rectangular rows that are not empty twice gives them back |
| ReportMerge.TransposeEmpty | scripts/concat_report_data.py:41-42 | the transposition is empty exactly when there are no rows or some row is empty |
| ReportMerge.TransposeCsv | scripts/merge_reports.py:51-78 | IndexError exactly when there are no rows or some row is empty; otherwise the transposed rows, written to the given output path, or to the input path with suffix `t` when none or an empty one is given |
| ReportMerge.KeepNumeric | scripts/merge_reports.py:103 | the filter keeps only `-`, digits and `.`, and never lengthens the text |
| ReportMerge.KeepNumericMembers | scripts/concat_report_data.py:64 | a character is in the result exactly when it is in the input and is `-`, a digit or `.` |
| ReportMerge.KeepNumericAppend | scripts/concat_report_data.py:64 | the filter of a concatenation is the concatenation of the filters, so the kept characters stay in order |
| ReportMerge.KeepNumericOfKept | scripts/merge_reports.py:103 | a text of kept characters is left as it is |
| ReportMerge.KeepNumericIdempotent | scripts/merge_reports.py:103 | filtering twice is filtering once |
| ReportMerge.FindDot | scripts/merge_reports.py:103 | the first index holding a dot, or -1 |
| ReportMerge.UnsignedAccepts | scripts/merge_reports.py:103 | the unsigned decimal reader accepts exactly digits with at most one point and at least one digit |
| ReportMerge.DecimalOfAccepts | scripts/merge_reports.py:103 | `Decimal` on the kept characters succeeds exactly on an optional minus and an unsigned decimal |
| ReportMerge.DigitsValueAppend | scripts/merge_reports.py:103 | the value of joined digit strings is the first shifted by the second's length plus the second |
| ReportMerge.DecimalOfScaled | scripts/merge_reports.py:103 | a decimal with a point is its digits' value divided by ten to the number of fraction digits |
| ReportMerge.ProcessValue | scripts/merge_reports.py:103 | succeeds exactly when the kept characters form a number, else InvalidOperation on them |
| ReportMerge.ProcessValueOfCleaned | scripts/merge_reports.py:103 | a cell already cleaned converts to the same result |
| ReportMerge.ProcessValueExample | scripts/merge_reports.py:103 | `$1,234.50` is filtered to `1234.50` and converts to 1234.5 |
| ReportMerge.ProcessValueNeedsDigit | scripts/merge_reports.py:103 | a cell without a digit raises InvalidOperation |
| ReportMerge.ApplyMap | scripts/concat_report_data.py:68 | `applymap` succeeds exactly when every cell converts, with each cell's value in place; otherwise it raises the error of some cell |
| ReportMerge.Filter | scripts/merge_reports.py:99 | keeps exactly the columns the test keeps |
| ReportMerge.FilterAppend | scripts/merge_reports.py:99 | the filter of a concatenation is the concatenation of the filters |
| ReportMerge.FilterFilter | scripts/concat_report_data.py:61-62 | two filters in a row keep, in order, what both keep |
| ReportMerge.PaymentsIsNamed | scripts/merge_reports.py:99-100 | `Payments` does not start with `Unnamed`, so the first step keeps it |
| ReportMerge.SelectColumns | scripts/merge_reports.py:99-100 | KeyError exactly when `Payments` is missing; otherwise the kept columns are those not starting with `Unnamed` and other than `Payments` |
| ReportMerge.SelectColumnsInOrder | scripts/merge_reports.py:99-100 | the kept columns are the input columns passing both tests, in their order |
| ReportMerge.ConvertedColumns | scripts/concat_report_data.py:66 | nothing is converted without columns; otherwise a column is converted exactly when it comes after the first and is not a float column |
| ReportMerge.FirstColumnKept | scripts/merge_reports.py:106 | with distinct names, the first column is never converted |

## Left out

- The Square SDK, its client and credentials are not modelled. `list_payments` is the parameter `fetch`, from a day's window to the responses in request order. The cursor string the source sends back is not modelled.
- Responses run out: when the cursor loop needs a response beyond those `fetch` gives, the model returns `PagesExhausted`. The real service decides when the cursor ends, and the loop has no bound of its own.
- A response whose `is_success()` holds is modelled with its `payments` key present or absent. A body that is `None` or empty counts as having no payments in the `payments` test.
- A `None` body on a page the cursor loop fetched is not modelled. In the source, `"cursor" in result.body` then raises TypeError. The model treats such a response as having no cursor and stops the loop without an error.
- Payment records are assumed to match the payments API schema. `status` is always present, every `Money` object has its `amount`, and the first `processing_fee` entry has its `amount_money`. The KeyErrors the source raises on records that lack these keys are not modelled. An absent top-level amount key (`amount_money`, `tip_money`, `refunded_money`, `total_money`, `processing_fee`) is modelled, and counts as 0.
- `SalesDay.SalesData.AddInPlace`: after an exception, the contract states that the keys are kept and that only the five accumulated keys may have changed. It does not state which of the `+=` steps had already run, because the caller abandons the dictionary.
- `SalesDay.SalesData.DeriveInPlace`: after an exception, the contract states only which keys may have been added or changed, not their values, for the same reason.
- pytz localisation, daylight saving time and the `isoformat` text of the window are left out. A window is counted in local wall-clock milliseconds from 0001-01-01.
- `datetime.now()` is read once for the file stamp of `refresh_history` and once for `today` in `write_history`. Both are parameters.
- The `print` calls are not modelled.
- Real file handles are left out, along with text-mode `seek`/`tell`, encodings and the inability to open a file. Files are a map from path to text. `FileNotFound` is the only open failure modelled.
- `SalesDay.SalesData.SumSales`: after a KeyError or IndexError, the source leaves the dictionary partly updated. The contract states only the error, because the caller abandons the dictionary.
- Floats are exact: IEEE rounding of `/100.0` is not modelled. The digits of `repr(float)` in the CSV text are the parameter `fmt`. The only assumption about `fmt` is that a float's text has no newline.
- Python's `str.isdigit` and `\d` accept Unicode digits. `strptime` also accepts some non-ASCII digits. The model accepts ASCII digits only.
- `%Y` in `strftime` pads years below 1000 differently across platforms. The model always pads to four digits.
- In the merge scripts, `open`, `csv.reader` and `csv.writer` are left out, as are `pd.read_csv`, `pd.concat` and `to_csv`. `transpose_csv` is modelled on the rows read and returns the path and rows to write. The column selection of `combine_csv` is modelled on the list of column names.
- The union of columns that `pd.concat` makes of several files is not modelled.
- Which columns pandas infers to be floats is the parameter `isFloat`.
- `.astype(float)` on the decimals is not modelled.
- A non-string cell that makes `re.sub` raise TypeError is not modelled.
- `ReportMerge.ProcessValue` models the decimal module only on the characters that survive the filter, and uses exact reals. Signed zero, exponents, `NaN` and `Infinity` are out of scope because the filter removes their letters. `-0` is read as 0.
- The script-level statements of both merge files are not modelled, apart from the example path in `ReportMerge.AddSuffixExample`. These are the loop over `files` and the `combined_sales_%Y%m%d.csv` name.
- `weather/weather_util.py`, `scripts/forecast.py` and `scripts/forecast_sales_from_weather.py` are not part of this model.
- The glue scripts are not part of this model either: `scripts/update_sales_data.py`, `squareup/sales_data.py` and `squareup/update_sales_data.py`. They call `get_last_update_date` and then `update_history`, which `SalesHistory.UpdateResumesNextDay` covers.
