/** The exceptions the modelled Python code can raise, as values. */
module Errors {

  datatype Error =
    /** ValueError from `datetime.strptime`: the field is not a `MM/DD/YYYY` date. */
    | DateParseError
    /** OverflowError from `date + timedelta(days=1)` past 9999-12-31. */
    | DateOverflow
    /** KeyError from `sales_data[key]` when the header list lacks `key`. */
    | MissingKey(key: string)
    /** IndexError from `payment['processing_fee'][0]` on an empty fee list. */
    | EmptyFeeList
    /** ValueError from `csv.DictWriter.writerow`: the row has keys that are not field names. */
    | FieldsNotInHeader(keys: set<string>)
    /** The cursor loop asked for a page beyond the responses supplied for that day. */
    | PagesExhausted
    /** FileNotFoundError from opening a ledger for reading that does not exist. */
    | FileNotFound(path: string)
    /** IndexError from `transposed_data[-1]` on an empty transposition. */
    | EmptyTransposition
    /** KeyError from `DataFrame.drop(columns=[name])` when the column is absent. */
    | MissingColumn(name: string)
    /** decimal.InvalidOperation from `decimal.Decimal(text)` on a text that is not a number. */
    | InvalidDecimal(text: string)
}
