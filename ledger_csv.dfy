/** The ledger's rows as `csv.DictWriter` produces them: a day's dictionary becomes a row in
    the order of the field names, and each row becomes one line of text, with fields joined by
    commas, quoted only when they need it, and ended by `\r\n`. */
module LedgerCsv {
  import opened Wrappers
  import opened Errors
  import opened Calendar
  import opened DateText
  import opened SalesAggregation

  /** A value in a row: the `Sales` date string, the empty `restval`, or an amount. */
  datatype Cell = Text(s: string) | Number(x: real)

  /** How one float is written (`repr`); the model does not fix its digits. */
  type FloatText = real -> string

  /** `sales_data` once `sales_data["Sales"] = date.strftime('%m/%d/%Y')` has run. */
  function RowDict(a: Amounts, d: Date): (r: map<string, Cell>)
    ensures r.Keys == a.Keys + {SalesKey}
    ensures r[SalesKey] == Text(FormatMDY(d))
    ensures forall k :: k in a && k != SalesKey ==> r[k] == Number(a[k])
  {
    (map k | k in a :: Number(a[k]))[SalesKey := Text(FormatMDY(d))]
  }

  /** `writer.writerow(rowdict)`: ValueError when the dictionary has keys that are not field
      names; otherwise one cell per field name, the empty string for a field the dictionary
      lacks. */
  function WriteRow(fieldnames: seq<string>, rowdict: map<string, Cell>): (r: Result<seq<Cell>, Error>)
    ensures r.Err? <==> exists k :: k in rowdict && k !in fieldnames
    ensures r.Err? ==> r.error == FieldsNotInHeader(rowdict.Keys - set f | f in fieldnames)
    ensures r.Ok? ==> |r.value| == |fieldnames|
    ensures r.Ok? ==> forall i :: 0 <= i < |fieldnames| && fieldnames[i] in rowdict ==> r.value[i] == rowdict[fieldnames[i]]
    ensures r.Ok? ==> forall i :: 0 <= i < |fieldnames| && fieldnames[i] !in rowdict ==> r.value[i] == Text("")
  {
    var wrong := rowdict.Keys - set f | f in fieldnames;
    if wrong != {} then
      assert exists k :: k in wrong;
      Err(FieldsNotInHeader(wrong))
    else
      assert forall k :: k in rowdict ==> k !in wrong;
      Ok(seq(|fieldnames|, i requires 0 <= i < |fieldnames| =>
        if fieldnames[i] in rowdict then rowdict[fieldnames[i]] else Text("")))
  }

  /** `writer.writeheader()`: the row that maps every field name to itself. */
  function HeaderRow(fieldnames: seq<string>): seq<Cell> {
    seq(|fieldnames|, i requires 0 <= i < |fieldnames| => Text(fieldnames[i]))
  }

  /** A field is quoted when it holds the delimiter, the quote character or a line break. */
  predicate NeedsQuotes(s: string) {
    ',' in s || '"' in s || '\r' in s || '\n' in s
  }

  /** Inside quotes, each quote character is doubled. */
  function DoubleQuotes(s: string): (r: string)
    ensures |r| >= |s|
    ensures forall c :: c != '"' ==> (c in r <==> c in s)
  {
    if s == [] then []
    else (if s[0] == '"' then "\"\"" else [s[0]]) + DoubleQuotes(s[1..])
  }

  function CellText(c: Cell, fmt: FloatText): string {
    match c
    case Text(s) => s
    case Number(x) => fmt(x)
  }

  /** One field as the csv writer writes it under minimal quoting. */
  function RenderField(c: Cell, fmt: FloatText): (r: string)
    ensures !NeedsQuotes(CellText(c, fmt)) ==> r == CellText(c, fmt)
    ensures '\n' in r <==> '\n' in CellText(c, fmt)
  {
    var raw := CellText(c, fmt);
    if NeedsQuotes(raw) then "\"" + DoubleQuotes(raw) + "\"" else raw
  }

  /** The fields of a row, comma-separated. */
  function JoinFields(cells: seq<Cell>, fmt: FloatText): string {
    if cells == [] then ""
    else if |cells| == 1 then RenderField(cells[0], fmt)
    else RenderField(cells[0], fmt) + "," + JoinFields(cells[1..], fmt)
  }

  /** One row as a line of the file: a row that would come out as nothing at all is written
      as `""`, so that it still reads back as one field. */
  function RenderRow(cells: seq<Cell>, fmt: FloatText): string {
    var joined := JoinFields(cells, fmt);
    (if joined == [] && cells != [] then "\"\"" else joined) + "\r\n"
  }

  /** Lines of text one after the other. */
  function Concat(lines: seq<string>): string {
    if lines == [] then "" else Concat(lines[..|lines| - 1]) + lines[|lines| - 1]
  }

  /** The line of each row. */
  function Lines(rows: seq<seq<Cell>>, fmt: FloatText): (r: seq<string>)
    ensures |r| == |rows|
  {
    seq(|rows|, i requires 0 <= i < |rows| => RenderRow(rows[i], fmt))
  }

  /** The lines of several rows, in order. */
  function RenderRows(rows: seq<seq<Cell>>, fmt: FloatText): string {
    Concat(Lines(rows, fmt))
  }

  lemma {:induction false} ConcatAppend(xs: seq<string>, ys: seq<string>)
    ensures Concat(xs + ys) == Concat(xs) + Concat(ys)
    decreases |ys|
  {
    if ys == [] {
      assert xs + ys == xs;
    } else {
      var init, last := ys[..|ys| - 1], ys[|ys| - 1];
      var zs := xs + ys;
      assert zs[..|zs| - 1] == xs + init && zs[|zs| - 1] == last;
      ConcatAppend(xs, init);
    }
  }

  /** Rendering several rows is rendering each in turn. */
  lemma RenderRowsAppend(xs: seq<seq<Cell>>, ys: seq<seq<Cell>>, fmt: FloatText)
    ensures RenderRows(xs + ys, fmt) == RenderRows(xs, fmt) + RenderRows(ys, fmt)
  {
    assert Lines(xs + ys, fmt) == Lines(xs, fmt) + Lines(ys, fmt);
    ConcatAppend(Lines(xs, fmt), Lines(ys, fmt));
  }

  /** Lines that each end with a newline, at least two characters long, join into a text
      that is empty exactly when there are none, and otherwise ends the same way. */
  lemma {:induction false} ConcatEndsInNewline(lines: seq<string>)
    requires forall i :: 0 <= i < |lines| ==> |lines[i]| >= 2 && lines[i][|lines[i]| - 1] == '\n'
    ensures lines == [] <==> Concat(lines) == []
    ensures Concat(lines) != [] ==> |Concat(lines)| >= 2 && Concat(lines)[|Concat(lines)| - 1] == '\n'
  {
    if lines != [] {
      var init := lines[..|lines| - 1];
      assert forall i :: 0 <= i < |init| ==> init[i] == lines[i];
      ConcatEndsInNewline(init);
    }
  }

  /** Every rendered line ends with `\r\n`, so a text of rendered rows is empty or ends with a
      newline and is at least two characters long. */
  lemma RenderedRowsEndInNewline(rows: seq<seq<Cell>>, fmt: FloatText)
    ensures var t := RenderRows(rows, fmt);
      rows == [] <==> t == []
    ensures var t := RenderRows(rows, fmt);
      t != [] ==> |t| >= 2 && t[|t| - 1] == '\n'
  {
    ConcatEndsInNewline(Lines(rows, fmt));
  }

  /** No rendered field after the first breaks the line when no amount's text holds a newline. */
  lemma {:induction false} JoinedTailFlat(cells: seq<Cell>, fmt: FloatText)
    requires forall i :: 0 <= i < |cells| ==> '\n' !in CellText(cells[i], fmt)
    ensures '\n' !in JoinFields(cells, fmt)
    decreases |cells|
  {
    if |cells| > 1 {
      JoinedTailFlat(cells[1..], fmt);
    }
  }

  /** A row that begins with a day's date is written as that date, then either nothing or a
      comma and the other fields, without a line break before its `\r\n`. */
  lemma DateRowLine(d: Date, cells: seq<Cell>, fmt: FloatText)
    requires forall x :: '\n' !in fmt(x)
    requires |cells| >= 1 && cells[0] == Text(FormatMDY(d))
    requires forall i :: 1 <= i < |cells| ==> cells[i].Number? || '\n' !in cells[i].s
    ensures exists rest :: RenderRow(cells, fmt) == FormatMDY(d) + rest + "\r\n"
                           && '\n' !in rest && (rest == [] || rest[0] == ',')
  {
    var f := FormatMDY(d);
    assert !NeedsQuotes(f) by {
      FormatHasNoSeparator(d);
    }
    if |cells| == 1 {
      assert RenderRow(cells, fmt) == f + [] + "\r\n";
    } else {
      var tail := cells[1..];
      assert forall i :: 0 <= i < |tail| ==> tail[i] == cells[i + 1] && '\n' !in CellText(tail[i], fmt);
      JoinedTailFlat(tail, fmt);
      var rest := "," + JoinFields(tail, fmt);
      assert RenderRow(cells, fmt) == f + rest + "\r\n";
    }
  }

  /** A formatted date has only digits and slashes. */
  lemma FormatHasNoSeparator(d: Date)
    ensures !NeedsQuotes(FormatMDY(d))
  {
    var f := FormatMDY(d);
    assert forall k :: 0 <= k < |f| ==> IsDigit(f[k]) || f[k] == '/';
  }
}
