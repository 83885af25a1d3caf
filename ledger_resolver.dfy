/** `get_last_update_date`: read the ledger text backwards to the start of its last line,
    take that line's first comma-separated field as `MM/DD/YYYY`, and return the day after. */
module LedgerResolver {
  import opened Wrappers
  import opened Calendar
  import opened DateText
  import opened Errors

  /** `str.isspace()`: the characters `str.strip()` removes. */
  predicate IsSpace(c: char) {
    var n := c as int;
    (9 <= n <= 13) || (28 <= n <= 32) || n == 133 || n == 160 || n == 5760
    || (8192 <= n <= 8202) || n == 8232 || n == 8233 || n == 8239 || n == 8287 || n == 12288
  }

  function TrimLeft(s: string): (r: string)
    ensures |r| <= |s| && r == s[|s| - |r|..]
    ensures forall i :: 0 <= i < |s| - |r| ==> IsSpace(s[i])
    ensures r == [] || !IsSpace(r[0])
  {
    if s != [] && IsSpace(s[0]) then
      var r := TrimLeft(s[1..]);
      assert s[1..][|s| - 1 - |r|..] == s[|s| - |r|..];
      assert forall i :: 1 <= i < |s| - |r| ==> s[i] == s[1..][i - 1];
      r
    else s
  }

  function TrimRight(s: string): (r: string)
    ensures |r| <= |s| && r == s[..|r|]
    ensures forall i :: |r| <= i < |s| ==> IsSpace(s[i])
    ensures r == [] || !IsSpace(r[|r| - 1])
  {
    if s != [] && IsSpace(s[|s| - 1]) then TrimRight(s[..|s| - 1]) else s
  }

  /** `str.strip()` */
  function Strip(s: string): string {
    TrimRight(TrimLeft(s))
  }

  predicate IsLineBreak(c: char) {
    c == '\n' || c == '\r'
  }

  /** Length of the first line of `s`, without its terminator. A file opened with
      `newline=''` ends a line at `\n`, `\r` or `\r\n`. */
  function LineLength(s: string): (k: nat)
    ensures k <= |s|
    ensures k < |s| ==> IsLineBreak(s[k])
    ensures forall i :: 0 <= i < k ==> !IsLineBreak(s[i])
  {
    if s == [] || IsLineBreak(s[0]) then 0 else 1 + LineLength(s[1..])
  }

  /** `file.readline()` from position `start`, terminator dropped (`strip()` removes it anyway). */
  function ReadLine(text: string, start: nat): string
    requires start <= |text|
  {
    text[start..start + LineLength(text[start..])]
  }

  /** `s.split(',')[0]` */
  function FirstField(s: string): (r: string)
    ensures ',' !in r
    ensures |r| <= |s| && r == s[..|r|]
    ensures |r| < |s| ==> s[|r|] == ','
  {
    s[..IndexOf(s, ',')]
  }

  /** Where the backward scan stops when it starts at position `pos`: it examines
      `pos, pos - 1, ..., 1` and stops after the first newline, or reaches 0. */
  function NewlineBack(text: string, pos: nat): (r: nat)
    requires pos < |text|
    ensures r <= pos + 1
    ensures r == 0 || (2 <= r && text[r - 1] == '\n')
    ensures forall k :: r <= k <= pos && 1 <= k ==> text[k] != '\n'
  {
    if pos == 0 then 0
    else if text[pos] == '\n' then pos + 1
    else NewlineBack(text, pos - 1)
  }

  /** The position from which `get_last_update_date` reads its line. The first `read(1)`
      happens at end of file, so the scan proper starts at the second-to-last character and
      the last character is never examined; a file of at most one character is read from its end. */
  function LastLineStart(text: string): nat {
    if |text| <= 1 then |text| else NewlineBack(text, |text| - 2)
  }

  /** The result of `get_last_update_date` on a ledger whose whole text is `text`. */
  function NextDateAfterLedger(text: string): Result<Date, Error> {
    var line := ReadLine(text, LastLineStart(text));
    match ParseMDY(FirstField(Strip(line)))
    case None => Err(DateParseError)
    case Some(d) =>
      match NextDay(d)
      case None => Err(DateOverflow)
      case Some(n) => Ok(n)
  }

  /** The backward scan as the source runs it: `pos` starts at the last character's position
      while the file pointer is at end of file; each round reads one character at the pointer
      and, unless it is a newline, steps `pos` back and seeks there. */
  method FindLastLineStart(text: string) returns (start: nat)
    ensures start == LastLineStart(text)
    ensures start <= |text|
  {
    var n := |text|;
    var pointer := n;
    var pos: int := n - 1;
    var sawNewline := false;
    while pos > 0 && !sawNewline
      invariant -1 <= pos <= n - 1
      invariant n >= 1 ==> pos >= 0
      invariant !sawNewline && pos == n - 1 ==> pointer == n
      invariant !sawNewline && pos < n - 1 ==> pointer == pos
      invariant sawNewline ==> 1 <= pos <= n - 2 && pointer == pos + 1 && text[pos] == '\n'
      invariant n >= 2 && !sawNewline && pos < n - 1 ==> NewlineBack(text, n - 2) == NewlineBack(text, pos)
      invariant n >= 2 && sawNewline ==> NewlineBack(text, n - 2) == pos + 1
      decreases pos, if sawNewline then 0 else 1
    {
      var ch: Option<char> := None;
      if pointer < n {
        ch := Some(text[pointer]);
        pointer := pointer + 1;
      }
      if ch == Some('\n') {
        sawNewline := true;
      } else {
        pos := pos - 1;
        pointer := pos;
      }
    }
    start := pointer;
  }

  /** `get_last_update_date(csv_file)` on the file's text. */
  method GetLastUpdateDate(text: string) returns (r: Result<Date, Error>)
    ensures r == NextDateAfterLedger(text)
  {
    var start := FindLastLineStart(text);
    var line := ReadLine(text, start);
    var field := FirstField(Strip(line));
    var parsed := ParseMDY(field);
    if parsed.None? {
      return Err(DateParseError);
    }
    var next := NextDay(parsed.value);
    if next.None? {
      return Err(DateOverflow);
    }
    return Ok(next.value);
  }

  lemma TrimRightAfter(a: string, b: string)
    requires a != [] && !IsSpace(a[|a| - 1])
    ensures TrimRight(a + b) == a + TrimRight(b)
    decreases |b|
  {
    if b != [] && IsSpace(b[|b| - 1]) {
      assert (a + b)[..|a + b| - 1] == a + b[..|b| - 1];
      TrimRightAfter(a, b[..|b| - 1]);
    } else if b == [] {
      assert a + b == a;
    }
  }

  /** A field with no line break, comma or white space, such as a formatted date. */
  predicate PlainField(f: string) {
    forall k :: 0 <= k < |f| ==> !IsLineBreak(f[k]) && f[k] != ',' && !IsSpace(f[k])
  }

  lemma FormatIsPlain(d: Date)
    ensures |FormatMDY(d)| == 10 && PlainField(FormatMDY(d))
  {
    var f := FormatMDY(d);
    assert forall k :: 0 <= k < |f| ==> IsDigit(f[k]) || f[k] == '/';
  }

  /** The scan stops just after the newline that ends the second-to-last line, or at 0. */
  lemma LastLineStartAt(text: string, p: nat)
    requires |text| >= 2 && p <= |text| - 1
    requires p == 0 || (2 <= p && text[p - 1] == '\n')
    requires forall k :: p <= k <= |text| - 2 ==> text[k] != '\n'
    ensures LastLineStart(text) == p
  {
  }

  /** The first field of a line that starts with a plain field followed by a comma or the end
      of the line is that plain field. */
  lemma FirstFieldOfLine(f: string, rest: string, tail: string)
    requires f != [] && PlainField(f)
    requires '\n' !in rest && (rest == [] || rest[0] == ',')
    requires tail == "" || tail == "\n" || tail == "\r\n"
    ensures FirstField(Strip(ReadLine(f + rest + tail, 0))) == f
  {
    var read := ReadLine(f + rest + tail, 0);
    RowLineRead(f, rest, tail);
    var more := read[|f|..];
    assert read == f + more;
    FirstFieldOfStripped(f, more);
  }

  /** The first line of such a row is the field, then nothing or a comma and more. */
  lemma RowLineRead(f: string, rest: string, tail: string)
    requires PlainField(f)
    requires rest == [] || rest[0] == ','
    requires tail == [] || IsLineBreak(tail[0])
    ensures |ReadLine(f + rest + tail, 0)| >= |f| && ReadLine(f + rest + tail, 0)[..|f|] == f
    ensures var read := ReadLine(f + rest + tail, 0);
      |read| == |f| || read[|f|] == ','
  {
    var line := f + rest + tail;
    var len := LineLength(line);
    assert forall k :: 0 <= k < |f| ==> line[k] == f[k];
    assert len >= |f|;
    assert |f| < |line| ==> line[|f|] == (rest + tail)[0];
    assert ReadLine(line, 0) == line[..len];
  }

  /** Stripping a plain field followed by nothing or a comma and more, then taking the text
      before the first comma, gives the field back. */
  lemma FirstFieldOfStripped(f: string, more: string)
    requires f != [] && PlainField(f)
    requires more == [] || more[0] == ','
    ensures FirstField(Strip(f + more)) == f
  {
    var read := f + more;
    assert read[0] == f[0] && !IsSpace(f[0]);
    assert TrimLeft(read) == read;
    assert !IsSpace(f[|f| - 1]);
    TrimRightAfter(f, more);
    var stripped := Strip(read);
    var tm := TrimRight(more);
    assert stripped == f + tm;
    assert tm == [] || tm[0] == ',';
    IndexOfAfterOrEnd(stripped, ',', |f|);
  }

  /** The resolver on a well-formed ledger: whatever precedes the last row (a header and
      earlier rows, each ended by a newline), and whether or not the last row is followed by one
      `\n` or one `\r\n`, the result is the day after the date in the last row's first field. */
  lemma ResolvesDayAfterLastRow(prefix: string, d: Date, rest: string, tail: string)
    requires prefix == [] || (|prefix| >= 2 && prefix[|prefix| - 1] == '\n')
    requires '\n' !in rest && (rest == [] || rest[0] == ',')
    requires tail == "" || tail == "\n" || tail == "\r\n"
    ensures NextDateAfterLedger(prefix + FormatMDY(d) + rest + tail)
         == if d == MaxDate then Err(DateOverflow) else Ok(NextDay(d).value)
  {
    var f := FormatMDY(d);
    FormatIsPlain(d);
    var text := prefix + f + rest + tail;
    LastRowLine(prefix, f, rest, tail);
    FirstFieldOfLine(f, rest, tail);
    ParseFormat(d);
    assert FirstField(Strip(ReadLine(text, LastLineStart(text)))) == f;
  }

  /** The resolver reads the line after the prefix: the last row. */
  lemma LastRowLine(prefix: string, f: string, rest: string, tail: string)
    requires prefix == [] || (|prefix| >= 2 && prefix[|prefix| - 1] == '\n')
    requires |f| >= 2 && PlainField(f)
    requires '\n' !in rest
    requires tail == "" || tail == "\n" || tail == "\r\n"
    ensures LastLineStart(prefix + f + rest + tail) == |prefix|
    ensures ReadLine(prefix + f + rest + tail, |prefix|) == ReadLine(f + rest + tail, 0)
  {
    var line := f + rest + tail;
    var text := prefix + line;
    assert text == prefix + f + rest + tail;
    NoNewlineBeforeLastChar(f, rest, tail);
    assert forall k :: |prefix| <= k < |text| ==> text[k] == line[k - |prefix|];
    LastLineStartAt(text, |prefix|);
    assert text[|prefix|..] == line;
  }

  lemma NoNewlineBeforeLastChar(f: string, rest: string, tail: string)
    requires PlainField(f)
    requires '\n' !in rest
    requires tail == "" || tail == "\n" || tail == "\r\n"
    ensures forall k :: 0 <= k <= |f + rest + tail| - 2 ==> (f + rest + tail)[k] != '\n'
  {
    var line := f + rest + tail;
    forall k | 0 <= k <= |line| - 2 ensures line[k] != '\n' {
      if k < |f| {
        assert line[k] == f[k];
      } else if k < |f| + |rest| {
        assert line[k] == rest[k - |f|];
      }
    }
  }

  lemma IndexOfAfterOrEnd(s: string, c: char, k: nat)
    requires k <= |s| && (k < |s| ==> s[k] == c)
    requires forall i :: 0 <= i < k ==> s[i] != c
    ensures IndexOf(s, c) == k
  {
  }

  /** A header-only ledger, an empty ledger, or one whose last line does not begin with a
      digit, has no date in its last line: the resolver fails with the parse error instead of
      guessing a date. */
  lemma HeaderOnlyLedgerFails(header: string, tail: string)
    requires '\n' !in header && (header == [] || (!IsDigit(header[0]) && !IsSpace(header[0])))
    requires tail == "" || tail == "\n" || tail == "\r\n"
    ensures NextDateAfterLedger(header + tail) == Err(DateParseError)
  {
    var text := header + tail;
    var n := |text|;
    var start := LastLineStart(text);
    assert start == 0 || start == n by {
      if n >= 2 {
        forall k | 0 <= k <= n - 2 ensures text[k] != '\n' {
          if k < |header| {
            assert text[k] == header[k];
          }
        }
        LastLineStartAt(text, 0);
      }
    }
    var read := ReadLine(text, start);
    assert read == [] || (header != [] && read[0] == header[0]) by {
      if read != [] {
        assert start == 0 && text[0] == read[0];
      }
    }
    var field := FirstField(Strip(read));
    assert field == [] || field[0] == header[0] by {
      if read != [] {
        assert TrimLeft(read) == read;
        assert TrimRight(read)[0] == read[0];
      }
    }
    ParseRejectsNonDigit(field);
  }

  /** Only one trailing line break is tolerated: a ledger ending in two newlines reads its
      last line as empty and fails. */
  lemma TwoTrailingNewlinesFail(body: string)
    requires |body| >= 1
    ensures NextDateAfterLedger(body + "\n\n") == Err(DateParseError)
  {
    var text := body + "\n\n";
    var n := |text|;
    assert text[n - 2] == '\n';
    assert LastLineStart(text) == n - 1;
    assert ReadLine(text, n - 1) == [];
    ParseRejectsNonDigit(FirstField(Strip([])));
  }

  /** An empty or one-character file is read from its end: the line is empty and the
      resolver fails. */
  lemma TinyLedgerFails(text: string)
    requires |text| <= 1
    ensures NextDateAfterLedger(text) == Err(DateParseError)
  {
    assert ReadLine(text, |text|) == [];
    ParseRejectsNonDigit(FirstField(Strip([])));
  }
}
