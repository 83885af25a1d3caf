/** The two date notations of the ledger: `date.strftime('%m/%d/%Y')` and
    `datetime.strptime(s, '%m/%d/%Y')` (ASCII digits only), plus the `%Y%m%d` stamp
    that names a refreshed ledger file. */
module DateText {
  import opened Wrappers
  import opened Calendar

  predicate IsDigit(c: char) {
    '0' <= c <= '9'
  }

  function DigitChar(n: int): (c: char)
    requires 0 <= n <= 9
    ensures IsDigit(c) && DigitValue(c) == n
  {
    ('0' as int + n) as char
  }

  function DigitValue(c: char): int
    requires IsDigit(c)
  {
    c as int - '0' as int
  }

  /** Zero-padded two-digit decimal. */
  function Pad2(n: int): string
    requires 0 <= n < 100
  {
    [DigitChar(n / 10), DigitChar(n % 10)]
  }

  /** Zero-padded four-digit decimal. */
  function Pad4(n: int): string
    requires 0 <= n < 10000
  {
    Pad2(n / 100) + Pad2(n % 100)
  }

  /** `date.strftime('%m/%d/%Y')`, the `Sales` column of a ledger row. */
  function FormatMDY(d: Date): string {
    Pad2(d.month) + "/" + Pad2(d.day) + "/" + Pad4(d.year)
  }

  /** `date.strftime('%Y%m%d')` */
  function FormatYMD(d: Date): string {
    Pad4(d.year) + Pad2(d.month) + Pad2(d.day)
  }

  /** Index of the first `c` in `s`, or `|s|` when there is none. */
  function IndexOf(s: string, c: char): (i: nat)
    ensures i <= |s|
    ensures i < |s| ==> s[i] == c
    ensures forall k :: 0 <= k < i ==> s[k] != c
  {
    if s == [] then 0
    else if s[0] == c then 0
    else 1 + IndexOf(s[1..], c)
  }

  /** Value of a one- or two-digit field. */
  function Value12(f: string): int
    requires 1 <= |f| <= 2 && IsDigit(f[0]) && IsDigit(f[|f| - 1])
  {
    if |f| == 1 then DigitValue(f[0]) else 10 * DigitValue(f[0]) + DigitValue(f[1])
  }

  predicate OneOrTwoDigits(f: string) {
    1 <= |f| <= 2 && IsDigit(f[0]) && IsDigit(f[|f| - 1])
  }

  /** `%m` matches `1[0-2]|0[1-9]|[1-9]`: one or two digits worth 1 to 12. */
  function MonthField(f: string): (r: Option<int>)
    ensures r.Some? ==> 1 <= r.value <= 12
  {
    if OneOrTwoDigits(f) && 1 <= Value12(f) <= 12 then Some(Value12(f)) else None
  }

  /** `%d` matches `3[01]|[12]\d|0[1-9]|[1-9]| [1-9]`: one or two digits worth 1 to 31,
      or a space followed by a non-zero digit. */
  function DayField(f: string): (r: Option<int>)
    ensures r.Some? ==> 1 <= r.value <= 31
  {
    if OneOrTwoDigits(f) && 1 <= Value12(f) <= 31 then Some(Value12(f))
    else if |f| == 2 && f[0] == ' ' && '1' <= f[1] <= '9' then Some(DigitValue(f[1]))
    else None
  }

  /** `%Y` matches exactly four digits; `datetime` then refuses year 0. */
  function YearField(f: string): (r: Option<int>)
    ensures r.Some? ==> MinYear <= r.value <= MaxYear
  {
    if |f| == 4 && IsDigit(f[0]) && IsDigit(f[1]) && IsDigit(f[2]) && IsDigit(f[3]) then
      var y := 1000 * DigitValue(f[0]) + 100 * DigitValue(f[1]) + 10 * DigitValue(f[2]) + DigitValue(f[3]);
      if y >= MinYear then Some(y) else None
    else None
  }

  /** `datetime.strptime(s, '%m/%d/%Y').date()`; `None` is the ValueError it raises. The whole
      string must match, and the day must exist in that month of that year. */
  function ParseMDY(s: string): Option<Date> {
    var i := IndexOf(s, '/');
    if i == |s| then None
    else
      var rest := s[i + 1..];
      var j := IndexOf(rest, '/');
      if j == |rest| then None
      else
        var m :- MonthField(s[..i]);
        var d :- DayField(rest[..j]);
        var y :- YearField(rest[j + 1..]);
        if d <= DaysInMonth(y, m) then Some(RawDate(y, m, d)) else None
  }

  /** `IndexOf` finds a separator placed after a run of other characters. */
  lemma IndexOfAfter(s: string, c: char, k: nat)
    requires k < |s| && s[k] == c
    requires forall i :: 0 <= i < k ==> s[i] != c
    ensures IndexOf(s, c) == k
  {
  }

  /** Formatting a date and parsing it back gives the same date. */
  lemma ParseFormat(d: Date)
    ensures ParseMDY(FormatMDY(d)) == Some(d)
  {
    var s := FormatMDY(d);
    var y := d.year;
    assert Pad4(y) == Pad2(y / 100) + Pad2(y % 100);
    assert 100 * (y / 100) + y % 100 == y;
    IndexOfAfter(s, '/', 2);
    var rest := s[3..];
    assert rest == Pad2(d.day) + "/" + Pad4(d.year);
    IndexOfAfter(rest, '/', 2);
    assert s[..2] == Pad2(d.month);
    assert rest[..2] == Pad2(d.day);
    assert rest[3..] == Pad4(d.year);
  }

  /** A field that does not start with a digit (a header such as `Sales`, an empty line)
      is not a date. */
  lemma ParseRejectsNonDigit(s: string)
    requires s == [] || (!IsDigit(s[0]))
    ensures ParseMDY(s) == None
  {
    var i := IndexOf(s, '/');
    if i < |s| {
      assert s[..i] == [] || s[..i][0] == s[0];
    }
  }

  lemma Pad2Value(f: string)
    requires |f| == 2 && IsDigit(f[0]) && IsDigit(f[1])
    ensures Pad2(Value12(f)) == f
  {
  }

  lemma Pad4Value(f: string)
    requires |f| == 4 && YearField(f).Some?
    ensures Pad4(YearField(f).value) == f
  {
    var hi, lo := f[..2], f[2..];
    Pad2Value(hi);
    Pad2Value(lo);
    var y := YearField(f).value;
    assert y == 100 * Value12(hi) + Value12(lo);
    assert y / 100 == Value12(hi) && y % 100 == Value12(lo);
  }

  /** A parsed date is rendered back as exactly the input when the input is in the
      zero-padded ten-character form (no shortened month or day, no space before the day). */
  lemma FormatParse(s: string, d: Date)
    requires ParseMDY(s) == Some(d)
    ensures FormatMDY(d) == s <==> (|s| == 10 && ' ' !in s)
  {
    FormatIsPadded(d);
    if |s| == 10 && ' ' !in s {
      PaddedParse(s, d);
    }
  }

  /** A formatted date is ten characters with no space. */
  lemma FormatIsPadded(d: Date)
    ensures |FormatMDY(d)| == 10 && ' ' !in FormatMDY(d)
  {
    var f := FormatMDY(d);
    assert forall k :: 0 <= k < |f| ==> IsDigit(f[k]) || f[k] == '/';
  }

  /** A ten-character date without spaces has two-digit month and day fields. */
  lemma PaddedParse(s: string, d: Date)
    requires ParseMDY(s) == Some(d) && |s| == 10 && ' ' !in s
    ensures FormatMDY(d) == s
  {
    var i := IndexOf(s, '/');
    var rest := s[i + 1..];
    var j := IndexOf(rest, '/');
    var mf, df, yf := s[..i], rest[..j], rest[j + 1..];
    assert s == mf + "/" + df + "/" + yf;
    assert |mf| == 2 && |df| == 2 by {
      assert df != [] ==> df[0] in s;
    }
    Pad2Value(mf);
    Pad2Value(df);
    Pad4Value(yf);
  }

  lemma Pad2Decode(n: int)
    requires 0 <= n < 100
    ensures Value12(Pad2(n)) == n
  {
  }

  /** Different dates have different `%Y%m%d` stamps. */
  lemma {:induction false} FormatYMDInjective(a: Date, b: Date)
    requires FormatYMD(a) == FormatYMD(b)
    ensures a == b
  {
    var s, t := FormatYMD(a), FormatYMD(b);
    assert s[..2] == Pad2(a.year / 100) && s[2..4] == Pad2(a.year % 100);
    assert s[4..6] == Pad2(a.month) && s[6..] == Pad2(a.day);
    assert t[..2] == Pad2(b.year / 100) && t[2..4] == Pad2(b.year % 100);
    assert t[4..6] == Pad2(b.month) && t[6..] == Pad2(b.day);
    Pad2Decode(a.year / 100);
    Pad2Decode(b.year / 100);
    Pad2Decode(a.year % 100);
    Pad2Decode(b.year % 100);
    Pad2Decode(a.month);
    Pad2Decode(b.month);
    Pad2Decode(a.day);
    Pad2Decode(b.day);
    assert a.year == 100 * (a.year / 100) + a.year % 100;
    assert b.year == 100 * (b.year / 100) + b.year % 100;
  }
}
