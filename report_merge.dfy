/** The helpers of the report-merging script (and of its copy, which has the same bodies):
    naming a derived file, transposing a report's rows, and cleaning the combined columns.
    Paths follow POSIX `os.path`, whose separator is `/` and whose extension mark is `.`. */
module ReportMerge {
  import opened Wrappers
  import opened Errors
  import opened DateText

  /** `s.rfind(c)`: the last index holding `c`, or -1. */
  function RFind(s: string, c: char): (r: int)
    ensures -1 <= r < |s|
    ensures r >= 0 ==> s[r] == c
    ensures forall i :: r < i < |s| ==> s[i] != c
  {
    if s == [] then -1
    else if s[|s| - 1] == c then |s| - 1
    else RFind(s[..|s| - 1], c)
  }

  predicate AllSlashes(s: string) {
    forall i :: 0 <= i < |s| ==> s[i] == '/'
  }

  /** `s.rstrip('/')` */
  function StripSlashes(s: string): (r: string)
    ensures |r| <= |s| && r == s[..|r|]
    ensures AllSlashes(s[|r|..])
    ensures r == [] || r[|r| - 1] != '/'
  {
    if s != [] && s[|s| - 1] == '/' then
      var r := StripSlashes(s[..|s| - 1]);
      assert s[..|s| - 1][..|r|] == s[..|r|];
      assert forall i :: |r| <= i < |s| - 1 ==> s[i] == s[..|s| - 1][i];
      r
    else s
  }

  /** `os.path.split(p)`: the tail after the last slash, and the head before it with its
      trailing slashes removed unless it is made of slashes only. */
  function Split(p: string): (r: (string, string))
    ensures '/' !in r.1 && |r.1| <= |p| && p[|p| - |r.1|..] == r.1
    ensures |r.1| == |p| || p[|p| - |r.1| - 1] == '/'
    ensures var h := p[..|p| - |r.1|];
      if AllSlashes(h) then r.0 == h
      else r.0 != [] && r.0[|r.0| - 1] != '/' && |r.0| <= |h| && h[..|r.0|] == r.0 && AllSlashes(h[|r.0|..])
    ensures r.0 == [] <==> '/' !in p
  {
    var i := RFind(p, '/') + 1;
    var head, tail := p[..i], p[i..];
    assert forall k :: 0 <= k < |tail| ==> tail[k] == p[i + k];
    var dir := if head != [] && !AllSlashes(head) then StripSlashes(head) else head;
    assert AllSlashes(head) ==> head == [] || head[0] == '/';
    (dir, tail)
  }

  /** Whether `p[lo..hi]` holds a character other than a dot. */
  predicate HasNonDot(p: string, lo: int, hi: int) {
    exists k :: 0 <= lo <= k < hi <= |p| && p[k] != '.'
  }

  /** `os.path.splitext(p)`: the extension runs from the last dot after the last slash, unless
      only dots precede that dot in the last component (a leading dot does not count). */
  function SplitExt(p: string): (r: (string, string))
    ensures r.0 + r.1 == p
    ensures r.1 == [] || (r.1[0] == '.' && '.' !in r.1[1..] && '/' !in r.1)
    ensures r.1 != [] ==> RFind(p, '/') < |r.0| && HasNonDot(p, RFind(p, '/') + 1, |r.0|)
    ensures r.1 == [] ==> forall k :: RFind(p, '/') < k < |p| && p[k] == '.' ==> !HasNonDot(p, RFind(p, '/') + 1, k)
  {
    var sepIndex := RFind(p, '/');
    var dotIndex := RFind(p, '.');
    if dotIndex > sepIndex && HasNonDot(p, sepIndex + 1, dotIndex) then
      var ext := p[dotIndex..];
      assert forall i :: 0 <= i < |ext| ==> ext[i] == p[dotIndex + i];
      (p[..dotIndex], ext)
    else
      OnlyDotsBefore(p, sepIndex + 1, dotIndex);
      (p, "")
  }

  /** When `dot` is the last dot and only dots lie between `lo` and it, only dots lie between
      `lo` and any dot from `lo` on. */
  lemma OnlyDotsBefore(p: string, lo: int, dot: int)
    requires 0 <= lo <= |p| && -1 <= dot < |p|
    requires forall k :: dot < k < |p| ==> p[k] != '.'
    requires dot < lo || !HasNonDot(p, lo, dot)
    ensures forall k :: lo <= k < |p| && p[k] == '.' ==> !HasNonDot(p, lo, k)
  {
    forall k | lo <= k < |p| && p[k] == '.'
      ensures !HasNonDot(p, lo, k)
    {
      assert lo <= k <= dot;
      forall m | lo <= m < k
        ensures p[m] == '.'
      {
        assert lo <= m < dot;
      }
    }
  }

  /** `os.path.join(a, b)`: an absolute `b` replaces `a`; otherwise one slash goes between
      them unless `a` is empty or already ends with one. */
  function Join(a: string, b: string): (r: string)
    ensures b != [] && b[0] == '/' ==> r == b
    ensures (b == [] || b[0] != '/') && (a == [] || a[|a| - 1] == '/') ==> r == a + b
    ensures (b == [] || b[0] != '/') && a != [] && a[|a| - 1] != '/' ==> r == a + "/" + b
  {
    if b != [] && b[0] == '/' then b
    else if a == [] || a[|a| - 1] == '/' then a + b
    else a + "/" + b
  }

  /** The new file name `f"{name}_{suffix}{extension}"`. */
  function SuffixedName(filename: string, suffix: string): string {
    var parts := SplitExt(filename);
    parts.0 + "_" + suffix + parts.1
  }

  /** `add_suffix_to_filename(file_path, suffix)` */
  function AddSuffixToFilename(path: string, suffix: string): (r: string)
    ensures '/' !in path ==> r == SuffixedName(path, suffix)
  {
    var parts := Split(path);
    Join(parts.0, SuffixedName(parts.1, suffix))
  }

  /** The name with its suffix keeps the extension and gains `_` and the suffix before it. */
  lemma SuffixedNameParts(filename: string, suffix: string)
    requires '/' !in filename
    ensures var n := SuffixedName(filename, suffix);
      var e := SplitExt(filename).1;
      |n| == |filename| + 1 + |suffix| && n[|n| - |e|..] == e
      && n[..|filename| - |e|] == filename[..|filename| - |e|]
  {
    var parts := SplitExt(filename);
    var n := SuffixedName(filename, suffix);
    assert n == parts.0 + ("_" + suffix + parts.1);
  }

  /** The derived path lies in the same directory as the original, and its file name is the
      original's name, `_`, the suffix and the original's extension. */
  lemma AddSuffixKeepsDirectory(path: string, suffix: string)
    requires '/' !in suffix
    ensures Split(AddSuffixToFilename(path, suffix))
         == (Split(path).0, SuffixedName(Split(path).1, suffix))
  {
    var dir, file := Split(path).0, Split(path).1;
    var name := SuffixedName(file, suffix);
    var parts := SplitExt(file);
    assert '/' !in name by {
      assert name == parts.0 + "_" + suffix + parts.1;
      assert '/' !in parts.0 by {
        assert forall i :: 0 <= i < |parts.0| ==> parts.0[i] == file[i];
      }
    }
    assert name != [] && name[0] != '/';
    var r := AddSuffixToFilename(path, suffix);
    if dir == [] {
      assert r == name;
      SplitOfPlainName(name);
    } else if dir[|dir| - 1] == '/' {
      assert r == dir + name;
      assert AllSlashes(path[..|path| - |file|]);
      SplitAfterDirectory(dir, name);
    } else {
      assert r == dir + "/" + name;
      SplitAfterDirectory(dir + "/", name);
      var h := dir + "/";
      assert StripSlashes(h) == dir by {
        assert h[..|h| - 1] == dir;
      }
    }
  }

  lemma SplitOfPlainName(name: string)
    requires '/' !in name
    ensures Split(name) == ("", name)
  {
    assert RFind(name, '/') == -1;
  }

  /** A head ending with a slash followed by a plain name splits back into the two. */
  lemma SplitAfterDirectory(head: string, name: string)
    requires head != [] && head[|head| - 1] == '/' && '/' !in name
    ensures var p := head + name;
      Split(p).1 == name
      && Split(p).0 == if AllSlashes(head) then head else StripSlashes(head)
  {
    var p := head + name;
    assert p[|head| - 1] == '/';
    assert forall i :: |head| <= i < |p| ==> p[i] == name[i - |head|];
    assert RFind(p, '/') == |head| - 1;
    assert p[..|head|] == head && p[|head|..] == name;
  }

  /** A name with a dot after a part holding something other than dots has its extension
      from that dot when no dot follows. */
  lemma SplitExtOfParts(stem: string, e: string)
    requires '/' !in stem && '/' !in e && '.' !in e && HasNonDot(stem, 0, |stem|)
    ensures SplitExt(stem + "." + e) == (stem, "." + e)
  {
    var p := stem + "." + e;
    assert forall i :: 0 <= i < |p| ==> p[i] == if i < |stem| then stem[i] else if i == |stem| then '.' else e[i - |stem| - 1];
    assert forall i :: 0 <= i < |p| ==> p[i] != '/' by {
      assert forall i :: 0 <= i < |stem| ==> stem[i] in stem;
      assert forall i :: 0 <= i < |e| ==> e[i] in e;
    }
    assert RFind(p, '/') == -1;
    assert forall i :: |stem| < i < |p| ==> p[i] != '.' by {
      assert forall i :: 0 <= i < |e| ==> e[i] in e;
    }
    assert p[|stem|] == '.';
    assert RFind(p, '.') == |stem|;
    var k :| 0 <= k < |stem| && stem[k] != '.';
    assert HasNonDot(p, 0, |stem|) by {
      assert p[k] == stem[k];
    }
    assert p[..|stem|] == stem && p[|stem|..] == "." + e;
  }

  /** In a directory named without a trailing slash, the derived path is the directory, a
      slash and the derived name. */
  lemma AddSuffixUnderDirectory(dir: string, file: string, suffix: string)
    requires dir != [] && dir[|dir| - 1] != '/' && '/' !in file
    ensures AddSuffixToFilename(dir + "/" + file, suffix) == dir + "/" + SuffixedName(file, suffix)
  {
    var head := dir + "/";
    SplitAfterDirectory(head, file);
    assert !AllSlashes(head) by {
      assert head[|dir| - 1] == dir[|dir| - 1];
    }
    assert StripSlashes(head) == dir by {
      assert head[..|head| - 1] == dir;
    }
    assert head + file == dir + "/" + file;
    var parts := SplitExt(file);
    var name := SuffixedName(file, suffix);
    assert name[0] != '/' by {
      if parts.0 != [] {
        assert file[0] == (parts.0 + parts.1)[0] == parts.0[0];
        assert name[0] == parts.0[0];
      } else {
        assert name[0] == '_';
      }
    }
  }

  /** The script's own example: the 2022 summary gets a `_t` sibling in the same directory. */
  lemma AddSuffixExample(path: string)
    requires path == "./data/sales-summary-2022.csv"
    ensures AddSuffixToFilename(path, "t") == "./data/sales-summary-2022_t.csv"
  {
    var dir, stem, e := ExampleParts(path);
    SplitExtOfParts(stem, e);
    AddSuffixUnderDirectory(dir, stem + "." + e, "t");
    ExampleOutput(dir, stem, e);
  }

  /** The parts of the example path and the facts about them the example needs. */
  lemma ExampleParts(path: string) returns (dir: string, stem: string, e: string)
    requires path == "./data/sales-summary-2022.csv"
    ensures path == dir + "/" + (stem + "." + e)
    ensures dir != [] && dir[|dir| - 1] != '/'
    ensures dir == "./data" && stem == "sales-summary-2022" && e == "csv"
    ensures '/' !in stem && '/' !in e && '.' !in e && HasNonDot(stem, 0, |stem|)
  {
    dir, stem, e := "./data", "sales-summary-2022", "csv";
    assert stem[0] != '.';
  }

  lemma ExampleOutput(dir: string, stem: string, e: string)
    requires dir == "./data" && stem == "sales-summary-2022" && e == "csv"
    ensures dir + "/" + (stem + "_" + "t" + ("." + e)) == "./data/sales-summary-2022_t.csv"
  {
  }

  // ---- Transposition: list(map(list, zip(*data))) ----

  function Min(a: int, b: int): int {
    if a <= b then a else b
  }

  /** The length of the shortest row. */
  function MinLen<T>(data: seq<seq<T>>): (r: nat)
    requires data != []
    ensures forall j :: 0 <= j < |data| ==> r <= |data[j]|
    ensures exists j :: 0 <= j < |data| && r == |data[j]|
  {
    if |data| == 1 then |data[0]|
    else
      var m := MinLen(data[1..]);
      assert forall j :: 1 <= j < |data| ==> data[j] == data[1..][j - 1];
      Min(|data[0]|, m)
  }

  /** Each of the first `|cols|` or `|row|` cells of `row` put in front of the column beside it. */
  function Prepend<T>(row: seq<T>, cols: seq<seq<T>>): seq<seq<T>> {
    seq(Min(|row|, |cols|), i requires 0 <= i < Min(|row|, |cols|) => [row[i]] + cols[i])
  }

  lemma PrependCell<T>(row: seq<T>, cols: seq<seq<T>>, i: int)
    requires 0 <= i < Min(|row|, |cols|)
    ensures |Prepend(row, cols)| == Min(|row|, |cols|)
    ensures Prepend(row, cols)[i] == [row[i]] + cols[i]
  {
  }

  /** `zip(*data)` for at least one row: a one-row zip makes one-element tuples, and each
      further row is zipped onto the tuples of the rows after it, stopping at the shorter. */
  function Zip<T>(data: seq<seq<T>>): seq<seq<T>>
    requires data != []
    decreases |data|
  {
    if |data| == 1 then seq(|data[0]|, i requires 0 <= i < |data[0]| => [data[0][i]])
    else Prepend(data[0], Zip(data[1..]))
  }

  /** `list(map(list, zip(*data)))`: no rows zip to nothing. */
  function Transpose<T>(data: seq<seq<T>>): seq<seq<T>> {
    if data == [] then [] else Zip(data)
  }

  /** The transposition has as many rows as the shortest row has cells, each as long as the
      data has rows, and cell `(i, j)` of the result is cell `(j, i)` of the data. */
  lemma {:induction false} TransposeShape<T>(data: seq<seq<T>>)
    ensures |Transpose(data)| == if data == [] then 0 else MinLen(data)
    ensures forall i :: 0 <= i < |Transpose(data)| ==>
      (|Transpose(data)[i]| == |data|
       && forall j :: 0 <= j < |data| ==> i < |data[j]| && Transpose(data)[i][j] == data[j][i])
    decreases |data|
  {
    if |data| > 1 {
      var rest := data[1..];
      TransposeShape(rest);
      assert Transpose(rest) == Zip(rest);
      var t := Transpose(data);
      assert t == Prepend(data[0], Zip(rest));
      assert forall j :: 1 <= j < |data| ==> data[j] == rest[j - 1];
      forall i | 0 <= i < |t|
        ensures |t[i]| == |data|
        ensures forall j :: 0 <= j < |data| ==> i < |data[j]| && t[i][j] == data[j][i]
      {
        PrependCell(data[0], Zip(rest), i);
      }
    }
  }

  /** Whether every row has `n` cells. */
  predicate Rectangular<T>(data: seq<seq<T>>, n: nat) {
    forall j :: 0 <= j < |data| ==> |data[j]| == n
  }

  /** Transposing non-empty rectangular data twice gives it back. */
  lemma TransposeTwice<T>(data: seq<seq<T>>, n: nat)
    requires data != [] && n >= 1 && Rectangular(data, n)
    ensures Transpose(Transpose(data)) == data
  {
    var t := Transpose(data);
    TransposeShape(data);
    assert |t| == n;
    assert Rectangular(t, |data|);
    TransposeShape(t);
    var tt := Transpose(t);
    assert |tt| == |data|;
    forall j | 0 <= j < |data|
      ensures tt[j] == data[j]
    {
      assert forall i :: 0 <= i < n ==> tt[j][i] == t[i][j] == data[j][i];
    }
  }

  /** The transposition is empty exactly when there are no rows or some row is empty. */
  lemma TransposeEmpty<T>(data: seq<seq<T>>)
    ensures Transpose(data) == [] <==> data == [] || exists j :: 0 <= j < |data| && data[j] == []
  {
    TransposeShape(data);
  }

  /** `transpose_csv(input_file, output_file)` on the rows read from the input: IndexError from
      `transposed_data[-1]` when the transposition is empty, else the rows to write and the path
      they go to, which is the input path with suffix `t` when no output path is given. */
  function TransposeCsv(data: seq<seq<string>>, inputFile: string, outputFile: Option<string>)
    : (r: Result<(string, seq<seq<string>>), Error>)
    ensures r.Err? <==> data == [] || exists j :: 0 <= j < |data| && data[j] == []
    ensures r.Err? ==> r.error == EmptyTransposition
    ensures r.Ok? && (outputFile == None || outputFile == Some("")) ==> r.value.0 == AddSuffixToFilename(inputFile, "t")
    ensures r.Ok? && outputFile.Some? && outputFile.value != "" ==> r.value.0 == outputFile.value
    ensures r.Ok? ==> |r.value.1| == MinLen(data)
                      && forall i :: 0 <= i < |r.value.1| ==>
                           (|r.value.1[i]| == |data| && forall j :: 0 <= j < |data| ==> r.value.1[i][j] == data[j][i])
  {
    var transposed := Transpose(data);
    TransposeEmpty(data);
    TransposeShape(data);
    if transposed == [] then Err(EmptyTransposition)
    else
      var out := if outputFile.None? || outputFile.value == "" then AddSuffixToFilename(inputFile, "t") else outputFile.value;
      Ok((out, transposed))
  }

  // ---- process_value: decimal.Decimal(re.sub(r'[^-\d.]', '', x)) ----

  /** The characters the pattern `[^-\d.]` does not remove. */
  predicate Kept(c: char) {
    c == '-' || IsDigit(c) || c == '.'
  }

  /** `re.sub(r'[^-\d.]', '', x)` */
  function KeepNumeric(s: string): (r: string)
    ensures |r| <= |s|
    ensures forall i :: 0 <= i < |r| ==> Kept(r[i])
  {
    if s == [] then ""
    else (if Kept(s[0]) then [s[0]] else "") + KeepNumeric(s[1..])
  }

  /** The filter keeps exactly the kept characters of its input. */
  lemma {:induction false} KeepNumericMembers(s: string)
    ensures forall c :: c in KeepNumeric(s) <==> c in s && Kept(c)
    decreases |s|
  {
    if s != [] {
      KeepNumericMembers(s[1..]);
      assert s == [s[0]] + s[1..];
    }
  }

  /** Filtering a concatenation filters each part: the kept characters stay in their order. */
  lemma {:induction false} KeepNumericAppend(a: string, b: string)
    ensures KeepNumeric(a + b) == KeepNumeric(a) + KeepNumeric(b)
    decreases |a|
  {
    if a == [] {
      assert a + b == b;
    } else {
      assert (a + b)[1..] == a[1..] + b;
      KeepNumericAppend(a[1..], b);
    }
  }

  /** A text made of kept characters is left as it is. */
  lemma {:induction false} KeepNumericOfKept(s: string)
    requires forall i :: 0 <= i < |s| ==> Kept(s[i])
    ensures KeepNumeric(s) == s
    decreases |s|
  {
    if s != [] {
      KeepNumericOfKept(s[1..]);
    }
  }

  /** Filtering twice is filtering once. */
  lemma KeepNumericIdempotent(s: string)
    ensures KeepNumeric(KeepNumeric(s)) == KeepNumeric(s)
  {
    KeepNumericOfKept(KeepNumeric(s));
  }

  predicate AllDigits(s: string) {
    forall i :: 0 <= i < |s| ==> IsDigit(s[i])
  }

  /** The number a string of decimal digits denotes. */
  function DigitsValue(s: string): nat
    requires AllDigits(s)
  {
    if s == [] then 0 else DigitsValue(s[..|s| - 1]) * 10 + DigitValue(s[|s| - 1]) as nat
  }

  function Pow10(n: nat): (r: nat)
    ensures r >= 1
  {
    if n == 0 then 1 else 10 * Pow10(n - 1)
  }

  /** The first index holding a dot, or -1. */
  function FindDot(s: string): (r: int)
    ensures -1 <= r < |s|
    ensures r >= 0 ==> s[r] == '.'
    ensures forall i :: 0 <= i < |s| && (r < 0 || i < r) ==> s[i] != '.'
  {
    if s == [] then -1
    else if s[0] == '.' then 0
    else
      var k := FindDot(s[1..]);
      assert forall i :: 1 <= i < |s| ==> s[i] == s[1..][i - 1];
      if k < 0 then -1 else k + 1
  }

  /** An unsigned decimal: digits with at most one point and at least one digit. */
  function UnsignedDecimal(s: string): Option<real> {
    var k := FindDot(s);
    if k < 0 then
      if s != [] && AllDigits(s) then Some(DigitsValue(s) as real) else None
    else
      var whole, frac := s[..k], s[k + 1..];
      if AllDigits(whole) && AllDigits(frac) && (whole != [] || frac != []) then
        Some(DigitsValue(whole) as real + DigitsValue(frac) as real / Pow10(|frac|) as real)
      else None
  }

  /** `decimal.Decimal(t)` for a text made of kept characters: an optional minus sign, then an
      unsigned decimal. */
  function DecimalOf(t: string): Option<real> {
    if t != [] && t[0] == '-' then
      match UnsignedDecimal(t[1..])
      case None => None
      case Some(x) => Some(-x)
    else UnsignedDecimal(t)
  }

  /** The grammar of an unsigned numeric string of the `decimal` module, restricted to
      digits and `.` (the other characters being removed before it applies). */
  predicate UnsignedText(u: string) {
    (u != [] && AllDigits(u))
    || exists k :: 0 <= k < |u| && u[k] == '.' && |u| >= 2 && AllDigits(u[..k]) && AllDigits(u[k + 1..])
  }

  /** The same with an optional minus sign in front. */
  predicate NumericText(t: string) {
    UnsignedText(if t != [] && t[0] == '-' then t[1..] else t)
  }

  /** `UnsignedDecimal` accepts exactly the unsigned numeric strings. */
  lemma UnsignedAccepts(u: string)
    ensures UnsignedDecimal(u).Some? <==> UnsignedText(u)
  {
    var k := FindDot(u);
    if k < 0 {
      assert forall j :: 0 <= j < |u| ==> u[j] != '.';
    } else {
      assert !IsDigit(u[k]);
      forall j | k < j < |u|
        ensures !AllDigits(u[..j])
      {
        assert u[..j][k] == u[k];
      }
      if UnsignedDecimal(u).Some? {
        assert 0 <= k < |u| && u[k] == '.' && |u| >= 2 && AllDigits(u[..k]) && AllDigits(u[k + 1..]);
      }
    }
  }

  /** `DecimalOf` accepts exactly the numeric strings. */
  lemma DecimalOfAccepts(t: string)
    ensures DecimalOf(t).Some? <==> NumericText(t)
  {
    UnsignedAccepts(if t != [] && t[0] == '-' then t[1..] else t);
  }

  /** The digits of a whole part and a fraction, read as one digit string. */
  lemma {:induction false} DigitsValueAppend(a: string, b: string)
    requires AllDigits(a) && AllDigits(b)
    ensures AllDigits(a + b)
    ensures DigitsValue(a + b) == DigitsValue(a) * Pow10(|b|) + DigitsValue(b)
    decreases |b|
  {
    var ab := a + b;
    assert forall i :: 0 <= i < |ab| ==> ab[i] == if i < |a| then a[i] else b[i - |a|];
    if b == [] {
      assert ab == a;
    } else {
      var b' := b[..|b| - 1];
      assert ab[..|ab| - 1] == a + b';
      DigitsValueAppend(a, b');
      var d := DigitValue(b[|b| - 1]) as nat;
      assert ab[|ab| - 1] == b[|b| - 1];
      assert DigitsValue(ab) == DigitsValue(a + b') * 10 + d;
      assert DigitsValue(b) == DigitsValue(b') * 10 + d;
      ShiftDigit(DigitsValue(a), Pow10(|b'|), DigitsValue(b'), d);
    }
  }

  lemma ShiftDigit(x: nat, q: nat, y: nat, d: nat)
    ensures (x * q + y) * 10 + d == x * (10 * q) + (y * 10 + d)
  {
  }

  lemma ScaleDown(x: nat, y: nat, q: nat)
    requires q >= 1
    ensures ((x * q + y) as real) / (q as real) == x as real + (y as real) / (q as real)
  {
    assert (x * q + y) as real == (x as real) * (q as real) + y as real;
  }

  /** A decimal with a point is the number its digits denote, scaled down by one power of ten
      per digit after the point. */
  lemma DecimalOfScaled(whole: string, frac: string)
    requires AllDigits(whole) && AllDigits(frac) && (whole != [] || frac != [])
    ensures AllDigits(whole + frac)
    ensures DecimalOf(whole + "." + frac)
         == Some(DigitsValue(whole + frac) as real / Pow10(|frac|) as real)
  {
    var s := whole + "." + frac;
    FindDotAfterDigits(whole, frac);
    assert s[..|whole|] == whole && s[|whole| + 1..] == frac;
    assert whole != [] ==> s[0] == whole[0];
    DigitsValueAppend(whole, frac);
    ScaleDown(DigitsValue(whole), DigitsValue(frac), Pow10(|frac|));
  }

  lemma FindDotAfterDigits(whole: string, frac: string)
    requires AllDigits(whole)
    ensures FindDot(whole + "." + frac) == |whole|
  {
    var s := whole + "." + frac;
    assert s[|whole|] == '.';
    assert forall i :: 0 <= i < |whole| ==> s[i] == whole[i] && IsDigit(s[i]);
  }

  /** `process_value(x)`: the kept characters of the cell, read as a decimal number;
      InvalidOperation when they do not form one. */
  function ProcessValue(x: string): (r: Result<real, Error>)
    ensures r.Ok? <==> NumericText(KeepNumeric(x))
    ensures r.Err? ==> r.error == InvalidDecimal(KeepNumeric(x))
  {
    var t := KeepNumeric(x);
    DecimalOfAccepts(t);
    match DecimalOf(t)
    case None => Err(InvalidDecimal(t))
    case Some(v) => Ok(v)
  }

  /** The filter makes the cell's own kept characters the whole input to the parse: a cell
      already cleaned gives the same result. */
  lemma ProcessValueOfCleaned(x: string)
    ensures ProcessValue(KeepNumeric(x)) == ProcessValue(x)
  {
    KeepNumericIdempotent(x);
  }

  /** A currency amount with a thousands separator is read as its number. */
  lemma ProcessValueExample(x: string)
    requires x == "$1,234.50"
    ensures KeepNumeric(x) == "1234.50"
    ensures ProcessValue(x) == Ok(1234.5)
  {
    KeepNumericExample(x);
    DecimalExample();
  }

  lemma KeepNumericExample(x: string)
    requires x == "$1,234.50"
    ensures KeepNumeric(x) == "1234.50"
  {
    var a := x[1..];
    var b := a[1..];
    var c := b[1..];
    assert x[0] == '$' && a[0] == '1' && b[0] == ',';
    ExampleDigits(c);
    assert KeepNumeric(b) == KeepNumeric(c);
    assert KeepNumeric(a) == "1" + KeepNumeric(b);
    assert KeepNumeric(x) == KeepNumeric(a);
  }

  lemma ExampleDigits(c: string)
    requires c == "234.50"
    ensures KeepNumeric(c) == c && "1" + c == "1234.50"
  {
    assert forall i :: 0 <= i < |c| ==> Kept(c[i]);
    KeepNumericOfKept(c);
  }

  lemma DecimalExample()
    ensures DecimalOf("1234.50") == Some(1234.5)
  {
    assert "1234.50" == "1234" + "." + "50";
    assert AllDigits("1234") && AllDigits("50");
    DecimalOfScaled("1234", "50");
    assert "1234" + "50" == "123450";
    DigitsExample();
    assert Pow10(|"50"|) == 100;
    assert (123450 as real) / (100 as real) == 1234.5;
  }

  lemma DigitsExample()
    ensures AllDigits("123450") && DigitsValue("123450") == 123450
  {
    assert "1"[..0] == "";
    assert DigitsValue("1") == 1;
    assert "12"[..1] == "1";
    assert DigitsValue("12") == 12;
    assert "123"[..2] == "12";
    assert DigitsValue("123") == 123;
    assert "1234"[..3] == "123";
    assert DigitsValue("1234") == 1234;
    assert "12345"[..4] == "1234";
    assert DigitsValue("12345") == 12345;
    assert "123450"[..5] == "12345";
  }

  /** A cell with no digit at all is not a number (a blank or a dash, for instance). */
  lemma ProcessValueNeedsDigit(x: string)
    requires forall i :: 0 <= i < |x| ==> !IsDigit(x[i])
    ensures ProcessValue(x).Err?
  {
    var t := KeepNumeric(x);
    KeepNumericMembers(x);
    assert forall c :: c in x ==> !IsDigit(c);
    var u := if t != [] && t[0] == '-' then t[1..] else t;
    assert forall i :: 0 <= i < |u| ==> !IsDigit(u[i]) by {
      assert forall i :: 0 <= i < |u| ==> u[i] in t;
    }
    forall k | 0 <= k < |u| && |u| >= 2
      ensures !(AllDigits(u[..k]) && AllDigits(u[k + 1..]))
    {
      if k > 0 {
        assert u[..k][0] == u[0];
      } else {
        assert u[k + 1..][0] == u[1];
      }
    }
    assert u != [] ==> !IsDigit(u[0]);
  }

  /** `applymap(f)` on one column: the results of all cells, or the error of one whose
      conversion raises. */
  function ApplyMap<A>(cells: seq<string>, f: string -> Result<A, Error>): (r: Result<seq<A>, Error>)
    ensures r.Ok? <==> forall i :: 0 <= i < |cells| ==> f(cells[i]).Ok?
    ensures r.Ok? ==> |r.value| == |cells|
                      && forall i :: 0 <= i < |cells| ==> r.value[i] == f(cells[i]).value
    ensures r.Err? ==> exists i :: 0 <= i < |cells| && f(cells[i]) == Err(r.error)
  {
    if cells == [] then Ok([])
    else
      assert forall j :: 0 <= j < |cells| - 1 ==> cells[1..][j] == cells[j + 1];
      match f(cells[0])
      case Err(e) => Err(e)
      case Ok(v) =>
        match ApplyMap(cells[1..], f)
        case Err(e) => Err(e)
        case Ok(rest) => Ok([v] + rest)
  }

  /** `applymap(process_value)` on one column of cell texts. */
  function ConvertColumn(cells: seq<string>): Result<seq<real>, Error> {
    ApplyMap(cells, ProcessValue)
  }

  // ---- The column filter of combine_csv ----

  predicate StartsWith(s: string, prefix: string) {
    |prefix| <= |s| && s[..|prefix|] == prefix
  }

  /** The columns `p` keeps, in order. */
  function Filter(cols: seq<string>, p: string -> bool): (r: seq<string>)
    ensures |r| <= |cols|
    ensures forall c :: c in r <==> c in cols && p(c)
  {
    if cols == [] then []
    else (if p(cols[0]) then [cols[0]] else []) + Filter(cols[1..], p)
  }

  /** Filtering a concatenation filters each part. */
  lemma {:induction false} FilterAppend(a: seq<string>, b: seq<string>, p: string -> bool)
    ensures Filter(a + b, p) == Filter(a, p) + Filter(b, p)
    decreases |a|
  {
    if a == [] {
      assert a + b == b;
    } else {
      assert (a + b)[1..] == a[1..] + b;
      FilterAppend(a[1..], b, p);
    }
  }

  /** Two filters in a row keep what both keep, in order. */
  lemma {:induction false} FilterFilter(cols: seq<string>, p: string -> bool, q: string -> bool, both: string -> bool)
    requires forall c :: both(c) == (p(c) && q(c))
    ensures Filter(Filter(cols, p), q) == Filter(cols, both)
    decreases |cols|
  {
    if cols != [] {
      FilterFilter(cols[1..], p, q, both);
      var head := if p(cols[0]) then [cols[0]] else [];
      FilterAppend(head, Filter(cols[1..], p), q);
    }
  }

  const PaymentsColumn := "Payments"

  function IsNamed(c: string): bool {
    !StartsWith(c, "Unnamed")
  }

  function NotPayments(c: string): bool {
    c != PaymentsColumn
  }

  /** The two column steps of `combine_csv`: keep the columns whose name does not start with
      `Unnamed`, then drop `Payments`, a KeyError when it is not there. */
  function SelectColumns(cols: seq<string>): (r: Result<seq<string>, Error>)
    ensures r.Err? <==> PaymentsColumn !in cols
    ensures r.Err? ==> r.error == MissingColumn(PaymentsColumn)
    ensures r.Ok? ==> forall c :: c in r.value <==> c in cols && IsNamed(c) && c != PaymentsColumn
  {
    var named := Filter(cols, IsNamed);
    PaymentsIsNamed();
    if PaymentsColumn !in named then Err(MissingColumn(PaymentsColumn))
    else Ok(Filter(named, NotPayments))
  }

  lemma PaymentsIsNamed()
    ensures IsNamed(PaymentsColumn)
  {
    assert PaymentsColumn[..7] != "Unnamed" by {
      assert PaymentsColumn[..7][0] == 'P';
    }
  }

  /** Whether `combine_csv` keeps a column. */
  function Selected(c: string): bool {
    IsNamed(c) && c != PaymentsColumn
  }

  /** The selected columns are the input columns that pass both tests, in their order. */
  lemma SelectColumnsInOrder(cols: seq<string>)
    requires PaymentsColumn in cols
    ensures SelectColumns(cols) == Ok(Filter(cols, Selected))
  {
    PaymentsIsNamed();
    FilterFilter(cols, IsNamed, NotPayments, Selected);
  }

  /** `combined_df.iloc[:, 1:].select_dtypes(exclude=['float']).columns`: the columns after the
      first whose values are not already floats. */
  function ConvertedColumns(selected: seq<string>, isFloat: string -> bool): (r: seq<string>)
    ensures selected == [] ==> r == []
    ensures selected != [] ==> |r| < |selected| && forall c :: c in r <==> c in selected[1..] && !isFloat(c)
  {
    if selected == [] then [] else Filter(selected[1..], c => !isFloat(c))
  }

  /** With distinct column names, the first column is never converted. */
  lemma FirstColumnKept(selected: seq<string>, isFloat: string -> bool)
    requires selected != []
    requires forall i, j :: 0 <= i < j < |selected| ==> selected[i] != selected[j]
    ensures selected[0] !in ConvertedColumns(selected, isFloat)
  {
    assert forall j :: 0 <= j < |selected| - 1 ==> selected[1..][j] == selected[j + 1];
    assert selected[0] !in selected[1..];
  }
}
