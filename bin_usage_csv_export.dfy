/** The CSV report of bin usage (bin_usage_csv_export_service.py): every statistics row joined to
    the size catalog record with the same url, rendered as fifteen columns in the dialect of
    Python's `csv.writer` (comma separated, minimal double-quote quoting, CRLF line ends). */
module BinUsageCsvExport {
  import opened Wrappers
  import opened PyStrings
  import opened PyValue
  import opened Seqs

  // ---------------------------------------------------------------- number text

  /** Round half to even, as `"{:.6f}"` does on the exact value. */
  function RoundHalfEven(y: real): (n: nat)
    requires y >= 0.0
    ensures n as real - 0.5 <= y <= n as real + 0.5
  {
    var f := y.Floor;
    var d := y - f as real;
    if d < 0.5 then f else if d > 0.5 then f + 1 else if f % 2 == 0 then f else f + 1
  }

  const Scale: nat := 1000000

  /** `|x|` in millionths, rounded. */
  function Millionths(x: real): nat
  {
    RoundHalfEven((if x < 0.0 then -x else x) * 1000000.0)
  }

  /** The value `"{:.6f}".format(x)` denotes. */
  function RoundedSix(x: real): real
  {
    var m := Millionths(x) as real / 1000000.0;
    if x < 0.0 then -m else m
  }

  /** The last `k` decimal digits of `r`, with leading zeros. */
  function FracDigits(r: nat, k: nat): (s: string)
    ensures |s| == k && AllDigits(s)
  {
    if k == 0 then "" else FracDigits(r / 10, k - 1) + [DigitChar(r % 10)]
  }

  /** The fixed-point text of `m` millionths: the sign, the integer part, a point and six
      decimals. */
  function FixedText(negative: bool, m: nat): string
  {
    (if negative then "-" else "") + NatToString(m / Scale) + "." + FracDigits(m % Scale, 6)
  }

  /** `"{:.6f}".format(x)` */
  function FixedSix(x: real): string
  {
    FixedText(x < 0.0, Millionths(x))
  }

  /** `.rstrip("0").rstrip(".")` */
  function TrimZeros(s: string): string
  {
    RStripChar(RStripChar(s, '0'), '.')
  }

  /** `_to_float_str`: empty for `None` and for values `float()` rejects. */
  function ToFloatStr(v: Value): string
  {
    if v == Null then ""
    else
      match ToFloat(v)
      case None => ""
      case Some(x) => TrimZeros(FixedSix(x))
  }

  lemma {:induction false} FracDigitsValue(r: nat, k: nat)
    requires r < Pow10(k)
    ensures DigitsValue(FracDigits(r, k)) == r
  {
    if k > 0 {
      FracDigitsValue(r / 10, k - 1);
      var s := FracDigits(r, k);
      assert s[..|s| - 1] == FracDigits(r / 10, k - 1);
    }
  }

  lemma {:induction false} RStripAppend(a: string, b: string, c: char)
    requires a != [] && a[|a| - 1] != c
    ensures RStripChar(a + b, c) == a + RStripChar(b, c)
    decreases |b|
  {
    if b == [] {
      assert a + b == a;
    } else if b[|b| - 1] == c {
      assert (a + b)[..|a + b| - 1] == a + b[..|b| - 1];
      RStripAppend(a, b[..|b| - 1], c);
    }
  }

  lemma {:induction false} Pow10Add(i: nat, j: nat)
    ensures Pow10(i + j) == Pow10(i) * Pow10(j)
  {
    if i > 0 {
      Pow10Add(i - 1, j);
      assert Pow10(i + j) == 10 * Pow10(i - 1 + j);
    }
  }

  /** Dropping trailing zeros of a digit string divides its value by a power of ten. */
  lemma {:induction false} StripZerosValue(f: string)
    requires AllDigits(f)
    ensures AllDigits(RStripChar(f, '0'))
    ensures DigitsValue(f) == DigitsValue(RStripChar(f, '0')) * Pow10(|f| - |RStripChar(f, '0')|)
    decreases |f|
  {
    if f != [] && f[|f| - 1] == '0' {
      var g := f[..|f| - 1];
      StripZerosValue(g);
      var kept := RStripChar(f, '0');
      assert kept == RStripChar(g, '0');
      var a, p := DigitsValue(kept), Pow10(|g| - |kept|);
      assert DigitsValue(f) == DigitsValue(g) * 10 by {
        assert DigitValue(f[|f| - 1]) == 0;
      }
      assert Pow10(|f| - |kept|) == 10 * p by {
        assert |f| - |kept| == (|g| - |kept|) + 1;
      }
      MulTen(a, p);
    }
  }

  lemma MulTen(a: nat, p: nat)
    ensures (a * p) * 10 == a * (10 * p)
  {
  }

  lemma FracEq(a: nat, b: nat, c: nat)
    requires b > 0 && c > 0
    ensures a as real / b as real == (a * c) as real / (b * c) as real
  {
    assert (a * c) as real == a as real * c as real;
    assert (b * c) as real == b as real * c as real;
  }

  lemma NoPointInDigits(s: string)
    requires AllDigits(s)
    ensures Find(s, ".").None?
  {
    forall j | 0 <= j < |s| ensures !OccursAt(s, ".", j) {
      assert j + 1 <= |s| ==> s[j..j + 1][0] == s[j];
    }
  }

  lemma SplitSignDigits(negative: bool, body: string)
    requires body != [] && IsDigit(body[0])
    ensures SplitSign((if negative then "-" else "") + body) == (negative, body)
  {
    if negative {
      assert ("-" + body)[1..] == body;
    } else {
      assert "" + body == body;
    }
  }

  lemma FindPointAfterDigits(digits: string, fraction: string)
    requires AllDigits(digits)
    ensures Find(digits + "." + fraction, ".") == Some(|digits|)
  {
    var body := digits + "." + fraction;
    assert OccursAt(body, ".", |digits|) by {
      assert body[|digits|..|digits| + 1] == ".";
    }
    forall j | 0 <= j < |digits| ensures !OccursAt(body, ".", j) {
      assert body[j..j + 1][0] == digits[j];
    }
  }

  /** A signed run of digits reads as its value. */
  lemma ParseInteger(negative: bool, digits: string)
    requires IsDigits(digits)
    ensures ParseFloatLiteral((if negative then "-" else "") + digits)
         == Some(if negative then -(DigitsValue(digits) as real) else DigitsValue(digits) as real)
  {
    SplitSignDigits(negative, digits);
    NoPointInDigits(digits);
  }

  /** A signed literal with digits on both sides of a point reads as its value. */
  lemma ParsePointed(negative: bool, digits: string, fraction: string)
    requires AllDigits(digits) && AllDigits(fraction) && digits != []
    ensures var v := DecimalValue(digits, fraction);
      ParseFloatLiteral((if negative then "-" else "") + (digits + "." + fraction)) == Some(if negative then -v else v)
  {
    var body := digits + "." + fraction;
    assert body[0] == digits[0];
    SplitSignDigits(negative, body);
    FindPointAfterDigits(digits, fraction);
    assert body[..|digits|] == digits;
    assert body[|digits| + 1..] == fraction;
  }

  /** The decimals of `r` millionths that survive trimming. */
  function KeptDecimals(r: nat): string
  {
    RStripChar(FracDigits(r, 6), '0')
  }

  /** The kept decimals denote the same fraction. */
  lemma KeptDecimalsValue(r: nat)
    requires r < Scale
    ensures AllDigits(KeptDecimals(r))
    ensures DigitsValue(KeptDecimals(r)) as real / Pow10(|KeptDecimals(r)|) as real == r as real / 1000000.0
  {
    var frac := FracDigits(r, 6);
    var kept := KeptDecimals(r);
    assert Pow10(6) == Scale;
    FracDigitsValue(r, 6);
    StripZerosValue(frac);
    var a, p, q := DigitsValue(kept), Pow10(|kept|), Pow10(6 - |kept|);
    assert r == a * q;
    Pow10Add(|kept|, 6 - |kept|);
    assert p * q == Scale;
    FracEq(a, p, q);
    assert a as real / p as real == r as real / Scale as real;
  }

  /** Trimming a digit run, a point and some decimals keeps the digits and the decimals up to
      the last non-zero one, and the point only when such a decimal remains. */
  lemma TrimPointed(pre: string, frac: string)
    requires pre != [] && IsDigit(pre[|pre| - 1]) && AllDigits(frac)
    ensures var kept := RStripChar(frac, '0');
      TrimZeros(pre + "." + frac) == if kept == [] then pre else pre + "." + kept
  {
    var head := pre + ".";
    assert pre + "." + frac == head + frac;
    RStripAppend(head, frac, '0');
    var kept := RStripChar(frac, '0');
    if kept == [] {
      assert head + kept == head;
      assert head[..|head| - 1] == pre;
      assert RStripChar(head, '.') == RStripChar(pre, '.');
      assert RStripChar(pre, '.') == pre;
    } else {
      RStripCharSpec(frac, '0');
      assert kept[|kept| - 1] == frac[|kept| - 1];
      assert (head + kept)[|head + kept| - 1] == kept[|kept| - 1];
      assert head + kept == pre + "." + kept;
    }
  }

  /** `-v` for a negative reading, `v` otherwise. */
  function Signed(negative: bool, v: real): real
  {
    if negative then -v else v
  }

  /** The sign, the integer digits, and a point with the decimals when any decimal is kept. */
  function TrimmedText(negative: bool, digits: string, kept: string): string
  {
    (if negative then "-" else "") + (if kept == [] then digits else digits + "." + kept)
  }

  lemma TrimFixedText(negative: bool, m: nat)
    ensures TrimZeros(FixedText(negative, m)) == TrimmedText(negative, NatToString(m / Scale), KeptDecimals(m % Scale))
  {
    var sign := if negative then "-" else "";
    var digits := NatToString(m / Scale);
    NatToStringRoundTrip(m / Scale);
    var pre := sign + digits;
    assert pre[|pre| - 1] == digits[|digits| - 1];
    TrimPointed(pre, FracDigits(m % Scale, 6));
    assert sign + (digits + "." + KeptDecimals(m % Scale)) == pre + "." + KeptDecimals(m % Scale);
  }

  /** A count of millionths is its whole units plus its remaining millionths. */
  lemma MillionthsSplit(m: nat)
    ensures m as real / 1000000.0 == (m / Scale) as real + (m % Scale) as real / 1000000.0
  {
    var w, r := m / Scale, m % Scale;
    assert m == w * Scale + r;
    assert m as real == w as real * 1000000.0 + r as real;
  }

  /** A signed literal whose decimals may be absent reads as the decimal value of its parts. */
  lemma ParseTrimmed(negative: bool, digits: string, kept: string)
    requires IsDigits(digits) && AllDigits(kept)
    ensures ParseFloatLiteral(TrimmedText(negative, digits, kept)) == Some(Signed(negative, DecimalValue(digits, kept)))
  {
    if kept == [] {
      ParseInteger(negative, digits);
    } else {
      ParsePointed(negative, digits, kept);
    }
  }

  /** The integer digits and the kept decimals of `m` millionths denote `m / 10^6`. */
  lemma DecimalOfParts(m: nat)
    ensures AllDigits(NatToString(m / Scale)) && AllDigits(KeptDecimals(m % Scale))
    ensures DecimalValue(NatToString(m / Scale), KeptDecimals(m % Scale)) == m as real / 1000000.0
  {
    var kept := KeptDecimals(m % Scale);
    var digits := NatToString(m / Scale);
    NatToStringRoundTrip(m / Scale);
    KeptDecimalsValue(m % Scale);
    var q := DigitsValue(kept) as real / Pow10(|kept|) as real;
    assert q == (m % Scale) as real / 1000000.0;
    assert DecimalValue(digits, kept) == (m / Scale) as real + q;
    MillionthsSplit(m);
  }

  lemma FixedTextRoundTrip(negative: bool, m: nat)
    ensures ParseFloatLiteral(TrimZeros(FixedText(negative, m))) == Some(Signed(negative, m as real / 1000000.0))
  {
    TrimFixedText(negative, m);
    NatToStringRoundTrip(m / Scale);
    DecimalOfParts(m);
    ParseTrimmed(negative, NatToString(m / Scale), KeptDecimals(m % Scale));
  }

  /** Reading the rendered text back as a float literal gives the value rounded to six decimals. */
  lemma FloatTextRoundTrip(x: real)
    ensures ParseFloatLiteral(TrimZeros(FixedSix(x))) == Some(RoundedSix(x))
  {
    var m := Millionths(x);
    var v := m as real / 1000000.0;
    FixedTextRoundTrip(x < 0.0, m);
    assert FixedSix(x) == FixedText(x < 0.0, m);
    assert RoundedSix(x) == Signed(x < 0.0, v);
  }

  /** The text has no redundant tail: it never ends in a point, and with a point it never ends
      in a zero; only trailing zeros and a trailing point are removed. */
  lemma TrimZerosShape(s: string)
    ensures TrimZeros(s) == s[..|TrimZeros(s)|]
    ensures TrimZeros(s) != [] ==> TrimZeros(s)[|TrimZeros(s)| - 1] != '.'
    ensures forall i :: |TrimZeros(s)| <= i < |s| ==> s[i] == '0' || s[i] == '.'
  {
    var once := RStripChar(s, '0');
    RStripCharSpec(s, '0');
    RStripCharSpec(once, '.');
    assert forall i :: |TrimZeros(s)| <= i < |once| ==> once[i] == '.';
    assert forall i :: |once| <= i < |s| ==> s[i] == '0';
    forall i | |TrimZeros(s)| <= i < |once| ensures s[i] == '.' {
      assert s[i] == once[i];
    }
  }

  lemma FloatTextNoTrailingZero(x: real)
    ensures Contains(TrimZeros(FixedSix(x)), ".") ==> TrimZeros(FixedSix(x))[|TrimZeros(FixedSix(x))| - 1] != '0'
  {
    var s := FixedSix(x);
    var once := RStripChar(s, '0');
    var t := TrimZeros(s);
    RStripCharSpec(s, '0');
    RStripCharSpec(once, '.');
    FixedSixOnePoint(x);
    if Contains(t, ".") {
      var p := Find(t, ".").value;
      assert t[p..p + 1][0] == '.';
      assert s[p] == t[p];
      assert once[|once| - 1] == s[|once| - 1];
    }
  }

  /** The fixed-point text has exactly one point, just before the six decimals. */
  lemma FixedSixOnePoint(x: real)
    ensures |FixedSix(x)| >= 7 && FixedSix(x)[|FixedSix(x)| - 7] == '.'
    ensures forall i :: 0 <= i < |FixedSix(x)| && i != |FixedSix(x)| - 7 ==> FixedSix(x)[i] != '.'
  {
    var m := Millionths(x);
    var sign := if x < 0.0 then "-" else "";
    var digits := NatToString(m / Scale);
    NatToStringRoundTrip(m / Scale);
    var frac := FracDigits(m % Scale, 6);
    var s := FixedText(x < 0.0, m);
    assert s == sign + digits + "." + frac;
    forall i | 0 <= i < |s| && i != |s| - 7 ensures s[i] != '.' {
      if i < |sign| {
        assert s[i] == '-';
      } else if i < |sign| + |digits| {
        assert s[i] == digits[i - |sign|];
      } else {
        assert s[i] == frac[i - |sign| - |digits| - 1];
      }
    }
  }

  // ---------------------------------------------------------------- first non-empty

  /** `_first_non_empty`: the first value other than `None` whose stripped text is non-empty. */
  function FirstNonEmptyOf(vals: seq<Value>): string
  {
    if vals == [] then ""
    else if vals[0] != Null && Strip(PyStr(vals[0])) != "" then Strip(PyStr(vals[0]))
    else FirstNonEmptyOf(vals[1..])
  }

  predicate Blank(v: Value)
  {
    v == Null || Strip(PyStr(v)) == ""
  }

  method FirstNonEmpty(vals: seq<Value>) returns (s: string)
    ensures s == FirstNonEmptyOf(vals)
  {
    for i := 0 to |vals|
      invariant FirstNonEmptyOf(vals[i..]) == FirstNonEmptyOf(vals)
    {
      assert vals[i..][1..] == vals[i + 1..];
      var v := vals[i];
      if v == Null {
        continue;
      }
      var t := Strip(PyStr(v));
      if t != "" {
        return t;
      }
    }
    return "";
  }

  /** The result is the text of the first value that is not blank, or empty when all are. */
  lemma {:induction false} FirstNonEmptySpec(vals: seq<Value>)
    ensures FirstNonEmptyOf(vals) == "" <==> forall i :: 0 <= i < |vals| ==> Blank(vals[i])
    ensures FirstNonEmptyOf(vals) != "" ==>
      exists j :: 0 <= j < |vals| && !Blank(vals[j]) && FirstNonEmptyOf(vals) == Strip(PyStr(vals[j]))
        && forall i :: 0 <= i < j ==> Blank(vals[i])
  {
    if vals != [] && Blank(vals[0]) {
      FirstNonEmptySpec(vals[1..]);
      if FirstNonEmptyOf(vals) != "" {
        var j :| 0 <= j < |vals[1..]| && !Blank(vals[1..][j]) && FirstNonEmptyOf(vals[1..]) == Strip(PyStr(vals[1..][j]))
          && forall i :: 0 <= i < j ==> Blank(vals[1..][i]);
        assert forall i :: 0 <= i < j + 1 ==> Blank(vals[i]) by {
          forall i | 0 <= i < j + 1 ensures Blank(vals[i]) {
            if i > 0 { assert vals[i] == vals[1..][i - 1]; }
          }
        }
        assert vals[j + 1] == vals[1..][j];
      }
      assert forall i :: 0 <= i < |vals| ==> (Blank(vals[i]) <==> i == 0 || Blank(vals[1..][i - 1]));
    }
  }

  // ---------------------------------------------------------------- the size index

  /** `str(d.get("url") or "").strip()` */
  function UrlText(entries: seq<(string, Value)>): string
  {
    Strip(PyStr(Or(Get(entries, "url"), Str(""))))
  }

  /** The url a catalog record is indexed under: a dict record with a non-empty url. */
  function SizeKey(s: Value): Option<string>
  {
    if s.Dict? && UrlText(s.entries) != "" then Some(UrlText(s.entries)) else None
  }

  function EntriesOf(s: Value): seq<(string, Value)>
  {
    if s.Dict? then s.entries else []
  }

  /** The catalog records by url, a later record replacing an earlier one. */
  function SizeIndexOf(sizes: seq<Value>): map<string, seq<(string, Value)>>
  {
    IndexBy(sizes, SizeKey, EntriesOf)
  }

  method BuildSizeIndex(sizes: seq<Value>) returns (index: map<string, seq<(string, Value)>>)
    ensures index == SizeIndexOf(sizes)
  {
    index := map[];
    for i := 0 to |sizes|
      invariant index == SizeIndexOf(sizes[..i])
    {
      assert sizes[..i + 1][..i] == sizes[..i];
      var s := sizes[i];
      if !s.Dict? {
        continue;
      }
      var url := UrlText(s.entries);
      if url != "" {
        index := index[url := s.entries];
      }
    }
    assert sizes[..|sizes|] == sizes;
  }

  /** A url is indexed exactly when some dict record carries it, and it maps to the last such
      record. */
  lemma SizeIndexSpec(sizes: seq<Value>, url: string)
    ensures url in SizeIndexOf(sizes) <==> exists i :: 0 <= i < |sizes| && SizeKey(sizes[i]) == Some(url)
    ensures url in SizeIndexOf(sizes) ==>
      exists i :: 0 <= i < |sizes| && SizeKey(sizes[i]) == Some(url) && SizeIndexOf(sizes)[url] == sizes[i].entries
        && forall j :: i < j < |sizes| ==> SizeKey(sizes[j]) != Some(url)
  {
    IndexBySpec(sizes, SizeKey, EntriesOf, url);
  }

  // ---------------------------------------------------------------- rows

  /** Missing values and empty strings give an empty cell. */
  lemma {:induction false} FirstNonEmptyBlank(vals: seq<Value>)
    requires forall k :: 0 <= k < |vals| ==> vals[k] == Null || vals[k] == Str("")
    ensures FirstNonEmptyOf(vals) == ""
  {
    if vals != [] {
      assert Strip(PyStr(Str(""))) == "";
      FirstNonEmptyBlank(vals[1..]);
    }
  }

  /** The columns of the report, in order. */
  datatype Column =
    | PackageId | Url | Title | Kind
    | OuterLength | OuterWidth | OuterHeight
    | InnerLength | InnerWidth | InnerHeight
    | MaxWeight | EmptyWeight | Cost | Status | OrderCount

  const Columns: seq<Column> := [
    PackageId, Url, Title, Kind, OuterLength, OuterWidth, OuterHeight,
    InnerLength, InnerWidth, InnerHeight, MaxWeight, EmptyWeight, Cost, Status, OrderCount]

  const Header: seq<string> := [
    "PackageId", "URL", "Title", "Type",
    "OuterLength [cm]", "OuterWidth [cm]", "OuterHeight [cm]",
    "InnerLength [cm]", "InnerWidth [cm]", "InnerHeight [cm]",
    "MaxWeight [g]", "EmptyWeight [g]", "Cost", "Status", "Order count"]

  /** `int(usage) if isinstance(usage, (int, float)) else 0`, as text. */
  function OrderCountText(usage: Value): string
  {
    IntToString(if IsNumber(usage) then Truncate(NumberValue(usage)) else 0)
  }

  /** One cell of a statistics row joined to its catalog record `size`. */
  function Cell(c: Column, row: seq<(string, Value)>, size: seq<(string, Value)>): string
  {
    match c
    case PackageId => FirstNonEmptyOf([Get(size, "packageId"), Get(size, "id"), Get(size, "sku"), Get(size, "code"), Str("")])
    case Url => UrlText(row)
    case Title => FirstNonEmptyOf([Get(size, "title"), Get(size, "name"), Get(size, "size_cm"), Str("")])
    case Kind => "bin"
    case OuterLength => ToFloatStr(Get(size, "length"))
    case OuterWidth => ToFloatStr(Get(size, "width"))
    case OuterHeight => ToFloatStr(Get(size, "height"))
    case InnerLength => ToFloatStr(Or(Get(size, "inner_length"), Get(size, "innerLength")))
    case InnerWidth => ToFloatStr(Or(Get(size, "inner_width"), Get(size, "innerWidth")))
    case InnerHeight => ToFloatStr(Or(Get(size, "inner_height"), Get(size, "innerHeight")))
    case MaxWeight => ""
    case EmptyWeight => ToFloatStr(Or(Get(size, "empty_weight"), Get(size, "emptyWeight")))
    case Cost => ""
    case Status => FirstNonEmptyOf([Get(size, "status"), Str("")])
    case OrderCount => OrderCountText(Or(Get(row, "usage_count"), Int(0)))
  }

  /** The cells of `cols`, one per column. */
  function Cells(cols: seq<Column>, row: seq<(string, Value)>, size: seq<(string, Value)>): seq<string>
  {
    seq(|cols|, k requires 0 <= k < |cols| => Cell(cols[k], row, size))
  }

  lemma CellsAt(cols: seq<Column>, row: seq<(string, Value)>, size: seq<(string, Value)>, k: nat)
    requires k < |cols|
    ensures |Cells(cols, row, size)| == |cols| && Cells(cols, row, size)[k] == Cell(cols[k], row, size)
  {
  }

  /** The catalog record a statistics row is joined to; empty when its url is not indexed. */
  function SizeOf(row: seq<(string, Value)>, index: map<string, seq<(string, Value)>>): seq<(string, Value)>
  {
    var url := UrlText(row);
    if url in index then index[url] else []
  }

  /** The fifteen columns for one statistics row. */
  function RowOf(row: seq<(string, Value)>, index: map<string, seq<(string, Value)>>): seq<string>
  {
    Cells(Columns, row, SizeOf(row, index))
  }

  /** The catalog columns of a row without catalog record are empty. */
  lemma BlankCells(row: seq<(string, Value)>)
    ensures Cell(PackageId, row, []) == "" && Cell(Title, row, []) == "" && Cell(Status, row, []) == ""
    ensures Cell(OuterLength, row, []) == "" && Cell(OuterWidth, row, []) == "" && Cell(OuterHeight, row, []) == ""
    ensures Cell(InnerLength, row, []) == "" && Cell(InnerWidth, row, []) == "" && Cell(InnerHeight, row, []) == ""
    ensures Cell(EmptyWeight, row, []) == ""
  {
    var none: seq<(string, Value)> := [];
    assert forall key :: Get(none, key) == Null;
    FirstNonEmptyBlank([Get(none, "packageId"), Get(none, "id"), Get(none, "sku"), Get(none, "code"), Str("")]);
    FirstNonEmptyBlank([Get(none, "title"), Get(none, "name"), Get(none, "size_cm"), Str("")]);
    FirstNonEmptyBlank([Get(none, "status"), Str("")]);
  }

  /** The cells of a statistics row without catalog record. */
  lemma EmptyRecordCells(row: seq<(string, Value)>)
    ensures var f := Cells(Columns, row, []);
      |f| == |Header| && f[0] == "" && f[2] == "" && f[13] == ""
      && f[4] == "" && f[5] == "" && f[6] == "" && f[7] == "" && f[8] == "" && f[9] == "" && f[11] == ""
  {
    BlankCells(row);
    var none: seq<(string, Value)> := [];
    assert Columns[0] == PackageId && Columns[2] == Title && Columns[13] == Status;
    assert Columns[4] == OuterLength && Columns[5] == OuterWidth && Columns[6] == OuterHeight;
    assert Columns[7] == InnerLength && Columns[8] == InnerWidth && Columns[9] == InnerHeight;
    assert Columns[11] == EmptyWeight;
    CellsAt(Columns, row, none, 0);
    CellsAt(Columns, row, none, 2);
    CellsAt(Columns, row, none, 13);
    CellsAt(Columns, row, none, 4);
    CellsAt(Columns, row, none, 5);
    CellsAt(Columns, row, none, 6);
    CellsAt(Columns, row, none, 7);
    CellsAt(Columns, row, none, 8);
    CellsAt(Columns, row, none, 9);
    CellsAt(Columns, row, none, 11);
  }

  /** A row whose url has no catalog record leaves every catalog column blank: package id,
      title, the six dimensions, the empty weight and the status. */
  lemma RowWithoutCatalog(row: seq<(string, Value)>, index: map<string, seq<(string, Value)>>)
    requires UrlText(row) !in index
    ensures var f := RowOf(row, index);
      |f| == |Header| && f[0] == "" && f[2] == "" && f[13] == ""
      && f[4] == "" && f[5] == "" && f[6] == "" && f[7] == "" && f[8] == "" && f[9] == "" && f[11] == ""
  {
    assert SizeOf(row, index) == [];
    EmptyRecordCells(row);
  }

  /** Every row carries its url, the type `bin` and blank max weight and cost. */
  lemma RowFixedColumns(row: seq<(string, Value)>, index: map<string, seq<(string, Value)>>)
    ensures |RowOf(row, index)| == |Header|
    ensures RowOf(row, index)[1] == UrlText(row)
    ensures RowOf(row, index)[3] == "bin"
    ensures RowOf(row, index)[10] == "" && RowOf(row, index)[12] == ""
  {
    var size := SizeOf(row, index);
    assert Columns[1] == Url && Columns[3] == Kind && Columns[10] == MaxWeight && Columns[12] == Cost;
    CellsAt(Columns, row, size, 1);
    CellsAt(Columns, row, size, 3);
    CellsAt(Columns, row, size, 10);
    CellsAt(Columns, row, size, 12);
  }

  /** A row whose url some catalog record carries is built from the last such record. */
  lemma RowFromCatalog(row: seq<(string, Value)>, sizes: seq<Value>, i: nat)
    requires i < |sizes| && SizeKey(sizes[i]) == Some(UrlText(row))
    requires forall j :: i < j < |sizes| ==> SizeKey(sizes[j]) != Some(UrlText(row))
    ensures RowOf(row, SizeIndexOf(sizes)) == Cells(Columns, row, sizes[i].entries)
  {
    var url := UrlText(row);
    SizeIndexSpec(sizes, url);
    var i' :| 0 <= i' < |sizes| && SizeKey(sizes[i']) == Some(url) && SizeIndexOf(sizes)[url] == sizes[i'].entries
      && forall j :: i' < j < |sizes| ==> SizeKey(sizes[j]) != Some(url);
    assert i' == i;
  }

  /** The row of a dict record. */
  function RowMaker(index: map<string, seq<(string, Value)>>): Value -> Option<seq<string>>
  {
    (r: Value) => if r.Dict? then Some(RowOf(r.entries, index)) else None
  }

  function RowsOf(records: seq<Value>, index: map<string, seq<(string, Value)>>): seq<seq<string>>
  {
    FilterMap(records, RowMaker(index))
  }

  predicate IsDict(v: Value)
  {
    v.Dict?
  }

  /** One row per dict record, each of fifteen columns with the url, the type `bin` and blank max
      weight and cost, the catalog columns taken from the record with that url. */
  lemma RowsSpec(records: seq<Value>, index: map<string, seq<(string, Value)>>)
    ensures |RowsOf(records, index)| == |Filter(records, IsDict)|
    ensures forall row :: row in RowsOf(records, index) <==>
      exists i :: 0 <= i < |records| && records[i].Dict? && row == RowOf(records[i].entries, index)
  {
    FilterMapLength(records, RowMaker(index), IsDict);
    forall row ensures row in RowsOf(records, index) <==>
      exists i :: 0 <= i < |records| && records[i].Dict? && row == RowOf(records[i].entries, index)
    {
      FilterMapMembers(records, RowMaker(index), row);
    }
  }

  /** The rows follow the records: a record's row, if it has one, comes after the rows of the
      records before it and before those of the records after it. */
  lemma RowsInOrder(before: seq<Value>, r: Value, after: seq<Value>, index: map<string, seq<(string, Value)>>)
    ensures RowsOf(before + [r] + after, index) ==
      RowsOf(before, index) + (if r.Dict? then [RowOf(r.entries, index)] else []) + RowsOf(after, index)
  {
    FilterMapAppend(before + [r], after, RowMaker(index));
    FilterMapAppend(before, [r], RowMaker(index));
    FilterMapSingle(r, RowMaker(index));
  }

  // ---------------------------------------------------------------- CSV text

  /** Characters that make `csv.writer` quote a field. */
  predicate Special(c: char)
  {
    c == ',' || c == '"' || c == '\r' || c == '\n'
  }

  predicate NeedsQuotes(f: string)
  {
    exists i :: 0 <= i < |f| && Special(f[i])
  }

  /** Every double quote written twice. */
  function DoubleQuotes(f: string): string
  {
    if f == [] then [] else (if f[0] == '"' then "\"\"" else [f[0]]) + DoubleQuotes(f[1..])
  }

  /** A quoted field: in double quotes, with the quotes inside doubled. */
  function QuoteField(f: string): string
  {
    if NeedsQuotes(f) then "\"" + DoubleQuotes(f) + "\"" else f
  }

  /** The reader's side: a doubled quote stands for one. */
  function UndoubleQuotes(s: string): string
  {
    if |s| >= 2 && s[0] == '"' && s[1] == '"' then "\"" + UndoubleQuotes(s[2..])
    else if s == [] then []
    else [s[0]] + UndoubleQuotes(s[1..])
  }

  /** How a CSV reader recovers a field. */
  function UnquoteField(q: string): string
  {
    if |q| >= 2 && q[0] == '"' && q[|q| - 1] == '"' then UndoubleQuotes(q[1..|q| - 1]) else q
  }

  lemma {:induction false} UndoubleDouble(f: string)
    ensures UndoubleQuotes(DoubleQuotes(f)) == f
  {
    if f != [] {
      UndoubleDouble(f[1..]);
      var rest := DoubleQuotes(f[1..]);
      if f[0] == '"' {
        assert DoubleQuotes(f) == "\"\"" + rest;
        assert (("\"\"" + rest)[2..]) == rest;
      } else {
        assert DoubleQuotes(f) == [f[0]] + rest;
        assert ([f[0]] + rest)[1..] == rest;
      }
    }
  }

  /** A reader recovers every field exactly as written. */
  lemma QuoteRoundTrip(f: string)
    ensures UnquoteField(QuoteField(f)) == f
  {
    if NeedsQuotes(f) {
      UndoubleDouble(f);
      var q := "\"" + DoubleQuotes(f) + "\"";
      assert q[1..|q| - 1] == DoubleQuotes(f);
    } else if |f| >= 2 && f[0] == '"' {
      assert Special(f[0]);
    }
  }

  /** One CSV record: the quoted fields joined by commas, ended by CRLF. */
  function Line(fields: seq<string>): string
  {
    Join(seq(|fields|, i requires 0 <= i < |fields| => QuoteField(fields[i])), ",") + "\r\n"
  }

  function CsvText(rows: seq<seq<string>>): string
  {
    if rows == [] then "" else CsvText(rows[..|rows| - 1]) + Line(rows[|rows| - 1])
  }

  /** The body of the CSV: the header, then the rows of the statistics joined with the catalog. */
  function ExportRows(stats: Value, sizes: Value): Result<seq<seq<string>>>
  {
    match Iterate(Or(sizes, List([])))
    case None => Err(TypeError)
    case Some(sizeRecords) =>
      match Iterate(Or(stats, List([])))
      case None => Err(TypeError)
      case Some(statRecords) => Ok([Header] + RowsOf(statRecords, SizeIndexOf(sizeRecords)))
  }

  /** One more record adds its row, when it is a dict. */
  lemma RowsStep(records: seq<Value>, i: nat, index: map<string, seq<(string, Value)>>)
    requires i < |records|
    ensures RowsOf(records[..i + 1], index)
         == RowsOf(records[..i], index) + (if records[i].Dict? then [RowOf(records[i].entries, index)] else [])
  {
    assert records[..i + 1] == records[..i] + [records[i]];
    FilterMapAppend(records[..i], [records[i]], RowMaker(index));
    FilterMapSingle(records[i], RowMaker(index));
  }

  /** Appending a row to the body appends its line to the text. */
  lemma CsvAppend(rows: seq<seq<string>>, next: seq<seq<string>>, row: seq<string>)
    requires next == rows + [row]
    ensures CsvText([Header] + next) == CsvText([Header] + rows) + Line(row)
  {
    assert [Header] + next == ([Header] + rows) + [row];
    assert ([Header] + next)[..|rows| + 1] == [Header] + rows;
  }

  method Perform(typ: string, stats: Value, sizes: Value) returns (r: Result<string>)
    ensures ExportRows(stats, sizes).Err? ==> r == Err(ExportRows(stats, sizes).error)
    ensures ExportRows(stats, sizes).Ok? ==> r == Ok(CsvText(ExportRows(stats, sizes).value))
  {
    var sizeRecords := Iterate(Or(sizes, List([])));
    if sizeRecords.None? {
      return Err(TypeError);
    }
    var index := BuildSizeIndex(sizeRecords.value);
    var text := Line(Header);
    assert CsvText([Header]) == text;
    var statRecords := Iterate(Or(stats, List([])));
    if statRecords.None? {
      return Err(TypeError);
    }
    var records := statRecords.value;
    for i := 0 to |records|
      invariant text == CsvText([Header] + RowsOf(records[..i], index))
    {
      RowsStep(records, i, index);
      var row := records[i];
      if !row.Dict? {
        assert RowsOf(records[..i], index) + [] == RowsOf(records[..i], index);
        continue;
      }
      var fields := RowOf(row.entries, index);
      CsvAppend(RowsOf(records[..i], index), RowsOf(records[..i + 1], index), fields);
      text := text + Line(fields);
    }
    assert records[..|records|] == records;
    return Ok(text);
  }

  /** The text starts with the header record. */
  lemma {:induction false} CsvStartsWithHeader(rows: seq<seq<string>>)
    requires |rows| >= 1
    ensures StartsWith(CsvText(rows), Line(rows[0]))
  {
    if |rows| > 1 {
      CsvStartsWithHeader(rows[..|rows| - 1]);
      var before := CsvText(rows[..|rows| - 1]);
      assert CsvText(rows) == before + Line(rows[|rows| - 1]);
      assert CsvText(rows)[..|Line(rows[0])|] == before[..|Line(rows[0])|];
    } else {
      assert rows[..0] == [];
      assert CsvText(rows) == "" + Line(rows[0]);
    }
  }
}
