/** The text readers of the product page (product_parser.py): the product id in a url, and the
    dimensions, volume and weight written in a `dd` cell.

    Each regular expression of the source is modelled by a scan for its leftmost match. At a
    given start the scan takes the match Python's backtracking engine finds first: the digit runs
    are taken whole, since every pattern goes on with a character that is neither a digit, nor
    `.`, nor whitespace, so no shorter run can be followed by the rest of the pattern. */
module ProductText {
  import opened Wrappers
  import opened PyStrings

  /** A number token `\d+(?:\.\d+)?`: its whole digits and its fraction digits, empty when the
      token has no point. */
  datatype Decimal = Decimal(whole: string, frac: string)
  {
    function Text(): string
    {
      if frac == "" then whole else whole + "." + frac
    }

    predicate WellFormed()
    {
      IsDigits(whole) && AllDigits(frac)
    }

    /** `float(token)`, as an exact real. */
    function Value(): (v: real)
      requires WellFormed()
      ensures v >= 0.0
    {
      DigitsValue(whole) as real + FracValue(frac)
    }
  }

  /** The value `0.d1d2…` of the digits after a point. */
  function FracValue(f: string): (r: real)
    requires AllDigits(f)
    ensures 0.0 <= r < 1.0
  {
    if f == [] then 0.0 else (DigitValue(f[0]) as real + FracValue(f[1..])) / 10.0
  }

  /** The end of the run of digits starting at `i`. */
  function DigitRunEnd(s: string, i: nat): (r: nat)
    requires i <= |s|
    ensures i <= r <= |s|
    ensures forall k :: i <= k < r ==> IsDigit(s[k])
    ensures r == |s| || !IsDigit(s[r])
    decreases |s| - i
  {
    if i < |s| && IsDigit(s[i]) then DigitRunEnd(s, i + 1) else i
  }

  /** The end of the run of whitespace starting at `i`. */
  function SpaceRunEnd(s: string, i: nat): (r: nat)
    requires i <= |s|
    ensures i <= r <= |s|
    ensures forall k :: i <= k < r ==> IsSpace(s[k])
    ensures r == |s| || !IsSpace(s[r])
    decreases |s| - i
  {
    if i < |s| && IsSpace(s[i]) then SpaceRunEnd(s, i + 1) else i
  }

  /** The end of the run of characters other than `/` starting at `i`. */
  function NonSlashRunEnd(s: string, i: nat): (r: nat)
    requires i <= |s|
    ensures i <= r <= |s|
    ensures forall k :: i <= k < r ==> s[k] != '/'
    ensures r == |s| || s[r] == '/'
    decreases |s| - i
  {
    if i < |s| && s[i] != '/' then NonSlashRunEnd(s, i + 1) else i
  }

  lemma DigitsSlice(s: string, i: nat, r: nat)
    requires i <= r <= |s|
    requires forall k :: i <= k < r ==> IsDigit(s[k])
    ensures AllDigits(s[i..r])
  {
    assert forall k :: 0 <= k < r - i ==> s[i..r][k] == s[i + k];
  }

  /** Where the number token read at `p` ends: after the digits, and after a point and the
      digits that follow it when there are any. */
  function NumberEnd(s: string, p: nat): (e: nat)
    requires p < |s| && IsDigit(s[p])
    ensures p < e <= |s|
  {
    var q := DigitRunEnd(s, p);
    if q + 1 < |s| && s[q] == '.' && IsDigit(s[q + 1]) then DigitRunEnd(s, q + 1) else q
  }

  /** The number token read at `p`: the digits, then a point and digits when they follow. */
  function NumberAt(s: string, p: nat): (d: Decimal)
    requires p < |s| && IsDigit(s[p])
    ensures d.WellFormed()
  {
    var q := DigitRunEnd(s, p);
    DigitsSlice(s, p, q);
    if q + 1 < |s| && s[q] == '.' && IsDigit(s[q + 1]) then
      var r := DigitRunEnd(s, q + 1);
      DigitsSlice(s, q + 1, r);
      Decimal(s[p..q], s[q + 1..r])
    else
      Decimal(s[p..q], "")
  }

  /** The token is the text up to its end, and nothing longer could be read there: no digit
      follows it, and a whole number is not followed by a point and a digit. */
  lemma NumberAtSpec(s: string, p: nat)
    requires p < |s| && IsDigit(s[p])
    ensures var d, e := NumberAt(s, p), NumberEnd(s, p);
      && s[p..e] == d.Text()
      && (e == |s| || !IsDigit(s[e]))
      && (d.frac == "" ==> !(e + 1 < |s| && s[e] == '.' && IsDigit(s[e + 1])))
  {
    var q := DigitRunEnd(s, p);
    if q + 1 < |s| && s[q] == '.' && IsDigit(s[q + 1]) {
      var r := DigitRunEnd(s, q + 1);
      assert s[p..r] == s[p..q] + s[q..q + 1] + s[q + 1..r];
    }
  }

  /** A pattern character under `re.IGNORECASE`: an ASCII letter matches in either case, and `k`
      also matches the Kelvin sign, as in Python's Unicode case folding. */
  predicate FoldMatch(c: char, u: char)
  {
    c == u || ('a' <= u <= 'z' && c as int == u as int - 32) || (u == 'k' && c == '\U{212A}')
  }

  predicate UnitAt(s: string, i: nat, unit: string)
  {
    i + |unit| <= |s| && forall k :: 0 <= k < |unit| ==> FoldMatch(s[i + k], unit[k])
  }

  /** The last occurrence of `sub` starting between `lo` and `hi`. */
  function LastFrom(s: string, sub: string, lo: nat, hi: int): (r: Option<nat>)
    decreases hi - lo + 1
    ensures r.Some? ==> lo <= r.value <= hi && OccursAt(s, sub, r.value)
    ensures r.Some? ==> forall j :: r.value < j <= hi ==> !OccursAt(s, sub, j)
    ensures r.None? ==> forall j :: lo <= j <= hi ==> !OccursAt(s, sub, j)
  {
    if hi < lo then None
    else if OccursAt(s, sub, hi) then Some(hi)
    else LastFrom(s, sub, lo, hi - 1)
  }

  /** The regular expressions of the source that are searched for. */
  datatype Pattern =
    | NumberUnit(unit: string) // `(\d+(?:\.\d+)?)\s*<unit>`, ignoring case
    | Dimensions               // `(\d+(?:\.\d+)?)×(\d+(?:\.\d+)?)×(\d+(?:\.\d+)?)`
    | BoxDigits                // `/box/(\d+)\.html`
    | BoxName                  // `/box/([^/]+)\.html`

  /** Three numbers joined by `×` start at `p`. */
  predicate DimensionsAt(s: string, p: nat)
  {
    p < |s| && IsDigit(s[p]) &&
    var e1 := NumberEnd(s, p);
    e1 + 1 < |s| && s[e1] == '×' && IsDigit(s[e1 + 1]) &&
    var e2 := NumberEnd(s, e1 + 1);
    e2 + 1 < |s| && s[e2] == '×' && IsDigit(s[e2 + 1])
  }

  /** Where the group of `/box/([^/]+)\.html` ends for a match at `p`: the greedy group backs
      off to the last `.html` inside the run of non-slash characters. */
  function BoxNameEnd(s: string, p: nat): Option<nat>
    requires p + 5 <= |s|
  {
    LastFrom(s, ".html", p + 6, NonSlashRunEnd(s, p + 5))
  }

  /** `pattern` matches at `p`. */
  predicate MatchAt(s: string, pattern: Pattern, p: nat)
  {
    p < |s| &&
    match pattern
    case NumberUnit(unit) => IsDigit(s[p]) && UnitAt(s, SpaceRunEnd(s, NumberEnd(s, p)), unit)
    case Dimensions => DimensionsAt(s, p)
    case BoxDigits =>
      OccursAt(s, "/box/", p) && DigitRunEnd(s, p + 5) > p + 5 && OccursAt(s, ".html", DigitRunEnd(s, p + 5))
    case BoxName => OccursAt(s, "/box/", p) && BoxNameEnd(s, p).Some?
  }

  /** `re.search(pattern, s)` from `from`: the leftmost start of a match. */
  function Search(s: string, pattern: Pattern, from: nat): (r: Option<nat>)
    decreases |s| - from
    ensures r.Some? ==> from <= r.value && MatchAt(s, pattern, r.value)
    ensures r.Some? ==> forall j :: from <= j < r.value ==> !MatchAt(s, pattern, j)
    ensures r.None? ==> forall j :: from <= j ==> !MatchAt(s, pattern, j)
  {
    if from >= |s| then None
    else if MatchAt(s, pattern, from) then Some(from)
    else Search(s, pattern, from + 1)
  }

  // ---------------------------------------------------------------- product id

  /** The group of `/box/(\d+)\.html` matched at `p`. */
  function BoxDigitsGroup(url: string, p: nat): (g: string)
    requires MatchAt(url, BoxDigits, p)
    ensures IsDigits(g) && OccursAt(url, "/box/" + g + ".html", p)
  {
    var e := DigitRunEnd(url, p + 5);
    DigitsSlice(url, p + 5, e);
    assert url[p..e + 5] == url[p..p + 5] + url[p + 5..e] + url[e..e + 5];
    url[p + 5..e]
  }

  /** `g` is what the group of `/box/([^/]+)\.html` captures at `p`: a non-empty name without
      `/` between `/box/` and `.html`, and, the group being greedy, no later `.html` follows a
      longer run of non-slash characters. */
  predicate NameGroupAt(url: string, p: nat, g: string)
  {
    && g != ""
    && (forall k :: 0 <= k < |g| ==> g[k] != '/')
    && OccursAt(url, "/box/" + g + ".html", p)
    && forall e: nat ::
         p + 5 + |g| < e && e + 5 <= |url| && (forall k :: p + 5 <= k < e ==> url[k] != '/') ==>
           !OccursAt(url, ".html", e)
  }

  /** The group of `/box/([^/]+)\.html` matched at `p`. */
  function BoxNameGroup(url: string, p: nat): (g: string)
    requires MatchAt(url, BoxName, p)
    ensures NameGroupAt(url, p, g)
  {
    var e := BoxNameEnd(url, p).value;
    var r := NonSlashRunEnd(url, p + 5);
    assert url[p..e + 5] == url[p..p + 5] + url[p + 5..e] + url[e..e + 5];
    var g := url[p + 5..e];
    assert forall k :: 0 <= k < |g| ==> g[k] == url[p + 5 + k];
    forall e': nat | e < e' && e' + 5 <= |url| && (forall k :: p + 5 <= k < e' ==> url[k] != '/')
      ensures !OccursAt(url, ".html", e')
    {
      if r < e' {
        assert url[r] == '/';
      }
    }
    g
  }

  /** `_extract_product_id`: the digits of the first `/box/<digits>.html`, else the name in the
      first `/box/<name>.html` with no `/` in the name, else the empty string. */
  function ExtractProductId(url: string): (id: string)
    ensures url == "" || !Contains(url, "/box/") ==> id == ""
    ensures url != "" && (exists q: nat :: MatchAt(url, BoxDigits, q)) ==>
      IsDigits(id) &&
      exists p: nat :: MatchAt(url, BoxDigits, p) && OccursAt(url, "/box/" + id + ".html", p) &&
        forall j: nat :: j < p ==> !MatchAt(url, BoxDigits, j)
    ensures url != "" && (forall q: nat :: !MatchAt(url, BoxDigits, q)) &&
            (exists q: nat :: MatchAt(url, BoxName, q)) ==>
      exists p: nat :: MatchAt(url, BoxName, p) && NameGroupAt(url, p, id) &&
        forall j: nat :: j < p ==> !MatchAt(url, BoxName, j)
    ensures (forall q: nat :: !MatchAt(url, BoxDigits, q)) && (forall q: nat :: !MatchAt(url, BoxName, q)) ==>
      id == ""
    ensures id != "" ==> exists p :: OccursAt(url, "/box/" + id + ".html", p)
  {
    if url == "" then ""
    else
      match Search(url, BoxDigits, 0)
      case Some(p) => BoxDigitsGroup(url, p)
      case None =>
        match Search(url, BoxName, 0)
        case Some(p) => BoxNameGroup(url, p)
        case None =>
          assert !Contains(url, "/box/") ==> forall j :: !OccursAt(url, "/box/", j);
          ""
  }

  // ---------------------------------------------------------------- dimensions

  /** `re.sub(r'\([^)]*\)', '', s)`: each `(` with a `)` after it is removed through the first
      such `)`; a `(` without one stays. */
  function RemoveParens(s: string): (r: string)
    ensures |r| <= |s|
    decreases |s|
  {
    if s == [] then []
    else if s[0] == '(' && Find(s[1..], ")").Some? then RemoveParens(s[1..][Find(s[1..], ")").value + 1..])
    else [s[0]] + RemoveParens(s[1..])
  }

  /** Removing the groups adds no character. */
  lemma {:induction false} RemoveParensChars(s: string)
    ensures forall c :: c in RemoveParens(s) ==> c in s
    decreases |s|
  {
    if s == [] {
    } else if s[0] == '(' && Find(s[1..], ")").Some? {
      var rest := s[1..][Find(s[1..], ")").value + 1..];
      RemoveParensChars(rest);
      assert RemoveParens(s) == RemoveParens(rest);
      forall c | c in rest ensures c in s {
        var k :| 0 <= k < |rest| && rest[k] == c;
        assert s[1 + Find(s[1..], ")").value + 1 + k] == c;
      }
    } else {
      RemoveParensChars(s[1..]);
      assert RemoveParens(s) == [s[0]] + RemoveParens(s[1..]);
      forall c | c in s[1..] ensures c in s {
        var k :| 0 <= k < |s[1..]| && s[1..][k] == c;
        assert s[k + 1] == c;
      }
    }
  }

  /** After removing the groups, no `(` has a `)` after it. */
  lemma {:induction false} RemoveParensNoGroup(s: string)
    ensures forall i, j :: 0 <= i < j < |RemoveParens(s)| && RemoveParens(s)[i] == '(' ==> RemoveParens(s)[j] != ')'
    decreases |s|
  {
    if s == [] {
    } else if s[0] == '(' && Find(s[1..], ")").Some? {
      var rest := s[1..][Find(s[1..], ")").value + 1..];
      RemoveParensNoGroup(rest);
      assert RemoveParens(s) == RemoveParens(rest);
    } else {
      var t := RemoveParens(s[1..]);
      RemoveParensNoGroup(s[1..]);
      var r := [s[0]] + t;
      assert r == RemoveParens(s);
      if s[0] == '(' {
        assert Find(s[1..], ")").None?;
        RemoveParensChars(s[1..]);
        forall c | c in t ensures c != ')' {
          if c == ')' {
            var k :| 0 <= k < |s[1..]| && s[1..][k] == c;
            assert OccursAt(s[1..], ")", k) by { assert s[1..][k..k + 1] == [c]; }
          }
        }
      }
      forall i, j | 0 <= i < j < |r| && r[i] == '(' ensures r[j] != ')' {
        assert r[j] == t[j - 1];
        if i == 0 {
          assert s[0] == '(';
          assert t[j - 1] in t;
          assert t[j - 1] != ')';
        } else {
          assert t[i - 1] == '(' && 0 <= i - 1 < j - 1 < |t|;
          assert t[j - 1] != ')';
        }
      }
    }
  }

  /** `re.sub(r'\s*<unit>\s*$', '', s)`: the unit at the end, with the whitespace around it,
      is removed. */
  function StripUnit(s: string, unit: string): string
  {
    var t := StripEnd(s);
    if EndsWith(t, unit) then StripEnd(t[..|t| - |unit|]) else s
  }

  /** A `dd` cell's text with notes in parentheses and a trailing `mm` or `cm` removed. */
  function DimensionsText(text: string): string
  {
    StripUnit(StripUnit(RemoveParens(text), "mm"), "cm")
  }

  /** `length / 10.0` for a length over 100, read as millimetres. */
  function ToCm(x: real): real
  {
    if x > 100.0 then x / 10.0 else x
  }

  /** The first `a×b×c` of a text, each over 100 divided by 10. */
  function FirstDimensions(t: string): (r: Option<(real, real, real)>)
    ensures r.Some? ==> r.value.0 >= 0.0 && r.value.1 >= 0.0 && r.value.2 >= 0.0
  {
    match Search(t, Dimensions, 0)
    case Some(p) =>
      var e1 := NumberEnd(t, p);
      var e2 := NumberEnd(t, e1 + 1);
      Some((ToCm(NumberAt(t, p).Value()), ToCm(NumberAt(t, e1 + 1).Value()), ToCm(NumberAt(t, e2 + 1).Value())))
    case None => None
  }

  /** `_parse_dimensions`: the first `a×b×c` of the cleaned text, each over 100 divided by 10,
      or `None` when there is none. */
  function ParseDimensions(text: string): (r: Option<(real, real, real)>)
    ensures r.Some? ==> r.value.0 >= 0.0 && r.value.1 >= 0.0 && r.value.2 >= 0.0
  {
    FirstDimensions(DimensionsText(text))
  }

  /** No dimensions are read exactly when the cleaned text has no `a×b×c`. */
  lemma DimensionsNone(text: string)
    ensures ParseDimensions(text).None? <==> forall p :: !MatchAt(DimensionsText(text), Dimensions, p)
  {
    var found := Search(DimensionsText(text), Dimensions, 0);
  }

  // ---------------------------------------------------------------- volume and weight

  /** `_parse_volume`: a number before `L` in litres as cm³, else a number before `cm³`. */
  function ParseVolume(text: string): (r: Option<real>)
    ensures r.Some? ==> r.value >= 0.0
  {
    match Search(text, NumberUnit("l"), 0)
    case Some(p) => Some(NumberAt(text, p).Value() * 1000.0)
    case None =>
      match Search(text, NumberUnit("cm³"), 0)
      case Some(p) => Some(NumberAt(text, p).Value())
      case None => None
  }

  /** `_parse_weight`: a number before `g` in grams, else a number before `kg` times 1000. */
  function ParseWeight(text: string): (r: Option<real>)
    ensures r.Some? ==> r.value >= 0.0
  {
    match Search(text, NumberUnit("g"), 0)
    case Some(p) => Some(NumberAt(text, p).Value())
    case None =>
      match Search(text, NumberUnit("kg"), 0)
      case Some(p) => Some(NumberAt(text, p).Value() * 1000.0)
      case None => None
  }

  /** No volume is read exactly when neither `<n> L` nor `<n> cm³` occurs. */
  lemma VolumeNone(text: string)
    ensures ParseVolume(text).None? <==>
      forall p :: !MatchAt(text, NumberUnit("l"), p) && !MatchAt(text, NumberUnit("cm³"), p)
  {
    var l := Search(text, NumberUnit("l"), 0);
    var c := Search(text, NumberUnit("cm³"), 0);
    assert ParseVolume(text).None? <==> l.None? && c.None?;
  }

  /** No weight is read exactly when neither `<n> g` nor `<n> kg` occurs. */
  lemma WeightNone(text: string)
    ensures ParseWeight(text).None? <==>
      forall p :: !MatchAt(text, NumberUnit("g"), p) && !MatchAt(text, NumberUnit("kg"), p)
  {
    var g := Search(text, NumberUnit("g"), 0);
    var k := Search(text, NumberUnit("kg"), 0);
    assert ParseWeight(text).None? <==> g.None? && k.None?;
  }

  // ---------------------------------------------------------------- reading back what was written

  lemma {:induction false} DigitRunEndAt(s: string, i: nat, e: nat)
    requires i <= e <= |s|
    requires forall k :: i <= k < e ==> IsDigit(s[k])
    requires e == |s| || !IsDigit(s[e])
    ensures DigitRunEnd(s, i) == e
    decreases e - i
  {
    if i < e {
      DigitRunEndAt(s, i + 1, e);
    }
  }

  /** A run of digits followed by neither a digit nor a point is read as a whole number. */
  lemma WholeNumberAt(s: string, p: nat, d: string)
    requires IsDigits(d) && OccursAt(s, d, p)
    requires p + |d| == |s| || (!IsDigit(s[p + |d|]) && s[p + |d|] != '.')
    ensures NumberAt(s, p) == Decimal(d, "")
    ensures NumberEnd(s, p) == p + |d|
  {
    assert forall k :: p <= k < p + |d| ==> s[k] == d[k - p];
    DigitRunEndAt(s, p, p + |d|);
  }

  lemma NatValue(n: nat)
    ensures Decimal(NatToString(n), "").WellFormed()
    ensures Decimal(NatToString(n), "").Value() == n as real
  {
    NatToStringRoundTrip(n);
  }

  /** In `<digits> <unit>`, a number-and-unit pattern can only match inside the digits, and
      there exactly when its unit is the one written. */
  lemma NumberUnitIn(ds: string, unit: string, x: string, p: nat)
    requires IsDigits(ds) && unit != ""
    requires forall k :: 0 <= k < |unit| ==> !IsDigit(unit[k])
    requires !IsSpace(unit[0])
    ensures var s := ds + " " + unit;
      MatchAt(s, NumberUnit(x), p) <==> p < |ds| && UnitAt(s, |ds| + 1, x)
  {
    var s := ds + " " + unit;
    if p < |ds| {
      assert ds[p..] == s[p..|ds|];
      WholeNumberAt(s, p, ds[p..]);
      assert SpaceRunEnd(s, |ds|) == |ds| + 1 by {
        assert s[|ds| + 1] == unit[0];
      }
    } else if p < |s| {
      if p > |ds| {
        assert s[p] == unit[p - |ds| - 1];
      }
    }
  }

  /** The first match is at 0 when there is one. */
  lemma SearchAtStart(s: string, pattern: Pattern)
    requires MatchAt(s, pattern, 0)
    ensures Search(s, pattern, 0) == Some(0)
  {
  }

  /** In `<digits> <unit>`, a number-and-unit pattern is found at the start exactly when its
      unit is the one written, and then reads the digits. */
  lemma SearchNumberUnitIn(ds: string, unit: string, x: string)
    requires IsDigits(ds) && unit != ""
    requires forall k :: 0 <= k < |unit| ==> !IsDigit(unit[k])
    requires !IsSpace(unit[0])
    ensures var s := ds + " " + unit;
      Search(s, NumberUnit(x), 0) == if UnitAt(s, |ds| + 1, x) then Some(0) else None
    ensures NumberAt(ds + " " + unit, 0) == Decimal(ds, "")
  {
    var s := ds + " " + unit;
    forall p: nat ensures MatchAt(s, NumberUnit(x), p) <==> p < |ds| && UnitAt(s, |ds| + 1, x) {
      NumberUnitIn(ds, unit, x, p);
    }
    if UnitAt(s, |ds| + 1, x) {
      SearchAtStart(s, NumberUnit(x));
    }
    WholeNumberAt(s, 0, ds);
  }

  lemma WeightFromKilograms(s: string, d: Decimal)
    requires Search(s, NumberUnit("g"), 0).None? && Search(s, NumberUnit("kg"), 0) == Some(0)
    requires NumberAt(s, 0) == d
    ensures ParseWeight(s) == Some(d.Value() * 1000.0)
  {
    var w := Search(s, NumberUnit("kg"), 0);
    assert w == Some(0);
    assert ParseWeight(s) == Some(NumberAt(s, w.value).Value() * 1000.0);
  }

  lemma VolumeFromCubicCentimetres(s: string, d: Decimal)
    requires Search(s, NumberUnit("l"), 0).None? && Search(s, NumberUnit("cm³"), 0) == Some(0)
    requires NumberAt(s, 0) == d
    ensures ParseVolume(s) == Some(d.Value())
  {
  }

  /** Written as `<n> g`, a weight reads back in grams. */
  lemma WeightGrams(n: nat)
    ensures ParseWeight(NatToString(n) + " g") == Some(n as real)
  {
    var ds := NatToString(n);
    NatValue(n);
    var s := ds + " g";
    assert s == ds + " " + "g";
    assert s[|ds| + 1] == 'g';
    assert UnitAt(s, |ds| + 1, "g");
    SearchNumberUnitIn(ds, "g", "g");
    assert Search(s, NumberUnit("g"), 0) == Some(0);
  }

  lemma KilogramSearches(ds: string)
    requires IsDigits(ds)
    ensures Search(ds + " kg", NumberUnit("g"), 0).None?
    ensures Search(ds + " kg", NumberUnit("kg"), 0) == Some(0)
    ensures NumberAt(ds + " kg", 0) == Decimal(ds, "")
  {
    var s := ds + " kg";
    assert s == ds + " " + "kg";
    assert s[|ds| + 1] == 'k' && s[|ds| + 2] == 'g';
    assert !FoldMatch(s[|ds| + 1], "g"[0]);
    assert !UnitAt(s, |ds| + 1, "g");
    assert UnitAt(s, |ds| + 1, "kg");
    SearchNumberUnitIn(ds, "kg", "g");
    SearchNumberUnitIn(ds, "kg", "kg");
  }

  /** Written as `<n> kg`, a weight reads back in grams. */
  lemma WeightKilograms(n: nat)
    ensures ParseWeight(NatToString(n) + " kg") == Some(n as real * 1000.0)
  {
    var ds := NatToString(n);
    NatValue(n);
    KilogramSearches(ds);
    WeightFromKilograms(ds + " kg", Decimal(ds, ""));
  }

  /** Written as `<n> L`, a volume reads back in cm³. */
  lemma VolumeLitres(n: nat)
    ensures ParseVolume(NatToString(n) + " L") == Some(n as real * 1000.0)
  {
    var ds := NatToString(n);
    NatValue(n);
    var s := ds + " L";
    assert s == ds + " " + "L";
    assert s[|ds| + 1] == 'L';
    assert UnitAt(s, |ds| + 1, "l");
    SearchNumberUnitIn(ds, "L", "l");
  }

  /** Written as `<n> cm³`, a volume reads back in cm³. */
  lemma VolumeCubicCentimetres(n: nat)
    ensures ParseVolume(NatToString(n) + " cm³") == Some(n as real)
  {
    var ds := NatToString(n);
    NatValue(n);
    var s := ds + " cm³";
    assert s == ds + " " + "cm³";
    assert s[|ds| + 1] == 'c' && s[|ds| + 2] == 'm' && s[|ds| + 3] == '³';
    assert !FoldMatch(s[|ds| + 1], "l"[0]);
    assert !UnitAt(s, |ds| + 1, "l");
    assert UnitAt(s, |ds| + 1, "cm³");
    SearchNumberUnitIn(ds, "cm³", "l");
    SearchNumberUnitIn(ds, "cm³", "cm³");
    VolumeFromCubicCentimetres(s, Decimal(ds, ""));
  }

  lemma {:induction false} RemoveParensPrefix(x: string, y: string)
    requires forall k :: 0 <= k < |x| ==> x[k] != '('
    ensures RemoveParens(x + y) == x + RemoveParens(y)
  {
    if x != [] {
      assert (x + y)[0] == x[0];
      assert (x + y)[1..] == x[1..] + y;
      RemoveParensPrefix(x[1..], y);
      assert x == [x[0]] + x[1..];
    } else {
      assert x + y == y;
    }
  }

  /** A note in parentheses is removed. */
  lemma RemoveParensGroup(note: string, y: string)
    requires forall k :: 0 <= k < |note| ==> note[k] != ')'
    ensures RemoveParens("(" + note + ")" + y) == RemoveParens(y)
  {
    var s := "(" + note + ")" + y;
    var t := s[1..];
    assert t == note + ")" + y;
    assert OccursAt(t, ")", |note|) by {
      assert t[|note|..|note| + 1] == ")";
    }
    forall j | 0 <= j < |note| ensures !OccursAt(t, ")", j) {
      assert t[j..j + 1] == [note[j]];
    }
    assert Find(t, ")") == Some(|note|);
    assert t[|note| + 1..] == y;
  }

  lemma StripEndKeeps(s: string)
    requires s == [] || !IsSpace(s[|s| - 1])
    ensures StripEnd(s) == s
  {
  }

  /** `re.sub(r'\s*mm\s*$', '', x + " mm")` is `x` when `x` does not end in whitespace. */
  lemma StripUnitMillimetres(x: string)
    requires x != [] && !IsSpace(x[|x| - 1])
    ensures StripUnit(x + " mm", "mm") == x
  {
    var t := x + " mm";
    StripEndKeeps(t);
    assert t[|t| - 2..] == "mm";
    assert t[..|t| - 2] == x + " ";
    assert (x + " ")[..|x|] == x;
    StripEndKeeps(x);
  }

  /** A text ending in a digit has no unit to strip. */
  lemma StripUnitDigit(x: string, unit: string)
    requires x != [] && IsDigit(x[|x| - 1])
    requires unit != [] && !IsDigit(unit[|unit| - 1])
    ensures StripUnit(x, unit) == x
  {
    StripEndKeeps(x);
    assert !EndsWith(x, unit) by {
      if |unit| <= |x| {
        assert x[|x| - |unit|..][|unit| - 1] == x[|x| - 1];
      }
    }
  }

  /** `a×b×c` is found at the start and read as its three numbers. */
  lemma DimensionsRead(a: string, b: string, c: string)
    requires IsDigits(a) && IsDigits(b) && IsDigits(c)
    ensures var x := a + "×" + b + "×" + c;
      Search(x, Dimensions, 0) == Some(0)
      && NumberEnd(x, 0) == |a| && NumberAt(x, 0) == Decimal(a, "")
      && NumberEnd(x, |a| + 1) == |a| + 1 + |b| && NumberAt(x, |a| + 1) == Decimal(b, "")
      && NumberAt(x, |a| + |b| + 2) == Decimal(c, "")
  {
    var x := a + "×" + b + "×" + c;
    assert x[..|a|] == a;
    assert x[|a|] == '×';
    WholeNumberAt(x, 0, a);
    assert x[|a| + 1..|a| + 1 + |b|] == b;
    assert x[|a| + 1 + |b|] == '×';
    WholeNumberAt(x, |a| + 1, b);
    assert x[|a| + |b| + 2..] == c;
    WholeNumberAt(x, |a| + |b| + 2, c);
    assert MatchAt(x, Dimensions, 0);
    SearchAtStart(x, Dimensions);
  }

  /** The cleaning before the search leaves `a×b×c` when a note in parentheses and ` mm` follow. */
  lemma DimensionsTextOf(x: string, note: string)
    requires x != [] && IsDigit(x[|x| - 1])
    requires forall k :: 0 <= k < |x| ==> x[k] != '('
    requires forall k :: 0 <= k < |note| ==> note[k] != ')'
    ensures DimensionsText(x + "(" + note + ")" + " mm") == x
  {
    var s := x + "(" + note + ")" + " mm";
    assert RemoveParens(s) == x + " mm" by {
      assert s == x + ("(" + note + ")" + " mm");
      RemoveParensPrefix(x, "(" + note + ")" + " mm");
      RemoveParensGroup(note, " mm");
      RemoveParensPrefix(" mm", "");
      assert " mm" + "" == " mm";
    }
    assert StripUnit(x + " mm", "mm") == x by {
      StripUnitMillimetres(x);
    }
    assert StripUnit(x, "cm") == x by {
      StripUnitDigit(x, "cm");
    }
  }

  lemma DimensionsShape(a: string, b: string, c: string)
    requires IsDigits(a) && IsDigits(b) && IsDigits(c)
    ensures var x := a + "×" + b + "×" + c;
      x != [] && IsDigit(x[|x| - 1]) && forall k :: 0 <= k < |x| ==> x[k] != '('
  {
    var x := a + "×" + b + "×" + c;
    forall k | 0 <= k < |x| ensures x[k] != '(' {
      if k < |a| {
        assert x[k] == a[k];
      } else if |a| < k < |a| + 1 + |b| {
        assert x[k] == b[k - |a| - 1];
      } else if k > |a| + 1 + |b| {
        assert x[k] == c[k - |a| - |b| - 2];
      }
    }
    assert x[|x| - 1] == c[|c| - 1];
  }

  /** Three digit strings joined by `×` read as their numbers, each over 100 divided by 10. */
  lemma FirstDimensionsOfDigits(a: string, b: string, c: string)
    requires IsDigits(a) && IsDigits(b) && IsDigits(c)
    ensures FirstDimensions(a + "×" + b + "×" + c)
      == Some((ToCm(Decimal(a, "").Value()), ToCm(Decimal(b, "").Value()), ToCm(Decimal(c, "").Value())))
  {
    DimensionsRead(a, b, c);
    FirstDimensionsAtStart(a + "×" + b + "×" + c, |a|, |a| + 1 + |b|, Decimal(a, ""), Decimal(b, ""), Decimal(c, ""));
  }

  lemma FirstDimensionsAtStart(t: string, e1: nat, e2: nat, d1: Decimal, d2: Decimal, d3: Decimal)
    requires Search(t, Dimensions, 0) == Some(0)
    requires NumberEnd(t, 0) == e1 && NumberAt(t, 0) == d1
    requires NumberEnd(t, e1 + 1) == e2 && NumberAt(t, e1 + 1) == d2
    requires NumberAt(t, e2 + 1) == d3
    ensures FirstDimensions(t) == Some((ToCm(d1.Value()), ToCm(d2.Value()), ToCm(d3.Value())))
  {
  }

  lemma FirstDimensionsOf(a: nat, b: nat, c: nat)
    ensures FirstDimensions(NatToString(a) + "×" + NatToString(b) + "×" + NatToString(c))
      == Some((ToCm(a as real), ToCm(b as real), ToCm(c as real)))
  {
    NatValue(a);
    NatValue(b);
    NatValue(c);
    FirstDimensionsOfDigits(NatToString(a), NatToString(b), NatToString(c));
  }

  /** Written as `a×b×c(<note>) mm`, dimensions read back, each over 100 divided by 10. */
  lemma DimensionsRoundTrip(a: nat, b: nat, c: nat, note: string)
    requires forall k :: 0 <= k < |note| ==> note[k] != ')'
    ensures ParseDimensions(NatToString(a) + "×" + NatToString(b) + "×" + NatToString(c) + "(" + note + ")" + " mm")
      == Some((ToCm(a as real), ToCm(b as real), ToCm(c as real)))
  {
    var sa, sb, sc := NatToString(a), NatToString(b), NatToString(c);
    NatToStringRoundTrip(a);
    NatToStringRoundTrip(b);
    NatToStringRoundTrip(c);
    var x := sa + "×" + sb + "×" + sc;
    DimensionsShape(sa, sb, sc);
    DimensionsTextOf(x, note);
    FirstDimensionsOf(a, b, c);
  }

  /** The cell `636×206×212(深さ) mm` of the parser's comments reads as 63.6 × 20.6 × 21.2 cm. */
  lemma DimensionsExample()
    ensures ParseDimensions("636" + "×" + "206" + "×" + "212" + "(" + "深さ" + ")" + " mm") == Some((63.6, 20.6, 21.2))
  {
    ExampleNumerals();
    DimensionsRoundTrip(636, 206, 212, "深さ");
  }

  lemma ExampleNumerals()
    ensures NatToString(636) == "636" && NatToString(206) == "206" && NatToString(212) == "212"
  {
    assert NatToString(63) == "63" by {
      assert NatToString(6) == "6";
    }
    assert NatToString(20) == "20" by {
      assert NatToString(2) == "2";
    }
    assert NatToString(21) == "21" by {
      assert NatToString(2) == "2";
    }
  }

  /** The id of a box page path is its number. */
  lemma ProductIdOfBoxPath(d: string)
    requires IsDigits(d)
    ensures ExtractProductId("/cardboard/box/" + d + ".html") == d
  {
    var url := "/cardboard/box/" + d + ".html";
    var head := "/cardboard/box/";
    assert url[..15] == head;
    forall p | 0 <= p < 10 ensures !MatchAt(url, BoxDigits, p) {
      assert url[p] == head[p] && url[p + 1] == head[p + 1];
      assert url[p..p + 5][0] == url[p] && url[p..p + 5][1] == url[p + 1];
    }
    assert url[10..15] == "/box/";
    assert forall k :: 15 <= k < 15 + |d| ==> url[k] == d[k - 15];
    assert url[15 + |d|] == '.';
    DigitRunEndAt(url, 15, 15 + |d|);
    assert url[15 + |d|..15 + |d| + 5] == ".html";
    assert MatchAt(url, BoxDigits, 10);
    assert Search(url, BoxDigits, 0) == Some(10);
    assert url[15..15 + |d|] == d;
  }

  /** A box page named by something other than digits is read by the fallback pattern. */
  lemma ProductIdOfNamedBox()
    ensures ExtractProductId("/box/x.html") == "x"
  {
    var url := "/box/x.html";
    forall q: nat ensures !MatchAt(url, BoxDigits, q) {
      if 0 < q < |url| && q + 5 <= |url| {
        assert url[q..q + 5][0] == url[q];
      }
    }
    assert url[0..5] == "/box/" && url[6..11] == ".html";
    assert MatchAt(url, BoxName, 0);
  }

  /** A name with a `/` in it matches neither pattern, so the id is empty. */
  lemma ProductIdOfNestedBox()
    ensures ExtractProductId("/box/a/b.html") == ""
  {
    var url := "/box/a/b.html";
    forall q: nat ensures !MatchAt(url, BoxDigits, q) && !MatchAt(url, BoxName, q) {
      if 0 < q && q + 5 <= |url| {
        assert url[q..q + 5][0] == url[q];
      } else if q == 0 {
        assert url[5] == 'a' && url[6] == '/';
        assert NonSlashRunEnd(url, 6) == 6;
        assert NonSlashRunEnd(url, 5) == 6;
        assert !OccursAt(url, ".html", 6) by {
          assert url[6..11][0] == '/';
        }
        assert LastFrom(url, ".html", 6, 6).None?;
      }
    }
    assert Search(url, BoxDigits, 0).None? && Search(url, BoxName, 0).None?;
  }
}
