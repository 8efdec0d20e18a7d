/** The box-url tracker (box_url_tracker.py): the anchors of a page whose href names a box page
    `/cardboard/box/<digits>.html`, as relative paths without query or fragment, collected once
    each in page order, and the set of every box url seen across pages. */
module BoxUrlTracker {
  import opened Wrappers
  import opened Seqs
  import opened PyStrings
  import opened HtmlEvents

  const Marker: string := "/cardboard/box/"

  /** `url.split("?")[0].split("#")[0]` */
  function CleanUrl(url: string): string
  {
    Split(Split(url, "?")[0], "#")[0]
  }

  predicate Free(s: string, c: char)
  {
    forall k :: 0 <= k < |s| ==> s[k] != c
  }

  /** The cleaned url is a prefix of the url and has neither a query nor a fragment. */
  lemma CleanUrlSpec(url: string)
    ensures StartsWith(url, CleanUrl(url))
    ensures Free(CleanUrl(url), '?') && Free(CleanUrl(url), '#')
  {
    var h := Split(url, "?")[0];
    SplitHeadFree(url, '?');
    SplitHeadFree(h, '#');
    var c := CleanUrl(url);
    assert h[..|c|] == c;
    assert url[..|c|] == h[..|c|];
    forall k | 0 <= k < |c| ensures c[k] != '?' {
      assert c[k] == h[k];
    }
  }

  /** A string free of a character is its own first piece when split at it. */
  lemma SplitFree(s: string, c: char)
    requires Free(s, c)
    ensures Split(s, [c])[0] == s
  {
    forall j | 0 <= j ensures !OccursAt(s, [c], j) {
      if j + 1 <= |s| {
        assert s[j..j + 1][0] == s[j];
      }
    }
    SplitHead(s, [c]);
  }

  /** `_is_box_url` as written: after cleaning, the marker once, a `.html` ending, and a piece
      after the marker that is all digits once every `.html` in it is removed. */
  predicate IsBoxUrlAsWritten(url: string)
  {
    url != "" &&
    var clean := CleanUrl(url);
    Contains(clean, Marker) && EndsWith(clean, ".html") &&
    var parts := Split(clean, Marker);
    |parts| == 2 && IsDigits(Replace(parts[1], ".html", ""))
  }

  /** A box page name: digits followed by `.html`. */
  predicate IsBoxFileName(f: string)
  {
    EndsWith(f, ".html") && IsDigits(f[..|f| - 5])
  }

  /** `_is_box_url` as its comment describes it: after cleaning, the marker once and a box page
      name after it. */
  predicate IsBoxUrl(url: string)
  {
    url != "" &&
    var parts := Split(CleanUrl(url), Marker);
    |parts| == 2 && IsBoxFileName(parts[1])
  }

  /** A box url, cleaned, is some prefix, the marker, digits and `.html`. */
  lemma BoxUrlShape(url: string)
    requires IsBoxUrl(url)
    ensures var clean := CleanUrl(url);
      var parts := Split(clean, Marker);
      var digits := parts[1][..|parts[1]| - 5];
      clean == parts[0] + Marker + digits + ".html" && IsDigits(digits)
      && EndsWith(clean, ".html") && Contains(clean, Marker)
  {
    var clean := CleanUrl(url);
    var parts := Split(clean, Marker);
    var digits := parts[1][..|parts[1]| - 5];
    SplitJoin(clean, Marker);
    assert Join(parts, Marker) == parts[0] + Marker + parts[1] by {
      assert parts[1..] == [parts[1]];
    }
    assert parts[1] == digits + ".html";
    assert clean == parts[0] + Marker + digits + ".html";
    assert clean[|clean| - 5..] == ".html";
    assert Find(clean, Marker).Some?;
  }

  lemma NoPointInDigits(s: string)
    requires AllDigits(s)
    ensures forall j :: 0 <= j ==> !OccursAt(s + ".html", ".html", j) || j == |s|
  {
    forall j | 0 <= j && j != |s| ensures !OccursAt(s + ".html", ".html", j) {
      if j < |s| && j + 5 <= |s + ".html"| {
        assert (s + ".html")[j..j + 5][0] == s[j];
      }
    }
  }

  /** Removing `.html` from a box page name leaves its digits. */
  lemma ReplaceBoxFileName(digits: string)
    requires IsDigits(digits)
    ensures Replace(digits + ".html", ".html", "") == digits
  {
    var f := digits + ".html";
    NoPointInDigits(digits);
    assert OccursAt(f, ".html", |digits|) by {
      assert f[|digits|..|digits| + 5] == ".html";
    }
    assert Find(f, ".html") == Some(|digits|);
    assert f[|digits| + 5..] == "";
    assert Split(f, ".html") == [digits] + Split("", ".html");
    assert Split(f, ".html") == [digits, ""];
    assert Join([digits, ""], "") == digits + "" + "";
  }

  /** Every url the corrected test accepts, the test as written accepts too. */
  lemma BoxUrlIsAsWritten(url: string)
    requires IsBoxUrl(url)
    ensures IsBoxUrlAsWritten(url)
  {
    BoxUrlShape(url);
    var parts := Split(CleanUrl(url), Marker);
    var digits := parts[1][..|parts[1]| - 5];
    assert parts[1] == digits + ".html";
    ReplaceBoxFileName(digits);
  }

  const DoubleSuffix: string := "/cardboard/box/12.html.html"

  lemma DoubleSuffixClean()
    ensures CleanUrl(DoubleSuffix) == DoubleSuffix
  {
    var url := DoubleSuffix;
    assert Free(url, '?') && Free(url, '#');
    SplitFree(url, '?');
    SplitFree(url, '#');
  }

  lemma DoubleSuffixParts()
    ensures Split(DoubleSuffix, Marker) == ["", "12.html.html"]
  {
    var url := DoubleSuffix;
    assert url[..|Marker|] == Marker;
    SplitFirst(url, Marker, 0);
    assert url[..0] == "" && url[|Marker|..] == "12.html.html";
    SplitNone("12.html.html", Marker);
  }

  lemma SplitSuffixAlone()
    ensures Split(".html", ".html") == ["", ""]
  {
    SplitFirst(".html", ".html", 0);
    assert ".html"[5..] == "";
    SplitNone("", ".html");
  }

  lemma SplitDoubleSuffix()
    ensures Split("12.html.html", ".html") == ["12"] + Split(".html", ".html")
  {
    var tail := "12.html.html";
    assert tail[2..7] == ".html";
    assert tail[0] != '.' && tail[1] != '.';
    assert !OccursAt(tail, ".html", 0) by { assert tail[0..5][0] == tail[0]; }
    assert !OccursAt(tail, ".html", 1) by { assert tail[1..6][0] == tail[1]; }
    SplitFirst(tail, ".html", 2);
    assert tail[..2] == "12" && tail[7..] == ".html";
  }

  lemma DoubleSuffixReplace()
    ensures Replace("12.html.html", ".html", "") == "12"
  {
    SplitSuffixAlone();
    SplitDoubleSuffix();
    assert Split("12.html.html", ".html") == ["12", "", ""];
    JoinCons("", [""], "");
    JoinCons("12", ["", ""], "");
  }

  /** The test as written accepts a url that cleaning leaves alone, holding the marker once,
      ending in `.html`, and whose piece after the marker is digits once `.html` is removed. */
  lemma AsWrittenFrom(url: string, tail: string)
    requires url != "" && CleanUrl(url) == url && Split(url, Marker) == ["", tail]
    requires Contains(url, Marker) && EndsWith(url, ".html")
    requires IsDigits(Replace(tail, ".html", ""))
    ensures IsBoxUrlAsWritten(url)
  {
  }

  /** The corrected test, in terms of the cleaned url's pieces. */
  lemma BoxUrlOf(url: string, parts: seq<string>)
    requires Split(CleanUrl(url), Marker) == parts
    ensures IsBoxUrl(url) <==> url != "" && |parts| == 2 && IsBoxFileName(parts[1])
  {
  }

  lemma DoubleSuffixTailDigits()
    ensures IsDigits(Replace("12.html.html", ".html", ""))
  {
    DoubleSuffixReplace();
    assert IsDigits("12");
  }

  lemma DoubleSuffixMarker()
    ensures Contains(DoubleSuffix, Marker)
  {
    var url := DoubleSuffix;
    assert url[..|Marker|] == Marker;
    assert OccursAt(url, Marker, 0);
  }

  lemma DoubleSuffixEnding()
    ensures EndsWith(DoubleSuffix, ".html")
  {
    var url := DoubleSuffix;
    assert url[|url| - 5..] == ".html";
  }

  lemma DoubleSuffixAsWritten()
    ensures IsBoxUrlAsWritten(DoubleSuffix)
  {
    DoubleSuffixClean();
    DoubleSuffixParts();
    DoubleSuffixTailDigits();
    DoubleSuffixMarker();
    DoubleSuffixEnding();
    AsWrittenFrom(DoubleSuffix, "12.html.html");
  }

  lemma DoubleSuffixName()
    ensures !IsBoxFileName("12.html.html")
  {
    var tail := "12.html.html";
    var name := tail[..|tail| - 5];
    assert name[2] == '.';
    assert !AllDigits(name);
  }

  lemma DoubleSuffixNotBox()
    ensures !IsBoxUrl(DoubleSuffix)
  {
    var parts := ["", "12.html.html"];
    assert Split(CleanUrl(DoubleSuffix), Marker) == parts by {
      DoubleSuffixClean();
      DoubleSuffixParts();
    }
    BoxUrlOf(DoubleSuffix, parts);
    DoubleSuffixName();
  }

  /** The test as written also accepts a page name with `.html` twice, which is not digits
      followed by `.html`. */
  lemma AsWrittenAcceptsDoubleSuffix()
    ensures IsBoxUrlAsWritten(DoubleSuffix)
    ensures !IsBoxUrl(DoubleSuffix)
  {
    DoubleSuffixAsWritten();
    DoubleSuffixNotBox();
  }

  /** `_normalize_url`: the path when the url is absolute (`urlPath` stands for
      `urlparse(url).path`), without query and fragment, with a leading `/`. */
  function Normalize(url: string, urlPath: string -> string): string
  {
    var path := if Contains(url, "http://") || Contains(url, "https://") then urlPath(url) else url;
    var clean := CleanUrl(path);
    if StartsWith(clean, "/") then clean else "/" + clean
  }

  /** A normalised url starts with `/` and has no query or fragment. */
  lemma NormalizeSpec(url: string, urlPath: string -> string)
    ensures StartsWith(Normalize(url, urlPath), "/")
    ensures Free(Normalize(url, urlPath), '?') && Free(Normalize(url, urlPath), '#')
  {
    var path := if Contains(url, "http://") || Contains(url, "https://") then urlPath(url) else url;
    CleanUrlSpec(path);
    var clean := CleanUrl(path);
    if !StartsWith(clean, "/") {
      var r := "/" + clean;
      assert r[..1] == "/";
      forall k | 0 <= k < |r| ensures r[k] != '?' && r[k] != '#' {
        if k > 0 { assert r[k] == clean[k - 1]; }
      }
    }
  }

  /** A relative path with a leading `/` and neither query nor fragment is already normal. */
  lemma NormalizeKeepsPath(url: string, urlPath: string -> string)
    requires !Contains(url, "http://") && !Contains(url, "https://")
    requires StartsWith(url, "/") && Free(url, '?') && Free(url, '#')
    ensures Normalize(url, urlPath) == url
  {
    SplitFree(url, '?');
    SplitFree(url, '#');
  }

  /** What `handle_starttag` makes of one href: its normal form when `_is_box_url`, as written,
      accepts it. */
  function BoxCandidate(urlPath: string -> string): string -> Option<string>
  {
    (h: string) => if IsBoxUrlAsWritten(h) then Some(Normalize(h, urlPath)) else None
  }

  /** The box urls among some hrefs, normalised, in order. */
  function BoxCandidates(hrefs: seq<string>, urlPath: string -> string): seq<string>
  {
    FilterMap(hrefs, BoxCandidate(urlPath))
  }

  /** The urls the parser collects from a page: each box url normalised, once, in the order of
      first appearance. */
  function BoxUrls(events: seq<Event>, urlPath: string -> string): seq<string>
  {
    AddAll([], BoxCandidates(AnchorHrefs(events), urlPath))
  }

  lemma AddAllOne<T>(acc: seq<T>, x: T)
    ensures AddAll(acc, [x]) == AddNew(acc, x)
  {
    assert [x][..0] == [];
  }

  /** One more attribute: the parser adds its candidate, if any, unless already present. */
  lemma HrefStep(acc: seq<string>, hs: seq<string>, a: Attr, f: string -> Option<string>)
    ensures AddAll(acc, FilterMap(hs + (if IsHref(a) then [a.value.value] else []), f)) ==
      if IsHref(a) && f(a.value.value).Some? then AddNew(AddAll(acc, FilterMap(hs, f)), f(a.value.value).value)
      else AddAll(acc, FilterMap(hs, f))
  {
    var more := if IsHref(a) then [a.value.value] else [];
    FilterMapAppend(hs, more, f);
    AddAllAppend(acc, FilterMap(hs, f), FilterMap(more, f));
    if IsHref(a) {
      FilterMapSingle(a.value.value, f);
      if f(a.value.value).Some? {
        AddAllOne(AddAll(acc, FilterMap(hs, f)), f(a.value.value).value);
      }
    }
  }

  /** One more event: the parser adds the candidates of its anchor hrefs. */
  lemma EventStep(acc: seq<string>, events: seq<Event>, i: nat, f: string -> Option<string>)
    requires i < |events|
    ensures AddAll(acc, FilterMap(AnchorHrefs(events[..i + 1]), f)) ==
      AddAll(AddAll(acc, FilterMap(AnchorHrefs(events[..i]), f)), FilterMap(HrefsOf(events[i]), f))
  {
    assert events[..i + 1][..i] == events[..i];
    FilterMapAppend(AnchorHrefs(events[..i]), HrefsOf(events[i]), f);
    AddAllAppend(acc, FilterMap(AnchorHrefs(events[..i]), f), FilterMap(HrefsOf(events[i]), f));
  }

  /** `_BoxUrlParser` */
  class BoxUrlParser {
    var urls: seq<string>

    constructor()
      ensures urls == []
    {
      urls := [];
    }

    /** `handle_starttag`: the box hrefs of an anchor, normalised, each added unless present. */
    method HandleStartTag(tag: string, attrs: seq<Attr>, urlPath: string -> string)
      modifies this
      ensures urls == AddAll(old(urls), BoxCandidates(if tag == "a" then Hrefs(attrs) else [], urlPath))
    {
      if tag == "a" {
        for i := 0 to |attrs|
          invariant urls == AddAll(old(urls), BoxCandidates(Hrefs(attrs[..i]), urlPath))
        {
          var a := attrs[i];
          assert attrs[..i + 1][..i] == attrs[..i];
          assert Hrefs(attrs[..i + 1]) == Hrefs(attrs[..i]) + (if IsHref(a) then [a.value.value] else []);
          HrefStep(old(urls), Hrefs(attrs[..i]), a, BoxCandidate(urlPath));
          if a.name == "href" && a.value.Some? && a.value.value != "" {
            var value := a.value.value;
            if IsBoxUrlAsWritten(value) {
              var normalized := Normalize(value, urlPath);
              assert BoxCandidate(urlPath)(value) == Some(normalized);
              if normalized !in urls {
                urls := urls + [normalized];
              }
            } else {
              assert BoxCandidate(urlPath)(value) == None;
            }
          }
        }
        assert attrs[..|attrs|] == attrs;
      }
    }

    /** `feed`, with the events already tokenised. */
    method Feed(events: seq<Event>, urlPath: string -> string)
      modifies this
      ensures urls == AddAll(old(urls), BoxCandidates(AnchorHrefs(events), urlPath))
    {
      for i := 0 to |events|
        invariant urls == AddAll(old(urls), BoxCandidates(AnchorHrefs(events[..i]), urlPath))
      {
        var e := events[i];
        EventStep(old(urls), events, i, BoxCandidate(urlPath));
        if e.StartTag? {
          HandleStartTag(e.tag, e.attrs, urlPath);
        }
      }
      assert events[..|events|] == events;
    }
  }

  lemma BoxCandidateSpec(urlPath: string -> string, h: string, u: string)
    ensures BoxCandidate(urlPath)(h) == Some(u) <==> IsBoxUrlAsWritten(h) && u == Normalize(h, urlPath)
  {
  }

  /** A candidate is the normal form of an href the test as written accepts. */
  lemma BoxCandidatesMembers(hrefs: seq<string>, urlPath: string -> string, u: string)
    ensures u in BoxCandidates(hrefs, urlPath) <==>
      exists h :: h in hrefs && IsBoxUrlAsWritten(h) && u == Normalize(h, urlPath)
  {
    var f := BoxCandidate(urlPath);
    FilterMapMembers(hrefs, f, u);
    if u in BoxCandidates(hrefs, urlPath) {
      var i :| 0 <= i < |hrefs| && f(hrefs[i]) == Some(u);
      BoxCandidateSpec(urlPath, hrefs[i], u);
    }
    if exists h :: h in hrefs && IsBoxUrlAsWritten(h) && u == Normalize(h, urlPath) {
      var h :| h in hrefs && IsBoxUrlAsWritten(h) && u == Normalize(h, urlPath);
      var i :| 0 <= i < |hrefs| && hrefs[i] == h;
      BoxCandidateSpec(urlPath, h, u);
    }
  }

  /** The page's box urls hold no duplicates, are exactly the normal forms of the box hrefs of its
      anchors, and each starts with `/` and has no query or fragment. */
  lemma BoxUrlsSpec(events: seq<Event>, urlPath: string -> string, u: string)
    ensures NoDuplicates(BoxUrls(events, urlPath))
    ensures u in BoxUrls(events, urlPath) <==>
      exists h :: h in AnchorHrefs(events) && IsBoxUrlAsWritten(h) && u == Normalize(h, urlPath)
    ensures u in BoxUrls(events, urlPath) ==> StartsWith(u, "/") && Free(u, '?') && Free(u, '#')
  {
    var hrefs := AnchorHrefs(events);
    AddAllSpec([], BoxCandidates(hrefs, urlPath));
    BoxCandidatesMembers(hrefs, urlPath, u);
    if u in BoxUrls(events, urlPath) {
      var h :| h in hrefs && IsBoxUrlAsWritten(h) && u == Normalize(h, urlPath);
      NormalizeSpec(h, urlPath);
    }
  }

  /** Every href the corrected test accepts is collected too: the parser as written only ever
      collects more. */
  lemma BoxUrlsKeepIntended(events: seq<Event>, urlPath: string -> string, h: string)
    requires h in AnchorHrefs(events) && IsBoxUrl(h)
    ensures Normalize(h, urlPath) in BoxUrls(events, urlPath)
  {
    BoxUrlIsAsWritten(h);
    BoxUrlsSpec(events, urlPath, Normalize(h, urlPath));
  }

  /** A url without ':' names no scheme. */
  lemma NoScheme(url: string, scheme: string, c: nat)
    requires Free(url, ':') && c < |scheme| && scheme[c] == ':'
    ensures !Contains(url, scheme)
  {
    forall j | 0 <= j ensures !OccursAt(url, scheme, j) {
      if j + |scheme| <= |url| {
        assert url[j..j + |scheme|][c] == url[j + c];
      }
    }
  }

  lemma DoubleSuffixNoScheme()
    ensures !Contains(DoubleSuffix, "http://") && !Contains(DoubleSuffix, "https://")
  {
    assert Free(DoubleSuffix, ':');
    NoScheme(DoubleSuffix, "http://", 4);
    NoScheme(DoubleSuffix, "https://", 5);
  }

  lemma DoubleSuffixNormal(urlPath: string -> string)
    ensures Normalize(DoubleSuffix, urlPath) == DoubleSuffix
  {
    DoubleSuffixNoScheme();
    DoubleSuffixClean();
    assert DoubleSuffix[..1] == "/";
  }

  /** A page with one anchor to `/cardboard/box/12.html.html` yields that url, and the tracker
      records it, although its page name is not digits followed by `.html`. */
  lemma DoubleSuffixPage(urlPath: string -> string)
    ensures BoxUrls([StartTag("a", [Attr("href", Some(DoubleSuffix))])], urlPath) == [DoubleSuffix]
    ensures !IsBoxUrl(DoubleSuffix)
  {
    var attrs := [Attr("href", Some(DoubleSuffix))];
    var events := [StartTag("a", attrs)];
    assert Hrefs(attrs) == [DoubleSuffix] by {
      assert attrs[..0] == [];
    }
    assert AnchorHrefs(events) == [DoubleSuffix] by {
      assert events[..0] == [];
    }
    DoubleSuffixAsWritten();
    DoubleSuffixNormal(urlPath);
    FilterMapSingle(DoubleSuffix, BoxCandidate(urlPath));
    AddAllOne([], DoubleSuffix);
    DoubleSuffixNotBox();
  }

  // ---------------------------------------------------------------- sorted listing

  predicate StrictlySorted(s: seq<string>)
  {
    forall i, j :: 0 <= i < j < |s| ==> StrLt(s[i], s[j])
  }

  /** `x` placed into a sorted sequence before the first larger element. */
  function InsertSorted(s: seq<string>, x: string): (r: seq<string>)
    requires StrictlySorted(s) && x !in s
    ensures StrictlySorted(r)
    ensures |r| == |s| + 1
    ensures forall y :: y in r <==> y in s || y == x
  {
    if s == [] then [x]
    else if StrLt(x, s[0]) then
      assert forall j :: 0 < j < |s| ==> StrLt(x, s[j]) by {
        forall j | 0 < j < |s| ensures StrLt(x, s[j]) {
          StrLtTransitive(x, s[0], s[j]);
        }
      }
      [x] + s
    else
      StrLtTotal(x, s[0]);
      var rest := InsertSorted(s[1..], x);
      assert forall j :: 0 <= j < |rest| ==> StrLt(s[0], rest[j]) by {
        forall j | 0 <= j < |rest| ensures StrLt(s[0], rest[j]) {
          assert rest[j] in s[1..] || rest[j] == x;
          if rest[j] in s[1..] {
            var k :| 0 <= k < |s[1..]| && s[1..][k] == rest[j];
            assert s[k + 1] == rest[j];
          }
        }
      }
      [s[0]] + rest
  }

  /** Two sorted sequences with the same elements are equal: the listing does not depend on the
      order the set is visited in. */
  lemma {:induction false} SortedUnique(a: seq<string>, b: seq<string>)
    requires StrictlySorted(a) && StrictlySorted(b)
    requires forall y :: y in a <==> y in b
    ensures a == b
  {
    assert a != [] ==> a[0] in b;
    assert b != [] ==> b[0] in a;
    if a != [] && b != [] {
      if a[0] != b[0] {
        var i :| 0 <= i < |b| && b[i] == a[0];
        var j :| 0 <= j < |a| && a[j] == b[0];
        assert StrLt(b[0], a[0]) && StrLt(a[0], b[0]);
        StrLtAsymmetric(b[0], a[0]);
      }
      forall y ensures y in a[1..] <==> y in b[1..] {
        if y in a[1..] {
          var k :| 0 <= k < |a[1..]| && a[1..][k] == y;
          assert StrLt(b[0], y) by {
            assert StrLt(a[0], a[k + 1]);
          }
          StrLtIrreflexive(y);
          assert y in a by { assert a[k + 1] == y; }
          var m :| 0 <= m < |b| && b[m] == y;
          assert m != 0 && b[1..][m - 1] == y;
        }
        if y in b[1..] {
          var k :| 0 <= k < |b[1..]| && b[1..][k] == y;
          assert StrLt(a[0], y) by {
            assert StrLt(b[0], b[k + 1]);
          }
          StrLtIrreflexive(y);
          assert y in b by { assert b[k + 1] == y; }
          var m :| 0 <= m < |a| && a[m] == y;
          assert m != 0 && a[1..][m - 1] == y;
        }
      }
      SortedUnique(a[1..], b[1..]);
      assert a == [a[0]] + a[1..] && b == [b[0]] + b[1..];
    }
  }

  /** `BoxUrlTracker`: the box urls of every page handed to `perform` since the last clear. */
  class BoxUrlTracker {
    var tracked: set<string>

    constructor()
      ensures tracked == {}
    {
      tracked := {};
    }

    /** `perform`: the page's box urls, which are added to the tracked set. */
    method Perform(events: seq<Event>, urlPath: string -> string) returns (urls: seq<string>)
      modifies this
      ensures urls == BoxUrls(events, urlPath)
      ensures tracked == old(tracked) + (set u | u in urls)
    {
      var parser := new BoxUrlParser();
      parser.Feed(events, urlPath);
      urls := parser.urls;
      tracked := tracked + (set u | u in urls);
    }

    /** `get_tracked_urls`: the tracked urls in ascending order. */
    method GetTrackedUrls() returns (r: seq<string>)
      ensures StrictlySorted(r)
      ensures |r| == |tracked|
      ensures forall u :: u in r <==> u in tracked
    {
      var rest := tracked;
      r := [];
      while rest != {}
        invariant StrictlySorted(r)
        invariant rest <= tracked
        invariant forall u :: u in r <==> u in tracked && u !in rest
        invariant |r| + |rest| == |tracked|
        decreases |rest|
      {
        var x :| x in rest;
        r := InsertSorted(r, x);
        rest := rest - {x};
      }
      assert tracked == set u | u in r;
      DistinctCard(r);
    }

    /** `is_tracked` */
    method IsTracked(url: string) returns (b: bool)
      ensures b == (url in tracked)
    {
      b := url in tracked;
    }

    /** `clear_tracked` */
    method ClearTracked()
      modifies this
      ensures tracked == {}
    {
      tracked := {};
    }
  }

  /** A sorted sequence has as many elements as its set. */
  lemma {:induction false} DistinctCard(s: seq<string>)
    requires StrictlySorted(s)
    ensures |set u | u in s| == |s|
  {
    if s != [] {
      DistinctCard(s[1..]);
      assert (set u | u in s) == {s[0]} + (set u | u in s[1..]);
      forall k | 0 <= k < |s[1..]| ensures s[1..][k] != s[0] {
        assert StrLt(s[0], s[k + 1]);
        StrLtIrreflexive(s[0]);
      }
    }
  }
}
