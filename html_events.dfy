/** HTML as the standard-library `HTMLParser` hands it to its subclasses: a sequence of
    start-tag, end-tag and text events, tag names in lower case, attribute values `None` when the
    attribute has no value. Tokenising the text into events is not part of this model. */
module HtmlEvents {
  import opened Wrappers
  import opened Seqs

  datatype Attr = Attr(name: string, value: Option<string>)

  datatype Event =
    | StartTag(tag: string, attrs: seq<Attr>)
    | EndTag(tag: string)
    | Data(text: string)

  /** The attribute is an `href` with a non-empty value. */
  predicate IsHref(a: Attr)
  {
    a.name == "href" && a.value.Some? && a.value.value != ""
  }

  /** The non-empty `href` values among a tag's attributes, in order. */
  function Hrefs(attrs: seq<Attr>): seq<string>
  {
    if attrs == [] then []
    else
      var a := attrs[|attrs| - 1];
      Hrefs(attrs[..|attrs| - 1]) + (if IsHref(a) then [a.value.value] else [])
  }

  /** The hrefs an event contributes: those of an `a` start tag, none for anything else. */
  function HrefsOf(e: Event): seq<string>
  {
    if e.StartTag? && e.tag == "a" then Hrefs(e.attrs) else []
  }

  /** The hrefs the anchors of `events` carry, in document order. */
  function AnchorHrefs(events: seq<Event>): seq<string>
  {
    if events == [] then []
    else
      var e := events[|events| - 1];
      AnchorHrefs(events[..|events| - 1]) + HrefsOf(e)
  }

  /** A value is among the hrefs exactly when a non-empty `href` attribute carries it. */
  lemma {:induction false} HrefsSpec(attrs: seq<Attr>, h: string)
    ensures h in Hrefs(attrs) <==> exists i :: 0 <= i < |attrs| && IsHref(attrs[i]) && attrs[i].value == Some(h)
  {
    if attrs != [] {
      var init := attrs[..|attrs| - 1];
      HrefsSpec(init, h);
      ExistsSplit(attrs, init, a => IsHref(a) && a.value == Some(h));
    }
  }

  /** The hrefs of the first `i + 1` attributes: those of the first `i`, then the next one's. */
  lemma HrefsStep(attrs: seq<Attr>, i: nat)
    requires i < |attrs|
    ensures Hrefs(attrs[..i + 1]) == Hrefs(attrs[..i]) + (if IsHref(attrs[i]) then [attrs[i].value.value] else [])
  {
    assert attrs[..i + 1][..i] == attrs[..i];
  }

  /** The anchor hrefs of the first `i + 1` events: those of the first `i`, then the next one's. */
  lemma AnchorHrefsStep(events: seq<Event>, i: nat)
    requires i < |events|
    ensures AnchorHrefs(events[..i + 1]) == AnchorHrefs(events[..i]) + HrefsOf(events[i])
  {
    assert events[..i + 1][..i] == events[..i];
  }

  /** The event is an anchor start tag carrying `h` as a non-empty href. */
  predicate AnchorCarries(e: Event, h: string)
  {
    h in HrefsOf(e)
  }

  /** A value is among the anchor hrefs exactly when some `a` start tag carries it as a
      non-empty `href`; other tags and events contribute nothing. */
  lemma {:induction false} AnchorHrefsSpec(events: seq<Event>, h: string)
    ensures h in AnchorHrefs(events) <==> exists k :: 0 <= k < |events| && AnchorCarries(events[k], h)
  {
    if events != [] {
      var init := events[..|events| - 1];
      AnchorHrefsSpec(init, h);
      assert h in AnchorHrefs(events) <==> h in AnchorHrefs(init) || AnchorCarries(events[|events| - 1], h) by {
        assert AnchorHrefs(events) == AnchorHrefs(init) + HrefsOf(events[|events| - 1]);
      }
      ExistsSplit(events, init, e => AnchorCarries(e, h));
    }
  }
}
