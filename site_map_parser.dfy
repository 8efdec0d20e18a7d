/** The site map reader (site_map_parser.py): every href of an anchor, then those under
    `/category/`. */
module SiteMapParser {
  import opened Seqs
  import opened PyStrings
  import opened HtmlEvents

  /** `_HtmlUrlParser`: collects the hrefs of anchors as the events arrive. */
  class HtmlUrlParser {
    var urls: seq<string>

    constructor()
      ensures urls == []
    {
      urls := [];
    }

    /** `handle_starttag`: an anchor adds each of its non-empty hrefs. */
    method HandleStartTag(tag: string, attrs: seq<Attr>)
      modifies this
      ensures urls == old(urls) + (if tag == "a" then Hrefs(attrs) else [])
    {
      if tag == "a" {
        for i := 0 to |attrs|
          invariant urls == old(urls) + Hrefs(attrs[..i])
        {
          HrefsStep(attrs, i);
          var a := attrs[i];
          if a.name == "href" && a.value.Some? && a.value.value != "" {
            urls := urls + [a.value.value];
          }
        }
        assert attrs[..|attrs|] == attrs;
      }
    }

    /** `feed`, with the events already tokenised: every start tag reaches `HandleStartTag`. */
    method Feed(events: seq<Event>)
      modifies this
      ensures urls == old(urls) + AnchorHrefs(events)
    {
      for i := 0 to |events|
        invariant urls == old(urls) + AnchorHrefs(events[..i])
      {
        AnchorHrefsStep(events, i);
        FeedEvent(events[i]);
        AppendAssoc(old(urls), AnchorHrefs(events[..i]), HrefsOf(events[i]));
      }
      assert events[..|events|] == events;
    }

    /** One event as the parser dispatches it: a start tag reaches `HandleStartTag`, and the
        others have no handler here. */
    method FeedEvent(e: Event)
      modifies this
      ensures urls == old(urls) + HrefsOf(e)
    {
      if e.StartTag? {
        HandleStartTag(e.tag, e.attrs);
      }
    }
  }

  predicate IsCategoryUrl(url: string)
  {
    StartsWith(url, "/category/")
  }

  /** The category urls of a page: the anchor hrefs under `/category/`, in order. */
  function CategoryUrls(events: seq<Event>): seq<string>
  {
    Filter(AnchorHrefs(events), IsCategoryUrl)
  }

  /** `perform` */
  method Perform(events: seq<Event>) returns (r: seq<string>)
    ensures r == CategoryUrls(events)
  {
    var parser := new HtmlUrlParser();
    parser.Feed(events);
    assert parser.urls == AnchorHrefs(events);
    r := Filter(parser.urls, IsCategoryUrl);
  }

  /** Every url returned lies under `/category/`; a url under it is returned as often as anchors
      carry it, duplicates included, and any other url never. */
  lemma CategoryUrlsSpec(events: seq<Event>, url: string)
    ensures forall u :: u in CategoryUrls(events) ==> StartsWith(u, "/category/")
    ensures Count(CategoryUrls(events), url) == if IsCategoryUrl(url) then Count(AnchorHrefs(events), url) else 0
  {
    FilterCount(AnchorHrefs(events), IsCategoryUrl, url);
  }

  /** A url is returned exactly when it lies under `/category/` and some anchor carries it as a
      non-empty href. */
  lemma CategoryUrlsMembers(events: seq<Event>, url: string)
    ensures url in CategoryUrls(events) <==>
      IsCategoryUrl(url) && exists k :: 0 <= k < |events| && AnchorCarries(events[k], url)
  {
    AnchorHrefsSpec(events, url);
    FilterCount(AnchorHrefs(events), IsCategoryUrl, url);
    CountMember(CategoryUrls(events), url);
    CountMember(AnchorHrefs(events), url);
  }
}
