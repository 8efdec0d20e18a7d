/** The product page reader (product_parser.py): a `dt`/`dd` state machine over the page's
    events that picks the inner dimensions, outer dimensions, volume and weight out of the
    specification list, and the product record built from them. */
module ProductParser {
  import opened Wrappers
  import opened PyStrings
  import opened HtmlEvents
  import opened ProductText

  /** The labels of the specification list the parser reacts to, in the order a `dd` handles
      them. */
  datatype Label = Internal | External | Volume | Weight

  /** The text of a `dt` that announces each label. */
  function LabelText(l: Label): string
  {
    match l
    case Internal => "内寸法"
    case External => "外寸法"
    case Volume => "容量"
    case Weight => "重量"
  }

  /** The fields of `_ProductHTMLParser` between two events. */
  datatype ParserState = ParserState(
    internalLength: Option<real>, internalWidth: Option<real>, internalHeight: Option<real>,
    outerLength: Option<real>, outerWidth: Option<real>, outerHeight: Option<real>,
    volume: Option<real>, weight: Option<real>,
    inInternal: bool, inExternal: bool, inVolume: bool, inWeight: bool,
    data: string)

  const Initial := ParserState(None, None, None, None, None, None, None, None, false, false, false, false, "")

  function Flag(st: ParserState, l: Label): bool
  {
    match l
    case Internal => st.inInternal
    case External => st.inExternal
    case Volume => st.inVolume
    case Weight => st.inWeight
  }

  /** The values a label's `dd` fills in. */
  function Values(st: ParserState, l: Label): seq<Option<real>>
  {
    match l
    case Internal => [st.internalLength, st.internalWidth, st.internalHeight]
    case External => [st.outerLength, st.outerWidth, st.outerHeight]
    case Volume => [st.volume]
    case Weight => [st.weight]
  }

  /** The raised flag a `dd` handles: the first in the order inner dimensions, outer
      dimensions, volume, weight. */
  function FirstFlag(st: ParserState): Option<Label>
  {
    if st.inInternal then Some(Internal)
    else if st.inExternal then Some(External)
    else if st.inVolume then Some(Volume)
    else if st.inWeight then Some(Weight)
    else None
  }

  /** `handle_starttag`: a `dt` or `dd` starts an empty text buffer. */
  function StartTagStep(st: ParserState, tag: string): ParserState
  {
    if tag == "dt" || tag == "dd" then st.(data := "") else st
  }

  /** `handle_data`: the text, stripped, is appended to the buffer. */
  function DataStep(st: ParserState, text: string): ParserState
  {
    st.(data := st.data + Strip(text))
  }

  /** The first label, in handling order, a `dt` text contains. */
  function FirstLabelIn(text: string): Option<Label>
  {
    if Contains(text, LabelText(Internal)) then Some(Internal)
    else if Contains(text, LabelText(External)) then Some(External)
    else if Contains(text, LabelText(Volume)) then Some(Volume)
    else if Contains(text, LabelText(Weight)) then Some(Weight)
    else None
  }

  /** How the parser reads its text buffer when an element ends: the label a `dt` announces,
      and `_parse_dimensions`, `_parse_volume` and `_parse_weight` for a `dd`. */
  datatype Readers = Readers(
    announce: string -> Option<Label>,
    dims: string -> Option<(real, real, real)>,
    volume: string -> Option<real>,
    weight: string -> Option<real>)

  /** The readers of product_parser.py: each strips the buffer first. */
  function ReadLabel(buffer: string): Option<Label> { FirstLabelIn(Strip(buffer)) }
  function ReadDimensions(buffer: string): Option<(real, real, real)> { ParseDimensions(Strip(buffer)) }
  function ReadVolume(buffer: string): Option<real> { ParseVolume(Strip(buffer)) }
  function ReadWeight(buffer: string): Option<real> { ParseWeight(Strip(buffer)) }

  const PageReaders := Readers(ReadLabel, ReadDimensions, ReadVolume, ReadWeight)

  lemma AnnounceOfPage(buffer: string)
    ensures PageReaders.announce(buffer) == FirstLabelIn(Strip(buffer))
  {
  }

  /** The state with its four flags set to the given values. */
  function SetFlags(st: ParserState, i: bool, e: bool, v: bool, w: bool): ParserState
  {
    st.(inInternal := i, inExternal := e, inVolume := v, inWeight := w)
  }

  /** The end of a `dt`: the label its text announces raises its flag; a text without any label
      lowers all four. */
  function DtEnd(st: ParserState, rd: Readers): ParserState
  {
    match rd.announce(st.data)
    case Some(l) =>
      SetFlags(st, st.inInternal || l == Internal, st.inExternal || l == External,
               st.inVolume || l == Volume, st.inWeight || l == Weight)
    case None => SetFlags(st, false, false, false, false)
  }

  /** What the `dd` buffer gives for the flag it handles, parsed fields and flags only. */
  function DdValues(st: ParserState, buffer: string, rd: Readers): ParserState
  {
    if st.inInternal then StoreInternal(st, rd.dims(buffer))
    else if st.inExternal then StoreExternal(st, rd.dims(buffer))
    else if st.inVolume then StoreVolume(st, rd.volume(buffer))
    else if st.inWeight then StoreWeight(st, rd.weight(buffer))
    else st
  }

  /** Each label's `dd` keeps a reading when there is one and lowers its flag. */
  function StoreInternal(st: ParserState, r: Option<(real, real, real)>): ParserState
  {
    match r
    case Some((l, w, h)) => st.(internalLength := Some(l), internalWidth := Some(w), internalHeight := Some(h), inInternal := false)
    case None => st.(inInternal := false)
  }

  function StoreExternal(st: ParserState, r: Option<(real, real, real)>): ParserState
  {
    match r
    case Some((l, w, h)) => st.(outerLength := Some(l), outerWidth := Some(w), outerHeight := Some(h), inExternal := false)
    case None => st.(inExternal := false)
  }

  /** What a `dd` does when it handles the inner dimensions. */
  lemma StoreInternalOf(st: ParserState, dims: Option<(real, real, real)>)
    requires st.inInternal && dims == ReadDimensions(st.data)
    ensures DdEnd(st, PageReaders) ==
      if dims.Some? then st.(internalLength := Some(dims.value.0), internalWidth := Some(dims.value.1), internalHeight := Some(dims.value.2), inInternal := false, data := "")
      else st.(inInternal := false, data := "")
  {
  }

  /** What a `dd` does when it handles the outer dimensions. */
  lemma StoreExternalOf(st: ParserState, dims: Option<(real, real, real)>)
    requires !st.inInternal && st.inExternal && dims == ReadDimensions(st.data)
    ensures DdEnd(st, PageReaders) ==
      if dims.Some? then st.(outerLength := Some(dims.value.0), outerWidth := Some(dims.value.1), outerHeight := Some(dims.value.2), inExternal := false, data := "")
      else st.(inExternal := false, data := "")
  {
  }

  /** What a `dd` does when it handles the volume or the weight. */
  lemma StoreAmountOf(st: ParserState, v: Option<real>, w: Option<real>)
    requires !st.inInternal && !st.inExternal && v == ReadVolume(st.data) && w == ReadWeight(st.data)
    ensures DdEnd(st, PageReaders) ==
      if st.inVolume then (if v.Some? then st.(volume := v, inVolume := false, data := "") else st.(inVolume := false, data := ""))
      else if st.inWeight then (if w.Some? then st.(weight := w, inWeight := false, data := "") else st.(inWeight := false, data := ""))
      else st.(data := "")
  {
  }

  function StoreVolume(st: ParserState, r: Option<real>): ParserState
  {
    if r.Some? then st.(volume := r, inVolume := false) else st.(inVolume := false)
  }

  function StoreWeight(st: ParserState, r: Option<real>): ParserState
  {
    if r.Some? then st.(weight := r, inWeight := false) else st.(inWeight := false)
  }

  /** The end of a `dd`: the first raised flag is handled and lowered, and the buffer emptied. */
  function DdEnd(st: ParserState, rd: Readers): ParserState
  {
    DdValues(st, st.data, rd).(data := "")
  }

  /** `handle_endtag` */
  function EndTagStep(st: ParserState, tag: string, rd: Readers): ParserState
  {
    if tag == "dt" then DtEnd(st, rd) else if tag == "dd" then DdEnd(st, rd) else st
  }

  function Step(st: ParserState, e: Event, rd: Readers): ParserState
  {
    match e
    case StartTag(tag, _) => StartTagStep(st, tag)
    case EndTag(tag) => EndTagStep(st, tag, rd)
    case Data(text) => DataStep(st, text)
  }

  /** The state after the events, in order. */
  function Run(st: ParserState, events: seq<Event>, rd: Readers): ParserState
  {
    if events == [] then st else Step(Run(st, events[..|events| - 1], rd), events[|events| - 1], rd)
  }

  /** `_ProductHTMLParser` */
  class ProductHtmlParser {
    var internalLength: Option<real>
    var internalWidth: Option<real>
    var internalHeight: Option<real>
    var outerLength: Option<real>
    var outerWidth: Option<real>
    var outerHeight: Option<real>
    var volume: Option<real>
    var weight: Option<real>
    var inInternal: bool
    var inExternal: bool
    var inVolume: bool
    var inWeight: bool
    var currentData: string

    function State(): ParserState
      reads this
    {
      ParserState(internalLength, internalWidth, internalHeight, outerLength, outerWidth, outerHeight,
        volume, weight, inInternal, inExternal, inVolume, inWeight, currentData)
    }

    constructor()
      ensures State() == Initial
    {
      internalLength, internalWidth, internalHeight := None, None, None;
      outerLength, outerWidth, outerHeight := None, None, None;
      volume, weight := None, None;
      inInternal, inExternal, inVolume, inWeight := false, false, false, false;
      currentData := "";
    }

    method HandleStartTag(tag: string, attrs: seq<Attr>)
      modifies this
      ensures State() == StartTagStep(old(State()), tag)
    {
      if tag == "dt" {
        currentData := "";
      } else if tag == "dd" {
        currentData := "";
      }
    }

    method HandleData(text: string)
      modifies this
      ensures State() == DataStep(old(State()), text)
    {
      currentData := currentData + Strip(text);
    }

    method HandleEndTag(tag: string)
      modifies this
      ensures State() == EndTagStep(old(State()), tag, PageReaders)
    {
      if tag == "dt" {
        HandleDtEnd();
      } else if tag == "dd" {
        HandleDdEnd();
      }
    }

    method HandleDtEnd()
      modifies this
      ensures State() == DtEnd(old(State()), PageReaders)
    {
      var text := Strip(currentData);
      AnnounceOfPage(currentData);
      match FirstLabelIn(text)
      case Some(Internal) => inInternal := true;
      case Some(External) => inExternal := true;
      case Some(Volume) => inVolume := true;
      case Some(Weight) => inWeight := true;
      case None => inInternal, inExternal, inVolume, inWeight := false, false, false, false;
    }

    method HandleDdEnd()
      modifies this
      ensures State() == DdEnd(old(State()), PageReaders)
    {
      ghost var st := State();
      var text := Strip(currentData);
      if inInternal {
        var dims := ParseDimensions(text);
        StoreInternalOf(st, dims);
        KeepInternal(dims);
      } else if inExternal {
        var dims := ParseDimensions(text);
        StoreExternalOf(st, dims);
        KeepExternal(dims);
      } else {
        StoreAmountOf(st, ReadVolume(st.data), ReadWeight(st.data));
        if inVolume {
          var v := ParseVolume(text);
          KeepVolume(v);
        } else if inWeight {
          var w := ParseWeight(text);
          KeepWeight(w);
        }
      }
      currentData := "";
    }

    /** The inner dimensions' `dd`: the reading, when there is one, becomes the three values. */
    method KeepInternal(dims: Option<(real, real, real)>)
      modifies this
      ensures State() == if dims.Some?
        then old(State()).(internalLength := Some(dims.value.0), internalWidth := Some(dims.value.1), internalHeight := Some(dims.value.2), inInternal := false)
        else old(State()).(inInternal := false)
    {
      if dims.Some? {
        internalLength, internalWidth, internalHeight := Some(dims.value.0), Some(dims.value.1), Some(dims.value.2);
      }
      inInternal := false;
    }

    /** The outer dimensions' `dd`. */
    method KeepExternal(dims: Option<(real, real, real)>)
      modifies this
      ensures State() == if dims.Some?
        then old(State()).(outerLength := Some(dims.value.0), outerWidth := Some(dims.value.1), outerHeight := Some(dims.value.2), inExternal := false)
        else old(State()).(inExternal := false)
    {
      if dims.Some? {
        outerLength, outerWidth, outerHeight := Some(dims.value.0), Some(dims.value.1), Some(dims.value.2);
      }
      inExternal := false;
    }

    /** The volume's `dd`. */
    method KeepVolume(v: Option<real>)
      modifies this
      ensures State() == if v.Some? then old(State()).(volume := v, inVolume := false) else old(State()).(inVolume := false)
    {
      if v.Some? {
        volume := v;
      }
      inVolume := false;
    }

    /** The weight's `dd`. */
    method KeepWeight(w: Option<real>)
      modifies this
      ensures State() == if w.Some? then old(State()).(weight := w, inWeight := false) else old(State()).(inWeight := false)
    {
      if w.Some? {
        weight := w;
      }
      inWeight := false;
    }

    /** `feed`, with the page already tokenised into events. */
    method Feed(events: seq<Event>)
      modifies this
      ensures State() == Run(old(State()), events, PageReaders)
    {
      for i := 0 to |events|
        invariant State() == Run(old(State()), events[..i], PageReaders)
      {
        assert events[..i + 1][..i] == events[..i];
        match events[i]
        case StartTag(tag, attrs) => HandleStartTag(tag, attrs);
        case EndTag(tag) => HandleEndTag(tag);
        case Data(text) => HandleData(text);
      }
      assert events[..|events|] == events;
    }
  }

  /** The record `perform` returns. */
  datatype ProductInfo = ProductInfo(
    url: string, productId: string,
    length: real, width: real, height: real, volume: real,
    outerLength: real, outerWidth: real, outerHeight: real, outerVolume: real,
    weight: real)

  /** `value or 0.0` */
  function OrZero(o: Option<real>): real
  {
    if o.Some? && o.value != 0.0 then o.value else 0.0
  }

  /** `a and b and c` on optional numbers. */
  predicate AllTruthy(a: Option<real>, b: Option<real>, c: Option<real>)
  {
    a.Some? && a.value != 0.0 && b.Some? && b.value != 0.0 && c.Some? && c.value != 0.0
  }

  /** `outer_volume`: the product of the outer dimensions when all three are truthy, else 0. */
  function OuterVolumeOf(a: Option<real>, b: Option<real>, c: Option<real>): real
  {
    if AllTruthy(a, b, c) then a.value * b.value * c.value else 0.0
  }

  /** The record for the parser's final state. */
  function Product(st: ParserState, url: string): ProductInfo
  {
    ProductInfo(url, ExtractProductId(url),
      OrZero(st.internalLength), OrZero(st.internalWidth), OrZero(st.internalHeight), OrZero(st.volume),
      OrZero(st.outerLength), OrZero(st.outerWidth), OrZero(st.outerHeight),
      OuterVolumeOf(st.outerLength, st.outerWidth, st.outerHeight),
      OrZero(st.weight))
  }

  /** `ProductParser.perform` */
  method Perform(events: seq<Event>, url: string) returns (info: ProductInfo)
    ensures info == Product(Run(Initial, events, PageReaders), url)
  {
    var parser := new ProductHtmlParser();
    parser.Feed(events);
    var outerVolume := 0.0;
    if parser.outerLength.Some? && parser.outerLength.value != 0.0
      && parser.outerWidth.Some? && parser.outerWidth.value != 0.0
      && parser.outerHeight.Some? && parser.outerHeight.value != 0.0
    {
      outerVolume := parser.outerLength.value * parser.outerWidth.value * parser.outerHeight.value;
    }
    info := ProductInfo(url, ExtractProductId(url),
      OrZero(parser.internalLength), OrZero(parser.internalWidth), OrZero(parser.internalHeight),
      OrZero(parser.volume), OrZero(parser.outerLength), OrZero(parser.outerWidth),
      OrZero(parser.outerHeight), outerVolume, OrZero(parser.weight));
  }

  // ---------------------------------------------------------------- properties

  /** Every value parsed so far is non-negative. */
  predicate NonNegative(st: ParserState)
  {
    forall l: Label, k :: 0 <= k < |Values(st, l)| && Values(st, l)[k].Some? ==> Values(st, l)[k].value >= 0.0
  }

  /** The readings of a buffer hold no negative number. */
  predicate ReadsNonNegative(rd: Readers, buffer: string)
  {
    (rd.dims(buffer).Some? ==>
      rd.dims(buffer).value.0 >= 0.0 && rd.dims(buffer).value.1 >= 0.0 && rd.dims(buffer).value.2 >= 0.0)
    && (rd.volume(buffer).Some? ==> rd.volume(buffer).value >= 0.0)
    && (rd.weight(buffer).Some? ==> rd.weight(buffer).value >= 0.0)
  }

  /** The page's readers never read a negative number. */
  lemma PageReadersNonNegative(buffer: string)
    ensures ReadsNonNegative(PageReaders, buffer)
  {
    var text := Strip(buffer);
    var d, v, w := ParseDimensions(text), ParseVolume(text), ParseWeight(text);
  }

  /** Two states hold the same parsed values. */
  predicate SameValues(a: ParserState, b: ParserState)
  {
    && a.internalLength == b.internalLength && a.internalWidth == b.internalWidth && a.internalHeight == b.internalHeight
    && a.outerLength == b.outerLength && a.outerWidth == b.outerWidth && a.outerHeight == b.outerHeight
    && a.volume == b.volume && a.weight == b.weight
  }

  lemma SameValuesOf(a: ParserState, b: ParserState, l: Label)
    requires SameValues(a, b)
    ensures Values(a, l) == Values(b, l)
  {
  }

  /** A `dt` end raises the flag of the first label its text contains and keeps the others; a
      text with no label lowers all four. Values and buffer stay. */
  lemma DtEndSpec(st: ParserState, rd: Readers, l: Label)
    ensures Values(DtEnd(st, rd), l) == Values(st, l) && DtEnd(st, rd).data == st.data
    ensures rd.announce(st.data).Some? ==>
      Flag(DtEnd(st, rd), l) == (Flag(st, l) || l == rd.announce(st.data).value)
    ensures rd.announce(st.data).None? ==> !Flag(DtEnd(st, rd), l)
  {
    DtEndKeepsValues(st, rd);
    SameValuesOf(DtEnd(st, rd), st, l);
  }

  /** Setting the flags keeps the values and the buffer. */
  lemma SetFlagsKeeps(st: ParserState, i: bool, e: bool, v: bool, w: bool)
    ensures SameValues(SetFlags(st, i, e, v, w), st) && SetFlags(st, i, e, v, w).data == st.data
  {
  }

  lemma DtEndKeepsValues(st: ParserState, rd: Readers)
    ensures SameValues(DtEnd(st, rd), st) && DtEnd(st, rd).data == st.data
  {
    match rd.announce(st.data)
    case Some(l) =>
      SetFlagsKeeps(st, st.inInternal || l == Internal, st.inExternal || l == External,
                    st.inVolume || l == Volume, st.inWeight || l == Weight);
    case None => SetFlagsKeeps(st, false, false, false, false);
  }

  /** A text without any of the four labels is one for which no label is found first. */
  lemma FirstLabelInNone(text: string)
    ensures FirstLabelIn(text).None? <==> forall m: Label :: !Contains(text, LabelText(m))
  {
    if FirstLabelIn(text).None? {
      forall m: Label ensures !Contains(text, LabelText(m)) {
        match m
        case Internal =>
        case External =>
        case Volume =>
        case Weight =>
      }
    }
  }

  /** A `dd` end lowers the first raised flag and no other, may change only that label's values,
      and empties the buffer. */
  lemma DdEndSpec(st: ParserState, rd: Readers, l: Label)
    ensures DdEnd(st, rd).data == ""
    ensures Flag(DdEnd(st, rd), l) == (Flag(st, l) && FirstFlag(st) != Some(l))
    ensures FirstFlag(st) != Some(l) ==> Values(DdEnd(st, rd), l) == Values(st, l)
  {
  }

  /** What a handled `dd` stores: the reading when there is one, the old values otherwise. */
  lemma DdEndStores(st: ParserState, rd: Readers)
    requires FirstFlag(st).Some?
    ensures var text := st.data;
      var next := Values(DdEnd(st, rd), FirstFlag(st).value);
      match FirstFlag(st).value
      case Internal | External =>
        next == (if rd.dims(text).Some?
          then [Some(rd.dims(text).value.0), Some(rd.dims(text).value.1), Some(rd.dims(text).value.2)]
          else Values(st, FirstFlag(st).value))
      case Volume => next == (if rd.volume(text).Some? then [rd.volume(text)] else [st.volume])
      case Weight => next == (if rd.weight(text).Some? then [rd.weight(text)] else [st.weight])
  {
  }

  /** Only the end of a `dd` changes a parsed value. */
  lemma ValuesOnlyAtDdEnd(st: ParserState, e: Event, rd: Readers, l: Label)
    requires e != EndTag("dd")
    ensures Values(Step(st, e, rd), l) == Values(st, l)
  {
    match e {
      case StartTag(tag, _) =>
        assert SameValues(Step(st, e, rd), st);
      case EndTag(tag) =>
        assert tag != "dd";
        if tag == "dt" {
          DtEndKeepsValues(st, rd);
        }
        assert SameValues(Step(st, e, rd), st);
      case Data(text) =>
        assert SameValues(Step(st, e, rd), st);
    }
    SameValuesOf(Step(st, e, rd), st, l);
  }

  lemma StepNonNegative(st: ParserState, e: Event, rd: Readers)
    requires NonNegative(st) && ReadsNonNegative(rd, st.data)
    ensures NonNegative(Step(st, e, rd))
  {
    var next := Step(st, e, rd);
    forall l: Label, k | 0 <= k < |Values(next, l)| && Values(next, l)[k].Some?
      ensures Values(next, l)[k].value >= 0.0
    {
      if e == EndTag("dd") {
        DdEndSpec(st, rd, l);
        if FirstFlag(st) == Some(l) {
          DdEndStores(st, rd);
        }
      } else {
        ValuesOnlyAtDdEnd(st, e, rd, l);
      }
    }
  }

  /** However the page runs, no parsed value is negative. */
  lemma {:induction false} RunNonNegative(st: ParserState, events: seq<Event>)
    requires NonNegative(st)
    ensures NonNegative(Run(st, events, PageReaders))
  {
    if events != [] {
      var before := Run(st, events[..|events| - 1], PageReaders);
      RunNonNegative(st, events[..|events| - 1]);
      PageReadersNonNegative(before.data);
      StepNonNegative(before, events[|events| - 1], PageReaders);
    }
  }

  /** The record's outer volume is the product of its outer dimensions (an unparsed or zero
      dimension makes both zero) and is positive exactly when all three are; no number in it
      is negative. */
  predicate ConsistentRecord(info: ProductInfo)
  {
    info.outerVolume == info.outerLength * info.outerWidth * info.outerHeight
    && (info.outerVolume > 0.0 <==> info.outerLength > 0.0 && info.outerWidth > 0.0 && info.outerHeight > 0.0)
    && info.length >= 0.0 && info.width >= 0.0 && info.height >= 0.0 && info.volume >= 0.0
    && info.outerLength >= 0.0 && info.outerWidth >= 0.0 && info.outerHeight >= 0.0 && info.weight >= 0.0
  }

  /** Whatever the page, `perform` returns a consistent record. */
  lemma ProductSpec(events: seq<Event>, url: string)
    ensures ConsistentRecord(Product(Run(Initial, events, PageReaders), url))
  {
    assert NonNegative(Initial) by {
      forall l: Label ensures Values(Initial, l) == if l == Internal || l == External then [None, None, None] else [None] {
      }
    }
    RunNonNegative(Initial, events);
    ProductOfState(Run(Initial, events, PageReaders), url);
  }

  lemma ProductOfState(st: ParserState, url: string)
    requires NonNegative(st)
    ensures ConsistentRecord(Product(st, url))
  {
    RecordOf(Product(st, url), st);
  }

  /** A record whose numbers are those of a state with no negative value is consistent. */
  lemma RecordOf(info: ProductInfo, st: ParserState)
    requires NonNegative(st)
    requires info.length == OrZero(st.internalLength) && info.width == OrZero(st.internalWidth)
    requires info.height == OrZero(st.internalHeight) && info.volume == OrZero(st.volume)
    requires info.outerLength == OrZero(st.outerLength) && info.outerWidth == OrZero(st.outerWidth)
    requires info.outerHeight == OrZero(st.outerHeight) && info.weight == OrZero(st.weight)
    requires info.outerVolume == OuterVolumeOf(st.outerLength, st.outerWidth, st.outerHeight)
    ensures ConsistentRecord(info)
  {
    var vs := Values(st, External);
    assert vs[0] == st.outerLength && vs[1] == st.outerWidth && vs[2] == st.outerHeight;
    InnerValues(st);
    OuterVolume(st.outerLength, st.outerWidth, st.outerHeight);
  }

  lemma InnerValues(st: ParserState)
    requires NonNegative(st)
    ensures OrZero(st.internalLength) >= 0.0 && OrZero(st.internalWidth) >= 0.0 && OrZero(st.internalHeight) >= 0.0
    ensures OrZero(st.volume) >= 0.0 && OrZero(st.weight) >= 0.0
  {
    var vs := Values(st, Internal);
    assert vs[0] == st.internalLength && vs[1] == st.internalWidth && vs[2] == st.internalHeight;
    assert Values(st, Volume)[0] == st.volume && Values(st, Weight)[0] == st.weight;
  }

  /** `outer_volume` for three optional non-negative numbers. */
  lemma OuterVolume(a: Option<real>, b: Option<real>, c: Option<real>)
    requires a.Some? ==> a.value >= 0.0
    requires b.Some? ==> b.value >= 0.0
    requires c.Some? ==> c.value >= 0.0
    ensures OrZero(a) >= 0.0 && OrZero(b) >= 0.0 && OrZero(c) >= 0.0
    ensures OuterVolumeOf(a, b, c) == OrZero(a) * OrZero(b) * OrZero(c)
    ensures OuterVolumeOf(a, b, c) > 0.0 <==> OrZero(a) > 0.0 && OrZero(b) > 0.0 && OrZero(c) > 0.0
  {
    var x, y, z := OrZero(a), OrZero(b), OrZero(c);
    if AllTruthy(a, b, c) {
      assert x * y > 0.0;
      assert x * y * z > 0.0;
    } else {
      assert x == 0.0 || y == 0.0 || z == 0.0;
      assert x * y == 0.0 || z == 0.0;
    }
  }
}
