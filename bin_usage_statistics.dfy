/** Bin usage statistics (bin_usage_statistics_service.py): packing summaries grouped by the url
    of their chosen bin, each order enriched from the orders data, and one aggregate per bin,
    most used first. Inputs are the JSON-shaped values the service receives. */
module BinUsageStatistics {
  import opened Wrappers
  import opened PyValue
  import opened Seqs
  import opened StableSort

  /** `isinstance(v, list)`; anything else is treated as an empty list. */
  function AsList(v: Value): seq<Value>
  {
    if v.List? then v.elems else []
  }

  /** Values Python can use as a dict key or set member. */
  predicate Hashable(v: Value)
  {
    !v.List? && !v.Dict?
  }

  const Zero: Value := Float(0.0, "0.0")

  // ---------------------------------------------------------------- order lookup

  /** What the lookup keeps about one order. */
  datatype OrderInfo = OrderInfo(index: Value, productsCount: nat, totalQuantity: real)

  /** `sum((p.get("quantity", 0) or 0) for p in ps if isinstance(p, dict))`; a quantity that is
      not a number makes the sum raise TypeError. */
  function QuantitySum(ps: seq<Value>): Result<real>
  {
    if ps == [] then Ok(0.0)
    else
      match QuantitySum(ps[..|ps| - 1])
      case Err(e) => Err(e)
      case Ok(total) =>
        var p := ps[|ps| - 1];
        if !p.Dict? then Ok(total)
        else
          var q := Or(GetOr(p.entries, "quantity", Int(0)), Int(0));
          if IsNumber(q) then Ok(total + NumberValue(q)) else Err(TypeError)
  }

  function OrderInfoOf(entries: seq<(string, Value)>): Result<OrderInfo>
  {
    var products := Get(entries, "products");
    var count := if products.List? then |products.elems| else 0;
    match Iterate(Or(products, List([])))
    case None => Err(TypeError)
    case Some(ps) =>
      match QuantitySum(ps)
      case Err(e) => Err(e)
      case Ok(total) => Ok(OrderInfo(Get(entries, "index"), count, total))
  }

  /** The transaction id an order is looked up by, if it is a dict with a truthy one. */
  function LookupKey(order: Value): Option<Value>
  {
    if order.Dict? && Truthy(Get(order.entries, "transaction_id")) then Some(Get(order.entries, "transaction_id")) else None
  }

  function AddOrder(lookup: map<Value, OrderInfo>, order: Value): Result<map<Value, OrderInfo>>
  {
    match LookupKey(order)
    case None => Ok(lookup)
    case Some(tid) =>
      match OrderInfoOf(order.entries)
      case Err(e) => Err(e)
      case Ok(info) => if Hashable(tid) then Ok(lookup[tid := info]) else Err(TypeError)
  }

  /** The lookup of a list of orders, built front to back. */
  function LookupOf(orders: seq<Value>): Result<map<Value, OrderInfo>>
  {
    if orders == [] then Ok(map[])
    else
      match LookupOf(orders[..|orders| - 1])
      case Err(e) => Err(e)
      case Ok(lookup) => AddOrder(lookup, orders[|orders| - 1])
  }

  /** An error in building from a prefix is the error of the whole. */
  lemma {:induction false} LookupErrorSticks(orders: seq<Value>, n: nat)
    requires n <= |orders| && LookupOf(orders[..n]).Err?
    ensures LookupOf(orders) == LookupOf(orders[..n])
    decreases |orders| - n
  {
    if n < |orders| {
      var init := orders[..|orders| - 1];
      assert init[..n] == orders[..n];
      LookupErrorSticks(init, n);
    } else {
      assert orders[..n] == orders;
    }
  }

  method CreateOrderLookup(orders: seq<Value>) returns (r: Result<map<Value, OrderInfo>>)
    ensures r == LookupOf(orders)
  {
    var lookup: map<Value, OrderInfo> := map[];
    for i := 0 to |orders|
      invariant LookupOf(orders[..i]) == Ok(lookup)
    {
      assert orders[..i + 1][..i] == orders[..i];
      var next := AddOrder(lookup, orders[i]);
      if next.Err? {
        LookupErrorSticks(orders, i + 1);
        return Err(next.error);
      }
      lookup := next.value;
    }
    assert orders[..|orders|] == orders;
    return Ok(lookup);
  }

  /** One step of building the lookup: the last order's id, when it has one, is set to its
      information; otherwise the lookup stays as it was. */
  lemma LookupStep(orders: seq<Value>)
    requires orders != [] && LookupOf(orders).Ok?
    ensures LookupOf(orders[..|orders| - 1]).Ok?
    ensures var before := LookupOf(orders[..|orders| - 1]).value;
      var last := orders[|orders| - 1];
      match LookupKey(last)
      case None => LookupOf(orders).value == before
      case Some(t) =>
        OrderInfoOf(last.entries).Ok? && LookupOf(orders).value == before[t := OrderInfoOf(last.entries).value]
  {
  }

  /** The lookup holds exactly the truthy transaction ids. */
  lemma {:induction false} LookupKeys(orders: seq<Value>, k: Value)
    requires LookupOf(orders).Ok?
    ensures k in LookupOf(orders).value <==> exists i :: 0 <= i < |orders| && LookupKey(orders[i]) == Some(k)
  {
    if orders != [] {
      var init := orders[..|orders| - 1];
      LookupStep(orders);
      LookupKeys(init, k);
      if exists i :: 0 <= i < |orders| && LookupKey(orders[i]) == Some(k) {
        var i :| 0 <= i < |orders| && LookupKey(orders[i]) == Some(k);
        if i < |init| {
          assert init[i] == orders[i];
        }
      }
      if exists i :: 0 <= i < |init| && LookupKey(init[i]) == Some(k) {
        var i :| 0 <= i < |init| && LookupKey(init[i]) == Some(k);
        assert orders[i] == init[i];
      }
    }
  }

  /** Each id in the lookup maps to the information of the last order carrying it. */
  lemma {:induction false} LookupLatest(orders: seq<Value>, k: Value)
    requires LookupOf(orders).Ok? && k in LookupOf(orders).value
    ensures exists i :: (0 <= i < |orders| && LookupKey(orders[i]) == Some(k)
      && OrderInfoOf(orders[i].entries) == Ok(LookupOf(orders).value[k])
      && forall j :: i < j < |orders| ==> LookupKey(orders[j]) != Some(k))
  {
    var init := orders[..|orders| - 1];
    var last := orders[|orders| - 1];
    LookupStep(orders);
    if LookupKey(last) == Some(k) {
      assert LookupKey(orders[|orders| - 1]) == Some(k);
    } else {
      var before := LookupOf(init).value;
      assert k in before && LookupOf(orders).value[k] == before[k];
      LookupLatest(init, k);
      var i :| 0 <= i < |init| && LookupKey(init[i]) == Some(k)
        && OrderInfoOf(init[i].entries) == Ok(before[k])
        && forall j :: i < j < |init| ==> LookupKey(init[j]) != Some(k);
      assert orders[i] == init[i];
      forall j | i < j < |orders| ensures LookupKey(orders[j]) != Some(k) {
        if j < |init| { assert orders[j] == init[j]; }
      }
    }
  }

  /** The lookup holds exactly the truthy transaction ids, each mapped to the information of the
      last order carrying it. */
  lemma LookupSpec(orders: seq<Value>, k: Value)
    requires LookupOf(orders).Ok?
    ensures k in LookupOf(orders).value <==> exists i :: 0 <= i < |orders| && LookupKey(orders[i]) == Some(k)
    ensures k in LookupOf(orders).value ==>
      exists i :: 0 <= i < |orders| && LookupKey(orders[i]) == Some(k)
        && OrderInfoOf(orders[i].entries) == Ok(LookupOf(orders).value[k])
        && forall j :: i < j < |orders| ==> LookupKey(orders[j]) != Some(k)
  {
    LookupKeys(orders, k);
    if k in LookupOf(orders).value {
      LookupLatest(orders, k);
    }
  }

  // ---------------------------------------------------------------- grouping by bin url

  /** What the lookup adds to an order's detail. */
  datatype Enrichment = Enrichment(orderIndexFromOrders: Value, actualProductsCount: nat, totalQuantity: real)

  /** One packed order as listed under its bin. */
  datatype Detail = Detail(orderId: Value, orderIndex: Value, productsCount: Value, fromOrders: Option<Enrichment>)

  /** The running aggregate for one bin url. */
  datatype BinStat = BinStat(name: Value, url: Value, length: Value, width: Value, height: Value, volume: Value,
                             usageCount: nat, details: seq<Detail>)

  /** The aggregates by url, with the urls in first-seen order (the dict's iteration order). */
  datatype Table = Table(keys: seq<Value>, stats: map<Value, BinStat>)

  const DefaultStat: BinStat := BinStat(Str("bin"), Str(""), Zero, Zero, Zero, Zero, 0, [])

  /** Each url appears once, the keys and the map agree, and every aggregate counts the orders it
      lists, at least one, under its own url. */
  ghost predicate ValidTable(t: Table)
  {
    && NoDuplicates(t.keys)
    && (forall k :: k in t.stats <==> k in t.keys)
    && forall k :: k in t.stats ==>
         t.stats[k].usageCount == |t.stats[k].details| > 0 && t.stats[k].url == k
  }

  /** The url a summary is counted under: a dict summary whose `bin` is a dict with a truthy url. */
  function BinUrlOf(summary: Value): (r: Option<Value>)
    ensures r.Some? ==> summary.Dict? && Get(summary.entries, "bin").Dict? && Truthy(r.value)
  {
    if !summary.Dict? then None
    else
      var bin := Get(summary.entries, "bin");
      if !bin.Dict? then None
      else
        var url := Or(Get(bin.entries, "url"), Str(""));
        if Truthy(url) then Some(url) else None
  }

  /** `bin_info.get(key, 0.0) or 0.0` */
  function Measure(bin: seq<(string, Value)>, key: string): Value
  {
    Or(GetOr(bin, key, Zero), Zero)
  }

  /** The detail of one accepted summary: it is enriched from the lookup exactly when its order
      id is truthy and a key of the lookup, and then with that order's entry. */
  function DetailOf(summary: seq<(string, Value)>, lookup: map<Value, OrderInfo>): (d: Detail)
    ensures d.orderId == Get(summary, "order_id")
    ensures d.fromOrders.Some? <==> Truthy(d.orderId) && d.orderId in lookup
    ensures d.fromOrders.Some? ==>
      var info := lookup[d.orderId];
      d.fromOrders.value == Enrichment(info.index, info.productsCount, info.totalQuantity)
  {
    var orderId := Get(summary, "order_id");
    var enrichment :=
      if Truthy(orderId) && orderId in lookup
      then Some(Enrichment(lookup[orderId].index, lookup[orderId].productsCount, lookup[orderId].totalQuantity))
      else None;
    Detail(orderId, Get(summary, "order_index"), Or(GetOr(summary, "products_count", Int(0)), Int(0)), enrichment)
  }

  function AddSummary(t: Table, summary: Value, lookup: map<Value, OrderInfo>): Result<Table>
  {
    match BinUrlOf(summary)
    case None => Ok(t)
    case Some(url) =>
      if !Hashable(url) then Err(TypeError)
      else
        var bin := Get(summary.entries, "bin").entries;
        var prior := if url in t.stats then t.stats[url] else DefaultStat;
        var keys := if url in t.stats then t.keys else t.keys + [url];
        var stat :=
          if Truthy(prior.length) then prior
          else prior.(name := GetOr(bin, "name", Str("bin")), url := url,
                     length := Measure(bin, "length"), width := Measure(bin, "width"),
                     height := Measure(bin, "height"), volume := Measure(bin, "volume"));
        var orderId := Get(summary.entries, "order_id");
        if Truthy(orderId) && !Hashable(orderId) then Err(TypeError)
        else
          var detail := DetailOf(summary.entries, lookup);
          Ok(Table(keys, t.stats[url := stat.(usageCount := stat.usageCount + 1, details := stat.details + [detail])]))
  }

  function AnalyzeOf(summaries: seq<Value>, lookup: map<Value, OrderInfo>): Result<Table>
  {
    if summaries == [] then Ok(Table([], map[]))
    else
      match AnalyzeOf(summaries[..|summaries| - 1], lookup)
      case Err(e) => Err(e)
      case Ok(t) => AddSummary(t, summaries[|summaries| - 1], lookup)
  }

  /** An error in building from a prefix is the error of the whole. */
  lemma {:induction false} AnalyzeErrorSticks(summaries: seq<Value>, lookup: map<Value, OrderInfo>, n: nat)
    requires n <= |summaries| && AnalyzeOf(summaries[..n], lookup).Err?
    ensures AnalyzeOf(summaries, lookup) == AnalyzeOf(summaries[..n], lookup)
    decreases |summaries| - n
  {
    if n < |summaries| {
      var init := summaries[..|summaries| - 1];
      assert init[..n] == summaries[..n];
      AnalyzeErrorSticks(init, lookup, n);
    } else {
      assert summaries[..n] == summaries;
    }
  }

  method AnalyzeBinUsage(summaries: seq<Value>, lookup: map<Value, OrderInfo>) returns (r: Result<Table>)
    ensures r == AnalyzeOf(summaries, lookup)
  {
    var t := Table([], map[]);
    for i := 0 to |summaries|
      invariant AnalyzeOf(summaries[..i], lookup) == Ok(t)
    {
      assert summaries[..i + 1][..i] == summaries[..i];
      var next := AddSummary(t, summaries[i], lookup);
      if next.Err? {
        AnalyzeErrorSticks(summaries, lookup, i + 1);
        return Err(next.error);
      }
      t := next.value;
    }
    assert summaries[..|summaries|] == summaries;
    return Ok(t);
  }

  /** How many summaries are counted under `url`. */
  function UrlCount(summaries: seq<Value>, url: Value): nat
  {
    if summaries == [] then 0
    else UrlCount(summaries[..|summaries| - 1], url) + (if BinUrlOf(summaries[|summaries| - 1]) == Some(url) then 1 else 0)
  }

  function UsageOf(t: Table, url: Value): nat
  {
    if url in t.stats then t.stats[url].usageCount else 0
  }

  /** Setting a url's aggregate to one counted once more keeps the table valid and adds one to
      that url's usage only. */
  lemma PutStat(t: Table, url: Value, stat: BinStat)
    requires ValidTable(t)
    requires stat.url == url && stat.usageCount == |stat.details| == UsageOf(t, url) + 1
    ensures var t' := Table(if url in t.stats then t.keys else t.keys + [url], t.stats[url := stat]);
      ValidTable(t') && forall k :: UsageOf(t', k) == UsageOf(t, k) + (if k == url then 1 else 0)
  {
  }

  /** What adding a summary with a bin url does to the table. */
  lemma AddSummaryShape(t: Table, summary: Value, lookup: map<Value, OrderInfo>, url: Value)
    requires ValidTable(t) && AddSummary(t, summary, lookup).Ok? && BinUrlOf(summary) == Some(url)
    ensures var r := AddSummary(t, summary, lookup).value;
      && url in r.stats
      && r == Table(if url in t.stats then t.keys else t.keys + [url], t.stats[url := r.stats[url]])
      && r.stats[url].url == url
      && r.stats[url].usageCount == |r.stats[url].details| == UsageOf(t, url) + 1
      && r.stats[url].details == DetailsAt(t, url) + [DetailOf(summary.entries, lookup)]
  {
  }

  /** A summary with a bin url adds one use and its detail, at the end, to that url alone, and
      puts the url at the end of the keys when it is new; any other summary changes nothing. */
  lemma AddSummaryStep(t: Table, summary: Value, lookup: map<Value, OrderInfo>)
    requires ValidTable(t) && AddSummary(t, summary, lookup).Ok?
    ensures ValidTable(AddSummary(t, summary, lookup).value)
    ensures forall k :: UsageOf(AddSummary(t, summary, lookup).value, k)
                     == UsageOf(t, k) + (if BinUrlOf(summary) == Some(k) then 1 else 0)
    ensures AddSummary(t, summary, lookup).value.keys ==
      match BinUrlOf(summary)
      case None => t.keys
      case Some(url) => AddNew(t.keys, url)
    ensures forall k :: DetailsAt(AddSummary(t, summary, lookup).value, k)
                     == DetailsAt(t, k) + (if BinUrlOf(summary) == Some(k) then [DetailOf(summary.entries, lookup)] else [])
  {
    match BinUrlOf(summary)
    case None =>
    case Some(url) =>
      AddSummaryShape(t, summary, lookup, url);
      PutStat(t, url, AddSummary(t, summary, lookup).value.stats[url]);
  }

  /** The urls the summaries are counted under, each once, in the order first met: the order in
      which the `defaultdict` gains its keys. */
  function SeenUrls(summaries: seq<Value>): seq<Value>
  {
    if summaries == [] then []
    else
      var before := SeenUrls(summaries[..|summaries| - 1]);
      match BinUrlOf(summaries[|summaries| - 1])
      case None => before
      case Some(url) => AddNew(before, url)
  }

  /** The first-seen urls are distinct and are exactly the urls some summary is counted under. */
  lemma {:induction false} SeenUrlsSpec(summaries: seq<Value>)
    ensures NoDuplicates(SeenUrls(summaries))
    ensures forall url :: url in SeenUrls(summaries) <==> UrlCount(summaries, url) > 0
  {
    if summaries != [] {
      SeenUrlsSpec(summaries[..|summaries| - 1]);
    }
  }

  /** The details of the summaries counted under `url`, in summary order. */
  function DetailsUnder(summaries: seq<Value>, lookup: map<Value, OrderInfo>, url: Value): (r: seq<Detail>)
    ensures |r| == UrlCount(summaries, url)
  {
    if summaries == [] then []
    else
      var last := summaries[|summaries| - 1];
      DetailsUnder(summaries[..|summaries| - 1], lookup, url)
        + if BinUrlOf(last) == Some(url) then [DetailOf(last.entries, lookup)] else []
  }

  /** The details stored for a url, none when the table does not have it. */
  function DetailsAt(t: Table, url: Value): seq<Detail>
  {
    if url in t.stats then t.stats[url].details else []
  }

  /** Grouping counts each summary with a bin url once under that url, lists the urls in the
      order first met, and gives each url the details of its summaries in summary order. */
  lemma {:induction false} AnalyzeSpec(summaries: seq<Value>, lookup: map<Value, OrderInfo>)
    requires AnalyzeOf(summaries, lookup).Ok?
    ensures ValidTable(AnalyzeOf(summaries, lookup).value)
    ensures forall k :: UsageOf(AnalyzeOf(summaries, lookup).value, k) == UrlCount(summaries, k)
    ensures AnalyzeOf(summaries, lookup).value.keys == SeenUrls(summaries)
    ensures forall k :: DetailsAt(AnalyzeOf(summaries, lookup).value, k) == DetailsUnder(summaries, lookup, k)
  {
    if summaries != [] {
      var init := summaries[..|summaries| - 1];
      AnalyzeSpec(init, lookup);
      AddSummaryStep(AnalyzeOf(init, lookup).value, summaries[|summaries| - 1], lookup);
    }
  }

  /** A bin's name, dimensions and volume as stored. */
  function Measurements(s: BinStat): (Value, Value, Value, Value, Value)
  {
    (s.name, s.length, s.width, s.height, s.volume)
  }

  /** A summary leaves the measurements of a url whose stored length is truthy as they are. */
  lemma AddSummaryKeeps(t: Table, summary: Value, lookup: map<Value, OrderInfo>, url: Value)
    requires AddSummary(t, summary, lookup).Ok?
    requires url in t.stats && Truthy(t.stats[url].length)
    ensures url in AddSummary(t, summary, lookup).value.stats
    ensures Measurements(AddSummary(t, summary, lookup).value.stats[url]) == Measurements(t.stats[url])
  {
  }

  /** Once a url has a truthy stored length, no later summary changes its name, dimensions or
      volume: the first bin record with a non-zero length is the one reported. */
  lemma {:induction false} MeasurementsKept(summaries: seq<Value>, lookup: map<Value, OrderInfo>, n: nat, url: Value)
    requires n <= |summaries| && AnalyzeOf(summaries, lookup).Ok? && AnalyzeOf(summaries[..n], lookup).Ok?
    requires url in AnalyzeOf(summaries[..n], lookup).value.stats
    requires Truthy(AnalyzeOf(summaries[..n], lookup).value.stats[url].length)
    ensures url in AnalyzeOf(summaries, lookup).value.stats
    ensures Measurements(AnalyzeOf(summaries, lookup).value.stats[url])
         == Measurements(AnalyzeOf(summaries[..n], lookup).value.stats[url])
    decreases |summaries| - n
  {
    if n < |summaries| {
      var init := summaries[..|summaries| - 1];
      assert init[..n] == summaries[..n];
      assert AnalyzeOf(init, lookup).Ok?;
      MeasurementsKept(init, lookup, n, url);
      AddSummaryKeeps(AnalyzeOf(init, lookup).value, summaries[|summaries| - 1], lookup, url);
    } else {
      assert summaries[..n] == summaries;
    }
  }

  // ---------------------------------------------------------------- per-bin results

  /** One bin's statistics as the service returns them; `actualTotals` holds the actual products
      count and total quantity only when the former is positive. */
  datatype BinUsage = BinUsage(name: Value, url: Value, length: Value, width: Value, height: Value, volume: Value,
                               usageCount: nat, ordersDetail: seq<Detail>, totalUniqueOrders: nat,
                               totalProductsPacked: int, actualTotals: Option<(int, int)>)

  function OrderIndexFromOrders(d: Detail): Value
  {
    if d.fromOrders.Some? then d.fromOrders.value.orderIndexFromOrders else Null
  }

  /** The order number a detail is sorted by: the summary's index or the orders data's, whichever
      is an int first, else either converted, else 0 (also when the conversion raises). */
  function CoalesceIndex(d: Detail): int
  {
    var a := d.orderIndex;
    var b := OrderIndexFromOrders(d);
    if IsPyInt(a) then ToInt(a).value
    else if IsPyInt(b) then ToInt(b).value
    else
      var converted := if a != Null then ToInt(a) else if b != Null then ToInt(b) else Some(0);
      if converted.Some? then converted.value else 0
  }

  /** Details without any index come last; the rest by coalesced index. */
  function DetailKey(d: Detail): SortKey
  {
    SortKey(d.orderIndex == Null && OrderIndexFromOrders(d) == Null, CoalesceIndex(d) as real)
  }

  /** The distinct order ids other than `None`; an unhashable one raises TypeError. */
  function OrderIds(details: seq<Detail>): Result<set<Value>>
  {
    if details == [] then Ok({})
    else
      match OrderIds(details[..|details| - 1])
      case Err(e) => Err(e)
      case Ok(ids) =>
        var id := details[|details| - 1].orderId;
        if id == Null then Ok(ids) else if Hashable(id) then Ok(ids + {id}) else Err(TypeError)
  }

  /** `int(v)` raised on `v`: ValueError for a string, TypeError otherwise. */
  function IntError(v: Value): Error
  {
    if v.Str? then ValueError else TypeError
  }

  /** `sum(int(d.products_count or 0) for d in details)` */
  function ProductsPacked(details: seq<Detail>): Result<int>
  {
    if details == [] then Ok(0)
    else
      match ProductsPacked(details[..|details| - 1])
      case Err(e) => Err(e)
      case Ok(total) =>
        var pc := Or(details[|details| - 1].productsCount, Int(0));
        match ToInt(pc)
        case None => Err(IntError(pc))
        case Some(n) => Ok(total + n)
  }

  /** The sums of actual products counts and of truncated total quantities over the enriched
      details. */
  function ActualTotals(details: seq<Detail>): (int, int)
  {
    if details == [] then (0, 0)
    else
      var (products, quantity) := ActualTotals(details[..|details| - 1]);
      var d := details[|details| - 1];
      if d.fromOrders.Some?
      then (products + d.fromOrders.value.actualProductsCount, quantity + Truncate(d.fromOrders.value.totalQuantity))
      else (products, quantity)
  }

  method SumActualTotals(details: seq<Detail>) returns (products: int, quantity: int)
    ensures (products, quantity) == ActualTotals(details)
  {
    products, quantity := 0, 0;
    for i := 0 to |details|
      invariant (products, quantity) == ActualTotals(details[..i])
    {
      assert details[..i + 1][..i] == details[..i];
      var d := details[i];
      if d.fromOrders.Some? {
        products := products + d.fromOrders.value.actualProductsCount;
        quantity := quantity + Truncate(d.fromOrders.value.totalQuantity);
      }
    }
    assert details[..|details|] == details;
  }

  function Enhance(stat: BinStat): Result<BinUsage>
  {
    match OrderIds(stat.details)
    case Err(e) => Err(e)
    case Ok(ids) =>
      match ProductsPacked(stat.details)
      case Err(e) => Err(e)
      case Ok(packed) =>
        var totals := ActualTotals(stat.details);
        Ok(BinUsage(stat.name, stat.url, Or(stat.length, Zero), Or(stat.width, Zero), Or(stat.height, Zero),
                    Or(stat.volume, Zero), stat.usageCount, Sort(stat.details, DetailKey), |ids|, packed,
                    if totals.0 > 0 then Some(totals) else None))
  }

  /** The packed products total raises exactly when some detail's products count does not
      convert with `int`. */
  lemma {:induction false} ProductsPackedError(details: seq<Detail>)
    ensures ProductsPacked(details).Err? <==>
      exists i :: 0 <= i < |details| && ToInt(Or(details[i].productsCount, Int(0))).None?
  {
    if details != [] {
      var init := details[..|details| - 1];
      ProductsPackedError(init);
      ExistsSplit(details, init, (d: Detail) => ToInt(Or(d.productsCount, Int(0))).None?);
    }
  }

  /** The distinct order ids other than `None` among some details. */
  function UniqueOrderIds(details: seq<Detail>): set<Value>
  {
    set d | d in details && d.orderId != Null :: d.orderId
  }

  /** A bin's details come out sorted by index, missing indexes last, as a permutation of those
      grouped that keeps their order among equal keys; unique orders count the distinct non-None
      order ids; the products packed are the converted products counts' sum; and the actual
      totals appear exactly when the actual products counts sum to a positive number, and then
      carry both sums; the name, url and usage pass through, and a falsy measurement becomes
      `0.0`. */
  lemma EnhanceSpec(stat: BinStat)
    requires Enhance(stat).Ok?
    ensures SortedBy(Enhance(stat).value.ordersDetail, DetailKey)
    ensures multiset(Enhance(stat).value.ordersDetail) == multiset(stat.details)
    ensures forall k :: WithKey(Enhance(stat).value.ordersDetail, DetailKey, k) == WithKey(stat.details, DetailKey, k)
    ensures Enhance(stat).value.totalUniqueOrders == |UniqueOrderIds(stat.details)| <= |stat.details|
    ensures forall i :: 0 <= i < |stat.details| ==> ToInt(Or(stat.details[i].productsCount, Int(0))).Some?
    ensures Enhance(stat).value.totalProductsPacked == ProductsPacked(stat.details).value
    ensures Enhance(stat).value.actualTotals.Some? <==> ActualTotals(stat.details).0 > 0
    ensures ActualTotals(stat.details).0 > 0 ==> Enhance(stat).value.actualTotals == Some(ActualTotals(stat.details))
    ensures Enhance(stat).value.usageCount == stat.usageCount && Enhance(stat).value.url == stat.url
    ensures Enhance(stat).value.name == stat.name
    ensures var u := Enhance(stat).value;
      && (Truthy(stat.length) ==> u.length == stat.length) && (!Truthy(stat.length) ==> u.length == Zero)
      && (Truthy(stat.width) ==> u.width == stat.width) && (!Truthy(stat.width) ==> u.width == Zero)
      && (Truthy(stat.height) ==> u.height == stat.height) && (!Truthy(stat.height) ==> u.height == Zero)
      && (Truthy(stat.volume) ==> u.volume == stat.volume) && (!Truthy(stat.volume) ==> u.volume == Zero)
  {
    SortSpec(stat.details, DetailKey);
    OrderIdsBound(stat.details);
    ProductsPackedError(stat.details);
    assert OrderIds(stat.details).value == UniqueOrderIds(stat.details);
  }

  lemma {:induction false} OrderIdsBound(details: seq<Detail>)
    requires OrderIds(details).Ok?
    ensures |OrderIds(details).value| <= |details|
    ensures forall id :: id in OrderIds(details).value <==> id != Null && exists d :: d in details && d.orderId == id
  {
    OrderIdsSize(details);
    forall id ensures id in OrderIds(details).value <==> id != Null && exists d :: d in details && d.orderId == id {
      OrderIdsMember(details, id);
    }
  }

  lemma {:induction false} OrderIdsSize(details: seq<Detail>)
    requires OrderIds(details).Ok?
    ensures |OrderIds(details).value| <= |details|
  {
    if details != [] {
      var init := details[..|details| - 1];
      OrderIdsSize(init);
      var ids := OrderIds(init).value;
      var id := details[|details| - 1].orderId;
      assert OrderIds(details).value == ids || OrderIds(details).value == ids + {id};
      assert |ids + {id}| <= |ids| + 1;
    }
  }

  lemma {:induction false} OrderIdsMember(details: seq<Detail>, id: Value)
    requires OrderIds(details).Ok?
    ensures id in OrderIds(details).value <==> id != Null && exists d :: d in details && d.orderId == id
  {
    if details != [] {
      var init := details[..|details| - 1];
      var last := details[|details| - 1];
      OrderIdsMember(init, id);
      assert OrderIds(details).value == if last.orderId == Null then OrderIds(init).value else OrderIds(init).value + {last.orderId};
      assert details == init + [last];
      if exists d :: d in details && d.orderId == id {
        var d :| d in details && d.orderId == id;
        assert d in init || d == last;
      }
    }
  }

  /** Most used bins first: descending usage, ties in first-seen order. */
  function UsageKey(u: BinUsage): SortKey
  {
    SortKey(false, -(u.usageCount as real))
  }

  function EnhanceAll(keys: seq<Value>, stats: map<Value, BinStat>): Result<seq<BinUsage>>
    requires forall k :: k in keys ==> k in stats
  {
    if keys == [] then Ok([])
    else
      match EnhanceAll(keys[..|keys| - 1], stats)
      case Err(e) => Err(e)
      case Ok(done) =>
        match Enhance(stats[keys[|keys| - 1]])
        case Err(e) => Err(e)
        case Ok(u) => Ok(done + [u])
  }

  /** An error in enhancing a prefix of the urls is the error of the whole. */
  lemma {:induction false} EnhanceErrorSticks(keys: seq<Value>, stats: map<Value, BinStat>, n: nat)
    requires forall k :: k in keys ==> k in stats
    requires n <= |keys| && EnhanceAll(keys[..n], stats).Err?
    ensures EnhanceAll(keys, stats) == EnhanceAll(keys[..n], stats)
    decreases |keys| - n
  {
    if n < |keys| {
      var init := keys[..|keys| - 1];
      assert init[..n] == keys[..n];
      EnhanceErrorSticks(init, stats, n);
    } else {
      assert keys[..n] == keys;
    }
  }

  function EnhancedOf(t: Table): Result<seq<BinUsage>>
    requires ValidTable(t)
  {
    match EnhanceAll(t.keys, t.stats)
    case Err(e) => Err(e)
    case Ok(us) => Ok(Sort(us, UsageKey))
  }

  method CreateEnhancedStatistics(t: Table) returns (r: Result<seq<BinUsage>>)
    requires ValidTable(t)
    ensures r == EnhancedOf(t)
  {
    var result: seq<BinUsage> := [];
    for i := 0 to |t.keys|
      invariant EnhanceAll(t.keys[..i], t.stats) == Ok(result)
    {
      assert t.keys[..i + 1][..i] == t.keys[..i];
      var item := Enhance(t.stats[t.keys[i]]);
      if item.Err? {
        EnhanceErrorSticks(t.keys, t.stats, i + 1);
        return Err(item.error);
      }
      result := result + [item.value];
    }
    assert t.keys[..|t.keys|] == t.keys;
    result := Sort(result, UsageKey);
    return Ok(result);
  }

  /** Each enhanced entry comes from the aggregate of one listed url. */
  lemma {:induction false} EnhanceAllMembers(keys: seq<Value>, stats: map<Value, BinStat>, u: BinUsage)
    requires forall k :: k in keys ==> k in stats
    requires EnhanceAll(keys, stats).Ok? && u in EnhanceAll(keys, stats).value
    ensures exists k :: k in keys && Enhance(stats[k]) == Ok(u)
  {
    var init := keys[..|keys| - 1];
    var done := EnhanceAll(init, stats).value;
    if u in done {
      EnhanceAllMembers(init, stats, u);
      var k :| k in init && Enhance(stats[k]) == Ok(u);
      assert k in keys;
    } else {
      assert u == EnhanceAll(keys, stats).value[|done|];
    }
  }

  /** The whole service on its inputs. */
  function StatisticsOf(summaries: Value, orders: Value): Result<seq<BinUsage>>
  {
    match LookupOf(AsList(orders))
    case Err(e) => Err(e)
    case Ok(lookup) =>
      match AnalyzeOf(AsList(summaries), lookup)
      case Err(e) => Err(e)
      case Ok(t) =>
        AnalyzeSpec(AsList(summaries), lookup);
        EnhancedOf(t)
  }

  method Perform(summaries: Value, orders: Value) returns (r: Result<seq<BinUsage>>)
    ensures r == StatisticsOf(summaries, orders)
  {
    var lookup := CreateOrderLookup(AsList(orders));
    if lookup.Err? {
      return Err(lookup.error);
    }
    var t := AnalyzeBinUsage(AsList(summaries), lookup.value);
    if t.Err? {
      return Err(t.error);
    }
    AnalyzeSpec(AsList(summaries), lookup.value);
    r := CreateEnhancedStatistics(t.value);
  }

  /** The entries enhanced from a list of urls come one per url, in that order. */
  lemma {:induction false} EnhanceAllAligned(keys: seq<Value>, stats: map<Value, BinStat>)
    requires forall k :: k in keys ==> k in stats
    requires EnhanceAll(keys, stats).Ok?
    ensures |EnhanceAll(keys, stats).value| == |keys|
    ensures forall i :: 0 <= i < |keys| ==> Enhance(stats[keys[i]]) == Ok(EnhanceAll(keys, stats).value[i])
  {
    if keys != [] {
      var init := keys[..|keys| - 1];
      EnhanceAllAligned(init, stats);
      var done := EnhanceAll(init, stats).value;
      assert EnhanceAll(keys, stats).value == done + [Enhance(stats[keys[|keys| - 1]]).value];
      forall i | 0 <= i < |keys| ensures Enhance(stats[keys[i]]) == Ok(EnhanceAll(keys, stats).value[i]) {
        if i < |init| {
          assert keys[i] == init[i];
        }
      }
    }
  }

  /** The urls of the entries used `n` times, in order. */
  function UrlsWithUsage(us: seq<BinUsage>, n: nat): seq<Value>
  {
    if us == [] then [] else (if us[0].usageCount == n then [us[0].url] else []) + UrlsWithUsage(us[1..], n)
  }

  /** The urls among `urls` that `n` summaries are counted under, in order. */
  function UrlsCounted(urls: seq<Value>, summaries: seq<Value>, n: nat): seq<Value>
  {
    if urls == [] then [] else (if UrlCount(summaries, urls[0]) == n then [urls[0]] else []) + UrlsCounted(urls[1..], summaries, n)
  }

  /** The sort key of the entries used `n` times. */
  function UsedKey(n: nat): SortKey
  {
    SortKey(false, -(n as real))
  }

  /** The entries used `n` times are those with the key of `n`. */
  lemma {:induction false} UsageByKey(us: seq<BinUsage>, n: nat)
    ensures UrlsWithUsage(WithKey(us, UsageKey, UsedKey(n)), n) == UrlsWithUsage(us, n)
  {
    if us != [] {
      UsageByKey(us[1..], n);
      var rest := WithKey(us[1..], UsageKey, UsedKey(n));
      assert UsageKey(us[0]) == UsedKey(n) <==> us[0].usageCount == n;
      if us[0].usageCount == n {
        assert WithKey(us, UsageKey, UsedKey(n)) == [us[0]] + rest;
        assert ([us[0]] + rest)[1..] == rest;
        assert UrlsWithUsage([us[0]] + rest, n) == [us[0].url] + UrlsWithUsage(rest, n);
      } else {
        assert WithKey(us, UsageKey, UsedKey(n)) == rest;
      }
    }
  }

  /** Entries that follow the urls one to one, each carrying its url and counted as the
      summaries count it. */
  predicate Aligned(us: seq<BinUsage>, urls: seq<Value>, summaries: seq<Value>)
  {
    |us| == |urls| && forall i :: 0 <= i < |us| ==> us[i].url == urls[i] && us[i].usageCount == UrlCount(summaries, urls[i])
  }

  /** Entries that follow the urls one to one, each counted as its url, list the urls used `n`
      times in the urls' order. */
  lemma {:induction false} UsageAligned(us: seq<BinUsage>, urls: seq<Value>, summaries: seq<Value>, n: nat)
    requires Aligned(us, urls, summaries)
    ensures UrlsWithUsage(us, n) == UrlsCounted(urls, summaries, n)
  {
    if us != [] {
      UsageAligned(us[1..], urls[1..], summaries, n);
    }
  }

  /** A multiset holds an element of a sequence without duplicates once. */
  lemma {:induction false} NoDuplicatesOnce<T>(s: seq<T>, x: T)
    requires NoDuplicates(s)
    ensures multiset(s)[x] <= 1
  {
    if s != [] {
      NoDuplicatesOnce(s[1..], x);
      assert s == [s[0]] + s[1..];
      assert s[0] == x ==> x !in s[1..];
    }
  }

  /** A permutation of a sequence without duplicates has none. */
  lemma PermutationNoDuplicates<T>(s: seq<T>, t: seq<T>)
    requires NoDuplicates(s) && multiset(s) == multiset(t)
    ensures NoDuplicates(t)
  {
    forall i, j | 0 <= i < j < |t| ensures t[i] != t[j] {
      NoDuplicatesOnce(s, t[i]);
      assert t == t[..i] + [t[i]] + t[i + 1..j] + [t[j]] + t[j + 1..];
      assert multiset(t)[t[i]] >= 1 + (if t[j] == t[i] then 1 else 0);
    }
  }

  /** Before the final sort, a grouped table yields one entry per url, in the table's order. */
  lemma EnhancedAligned(summaries: seq<Value>, t: Table)
    requires ValidTable(t) && EnhanceAll(t.keys, t.stats).Ok?
    requires forall k :: UsageOf(t, k) == UrlCount(summaries, k)
    ensures Aligned(EnhanceAll(t.keys, t.stats).value, t.keys, summaries)
    ensures NoDuplicates(EnhanceAll(t.keys, t.stats).value)
  {
    var e := EnhanceAll(t.keys, t.stats).value;
    EnhanceAllAligned(t.keys, t.stats);
    forall p | 0 <= p < |e| ensures e[p].url == t.keys[p] && e[p].usageCount == UrlCount(summaries, t.keys[p]) {
      EnhanceSpec(t.stats[t.keys[p]]);
    }
  }

  /** A permutation of aligned entries holds an entry for exactly the aligned urls. */
  lemma PermutedUrls(e: seq<BinUsage>, urls: seq<Value>, summaries: seq<Value>, us: seq<BinUsage>, url: Value)
    requires Aligned(e, urls, summaries) && multiset(us) == multiset(e)
    ensures url in urls <==> exists i :: 0 <= i < |us| && us[i].url == url
    ensures forall i :: 0 <= i < |us| ==> us[i].usageCount == UrlCount(summaries, us[i].url)
  {
    forall i | 0 <= i < |us| ensures exists p :: 0 <= p < |e| && e[p] == us[i] {
      assert us[i] in multiset(e);
    }
    if url in urls {
      var p :| 0 <= p < |urls| && urls[p] == url;
      assert e[p] in multiset(us);
    }
  }

  /** The statistics of a grouped table: one entry per url, used as often as the summaries count
      it, most used first, and ties in the order of the table's urls. */
  lemma TableStatistics(summaries: seq<Value>, t: Table, us: seq<BinUsage>)
    requires ValidTable(t) && EnhanceAll(t.keys, t.stats).Ok? && us == Sort(EnhanceAll(t.keys, t.stats).value, UsageKey)
    requires forall k :: UsageOf(t, k) == UrlCount(summaries, k)
    ensures forall i, j :: 0 <= i < j < |us| ==> us[i].usageCount >= us[j].usageCount
    ensures forall url :: UrlCount(summaries, url) > 0 <==> exists i :: 0 <= i < |us| && us[i].url == url
    ensures forall i :: 0 <= i < |us| ==> us[i].usageCount == UrlCount(summaries, us[i].url)
    ensures forall i, j :: 0 <= i < j < |us| ==> us[i].url != us[j].url
    ensures forall n: nat :: UrlsWithUsage(us, n) == UrlsCounted(t.keys, summaries, n)
  {
    var e := EnhanceAll(t.keys, t.stats).value;
    EnhancedAligned(summaries, t);
    SortSpec(e, UsageKey);
    PermutationNoDuplicates(e, us);
    forall i, j | 0 <= i < j < |us| ensures us[i].usageCount >= us[j].usageCount {
      assert KeyLe(UsageKey(us[i]), UsageKey(us[j]));
    }
    forall url ensures UrlCount(summaries, url) > 0 <==> exists i :: 0 <= i < |us| && us[i].url == url {
      PermutedUrls(e, t.keys, summaries, us, url);
    }
    PermutedUrls(e, t.keys, summaries, us, Null);
    forall i, j | 0 <= i < j < |us| ensures us[i].url != us[j].url {
      DistinctEntriesDistinctUrls(e, t.keys, summaries, us, i, j);
    }
    forall n: nat ensures UrlsWithUsage(us, n) == UrlsCounted(t.keys, summaries, n) {
      UsageByKey(us, n);
      UsageByKey(e, n);
      UsageAligned(e, t.keys, summaries, n);
    }
  }

  /** Two positions of a permutation of aligned entries over distinct urls carry distinct urls. */
  lemma DistinctEntriesDistinctUrls(e: seq<BinUsage>, urls: seq<Value>, summaries: seq<Value>, us: seq<BinUsage>, i: nat, j: nat)
    requires Aligned(e, urls, summaries) && NoDuplicates(urls) && multiset(us) == multiset(e) && NoDuplicates(us)
    requires i < j < |us|
    ensures us[i].url != us[j].url
  {
    assert us[i] in multiset(e) && us[j] in multiset(e);
    var p :| 0 <= p < |e| && e[p] == us[i];
    var q :| 0 <= q < |e| && e[q] == us[j];
    assert p != q;
  }

  /** The statistics list every bin url some summary is counted under, once, with the number of
      those summaries as its usage count, most used first, and equally used urls in the order
      the summaries first met them. */
  lemma StatisticsSpec(summaries: Value, orders: Value)
    requires StatisticsOf(summaries, orders).Ok?
    ensures var us := StatisticsOf(summaries, orders).value;
      && (forall i, j :: 0 <= i < j < |us| ==> us[i].usageCount >= us[j].usageCount)
      && (forall url :: UrlCount(AsList(summaries), url) > 0 <==> exists i :: 0 <= i < |us| && us[i].url == url)
      && (forall i :: 0 <= i < |us| ==> us[i].usageCount == UrlCount(AsList(summaries), us[i].url))
      && (forall i, j :: 0 <= i < j < |us| ==> us[i].url != us[j].url)
      && (forall n: nat :: UrlsWithUsage(us, n) == UrlsCounted(SeenUrls(AsList(summaries)), AsList(summaries), n))
  {
    var lookup := LookupOf(AsList(orders)).value;
    var t := AnalyzeOf(AsList(summaries), lookup).value;
    AnalyzeSpec(AsList(summaries), lookup);
    TableStatistics(AsList(summaries), t, StatisticsOf(summaries, orders).value);
  }
}
