/** Choosing one carton per order (bin_packaging_service.py): candidate bins from the size
    catalog, unit items from the order's products, the smallest-volume bin into which the
    three-dimensional packer places every item, per-order summaries and the batch and streaming
    drivers. The packer itself is a parameter: `pack(b, items)` is how many of `items` it placed
    in `b`, or `None` when it raised. */
module BinPackaging {
  import opened Wrappers
  import opened PyStrings
  import opened PyValue
  import opened Seqs
  import opened StableSort

  /** One unit of a product, in centimetres and grams; `depth` is the product's length. */
  datatype Item = Item(name: string, width: real, height: real, depth: real, weight: real)

  /** A candidate carton; `depth` is the catalog's length and `url` its catalog link. */
  datatype Bin = Bin(name: string, width: real, height: real, depth: real, maxWeight: real, url: Value)

  type Packer = (Bin, seq<Item>) -> Option<nat>

  const DefaultMaxWeight: real := 100000.0

  function Volume(b: Bin): real
  {
    b.width * b.height * b.depth
  }

  /** The key candidates are ordered by: ascending volume. */
  function VolumeKey(b: Bin): SortKey
  {
    SortKey(false, Volume(b))
  }

  /** `list` arguments: anything that is not a list is treated as an empty one. */
  function AsList(v: Value): seq<Value>
  {
    if v.List? then v.elems else []
  }

  /** `float(d.get(key))` for a key holding a value other than `None`; `None` otherwise. */
  function FloatField(entries: seq<(string, Value)>, key: string): Option<real>
  {
    var v := Get(entries, key);
    if v == Null then None else ToFloat(v)
  }

  predicate PositiveField(entries: seq<(string, Value)>, key: string)
  {
    FloatField(entries, key).Some? && FloatField(entries, key).value > 0.0
  }

  // ---------------------------------------------------------------- bins

  /** The bin one catalog record yields, if any. */
  function BinFromSize(s: Value): (r: Option<Bin>)
    ensures r.Some? <==>
      s.Dict? && PositiveField(s.entries, "length") && PositiveField(s.entries, "width")
      && PositiveField(s.entries, "height")
    ensures r.Some? ==>
      var n := Get(s.entries, "size_cm");
      && r.value.name == (if n == Null then "bin" else PyStr(n))
      && r.value.depth == FloatField(s.entries, "length").value
      && r.value.width == FloatField(s.entries, "width").value
      && r.value.height == FloatField(s.entries, "height").value
      && r.value.maxWeight == DefaultMaxWeight
      && r.value.url == Get(s.entries, "url")
  {
    if !s.Dict? then None
    else
      var e := s.entries;
      var name := if Get(e, "size_cm") != Null then PyStr(Get(e, "size_cm")) else "bin";
      var l, w, h := Get(e, "length"), Get(e, "width"), Get(e, "height");
      if l == Null || w == Null || h == Null then None
      else
        match (ToFloat(l), ToFloat(w), ToFloat(h))
        case (Some(fl), Some(fw), Some(fh)) =>
          if fl > 0.0 && fw > 0.0 && fh > 0.0
          then Some(Bin(name, fw, fh, fl, DefaultMaxWeight, Get(e, "url")))
          else None
        case _ => None
  }

  /** The bins of a catalog: one per usable record, in catalog order. */
  method BuildBinsFromSizes(sizes: seq<Value>) returns (bins: seq<Bin>)
    ensures bins == FilterMap(sizes, BinFromSize)
  {
    bins := [];
    for i := 0 to |sizes|
      invariant bins == FilterMap(sizes[..i], BinFromSize)
    {
      var b := BinFromSize(sizes[i]);
      if b.Some? {
        bins := bins + [b.value];
      }
      FilterMapAppend(sizes[..i], [sizes[i]], BinFromSize);
      assert sizes[..i + 1] == sizes[..i] + [sizes[i]];
    }
    assert sizes[..|sizes|] == sizes;
  }

  /** A bin is built exactly from a usable catalog record, and has positive dimensions. */
  lemma BinsFromSizesSpec(sizes: seq<Value>, b: Bin)
    ensures b in FilterMap(sizes, BinFromSize) <==>
      exists i :: 0 <= i < |sizes| && BinFromSize(sizes[i]) == Some(b)
    ensures b in FilterMap(sizes, BinFromSize) ==>
      b.width > 0.0 && b.height > 0.0 && b.depth > 0.0 && Volume(b) > 0.0 && b.maxWeight == DefaultMaxWeight
  {
    FilterMapMembers(sizes, BinFromSize, b);
    if b in FilterMap(sizes, BinFromSize) {
      var i :| 0 <= i < |sizes| && BinFromSize(sizes[i]) == Some(b);
      BinPositive(sizes[i]);
    }
  }

  lemma BinPositive(s: Value)
    requires BinFromSize(s).Some?
    ensures var b := BinFromSize(s).value;
      b.width > 0.0 && b.height > 0.0 && b.depth > 0.0 && Volume(b) > 0.0
  {
    var b := BinFromSize(s).value;
    assert b.width > 0.0 && b.height > 0.0 && b.depth > 0.0;
    VolumePositive(b);
  }

  lemma VolumePositive(b: Bin)
    requires b.width > 0.0 && b.height > 0.0 && b.depth > 0.0
    ensures Volume(b) > 0.0
  {
    assert b.width * b.height > 0.0;
  }

  // ---------------------------------------------------------------- items

  /** Lengths in millimetres or metres are converted to centimetres. */
  function LengthToCm(unit: string, x: real): real
  {
    if unit == "mm" then x / 10.0
    else if unit == "m" || unit == "meter" || unit == "metre" then x * 100.0
    else x
  }

  /** Weights in kilograms or milligrams are converted to grams. */
  function WeightToGrams(unit: string, x: real): real
  {
    if unit == "kg" then x * 1000.0 else if unit == "mg" then x / 1000.0 else x
  }

  /** `str(p.get(key) or default).lower()` */
  function UnitOf(entries: seq<(string, Value)>, key: string, default: string): string
  {
    Lower(PyStr(Or(Get(entries, key), Str(default))))
  }

  /** `int(quantity)` where a quantity is given, else 1. */
  function QuantityOf(entries: seq<(string, Value)>): Option<int>
  {
    var q := Get(entries, "quantity");
    if q == Null then Some(1) else ToInt(q)
  }

  /** A product record the order's items are built from: a dict whose length, width, height and
      weight coerce to floats (positive dimensions, non-negative weight) and whose quantity, if
      any, coerces to an int. */
  predicate UsableProduct(p: Value)
  {
    && p.Dict?
    && PositiveField(p.entries, "length") && PositiveField(p.entries, "width")
    && PositiveField(p.entries, "height")
    && FloatField(p.entries, "weight").Some? && FloatField(p.entries, "weight").value >= 0.0
    && QuantityOf(p.entries).Some?
  }

  /** One product's unit item and how many copies of it the order holds. */
  function ProductUnit(p: Value): Option<(Item, nat)>
  {
    if !p.Dict? then None
    else
      var e := p.entries;
      var name := PyStr(Or(Or(Get(e, "title"), Get(e, "id")), Str("item")));
      var l, w, h, weight := Get(e, "length"), Get(e, "width"), Get(e, "height"), Get(e, "weight");
      if l == Null || w == Null || h == Null || weight == Null then None
      else
        match (ToFloat(l), ToFloat(w), ToFloat(h), ToFloat(weight), QuantityOf(e))
        case (Some(fl), Some(fw), Some(fh), Some(fg), Some(q)) =>
          if !(fl > 0.0 && fw > 0.0 && fh > 0.0 && fg >= 0.0) then None
          else
            var lu := UnitOf(e, "length_unit", "cm");
            var gu := UnitOf(e, "weight_unit", "g");
            var unit := Item(name, LengthToCm(lu, fw), LengthToCm(lu, fh), LengthToCm(lu, fl), WeightToGrams(gu, fg));
            Some((unit, if q < 1 then 1 else q))
        case _ => None
  }

  function ProductItems(p: Value): seq<Item>
  {
    match ProductUnit(p)
    case None => []
    case Some((unit, n)) => Repeat(unit, n)
  }

  /** A usable product gives `max(1, quantity)` copies of one item, with its dimensions and weight
      in centimetres and grams; any other product gives none. */
  lemma ProductItemsSpec(p: Value)
    ensures UsableProduct(p) <==> ProductItems(p) != []
    ensures UsableProduct(p) ==>
      var e := p.entries;
      var q := QuantityOf(e).value;
      var lu := UnitOf(e, "length_unit", "cm");
      && |ProductItems(p)| == (if q < 1 then 1 else q)
      && forall k :: 0 <= k < |ProductItems(p)| ==>
        ProductItems(p)[k] == Item(PyStr(Or(Or(Get(e, "title"), Get(e, "id")), Str("item"))),
                                   LengthToCm(lu, FloatField(e, "width").value),
                                   LengthToCm(lu, FloatField(e, "height").value),
                                   LengthToCm(lu, FloatField(e, "length").value),
                                   WeightToGrams(UnitOf(e, "weight_unit", "g"), FloatField(e, "weight").value))
  {
  }

  /** Every unit is positive in size after conversion. */
  lemma ProductItemsPositive(p: Value, k: nat)
    requires k < |ProductItems(p)|
    ensures ProductItems(p)[k].width > 0.0 && ProductItems(p)[k].height > 0.0
    ensures ProductItems(p)[k].depth > 0.0 && ProductItems(p)[k].weight >= 0.0
  {
  }

  /** The items of a sequence of products, in order. */
  function ItemsOfProducts(ps: seq<Value>): seq<Item>
  {
    if ps == [] then [] else ItemsOfProducts(ps[..|ps| - 1]) + ProductItems(ps[|ps| - 1])
  }

  /** `order.get("products") or []`, iterated; a value that cannot be iterated raises TypeError. */
  function ItemsFromOrder(order: Value): Result<seq<Item>>
  {
    if !Truthy(order) || !order.Dict? then Ok([])
    else
      match Iterate(Or(Get(order.entries, "products"), List([])))
      case None => Err(TypeError)
      case Some(ps) => Ok(ItemsOfProducts(ps))
  }

  method BuildItemsFromOrder(order: Value) returns (r: Result<seq<Item>>)
    ensures r == ItemsFromOrder(order)
  {
    if !Truthy(order) || !order.Dict? {
      return Ok([]);
    }
    var products := Iterate(Or(Get(order.entries, "products"), List([])));
    if products.None? {
      return Err(TypeError);
    }
    var ps := products.value;
    var items: seq<Item> := [];
    for i := 0 to |ps|
      invariant items == ItemsOfProducts(ps[..i])
    {
      ItemsOfProductsStep(ps, i);
      var unit := ProductUnit(ps[i]);
      if unit.Some? {
        items := AppendCopies(items, unit.value.0, unit.value.1);
      }
    }
    assert ps[..|ps|] == ps;
    return Ok(items);
  }

  lemma ItemsOfProductsStep(ps: seq<Value>, i: nat)
    requires i < |ps|
    ensures ItemsOfProducts(ps[..i + 1]) == ItemsOfProducts(ps[..i]) + ProductItems(ps[i])
  {
    assert ps[..i + 1][..i] == ps[..i];
  }

  /** The inner loop of the item builder: `n` copies of `unit` after `items`. */
  method AppendCopies(items: seq<Item>, unit: Item, n: nat) returns (r: seq<Item>)
    ensures r == items + Repeat(unit, n)
  {
    r := items;
    for j := 0 to n
      invariant r == items + Repeat(unit, j)
    {
      assert Repeat(unit, j + 1) == Repeat(unit, j) + [unit];
      r := r + [unit];
    }
  }

  /** An item of an order is a unit of one of its usable products. */
  lemma {:induction false} ItemsOfProductsMembers(ps: seq<Value>, it: Item)
    ensures it in ItemsOfProducts(ps) <==> exists i :: 0 <= i < |ps| && it in ProductItems(ps[i])
  {
    if ps != [] {
      var init := ps[..|ps| - 1];
      ItemsOfProductsMembers(init, it);
      if it in ItemsOfProducts(init) {
        var i :| 0 <= i < |init| && it in ProductItems(init[i]);
        assert ps[i] == init[i];
      }
      if exists i :: 0 <= i < |ps| && it in ProductItems(ps[i]) {
        var i :| 0 <= i < |ps| && it in ProductItems(ps[i]);
        if i < |ps| - 1 {
          assert init[i] == ps[i];
        }
      }
    }
  }

  // ---------------------------------------------------------------- bin selection

  /** The packer placed every item in `b`. */
  predicate FitsAll(pack: Packer, items: seq<Item>, b: Bin)
  {
    pack(b, items) == Some(|items|)
  }

  /** The first candidate, in the given order, into which every item is placed. */
  function FirstFit(candidates: seq<Bin>, items: seq<Item>, pack: Packer): Option<Bin>
  {
    if candidates == [] then None
    else if FitsAll(pack, items, candidates[0]) then Some(candidates[0])
    else FirstFit(candidates[1..], items, pack)
  }

  lemma {:induction false} FirstFitIsFirstWhere(candidates: seq<Bin>, items: seq<Item>, pack: Packer, p: Bin -> bool)
    requires forall b :: p(b) == FitsAll(pack, items, b)
    ensures FirstFit(candidates, items, pack) == FirstWhere(candidates, p)
  {
    if candidates != [] {
      FirstFitIsFirstWhere(candidates[1..], items, pack, p);
    }
  }

  /** The bin chosen for `items`: none for no items, else the first bin, by ascending volume
      with ties in catalog order, that holds all of them. */
  function SelectBin(items: seq<Item>, bins: seq<Bin>, pack: Packer): Option<Bin>
  {
    if items == [] then None else FirstFit(Sort(bins, VolumeKey), items, pack)
  }

  method FindSingleBinForItems(items: seq<Item>, sizes: seq<Value>, pack: Packer) returns (best: Option<Bin>)
    ensures best == SelectBin(items, FilterMap(sizes, BinFromSize), pack)
  {
    if items == [] {
      return None;
    }
    var candidates := BuildBinsFromSizes(sizes);
    candidates := Sort(candidates, VolumeKey);
    var i := 0;
    while i < |candidates|
      invariant 0 <= i <= |candidates|
      invariant FirstFit(candidates[i..], items, pack) == FirstFit(candidates, items, pack)
    {
      var placed := pack(candidates[i], items);
      if placed.Some? && placed.value == |items| {
        return Some(candidates[i]);
      }
      assert candidates[i..][1..] == candidates[i + 1..];
      i := i + 1;
    }
    return None;
  }

  /** What the selection guarantees: the chosen bin is a catalog bin that holds every item, it
      is chosen exactly when some catalog bin does, and never for an empty item list. */
  lemma SelectBinSpec(items: seq<Item>, bins: seq<Bin>, pack: Packer)
    ensures SelectBin(items, bins, pack).Some? <==>
      items != [] && exists b :: b in bins && FitsAll(pack, items, b)
    ensures SelectBin(items, bins, pack).Some? ==>
      SelectBin(items, bins, pack).value in bins && FitsAll(pack, items, SelectBin(items, bins, pack).value)
  {
    if items != [] {
      var sorted := Sort(bins, VolumeKey);
      SortSpec(bins, VolumeKey);
      var p := (b: Bin) => FitsAll(pack, items, b);
      FirstFitIsFirstWhere(sorted, items, pack, p);
      FirstWhereSpec(sorted, p);
      if exists b :: b in bins && FitsAll(pack, items, b) {
        var b :| b in bins && FitsAll(pack, items, b);
        assert b in multiset(sorted);
        var m :| 0 <= m < |sorted| && sorted[m] == b;
      }
      if FirstFit(sorted, items, pack).Some? {
        assert FirstFit(sorted, items, pack).value in multiset(bins);
      }
    }
  }

  /** No bin of strictly smaller volume than the chosen one holds every item. */
  lemma SelectBinMinimal(items: seq<Item>, bins: seq<Bin>, pack: Packer, b: Bin)
    requires SelectBin(items, bins, pack).Some?
    requires b in bins && Volume(b) < Volume(SelectBin(items, bins, pack).value)
    ensures !FitsAll(pack, items, b)
  {
    var c := SelectBin(items, bins, pack).value;
    var sorted := Sort(bins, VolumeKey);
    SortSpec(bins, VolumeKey);
    var p := (x: Bin) => FitsAll(pack, items, x);
    FirstFitIsFirstWhere(sorted, items, pack, p);
    FirstWhereSpec(sorted, p);
    var j :| 0 <= j < |sorted| && sorted[j] == c && forall i :: 0 <= i < j ==> !p(sorted[i]);
    assert b in multiset(sorted);
    var m :| 0 <= m < |sorted| && sorted[m] == b;
    SortedSmallerFirst(sorted, VolumeKey, m, j);
    assert !p(sorted[m]);
  }

  /** Among bins of the chosen volume that hold every item, the chosen one comes first in the
      catalog: the stable sort keeps catalog order within one volume. */
  lemma SelectBinFirstOfItsVolume(items: seq<Item>, bins: seq<Bin>, pack: Packer, i: nat)
    requires SelectBin(items, bins, pack).Some?
    requires i < |bins| && FitsAll(pack, items, bins[i])
    requires Volume(bins[i]) == Volume(SelectBin(items, bins, pack).value)
    ensures exists j :: 0 <= j <= i && bins[j] == SelectBin(items, bins, pack).value
  {
    var c := SelectBin(items, bins, pack).value;
    var kc := VolumeKey(c);
    var sorted := Sort(bins, VolumeKey);
    SortSpec(bins, VolumeKey);
    var p := (x: Bin) => FitsAll(pack, items, x);
    var r := (x: Bin) => VolumeKey(x) == kc && FitsAll(pack, items, x);
    FirstFitIsFirstWhere(sorted, items, pack, p);
    FirstWhereSpec(sorted, p);
    FirstWhereStronger(sorted, p, r, c);
    FirstWhereWithKey(sorted, VolumeKey, kc, p, r);
    assert WithKey(sorted, VolumeKey, kc) == WithKey(bins, VolumeKey, kc);
    FirstWhereWithKey(bins, VolumeKey, kc, p, r);
    FirstWhereSpec(bins, r);
    var j :| 0 <= j < |bins| && bins[j] == c && forall k :: 0 <= k < j ==> !r(bins[k]);
    assert r(bins[i]);
  }

  // ---------------------------------------------------------------- summaries

  /** The chosen bin as a summary reports it. */
  datatype BinInfo = BinInfo(name: string, length: real, width: real, height: real, volume: real, fittedItems: nat, url: Value)

  /** One order's result: its position, its transaction id, how many product entries it lists,
      and the chosen bin if any. */
  datatype Summary = Summary(orderIndex: int, orderId: Value, productsCount: nat, bin: Option<BinInfo>)

  function InfoOf(b: Bin, fitted: nat): BinInfo
  {
    BinInfo(b.name, b.depth, b.width, b.height, b.depth * b.width * b.height, fitted, b.url)
  }

  /** The products a summary counts: `order.get("products") or []` for a dict order. */
  function ProductsOf(order: Value): Value
  {
    if order.Dict? then Or(Get(order.entries, "products"), List([])) else List([])
  }

  function OrderIdOf(order: Value): Value
  {
    if order.Dict? then Get(order.entries, "transaction_id") else Null
  }

  /** The summary for one order given on its own, numbered `index`. */
  function SummaryForSingle(order: Value, sizes: seq<Value>, index: int, pack: Packer): (r: Result<Summary>)
    ensures r.Ok? <==> ItemsFromOrder(order).Ok?
    ensures r.Ok? ==>
      && r.value.orderIndex == index
      && r.value.orderId == OrderIdOf(order)
      && Some(r.value.productsCount) == Len(ProductsOf(order))
  {
    match ItemsFromOrder(order)
    case Err(e) => Err(e)
    case Ok(items) =>
      var best := SelectBin(items, FilterMap(sizes, BinFromSize), pack);
      ProductsIterable(order);
      match Len(ProductsOf(order))
      case None => Err(TypeError)
      case Some(n) => Ok(Summary(index, OrderIdOf(order), n, if best.Some? then Some(InfoOf(best.value, |items|)) else None))
  }

  /** A reported bin is a catalog bin holding all the items, with its volume the product of its
      sides; no bin is reported only when there are no items or no catalog bin holds them all. */
  predicate ReportsBin(items: seq<Item>, bins: seq<Bin>, pack: Packer, bin: Option<BinInfo>)
  {
    && (bin.Some? ==>
          && bin.value.volume == bin.value.length * bin.value.width * bin.value.height
          && bin.value.fittedItems == |items| > 0
          && exists b :: b in bins && FitsAll(pack, items, b) && bin.value == InfoOf(b, |items|))
    && (bin.None? ==> items == [] || forall b :: b in bins ==> !FitsAll(pack, items, b))
  }

  /** The bin a summary reports is a catalog bin holding all of the order's items, and it reports
      none only when the order has no items or no catalog bin holds them all. */
  lemma SummaryBinSpec(order: Value, sizes: seq<Value>, index: int, pack: Packer)
    requires SummaryForSingle(order, sizes, index, pack).Ok?
    ensures ReportsBin(ItemsFromOrder(order).value, FilterMap(sizes, BinFromSize), pack,
                       SummaryForSingle(order, sizes, index, pack).value.bin)
  {
    SummaryBinOf(order, sizes, index, pack);
    BinReport(ItemsFromOrder(order).value, FilterMap(sizes, BinFromSize), pack,
              SummaryForSingle(order, sizes, index, pack).value.bin);
  }

  /** What a reported bin says about the selection it comes from. */
  lemma BinReport(items: seq<Item>, bins: seq<Bin>, pack: Packer, bin: Option<BinInfo>)
    requires bin == if SelectBin(items, bins, pack).Some? then Some(InfoOf(SelectBin(items, bins, pack).value, |items|)) else None
    ensures ReportsBin(items, bins, pack, bin)
  {
    var best := SelectBin(items, bins, pack);
    SelectBinSpec(items, bins, pack);
    if best.Some? {
      InfoOfVolume(best.value, |items|);
      assert best.value in bins && FitsAll(pack, items, best.value);
    }
  }

  /** The bin of a summary is the information of the selected bin, if any. */
  lemma SummaryBinOf(order: Value, sizes: seq<Value>, index: int, pack: Packer)
    requires SummaryForSingle(order, sizes, index, pack).Ok?
    ensures var items := ItemsFromOrder(order).value;
      var best := SelectBin(items, FilterMap(sizes, BinFromSize), pack);
      SummaryForSingle(order, sizes, index, pack).value.bin ==
        if best.Some? then Some(InfoOf(best.value, |items|)) else None
  {
    ProductsIterable(order);
  }

  lemma InfoOfVolume(b: Bin, fitted: nat)
    ensures InfoOf(b, fitted).volume == InfoOf(b, fitted).length * InfoOf(b, fitted).width * InfoOf(b, fitted).height
    ensures InfoOf(b, fitted).fittedItems == fitted
  {
  }

  /** Whenever the items can be built, the product list has a length. */
  lemma ProductsIterable(order: Value)
    requires ItemsFromOrder(order).Ok?
    ensures Len(ProductsOf(order)).Some?
  {
    if Truthy(order) && order.Dict? {
      var ps := Iterate(Or(Get(order.entries, "products"), List([])));
      assert ps.Some?;
    }
  }

  /** `find_single_bin_that_fits_all_items`: the chosen bin for the order at `index`, none for an
      index out of range. */
  function BinForOrderAt(orders: seq<Value>, sizes: seq<Value>, index: int, pack: Packer): Result<Option<Bin>>
  {
    if index < 0 || index >= |orders| then Ok(None)
    else
      match ItemsFromOrder(orders[index])
      case Err(e) => Err(e)
      case Ok(items) => Ok(SelectBin(items, FilterMap(sizes, BinFromSize), pack))
  }

  method FindSingleBinThatFitsAllItems(orders: seq<Value>, sizes: seq<Value>, index: int, pack: Packer)
    returns (r: Result<Option<Bin>>)
    ensures r == BinForOrderAt(orders, sizes, index, pack)
  {
    if index < 0 || index >= |orders| {
      return Ok(None);
    }
    var items := BuildItemsFromOrder(orders[index]);
    if items.Err? {
      return Err(items.error);
    }
    var best := FindSingleBinForItems(items.value, sizes, pack);
    return Ok(best);
  }

  /** The summary for the order at `index` of a list; an index out of range raises ValueError. */
  function SummaryForOrder(orders: seq<Value>, sizes: seq<Value>, index: int, pack: Packer): (r: Result<Summary>)
    ensures index < 0 || index >= |orders| ==> r == Err(ValueError)
  {
    if index < 0 || index >= |orders| then Err(ValueError)
    else
      var order := orders[index];
      match ItemsFromOrder(order)
      case Err(e) => Err(e)
      case Ok(items) =>
        match BinForOrderAt(orders, sizes, index, pack)
        case Err(e) => Err(e)
        case Ok(best) =>
          match Len(ProductsOf(order))
          case None => Err(TypeError)
          case Some(n) => Ok(Summary(index, OrderIdOf(order), n, if best.Some? then Some(InfoOf(best.value, |items|)) else None))
  }

  /** Within range, summarising the order at a position of the list is summarising that order on
      its own with that number. */
  lemma SummaryForOrderIsSingle(orders: seq<Value>, sizes: seq<Value>, index: int, pack: Packer)
    requires 0 <= index < |orders|
    ensures SummaryForOrder(orders, sizes, index, pack) == SummaryForSingle(orders[index], sizes, index, pack)
  {
  }

  // ---------------------------------------------------------------- drivers

  datatype PackingReport = PackingReport(totalOrders: nat, processedOrders: nat, totalSummaries: nat, summaries: seq<Summary>)

  function Min(a: int, b: int): int { if a <= b then a else b }
  function Max(a: int, b: int): int { if a <= b then b else a }

  /** How many orders the batch processes: all, or `max_orders` clipped to `[0, len]` when it
      is given and coerces to an int. */
  function BatchLimit(count: nat, maxOrders: Value): nat
  {
    if maxOrders == Null then count
    else
      match ToInt(maxOrders)
      case None => count
      case Some(k) => Max(0, Min(k, count))
  }

  /** The summaries of the first `limit` orders, skipping those whose summary raises. */
  function BatchSummaries(orders: seq<Value>, sizes: seq<Value>, limit: nat, pack: Packer): seq<Summary>
    requires limit <= |orders|
  {
    if limit == 0 then []
    else
      BatchSummaries(orders, sizes, limit - 1, pack)
      + (match SummaryForOrder(orders, sizes, limit - 1, pack) case Ok(s) => [s] case Err(_) => [])
  }

  method Perform(orders: Value, sizes: Value, maxOrders: Value, pack: Packer) returns (report: PackingReport)
    ensures report.totalOrders == |AsList(orders)|
    ensures report.processedOrders == BatchLimit(|AsList(orders)|, maxOrders) <= report.totalOrders
    ensures report.summaries == BatchSummaries(AsList(orders), AsList(sizes), report.processedOrders, pack)
    ensures report.totalSummaries == |report.summaries| <= report.processedOrders
  {
    var orderList := AsList(orders);
    var sizeList := AsList(sizes);
    var limit: nat := |orderList|;
    if maxOrders != Null {
      var k := ToInt(maxOrders);
      if k.Some? {
        limit := Max(0, Min(k.value, |orderList|));
      }
    }
    var summaries: seq<Summary> := [];
    for index := 0 to limit
      invariant summaries == BatchSummaries(orderList, sizeList, index, pack)
    {
      var summary := SummaryForOrder(orderList, sizeList, index, pack);
      if summary.Ok? {
        summaries := summaries + [summary.value];
      }
    }
    BatchSummariesSpec(orderList, sizeList, limit, pack);
    report := PackingReport(|orderList|, limit, |summaries|, summaries);
  }

  /** The batch keeps, in order and without repetition, exactly the orders below the limit whose
      summary does not raise. */
  lemma {:induction false} BatchSummariesSpec(orders: seq<Value>, sizes: seq<Value>, limit: nat, pack: Packer)
    requires limit <= |orders|
    ensures |BatchSummaries(orders, sizes, limit, pack)| <= limit
    ensures forall k :: 0 <= k < |BatchSummaries(orders, sizes, limit, pack)| ==>
      var s := BatchSummaries(orders, sizes, limit, pack)[k];
      0 <= s.orderIndex < limit && SummaryForOrder(orders, sizes, s.orderIndex, pack) == Ok(s)
    ensures forall k, m :: 0 <= k < m < |BatchSummaries(orders, sizes, limit, pack)| ==>
      BatchSummaries(orders, sizes, limit, pack)[k].orderIndex < BatchSummaries(orders, sizes, limit, pack)[m].orderIndex
    ensures forall i :: 0 <= i < limit && SummaryForOrder(orders, sizes, i, pack).Ok? ==>
      SummaryForOrder(orders, sizes, i, pack).value in BatchSummaries(orders, sizes, limit, pack)
  {
    if limit > 0 {
      BatchSummariesSpec(orders, sizes, limit - 1, pack);
      var r := SummaryForOrder(orders, sizes, limit - 1, pack);
      if r.Ok? {
        SummaryIndex(orders, sizes, limit - 1, pack);
      }
    }
  }

  lemma SummaryIndex(orders: seq<Value>, sizes: seq<Value>, index: int, pack: Packer)
    requires SummaryForOrder(orders, sizes, index, pack).Ok?
    ensures SummaryForOrder(orders, sizes, index, pack).value.orderIndex == index
  {
  }

  /** The streaming cap: `max(0, int(max_orders))`, or none. */
  function StreamLimit(maxOrders: Value): Option<nat>
  {
    if maxOrders == Null then None
    else
      match ToInt(maxOrders)
      case None => None
      case Some(k) => Some(Max(0, k))
  }

  /** How many of `count` available orders the stream consumes under a cap. */
  function StreamProcessed(count: nat, limit: Option<nat>): nat
  {
    if limit.Some? then Min(count, limit.value) else count
  }

  /** The summaries of a finite stream, numbering orders by position. */
  function StreamSummaries(orders: seq<Value>, sizes: seq<Value>, pack: Packer): seq<Summary>
  {
    if orders == [] then []
    else
      StreamSummaries(orders[..|orders| - 1], sizes, pack)
      + (match SummaryForSingle(orders[|orders| - 1], sizes, |orders| - 1, pack) case Ok(s) => [s] case Err(_) => [])
  }

  method PerformStream(orders: seq<Value>, sizes: Value, maxOrders: Value, pack: Packer) returns (report: PackingReport)
    ensures report.totalOrders == report.processedOrders == StreamProcessed(|orders|, StreamLimit(maxOrders))
    ensures report.summaries == StreamSummaries(orders[..report.processedOrders], AsList(sizes), pack)
    ensures report.totalSummaries == |report.summaries|
  {
    var sizeList := AsList(sizes);
    var limit: Option<nat> := None;
    if maxOrders != Null {
      var k := ToInt(maxOrders);
      if k.Some? {
        limit := Some(Max(0, k.value));
      }
    }
    var summaries: seq<Summary> := [];
    var processed: nat := 0;
    var i := 0;
    while i < |orders|
      invariant processed == i <= |orders|
      invariant limit.Some? ==> processed <= limit.value
      invariant summaries == StreamSummaries(orders[..processed], sizeList, pack)
    {
      if limit.Some? && processed >= limit.value {
        break;
      }
      var order := orders[i];
      var index := processed;
      processed := processed + 1;
      assert orders[..processed][..index] == orders[..index];
      var summary := SummaryForSingle(order, sizeList, index, pack);
      if summary.Ok? {
        summaries := summaries + [summary.value];
      }
      i := i + 1;
    }
    report := PackingReport(processed, processed, |summaries|, summaries);
  }

  /** Run over a list, the stream and the batch process the same orders and produce the same
      summaries. */
  lemma {:induction false} StreamAgreesWithBatch(orders: seq<Value>, sizes: seq<Value>, maxOrders: Value, pack: Packer)
    ensures StreamProcessed(|orders|, StreamLimit(maxOrders)) == BatchLimit(|orders|, maxOrders)
    ensures StreamSummaries(orders[..BatchLimit(|orders|, maxOrders)], sizes, pack)
         == BatchSummaries(orders, sizes, BatchLimit(|orders|, maxOrders), pack)
  {
    PrefixSummaries(orders, sizes, BatchLimit(|orders|, maxOrders), pack);
  }

  lemma {:induction false} PrefixSummaries(orders: seq<Value>, sizes: seq<Value>, n: nat, pack: Packer)
    requires n <= |orders|
    ensures StreamSummaries(orders[..n], sizes, pack) == BatchSummaries(orders, sizes, n, pack)
  {
    if n > 0 {
      PrefixSummaries(orders, sizes, n - 1, pack);
      assert orders[..n][..n - 1] == orders[..n - 1];
      SummaryForOrderIsSingle(orders, sizes, n - 1, pack);
    }
  }
}
