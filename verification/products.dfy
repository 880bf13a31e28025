/** The products report: a per-variant tally of the line items, a batched
    inventory-cost lookup, and the per-variant margin. */
module Products {
  import opened Basics
  import opened Shop
  import opened Chunking

  /** One entry of the per-variant map; the descriptive fields are fixed by
      the first line item seen for the variant. */
  datatype VariantTally = VariantTally(
    title: string,
    variantTitle: string,
    inventoryItemId: Option<int>,
    totalSold: nat,
    totalRevenue: real)

  /** The per-variant map together with the order its keys were inserted in. */
  datatype Tally = Tally(stats: map<int, VariantTally>, order: seq<int>)

  /** One key per variant, listed once each. */
  ghost predicate Valid(t: Tally) {
    && Distinct(t.order)
    && (forall v :: v in t.stats <==> v in t.order)
    && (forall i :: 0 <= i < |t.order| ==> t.order[i] in t.stats)
  }

  /** Adds one line item to the tally, creating the variant's entry on first sight. */
  function Record(t: Tally, item: LineItem): Tally {
    var v := item.variantId;
    var entry :=
      if v in t.stats then t.stats[v]
      else VariantTally(item.title, item.variantTitle.GetOr(""), item.inventoryItemId, 0, 0.0);
    Tally(t.stats[v := entry.(totalSold := entry.totalSold + Quantity(item),
                              totalRevenue := entry.totalRevenue + Revenue(item))],
          if v in t.stats then t.order else t.order + [v])
  }

  /** The tally of `items`, in visiting order. */
  function TallyItems(items: seq<LineItem>): (t: Tally)
    ensures Valid(t)
    decreases |items|
  {
    if |items| == 0 then Tally(map[], [])
    else Record(TallyItems(items[..|items| - 1]), items[|items| - 1])
  }

  /** The product map has an entry for exactly the variant ids that occur. */
  lemma {:induction false} TallyKeys(items: seq<LineItem>)
    ensures forall v :: v in TallyItems(items).stats <==> exists i :: 0 <= i < |items| && items[i].variantId == v
    decreases |items|
  {
    if |items| > 0 {
      var front := items[..|items| - 1];
      TallyKeys(front);
      assert forall i :: 0 <= i < |items| - 1 ==> front[i] == items[i];
    }
  }

  /** Σ of the quantities of the items of variant `v`. */
  function SoldOf(items: seq<LineItem>, v: int): nat
    decreases |items|
  {
    if |items| == 0 then 0
    else SoldOf(items[..|items| - 1], v) + (if items[|items| - 1].variantId == v then Quantity(items[|items| - 1]) else 0)
  }

  /** Σ of price × quantity over the items of variant `v`. */
  function RevenueOf(items: seq<LineItem>, v: int): real
    decreases |items|
  {
    if |items| == 0 then 0.0
    else RevenueOf(items[..|items| - 1], v) + (if items[|items| - 1].variantId == v then Revenue(items[|items| - 1]) else 0.0)
  }

  /** Σ of all quantities. */
  function SumQuantity(items: seq<LineItem>): nat
    decreases |items|
  {
    if |items| == 0 then 0 else SumQuantity(items[..|items| - 1]) + Quantity(items[|items| - 1])
  }

  lemma {:induction false} NoVariantNoSales(items: seq<LineItem>, v: int)
    requires forall i :: 0 <= i < |items| ==> items[i].variantId != v
    ensures SoldOf(items, v) == 0 && RevenueOf(items, v) == 0.0
    decreases |items|
  {
    if |items| > 0 {
      NoVariantNoSales(items[..|items| - 1], v);
    }
  }

  /** Every variant's entry holds the total quantity and the total revenue
      of that variant's line items. */
  lemma {:induction false} TallyIsPerVariantSum(items: seq<LineItem>)
    ensures forall v :: v in TallyItems(items).stats ==>
      TallyItems(items).stats[v].totalSold == SoldOf(items, v)
      && TallyItems(items).stats[v].totalRevenue == RevenueOf(items, v)
    decreases |items|
  {
    if |items| > 0 {
      var front := items[..|items| - 1];
      var x := items[|items| - 1];
      TallyIsPerVariantSum(front);
      TallyKeys(front);
      if x.variantId !in TallyItems(front).stats {
        NoVariantNoSales(front, x.variantId);
      }
    }
  }

  /** Index `i` holds the first line item of variant `v`, and entry `e`
      carries that item's title, variant title (empty when absent) and
      inventory item id. */
  ghost predicate FirstSeenAt(items: seq<LineItem>, v: int, i: int, e: VariantTally) {
    && 0 <= i < |items| && items[i].variantId == v
    && (forall k :: 0 <= k < i ==> items[k].variantId != v)
    && e.title == items[i].title
    && e.variantTitle == items[i].variantTitle.GetOr("")
    && e.inventoryItemId == items[i].inventoryItemId
  }

  lemma FirstSeenLonger(items: seq<LineItem>, v: int, i: int, e: VariantTally)
    requires |items| > 0 && FirstSeenAt(items[..|items| - 1], v, i, e)
    ensures FirstSeenAt(items, v, i, e)
  {
    assert forall k :: 0 <= k <= i ==> items[k] == items[..|items| - 1][k];
  }

  /** Every variant's title, variant title (empty when absent) and
      inventory item id come from the first line item of that variant. */
  lemma {:induction false} TallyKeepsFirstSeen(items: seq<LineItem>)
    ensures forall v :: v in TallyItems(items).stats ==>
      exists i :: FirstSeenAt(items, v, i, TallyItems(items).stats[v])
    decreases |items|
  {
    if |items| > 0 {
      var front := items[..|items| - 1];
      var x := items[|items| - 1];
      var t := TallyItems(items);
      var prev := TallyItems(front);
      TallyKeepsFirstSeen(front);
      TallyKeys(front);
      forall v | v in t.stats ensures exists i :: FirstSeenAt(items, v, i, t.stats[v]) {
        if v in prev.stats {
          var i :| FirstSeenAt(front, v, i, prev.stats[v]);
          assert t.stats[v].title == prev.stats[v].title;
          assert t.stats[v].variantTitle == prev.stats[v].variantTitle;
          assert t.stats[v].inventoryItemId == prev.stats[v].inventoryItemId;
          FirstSeenLonger(items, v, i, prev.stats[v]);
          assert FirstSeenAt(items, v, i, t.stats[v]);
        } else {
          var i := |items| - 1;
          assert forall k :: 0 <= k < i ==> items[k] == front[k];
          assert FirstSeenAt(items, v, i, t.stats[v]);
        }
      }
    }
  }

  /** The index of the first line item of variant `v`; `|items|` when
      there is none. */
  function FirstIndex(items: seq<LineItem>, v: int): nat
    decreases |items|
  {
    if |items| == 0 then 0
    else if FirstIndex(items[..|items| - 1], v) < |items| - 1 then FirstIndex(items[..|items| - 1], v)
    else if items[|items| - 1].variantId == v then |items| - 1
    else |items|
  }

  /** `FirstIndex` names the first item of the variant, or is `|items|`
      exactly when the variant does not occur. */
  lemma {:induction false} FirstIndexSpec(items: seq<LineItem>, v: int)
    ensures FirstIndex(items, v) <= |items|
    ensures FirstIndex(items, v) < |items| ==>
      items[FirstIndex(items, v)].variantId == v
      && forall k :: 0 <= k < FirstIndex(items, v) ==> items[k].variantId != v
    ensures FirstIndex(items, v) == |items| <==> forall k :: 0 <= k < |items| ==> items[k].variantId != v
    decreases |items|
  {
    if |items| > 0 {
      var front := items[..|items| - 1];
      FirstIndexSpec(front, v);
      assert forall k :: 0 <= k < |front| ==> items[k] == front[k];
    }
  }

  /** The tally lists the variants in the order of their first line items,
      the insertion order `Object.values` returns them in. */
  lemma {:induction false} TallyFirstSeenOrder(items: seq<LineItem>)
    ensures forall i :: 0 <= i < |TallyItems(items).order| ==> FirstIndex(items, TallyItems(items).order[i]) < |items|
    ensures forall i, j :: 0 <= i < j < |TallyItems(items).order| ==>
      FirstIndex(items, TallyItems(items).order[i]) < FirstIndex(items, TallyItems(items).order[j])
    decreases |items|
  {
    if |items| > 0 {
      var front := items[..|items| - 1];
      var x := items[|items| - 1];
      var t := TallyItems(front);
      var o := TallyItems(items).order;
      TallyFirstSeenOrder(front);
      forall i | 0 <= i < |t.order|
        ensures FirstIndex(items, t.order[i]) == FirstIndex(front, t.order[i])
      {
      }
      if x.variantId !in t.stats {
        TallyKeys(front);
        FirstIndexSpec(front, x.variantId);
        assert FirstIndex(front, x.variantId) == |front|;
        assert o == t.order + [x.variantId];
        assert FirstIndex(items, o[|o| - 1]) == |front|;
      }
    }
  }

  /** The units sold of one entry. */
  function VariantSold(e: VariantTally): nat {
    e.totalSold
  }

  /** Quantity is conserved: the entries' totalSold add up to the sum of all
      line-item quantities. */
  lemma {:induction false} TallyConservesQuantity(items: seq<LineItem>)
    ensures SumAlong(TallyItems(items).order, TallyItems(items).stats, VariantSold) == SumQuantity(items)
    decreases |items|
  {
    if |items| > 0 {
      var front := items[..|items| - 1];
      var x := items[|items| - 1];
      var t := TallyItems(front);
      TallyConservesQuantity(front);
      var v := x.variantId;
      var t' := Record(t, x);
      if v in t.stats {
        SumAlongUpdate(t.order, t.stats, VariantSold, v, t'.stats[v]);
      } else {
        SumAlongOther(t.order, t.stats, VariantSold, v, t'.stats[v]);
        assert t'.order[..|t'.order| - 1] == t.order;
      }
    }
  }

  /** The inventory item id field of every line item, in visiting order. */
  function InventoryIdField(items: seq<LineItem>): (ids: seq<Option<int>>)
    ensures |ids| == |items|
    ensures forall i :: 0 <= i < |items| ==> ids[i] == items[i].inventoryItemId
  {
    seq(|items|, i requires 0 <= i < |items| => items[i].inventoryItemId)
  }

  /** The inventory item ids to look up: each truthy id once, in order of
      first appearance. */
  function InventoryIds(items: seq<LineItem>): (ids: seq<int>)
    ensures Distinct(ids)
    ensures forall x :: x in ids <==> x != 0 && exists i :: 0 <= i < |items| && items[i].inventoryItemId == Some(x)
  {
    var raw := InventoryIdField(items);
    forall x
      ensures Some(x) in raw <==> exists i :: 0 <= i < |items| && items[i].inventoryItemId == Some(x)
    {
      if Some(x) in raw {
        var i :| 0 <= i < |raw| && raw[i] == Some(x);
        assert items[i].inventoryItemId == Some(x);
      }
      if exists i :: 0 <= i < |items| && items[i].inventoryItemId == Some(x) {
        var i :| 0 <= i < |items| && items[i].inventoryItemId == Some(x);
        assert raw[i] == Some(x);
      }
    }
    TruthyIds(raw)
  }

  /** One record of an inventory lookup response. */
  datatype InventoryItem = InventoryItem(id: int, cost: Option<real>)

  /** The inventory endpoint: one request for a batch of ids. */
  type CostLookup = seq<int> -> Result<seq<InventoryItem>>

  /** Records each returned item's cost under its id, in order, an absent
      cost as 0; a later record for the same id overrides an earlier one. */
  function MergeCosts(costs: map<int, real>, items: seq<InventoryItem>): map<int, real>
    decreases |items|
  {
    if |items| == 0 then costs
    else
      var last := items[|items| - 1];
      MergeCosts(costs, items[..|items| - 1])[last.id := Amount(last.cost)]
  }

  /** One lookup per batch, in order, merging every response into one cost
      map; the first failed lookup fails the whole call. */
  function FetchCosts(lookup: CostLookup, batches: seq<seq<int>>): Result<map<int, real>>
    decreases |batches|
  {
    if |batches| == 0 then Ok(map[])
    else
      match FetchCosts(lookup, batches[..|batches| - 1])
      case Failure(e) => Failure(e)
      case Ok(costs) =>
        match lookup(batches[|batches| - 1])
        case Failure(e) => Failure(e)
        case Ok(items) => Ok(MergeCosts(costs, items))
  }

  /** Some batch request of `batches` fails. */
  ghost predicate SomeBatchFails(lookup: CostLookup, batches: seq<seq<int>>) {
    exists i :: 0 <= i < |batches| && lookup(batches[i]).Failure?
  }

  /** The cost lookup fails exactly when one of its batch requests fails. */
  lemma {:induction false} FetchCostsFailure(lookup: CostLookup, batches: seq<seq<int>>)
    ensures FetchCosts(lookup, batches).Failure? <==> SomeBatchFails(lookup, batches)
    decreases |batches|
  {
    if |batches| > 0 {
      var front := batches[..|batches| - 1];
      FetchCostsFailure(lookup, front);
      assert forall i :: 0 <= i < |front| ==> front[i] == batches[i];
    }
  }

  /** A consistent inventory: the lookup answers every batch with the
      catalogued items among the requested ids. */
  function CatalogueItems(catalogue: map<int, Option<real>>, ids: seq<int>): seq<InventoryItem>
    decreases |ids|
  {
    if |ids| == 0 then []
    else
      var last := ids[|ids| - 1];
      CatalogueItems(catalogue, ids[..|ids| - 1])
        + (if last in catalogue then [InventoryItem(last, catalogue[last])] else [])
  }

  function CatalogueLookup(catalogue: map<int, Option<real>>): CostLookup {
    ids => Ok(CatalogueItems(catalogue, ids))
  }

  /** The costs of the catalogued ids among `ids`, absent costs as 0. */
  function KnownCosts(catalogue: map<int, Option<real>>, ids: seq<int>): map<int, real> {
    map x | x in ids && x in catalogue :: Amount(catalogue[x])
  }

  lemma KnownSnoc(catalogue: map<int, Option<real>>, ys: seq<int>, x: int)
    ensures KnownCosts(catalogue, ys + [x]) ==
      if x in catalogue then KnownCosts(catalogue, ys)[x := Amount(catalogue[x])] else KnownCosts(catalogue, ys)
  {
    forall u ensures u in ys + [x] <==> u in ys || u == x {
      if u in ys + [x] && u != x {
        var k :| 0 <= k < |ys + [x]| && (ys + [x])[k] == u;
        assert ys[k] == u;
      }
    }
  }

  lemma {:induction false} MergeCatalogue(catalogue: map<int, Option<real>>, xs: seq<int>, b: seq<int>)
    ensures MergeCosts(KnownCosts(catalogue, xs), CatalogueItems(catalogue, b)) == KnownCosts(catalogue, xs + b)
    decreases |b|
  {
    if |b| == 0 {
      assert xs + b == xs;
    } else {
      var front := b[..|b| - 1];
      var last := b[|b| - 1];
      MergeCatalogue(catalogue, xs, front);
      assert xs + b == (xs + front) + [last];
      KnownSnoc(catalogue, xs + front, last);
      var items := CatalogueItems(catalogue, b);
      if last in catalogue {
        assert items[..|items| - 1] == CatalogueItems(catalogue, front);
      } else {
        assert items == CatalogueItems(catalogue, front);
      }
    }
  }

  lemma FlattenSnoc(cs: seq<seq<int>>, c: seq<int>)
    ensures Flatten(cs + [c]) == Flatten(cs) + c
    decreases |cs|
  {
    if |cs| == 0 {
      assert Flatten([c]) == c + Flatten([c][1..]);
      assert c + [] == c;
    } else {
      assert (cs + [c])[1..] == cs[1..] + [c];
      FlattenSnoc(cs[1..], c);
    }
  }

  lemma {:induction false} FetchCatalogue(catalogue: map<int, Option<real>>, batches: seq<seq<int>>)
    ensures FetchCosts(CatalogueLookup(catalogue), batches) == Ok(KnownCosts(catalogue, Flatten(batches)))
    decreases |batches|
  {
    if |batches| == 0 {
      assert KnownCosts(catalogue, []) == map[];
    } else {
      var front := batches[..|batches| - 1];
      var last := batches[|batches| - 1];
      FetchCatalogue(catalogue, front);
      assert batches == front + [last];
      FlattenSnoc(front, last);
      MergeCatalogue(catalogue, Flatten(front), last);
    }
  }

  /** Against a consistent inventory the merged cost map is the catalogue
      restricted to the requested ids, whatever the batch size: it does not
      depend on where the batch boundaries fall. */
  lemma CostsIgnoreBatching(catalogue: map<int, Option<real>>, ids: seq<int>, size: nat)
    requires size > 0
    ensures FetchCosts(CatalogueLookup(catalogue), Chunks(ids, size))
      == Ok(map x | x in ids && x in catalogue :: Amount(catalogue[x]))
  {
    FetchCatalogue(catalogue, Chunks(ids, size));
  }

  /** One output record of the products report. */
  datatype ProductStat = ProductStat(
    title: string,
    variantTitle: string,
    totalSold: nat,
    costPerUnit: real,
    margin: real)

  /** The unit cost of an inventory item: 0 when the item id is absent or
      has no known cost. */
  function UnitCost(costs: map<int, real>, inventoryItemId: Option<int>): real {
    if inventoryItemId.Some? && inventoryItemId.value in costs then costs[inventoryItemId.value] else 0.0
  }

  /** Revenue less the cost of the units sold. */
  function Margin(revenue: real, unitCost: real, sold: nat): real {
    revenue - unitCost * sold as real
  }

  /** The output record of one entry: revenue leaves only through the margin. */
  function StatOf(e: VariantTally, costs: map<int, real>): ProductStat {
    var cost := UnitCost(costs, e.inventoryItemId);
    ProductStat(e.title, e.variantTitle, e.totalSold, cost, Margin(e.totalRevenue, cost, e.totalSold))
  }

  /** One output record per variant, in the order the variants were first seen. */
  function Compose(t: Tally, costs: map<int, real>): (ps: seq<ProductStat>)
    requires forall i :: 0 <= i < |t.order| ==> t.order[i] in t.stats
    ensures |ps| == |t.order|
    ensures forall i :: 0 <= i < |ps| ==> ps[i] == StatOf(t.stats[t.order[i]], costs)
  {
    seq(|t.order|, i requires 0 <= i < |t.order| => StatOf(t.stats[t.order[i]], costs))
  }

  /** The products report over already fetched orders. */
  function ProductReport(orders: seq<Order>, lookup: CostLookup): Result<seq<ProductStat>> {
    var items := Items(orders);
    var t := TallyItems(items);
    match FetchCosts(lookup, Chunks(InventoryIds(items), ChunkSize))
    case Failure(e) => Failure(e)
    case Ok(costs) => Ok(Compose(t, costs))
  }

  /** Σ of totalSold over the output records. */
  function SumStatSold(ps: seq<ProductStat>): nat
    decreases |ps|
  {
    if |ps| == 0 then 0 else SumStatSold(ps[..|ps| - 1]) + ps[|ps| - 1].totalSold
  }

  lemma {:induction false} ComposeSold(order: seq<int>, stats: map<int, VariantTally>, costs: map<int, real>)
    requires forall i :: 0 <= i < |order| ==> order[i] in stats
    ensures SumStatSold(Compose(Tally(stats, order), costs)) == SumAlong(order, stats, VariantSold)
    decreases |order|
  {
    if |order| > 0 {
      var front := order[..|order| - 1];
      ComposeSold(front, stats, costs);
      assert Compose(Tally(stats, order), costs)[..|order| - 1] == Compose(Tally(stats, front), costs);
    }
  }

  /** The products report fails exactly when one of its cost batches fails. */
  lemma ProductReportFailure(orders: seq<Order>, lookup: CostLookup)
    ensures ProductReport(orders, lookup).Failure? <==>
      SomeBatchFails(lookup, Chunks(InventoryIds(Items(orders)), ChunkSize))
  {
    ReportFailsWithCosts(orders, lookup);
    FetchCostsFailure(lookup, Chunks(InventoryIds(Items(orders)), ChunkSize));
  }

  /** The report fails exactly when its cost lookup fails. */
  lemma ReportFailsWithCosts(orders: seq<Order>, lookup: CostLookup)
    ensures ProductReport(orders, lookup).Failure? <==>
      FetchCosts(lookup, Chunks(InventoryIds(Items(orders)), ChunkSize)).Failure?
  {
  }


  /** The records composed from the tally of `items`: one per distinct
      variant, each with the variant's total quantity, the unit cost of its
      inventory item and margin = revenue - cost * quantity. */
  lemma ComposePerVariant(items: seq<LineItem>, costs: map<int, real>)
    ensures |Compose(TallyItems(items), costs)| == |TallyItems(items).order|
    ensures forall i :: 0 <= i < |TallyItems(items).order| ==>
      var v := TallyItems(items).order[i];
      var p := Compose(TallyItems(items), costs)[i];
      && p.totalSold == SoldOf(items, v)
      && p.costPerUnit == UnitCost(costs, TallyItems(items).stats[v].inventoryItemId)
      && p.margin == Margin(RevenueOf(items, v), p.costPerUnit, SoldOf(items, v))
    ensures forall i, j :: 0 <= i < j < |TallyItems(items).order| ==>
      FirstIndex(items, TallyItems(items).order[i]) < FirstIndex(items, TallyItems(items).order[j])
  {
    var t := TallyItems(items);
    var ps := Compose(t, costs);
    TallyIsPerVariantSum(items);
    TallyFirstSeenOrder(items);
    forall i | 0 <= i < |t.order|
      ensures ps[i].totalSold == SoldOf(items, t.order[i])
      ensures ps[i].costPerUnit == UnitCost(costs, t.stats[t.order[i]].inventoryItemId)
      ensures ps[i].margin == Margin(RevenueOf(items, t.order[i]), ps[i].costPerUnit, SoldOf(items, t.order[i]))
    {
      var e := t.stats[t.order[i]];
      assert ps[i] == StatOf(e, costs);
      assert e.totalSold == SoldOf(items, t.order[i]);
      assert e.totalRevenue == RevenueOf(items, t.order[i]);
    }
  }

  /** The records' quantities add up to all line items' quantities. */
  lemma ComposeConservesQuantity(items: seq<LineItem>, costs: map<int, real>)
    ensures SumStatSold(Compose(TallyItems(items), costs)) == SumQuantity(items)
  {
    var t := TallyItems(items);
    TallyConservesQuantity(items);
    ComposeSold(t.order, t.stats, costs);
  }

  /** A successful products report holds one record per distinct variant,
      each with the variant's total quantity and its margin over the unit
      cost of the variant's inventory item, and the records' quantities add
      up to the quantities of all line items of all orders. */
  lemma ProductReportTotals(orders: seq<Order>, lookup: CostLookup)
    ensures ProductReport(orders, lookup).Ok? ==>
      var items := Items(orders);
      var t := TallyItems(items);
      var ps := ProductReport(orders, lookup).value;
      && |ps| == |t.order|
      && SumStatSold(ps) == SumQuantity(items)
      && forall i :: 0 <= i < |ps| ==>
           && ps[i].totalSold == SoldOf(items, t.order[i])
           && ps[i].margin == Margin(RevenueOf(items, t.order[i]), ps[i].costPerUnit, SoldOf(items, t.order[i]))
  {
    var items := Items(orders);
    var r := FetchCosts(lookup, Chunks(InventoryIds(items), ChunkSize));
    if r.Ok? {
      ComposePerVariant(items, r.value);
      ComposeConservesQuantity(items, r.value);
    }
  }

  /** One variant bought once tallies to one entry holding that item. */
  lemma OneItemTally(item: LineItem)
    ensures TallyItems([item]) == Tally(map[item.variantId :=
      VariantTally(item.title, item.variantTitle.GetOr(""), item.inventoryItemId, Quantity(item), Revenue(item))], [item.variantId])
  {
    assert [item][..0] == [];
    assert [] + [item.variantId] == [item.variantId];
    assert 0.0 + Revenue(item) == Revenue(item);
  }

  /** A single line item of a truthy inventory item `x` looks up just `x`. */
  lemma OneInventoryId(item: LineItem, x: int)
    requires item.inventoryItemId == Some(x) && x != 0
    ensures InventoryIds([item]) == [x]
  {
    assert InventoryIdField([item]) == [Some(x)];
    assert [Some(x)][..0] == [];
    assert TruthyIds([]) == [];
    assert TruthyIds([Some(x)]) == [x];
  }

  /** One inventory item with cost `c`, looked up in one batch, costs `c`. */
  lemma OneBatchCost(lookup: CostLookup, inv: int, c: real)
    requires lookup([inv]) == Ok([InventoryItem(inv, Some(c))])
    ensures FetchCosts(lookup, Chunks([inv], ChunkSize)) == Ok(map[inv := c])
  {
    assert Chunks([inv], ChunkSize) == [[inv]];
    var batches := [[inv]];
    assert batches[..0] == [];
    assert MergeCosts(map[], [InventoryItem(inv, Some(c))]) == map[inv := c] by {
      assert [InventoryItem(inv, Some(c))][..0] == [];
    }
  }

  /** The record of a single line item of quantity 2 at 50.00 whose
      inventory item 7 costs `c`. */
  lemma OneItemStat(item: LineItem, c: real)
    requires item.inventoryItemId == Some(7)
    requires item.quantity == Some(2) && item.price == Some(50.0)
    ensures StatOf(VariantTally(item.title, item.variantTitle.GetOr(""), item.inventoryItemId, Quantity(item), Revenue(item)), map[7 := c])
      == ProductStat(item.title, item.variantTitle.GetOr(""), 2, c, 100.0 - 2.0 * c)
  {
    assert Revenue(item) == 100.0;
    assert UnitCost(map[7 := c], Some(7)) == c;
  }

  /** One order with one line item of variant 10 (quantity 2 at 50.00) whose
      inventory item costs `c`: the report is one record of 2 sold at unit
      cost `c` with margin 100.00 - 2c. */
  lemma OneVariantScenario(item: LineItem, o: Order, lookup: CostLookup, c: real)
    requires item.variantId == 10 && item.inventoryItemId == Some(7)
    requires item.quantity == Some(2) && item.price == Some(50.0)
    requires o.lineItems == [item]
    requires lookup([7]) == Ok([InventoryItem(7, Some(c))])
    ensures ProductReport([o], lookup)
      == Ok([ProductStat(item.title, item.variantTitle.GetOr(""), 2, c, 100.0 - 2.0 * c)])
  {
    ItemsOfOne(o);
    OneInventoryId(item, 7);
    OneBatchCost(lookup, 7, c);
    OneItemTally(item);
    OneItemStat(item, c);
    var t := TallyItems([item]);
    var ps := Compose(t, map[7 := c]);
    assert |ps| == 1 && ps[0] == StatOf(t.stats[10], map[7 := c]);
    assert ps == [ProductStat(item.title, item.variantTitle.GetOr(""), 2, c, 100.0 - 2.0 * c)];
  }
}
