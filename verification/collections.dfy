/** The collections report: every product's comma-separated tags name the
    collections it belongs to, and each collection totals the line items of
    its products. */
module Collections {
  import opened Basics
  import opened Strings
  import opened Shop

  /** The product id field of every line item, in visiting order. */
  function ProductIdField(items: seq<LineItem>): (ids: seq<Option<int>>)
    ensures |ids| == |items|
    ensures forall i :: 0 <= i < |items| ==> ids[i] == items[i].productId
  {
    seq(|items|, i requires 0 <= i < |items| => items[i].productId)
  }

  /** The distinct truthy product ids of the line items, in order of first
      appearance. */
  function ProductIds(items: seq<LineItem>): (ids: seq<int>)
    ensures Distinct(ids)
    ensures forall x :: x in ids <==> x != 0 && exists i :: 0 <= i < |items| && items[i].productId == Some(x)
  {
    var raw := ProductIdField(items);
    forall x
      ensures Some(x) in raw <==> exists i :: 0 <= i < |items| && items[i].productId == Some(x)
    {
      if Some(x) in raw {
        var i :| 0 <= i < |raw| && raw[i] == Some(x);
        assert items[i].productId == Some(x);
      }
      if exists i :: 0 <= i < |items| && items[i].productId == Some(x) {
        var i :| 0 <= i < |items| && items[i].productId == Some(x);
        assert raw[i] == Some(x);
      }
    }
    TruthyIds(raw)
  }

  /** The comma-separated pieces of a product's tags field; no field, no pieces. */
  function TagPieces(tags: Option<string>): seq<string> {
    match tags
    case None => []
    case Some(s) => Split(s, ',')
  }

  /** Every piece with surrounding whitespace removed. */
  function Trimmings(pieces: seq<string>): (ts: seq<string>)
    ensures |ts| == |pieces|
    ensures forall i :: 0 <= i < |ts| ==> ts[i] == Trim(pieces[i])
  {
    seq(|pieces|, i requires 0 <= i < |pieces| => Trim(pieces[i]))
  }

  /** The nonempty ones among the trimmed pieces. */
  function TagSet(ts: seq<string>): set<string> {
    set t | t in ts && t != []
  }

  /** The tags of a product. */
  function TagsOf(tags: Option<string>): set<string> {
    TagSet(Trimmings(TagPieces(tags)))
  }

  /** Tags written the way the shop admin stores them — joined with ", " —
      read back as exactly the tags written, provided each is nonempty,
      free of commas and of surrounding whitespace. */
  lemma TagsRoundTrip(ts: seq<string>)
    requires |ts| >= 1
    requires forall i :: 0 <= i < |ts| ==> ts[i] != [] && Trimmed(ts[i]) && ',' !in ts[i]
    ensures forall t :: t in TagsOf(Some(Join(Padded(ts), ','))) <==> t in ts
  {
    var ps := Padded(ts);
    SplitJoin(ps, ',');
    PaddedTrims(ts);
    assert TagPieces(Some(Join(ps, ','))) == ps;
  }

  /** Trimming the padded pieces gives back the tags. */
  lemma PaddedTrims(ts: seq<string>)
    requires |ts| >= 1
    requires forall i :: 0 <= i < |ts| ==> Trimmed(ts[i])
    ensures Trimmings(Padded(ts)) == ts
  {
    var ps := Padded(ts);
    var tr := Trimmings(ps);
    forall i | 0 <= i < |ts| ensures tr[i] == ts[i] {
      if i == 0 {
        TrimKeeps(ts[i]);
      } else {
        assert ps[i] == " " + ts[i];
        TrimBlank(ts[i]);
      }
    }
    assert tr == ts;
  }

  /** The first tag as is, every later one after ", ". */
  function Padded(ts: seq<string>): (ps: seq<string>)
    requires |ts| >= 1
    ensures |ps| == |ts| && ps[0] == ts[0]
    ensures forall i :: 1 <= i < |ts| ==> ps[i] == " " + ts[i]
  {
    [ts[0]] + seq(|ts| - 1, i requires 0 <= i < |ts| - 1 => " " + ts[i + 1])
  }

  /** "Summer, Sale" names the collections "Summer" and "Sale". */
  lemma SummerSale()
    ensures forall t :: t in TagsOf(Some("Summer, Sale")) <==> t == "Summer" || t == "Sale"
  {
    var ts := ["Summer", "Sale"];
    SummerSaleText();
    SummerSaleTags();
    TagsRoundTrip(ts);
    assert forall t :: t in ts <==> t == ts[0] || t == ts[1];
  }

  lemma SummerSaleText()
    ensures Join(Padded(["Summer", "Sale"]), ',') == "Summer, Sale"
  {
    var ps := Padded(["Summer", "Sale"]);
    assert ps[0] == "Summer" && ps[1] == " " + "Sale" == " Sale";
    assert ps == ["Summer", " Sale"];
    assert Join(["Summer", " Sale"], ',') == "Summer, Sale";
  }

  lemma SummerSaleTags()
    ensures forall i :: 0 <= i < |["Summer", "Sale"]| ==>
      var t := ["Summer", "Sale"][i];
      t != [] && Trimmed(t) && ',' !in t
  {
  }

  /** The product endpoint: the product's tags field (None when the product
      or the field is missing), or a failed request. */
  type TagLookup = int -> Result<Option<string>>

  /** The tag → product-ids map, with its tags in insertion order. */
  datatype Membership = Membership(members: map<string, set<int>>, tags: seq<string>)

  ghost predicate MembershipValid(m: Membership) {
    && Distinct(m.tags)
    && (forall t :: t in m.members <==> t in m.tags)
    && (forall i :: 0 <= i < |m.tags| ==> m.tags[i] in m.members)
  }

  /** Files product `id` under the nonempty tag `t`. */
  function AddTag(m: Membership, id: int, t: string): Membership {
    Membership(m.members[t := (if t in m.members then m.members[t] else {}) + {id}],
               if t in m.members then m.tags else m.tags + [t])
  }

  /** Files product `id` under each nonempty trimmed tag, in order. */
  function AddTags(m: Membership, id: int, ts: seq<string>): Membership
    decreases |ts|
  {
    if |ts| == 0 then m
    else
      var prev := AddTags(m, id, ts[..|ts| - 1]);
      var t := ts[|ts| - 1];
      if t == [] then prev else AddTag(prev, id, t)
  }

  /** One lookup per product id, in order; a failed lookup files the product
      under no tag and the loop carries on. */
  function BuildMembership(ids: seq<int>, lookup: TagLookup): Membership
    decreases |ids|
  {
    if |ids| == 0 then Membership(map[], [])
    else
      var prev := BuildMembership(ids[..|ids| - 1], lookup);
      var id := ids[|ids| - 1];
      match lookup(id)
      case Failure(_) => prev
      case Ok(tags) => AddTags(prev, id, Trimmings(TagPieces(tags)))
  }

  lemma {:induction false} AddTagsEffect(m: Membership, id: int, ts: seq<string>)
    requires MembershipValid(m)
    ensures MembershipValid(AddTags(m, id, ts))
    ensures forall t :: t in AddTags(m, id, ts).members <==> t in m.members || t in TagSet(ts)
    ensures forall t, x :: Filed(AddTags(m, id, ts), t, x) <==> Filed(m, t, x) || (x == id && t in TagSet(ts))
    decreases |ts|
  {
    if |ts| > 0 {
      var front := ts[..|ts| - 1];
      var u := ts[|ts| - 1];
      AddTagsEffect(m, id, front);
      var prev := AddTags(m, id, front);
      assert ts == front + [u];
      assert TagSet(ts) == TagSet(front) + (if u == [] then {} else {u});
      if u != [] && u !in prev.members {
        assert forall i :: 0 <= i < |prev.tags| ==> prev.tags[i] != u;
      }
      forall t, x ensures Filed(AddTags(m, id, ts), t, x) <==> Filed(m, t, x) || (x == id && t in TagSet(ts)) {
        assert Filed(prev, t, x) <==> Filed(m, t, x) || (x == id && t in TagSet(front));
        if u != [] {
          assert Filed(AddTag(prev, id, u), t, x) <==> Filed(prev, t, x) || (t == u && x == id);
        }
      }
    }
  }

  /** Product `x` is filed under tag `t`. */
  predicate Filed(m: Membership, t: string, x: int) {
    t in m.members && x in m.members[t]
  }

  /** The lookup of product `x` succeeded and its tags name `t`. */
  predicate Tagged(lookup: TagLookup, t: string, x: int) {
    lookup(x).Ok? && t in TagsOf(lookup(x).value)
  }

  lemma AddProduct(prev: Membership, front: seq<int>, id: int, lookup: TagLookup, tags: Option<string>)
    requires MembershipValid(prev) && lookup(id) == Ok(tags)
    requires forall t, x :: Filed(prev, t, x) <==> x in front && Tagged(lookup, t, x)
    ensures forall t, x :: Filed(AddTags(prev, id, Trimmings(TagPieces(tags))), t, x) <==> x in front + [id] && Tagged(lookup, t, x)
  {
    var ts := Trimmings(TagPieces(tags));
    var m := AddTags(prev, id, ts);
    AddTagsEffect(prev, id, ts);
    forall t, x ensures Filed(m, t, x) <==> x in front + [id] && Tagged(lookup, t, x) {
      assert x in front + [id] <==> x in front || x == id;
      assert Filed(m, t, x) <==> Filed(prev, t, x) || (x == id && t in TagSet(ts));
      if x == id {
        assert Tagged(lookup, t, x) <==> t in TagSet(ts);
      }
    }
  }

  /** A product is filed under a tag exactly when its id was looked up, the
      lookup succeeded and its tags name that tag; products whose lookup
      failed are in no collection. */
  lemma {:induction false} MembershipSpec(ids: seq<int>, lookup: TagLookup)
    ensures MembershipValid(BuildMembership(ids, lookup))
    ensures forall t, x :: Filed(BuildMembership(ids, lookup), t, x) <==> x in ids && Tagged(lookup, t, x)
    decreases |ids|
  {
    if |ids| > 0 {
      var front := ids[..|ids| - 1];
      var id := ids[|ids| - 1];
      MembershipSpec(front, lookup);
      assert ids == front + [id];
      var prev := BuildMembership(front, lookup);
      match lookup(id)
      case Failure(_) =>
        forall t, x ensures Filed(prev, t, x) <==> x in ids && Tagged(lookup, t, x) {
          assert x in ids <==> x in front || x == id;
        }
      case Ok(tags) =>
        AddTagsEffect(prev, id, Trimmings(TagPieces(tags)));
        AddProduct(prev, front, id, lookup, tags);
    }
  }

  /** One collection's totals. */
  datatype CollectionStat = CollectionStat(title: string, totalSold: nat, totalRevenue: real)

  /** The collection map, with its keys in insertion order. */
  datatype Rollup = Rollup(stats: map<string, CollectionStat>, order: seq<string>)

  ghost predicate RollupValid(r: Rollup) {
    && Distinct(r.order)
    && (forall t :: t in r.stats <==> t in r.order)
    && (forall i :: 0 <= i < |r.order| ==> r.order[i] in r.stats)
    && (forall t :: t in r.stats ==> r.stats[t].title == t)
  }

  /** A collection's entry, or the fresh one it starts from. */
  function Entry(r: Rollup, t: string): CollectionStat {
    if t in r.stats then r.stats[t] else CollectionStat(t, 0, 0.0)
  }

  /** Does the item's product belong to collection `t`? */
  predicate Credits(m: Membership, t: string, item: LineItem) {
    t in m.members && item.productId.Some? && item.productId.value in m.members[t]
  }

  /** Adds the full quantity and revenue of `item` to collection `t`. */
  function Credit(r: Rollup, t: string, item: LineItem): Rollup {
    var e := Entry(r, t);
    Rollup(r.stats[t := e.(totalSold := e.totalSold + Quantity(item), totalRevenue := e.totalRevenue + Revenue(item))],
           if t in r.stats then r.order else r.order + [t])
  }

  /** Credits `item` to every collection among `tags` its product belongs to. */
  function CreditTags(r: Rollup, m: Membership, tags: seq<string>, item: LineItem): Rollup
    decreases |tags|
  {
    if |tags| == 0 then r
    else
      var prev := CreditTags(r, m, tags[..|tags| - 1], item);
      var t := tags[|tags| - 1];
      if Credits(m, t, item) then Credit(prev, t, item) else prev
  }

  /** The collection totals of `items`, visiting the tags in map order for each item. */
  function RollupItems(items: seq<LineItem>, m: Membership): Rollup
    decreases |items|
  {
    if |items| == 0 then Rollup(map[], [])
    else CreditTags(RollupItems(items[..|items| - 1], m), m, m.tags, items[|items| - 1])
  }

  lemma CreditValid(r: Rollup, t: string, item: LineItem)
    requires RollupValid(r)
    ensures RollupValid(Credit(r, t, item))
  {
    if t !in r.stats {
      assert forall i :: 0 <= i < |r.order| ==> r.order[i] != t;
    }
  }

  /** Crediting one collection creates its record if need be, adds the
      item's quantity and revenue to it, and changes no other record. */
  lemma CreditEffect(r: Rollup, t: string, item: LineItem)
    requires RollupValid(r)
    ensures RollupValid(Credit(r, t, item))
    ensures forall u :: u in Credit(r, t, item).stats <==> u in r.stats || u == t
    ensures forall u :: (Entry(Credit(r, t, item), u).totalSold
      == Entry(r, u).totalSold + (if u == t then Quantity(item) else 0))
    ensures forall u :: (Entry(Credit(r, t, item), u).totalRevenue
      == Entry(r, u).totalRevenue + (if u == t then Revenue(item) else 0.0))
  {
    CreditValid(r, t, item);
  }

  lemma {:induction false} CreditTagsEffect(r: Rollup, m: Membership, tags: seq<string>, item: LineItem)
    requires RollupValid(r) && Distinct(tags)
    ensures RollupValid(CreditTags(r, m, tags, item))
    ensures forall t :: t in CreditTags(r, m, tags, item).stats <==> t in r.stats || (t in tags && Credits(m, t, item))
    ensures forall t :: (Entry(CreditTags(r, m, tags, item), t).totalSold
      == Entry(r, t).totalSold + (if t in tags && Credits(m, t, item) then Quantity(item) else 0))
    ensures forall t :: (Entry(CreditTags(r, m, tags, item), t).totalRevenue
      == Entry(r, t).totalRevenue + (if t in tags && Credits(m, t, item) then Revenue(item) else 0.0))
    decreases |tags|
  {
    if |tags| > 0 {
      var front := tags[..|tags| - 1];
      var last := tags[|tags| - 1];
      assert last !in front;
      forall t ensures t in tags <==> t in front || t == last {
        assert tags == front + [last];
      }
      CreditTagsEffect(r, m, front, item);
      var prev := CreditTags(r, m, front, item);
      if Credits(m, last, item) {
        CreditEffect(prev, last, item);
      }
    }
  }

  /** An item whose product is in no collection changes nothing. */
  lemma {:induction false} CreditNothing(r: Rollup, m: Membership, tags: seq<string>, item: LineItem)
    requires forall i :: 0 <= i < |tags| ==> !Credits(m, tags[i], item)
    ensures CreditTags(r, m, tags, item) == r
    decreases |tags|
  {
    if |tags| > 0 {
      CreditNothing(r, m, tags[..|tags| - 1], item);
    }
  }

  /** Σ of the quantities of the items credited to collection `t`. */
  function SoldIn(items: seq<LineItem>, m: Membership, t: string): nat
    decreases |items|
  {
    if |items| == 0 then 0
    else SoldIn(items[..|items| - 1], m, t) + (if Credits(m, t, items[|items| - 1]) then Quantity(items[|items| - 1]) else 0)
  }

  /** Σ of the revenue of the items credited to collection `t`. */
  function RevenueIn(items: seq<LineItem>, m: Membership, t: string): real
    decreases |items|
  {
    if |items| == 0 then 0.0
    else RevenueIn(items[..|items| - 1], m, t) + (if Credits(m, t, items[|items| - 1]) then Revenue(items[|items| - 1]) else 0.0)
  }

  /** Every collection reported has an item of one of its products, and
      totals the full quantity and revenue of exactly those items. */
  lemma {:induction false} RollupIsPerCollectionSum(items: seq<LineItem>, m: Membership)
    requires MembershipValid(m)
    ensures RollupValid(RollupItems(items, m))
    ensures forall t :: t in RollupItems(items, m).stats <==> exists i :: 0 <= i < |items| && Credits(m, t, items[i])
    ensures forall t :: Entry(RollupItems(items, m), t).totalSold == SoldIn(items, m, t)
    ensures forall t :: Entry(RollupItems(items, m), t).totalRevenue == RevenueIn(items, m, t)
    decreases |items|
  {
    if |items| > 0 {
      var front := items[..|items| - 1];
      var x := items[|items| - 1];
      RollupIsPerCollectionSum(front, m);
      CreditTagsEffect(RollupItems(front, m), m, m.tags, x);
      assert forall i :: 0 <= i < |front| ==> front[i] == items[i];
    }
  }

  /** The units sold of one collection record. */
  function CollectionSold(c: CollectionStat): nat {
    c.totalSold
  }

  /** The number of collections among `tags` that `item`'s product belongs to. */
  function Memberships(m: Membership, tags: seq<string>, item: LineItem): nat
    decreases |tags|
  {
    if |tags| == 0 then 0
    else Memberships(m, tags[..|tags| - 1], item) + (if Credits(m, tags[|tags| - 1], item) then 1 else 0)
  }

  lemma CreditSold(r: Rollup, t: string, item: LineItem)
    requires RollupValid(r)
    ensures RollupValid(Credit(r, t, item))
    ensures SumAlong(Credit(r, t, item).order, Credit(r, t, item).stats, CollectionSold) == SumAlong(r.order, r.stats, CollectionSold) + Quantity(item)
  {
    CreditValid(r, t, item);
    var next := Credit(r, t, item);
    if t in r.stats {
      SumAlongUpdate(r.order, r.stats, CollectionSold, t, next.stats[t]);
    } else {
      SumAlongOther(r.order, r.stats, CollectionSold, t, next.stats[t]);
      SumAlongSnoc(r.order, next.stats, CollectionSold, t);
    }
  }

  /** Σ over `tags` of the item's quantity for each collection holding it. */
  function Share(m: Membership, tags: seq<string>, item: LineItem): nat
    decreases |tags|
  {
    if |tags| == 0 then 0
    else Share(m, tags[..|tags| - 1], item) + (if Credits(m, tags[|tags| - 1], item) then Quantity(item) else 0)
  }

  lemma {:induction false} ShareIsProduct(m: Membership, tags: seq<string>, item: LineItem)
    ensures Share(m, tags, item) == Quantity(item) * Memberships(m, tags, item)
    decreases |tags|
  {
    if |tags| > 0 {
      ShareIsProduct(m, tags[..|tags| - 1], item);
    }
  }

  lemma {:induction false} CreditTagsSold(r: Rollup, m: Membership, tags: seq<string>, item: LineItem)
    requires RollupValid(r)
    ensures RollupValid(CreditTags(r, m, tags, item))
    ensures SumAlong(CreditTags(r, m, tags, item).order, CreditTags(r, m, tags, item).stats, CollectionSold)
      == SumAlong(r.order, r.stats, CollectionSold) + Share(m, tags, item)
    decreases |tags|
  {
    if |tags| > 0 {
      var front := tags[..|tags| - 1];
      var last := tags[|tags| - 1];
      CreditTagsSold(r, m, front, item);
      if Credits(m, last, item) {
        CreditSold(CreditTags(r, m, front, item), last, item);
      }
    }
  }

  /** Σ over the items of quantity × the number of collections holding the item. */
  function WeightedQuantity(items: seq<LineItem>, m: Membership): nat
    decreases |items|
  {
    if |items| == 0 then 0
    else WeightedQuantity(items[..|items| - 1], m) + Quantity(items[|items| - 1]) * Memberships(m, m.tags, items[|items| - 1])
  }

  /** Collections overlap: an item counts once in every collection of its
      product, so the collections' quantities add up to each item's quantity
      times the number of its product's collections. */
  lemma {:induction false} RollupCountsOverlaps(items: seq<LineItem>, m: Membership)
    requires MembershipValid(m)
    ensures RollupValid(RollupItems(items, m))
    ensures SumAlong(RollupItems(items, m).order, RollupItems(items, m).stats, CollectionSold) == WeightedQuantity(items, m)
    decreases |items|
  {
    if |items| > 0 {
      var front := items[..|items| - 1];
      RollupCountsOverlaps(front, m);
      RollupIsPerCollectionSum(front, m);
      CreditTagsSold(RollupItems(front, m), m, m.tags, items[|items| - 1]);
      ShareIsProduct(m, m.tags, items[|items| - 1]);
    }
  }

  /** The collections report over already fetched orders: the stats in
      the order the collections were first credited. */
  function CollectionReport(orders: seq<Order>, lookup: TagLookup): (cs: seq<CollectionStat>) {
    var items := Items(orders);
    var m := BuildMembership(ProductIds(items), lookup);
    MembershipSpec(ProductIds(items), lookup);
    var r := RollupItems(items, m);
    RollupIsPerCollectionSum(items, m);
    seq(|r.order|, i requires 0 <= i < |r.order| => r.stats[r.order[i]])
  }

  /** Record `c` is a collection named by the tags of a product that was
      looked up successfully, holding the quantity and revenue of the items
      of that collection's products. */
  ghost predicate Accounts(items: seq<LineItem>, lookup: TagLookup, c: CollectionStat) {
    var m := BuildMembership(ProductIds(items), lookup);
    && (exists x :: x in ProductIds(items) && Tagged(lookup, c.title, x))
    && c.totalSold == SoldIn(items, m, c.title)
    && c.totalRevenue == RevenueIn(items, m, c.title)
  }

  /** The collections report lists each collection once; every record
      accounts for its collection, and every collection credited by some
      line item is listed. */
  lemma CollectionReportSpec(orders: seq<Order>, lookup: TagLookup)
    ensures forall i, j :: 0 <= j < i < |CollectionReport(orders, lookup)| ==>
      CollectionReport(orders, lookup)[j].title != CollectionReport(orders, lookup)[i].title
    ensures forall i :: 0 <= i < |CollectionReport(orders, lookup)| ==>
      Accounts(Items(orders), lookup, CollectionReport(orders, lookup)[i])
    ensures forall t, k :: 0 <= k < |Items(orders)| && Credits(BuildMembership(ProductIds(Items(orders)), lookup), t, Items(orders)[k]) ==>
      exists i :: 0 <= i < |CollectionReport(orders, lookup)| && CollectionReport(orders, lookup)[i].title == t
  {
    var items := Items(orders);
    var m := BuildMembership(ProductIds(items), lookup);
    MembershipSpec(ProductIds(items), lookup);
    RollupIsPerCollectionSum(items, m);
    var r := RollupItems(items, m);
    var cs := CollectionReport(orders, lookup);
    forall i, j | 0 <= j < i < |cs| ensures cs[j].title != cs[i].title {
      assert cs[j].title == r.order[j] && cs[i].title == r.order[i];
    }
    forall i | 0 <= i < |cs| ensures Accounts(items, lookup, cs[i]) {
      var t := r.order[i];
      assert cs[i] == r.stats[t] && cs[i].title == t;
      assert Entry(r, t) == cs[i];
      var k :| 0 <= k < |items| && Credits(m, t, items[k]);
      assert Filed(m, t, items[k].productId.value);
    }
    forall t, k | 0 <= k < |items| && Credits(m, t, items[k])
      ensures exists i :: 0 <= i < |cs| && cs[i].title == t
    {
      assert t in r.stats;
      var i :| 0 <= i < |r.order| && r.order[i] == t;
      assert cs[i].title == t;
    }
  }

  /** A tags field holding one clean tag names exactly that tag. */
  lemma OneTagPieces(t: string)
    requires t != [] && Trimmed(t) && ',' !in t
    ensures Trimmings(TagPieces(Some(t))) == [t]
  {
    SplitNoSep(t, ',');
    TrimKeeps(t);
    var tr := Trimmings([t]);
    assert tr[0] == t;
  }

  /** A single line item of a truthy product `p` names just that product. */
  lemma OneProductId(item: LineItem, p: int)
    requires item.productId == Some(p) && p != 0
    ensures ProductIds([item]) == [p]
  {
    assert ProductIdField([item]) == [Some(p)];
    assert [Some(p)][..0] == [];
    assert TruthyIds([]) == [];
    assert TruthyIds([Some(p)]) == [p];
  }

  /** Looking up one product tagged `t` files it under `t` alone. */
  lemma OneProductMembership(lookup: TagLookup, t: string)
    requires t != [] && Trimmed(t) && ',' !in t
    requires lookup(1) == Ok(Some(t))
    ensures BuildMembership([1], lookup) == Membership(map[t := {1}], [t])
  {
    OneTagPieces(t);
    assert [1][..0] == [];
    var empty := Membership(map[], []);
    assert AddTags(empty, 1, [t]) == AddTag(AddTags(empty, 1, [t][..0]), 1, t);
    assert [t][..0] == [];
    assert AddTag(empty, 1, t) == Membership(map[t := {1}], [t]) by {
      assert {} + {1} == {1};
      assert [] + [t] == [t];
    }
    assert BuildMembership([1], lookup) == AddTags(BuildMembership([1][..0], lookup), 1, Trimmings(TagPieces(Some(t))));
  }

  /** One item of a product in the single collection `t` makes one record. */
  lemma OneItemRollup(item: LineItem, t: string)
    requires item.productId == Some(1)
    ensures RollupItems([item], Membership(map[t := {1}], [t]))
      == Rollup(map[t := CollectionStat(t, Quantity(item), Revenue(item))], [t])
  {
    var m := Membership(map[t := {1}], [t]);
    assert [item][..0] == [];
    assert Credits(m, t, item);
    assert CreditTags(Rollup(map[], []), m, [t], item) == Credit(CreditTags(Rollup(map[], []), m, [t][..0], item), t, item);
    assert [t][..0] == [];
    assert 0.0 + Revenue(item) == Revenue(item);
  }

  /** One order with one line item of product 1, quantity 2 at 50.00, and
      product 1 tagged with a single clean tag: the report is one record for
      that tag, 2 sold for 100.00. */
  lemma OneTaggedItem(item: LineItem, o: Order, lookup: TagLookup, t: string)
    requires item.productId == Some(1) && item.quantity == Some(2) && item.price == Some(50.0)
    requires o.lineItems == [item]
    requires t != [] && Trimmed(t) && ',' !in t
    requires lookup(1) == Ok(Some(t))
    ensures CollectionReport([o], lookup) == [CollectionStat(t, 2, 100.0)]
  {
    ItemsOfOne(o);
    OneProductId(item, 1);
    OneProductMembership(lookup, t);
    OneItemRollup(item, t);
    var r := RollupItems([item], Membership(map[t := {1}], [t]));
    assert r.order == [t] && r.stats[t] == CollectionStat(t, 2, 100.0) by {
      assert Revenue(item) == 100.0;
    }
  }

  /** The "New" instance of the scenario above. */
  lemma NewTagScenario(item: LineItem, o: Order, lookup: TagLookup)
    requires item.productId == Some(1) && item.quantity == Some(2) && item.price == Some(50.0)
    requires o.lineItems == [item]
    requires lookup(1) == Ok(Some("New"))
    ensures CollectionReport([o], lookup) == [CollectionStat("New", 2, 100.0)]
  {
    OneTaggedItem(item, o, lookup, "New");
  }
}
