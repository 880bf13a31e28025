# Shopify sales dashboard: report handlers in Dafny

This project models the three API routes of a small sales dashboard for a
Shopify store. Each route reads every order created between two dates from
the store's admin API and turns them into one report:

- **orders**: a financial summary. It has net sales, returns, shipping,
  taxes, duties, tips, total sales, order count and average order value.
- **products**: one record per product variant sold. Each record has the
  units sold, the unit cost looked up from the inventory items, and the
  margin.
- **collections**: one record per product tag ("collection"). Each record
  has the units and revenue of the line items whose product carries that
  tag.

All three routes run the same loop. They request the first page with
`limit=250`, `status=any` and the date window. After that they follow the
`rel="next"` cursor URL in each response's `link` header until no next link
remains.

Modules, one per concern:

| file | module | what it holds |
|---|---|---|
| basics.dfy | `Basics` | `Option`, `Result`, JavaScript truthiness of ids, de-duplication in first-seen order (a JS `Set` read back with `Array.from`) |
| strings.dfy | `Strings` | `split`, `includes`, `trim` |
| link_header.dfy | `LinkHeader` | the next-URL extraction from a `link` header |
| shop.dfy | `Shop` | the order records and the flattening of their line items |
| pagination.dfy | `Pagination` | the cursor loop, over a server given as a function |
| financial.dfy | `Financial` | the orders report |
| chunking.dfy | `Chunking` | the batches of 100 ids for the inventory lookups |
| products.dfy | `Products` | the products report |
| collections.dfy | `Collections` | the collections report |
| reports.dfy | `Reports` | the three handlers and their 200/500 replies |

Remote calls are function-typed parameters that return a `Result`:

- `Server`: the orders endpoint.
- `CostLookup`: one inventory-items batch.
- `TagLookup`: one product's `tags` field.

Money is an exact `real` and quantities are `nat`. A field that can be
absent is an `Option`, and the source's `x || 0` reads `None` as zero.

## Model

| member | source | states |
|---|---|---|
| Basics.TruthyIds | pages/api/collections.js:39-46 | the ids a JS `Set` keeps when fed only truthy ids: no duplicates, and an id is kept exactly when it is present and non-zero |
| Strings.SplitSpec | pages/api/orders.js:30 | no piece of `split(',')` holds the separator, and joining the pieces with it gives back the input |
| Strings.SplitJoin | pages/api/collections.js:54 | splitting a join of separator-free pieces gives back exactly those pieces |
| Strings.ContainsIff | pages/api/orders.js:30 | `includes(pat)` holds exactly when `pat` occurs at some index |
| Strings.TrimSpec | pages/api/collections.js:55 | `trim()` leaves no whitespace at either end, never lengthens the string, and is empty exactly for all-whitespace input |
| Strings.TrimPadded | pages/api/collections.js:55 | `trim()` recovers a trimmed string from any whitespace padding on either side |
| LinkHeader.TakeUntilSpec | pages/api/orders.js:32 | what `[^>]*` consumes: the longest prefix free of `>`, which stops at the first `>` |
| LinkHeader.AngleGroupSpec | pages/api/orders.js:32-33 | `match(/<([^>]+)>/)[1]` is absent exactly when no index opens a group; otherwise it is the non-empty, `>`-free group at the leftmost such index |
| LinkHeader.FindSegmentSpec | pages/api/orders.js:30 | `find(s => s.includes(pat))` is absent exactly when no piece mentions `pat`; otherwise it is the first piece that does |
| LinkHeader.NextUrlShape | pages/api/orders.js:29-36 | a missing header gives no next URL; a next URL is never empty and never holds `>` |
| LinkHeader.NextUrlSource | pages/api/orders.js:29-33 | a next URL exists exactly when the first comma piece naming `rel="next"` holds an angle group, and it is that group |
| LinkHeader.NextUrlOfFormatted | pages/api/orders.js:29-33 | round trip: on a header made of well-formed links, the parser returns the URL of the first link whose relation is "next" |
| Shop.Items | pages/api/products.js:43-44 | the nested `forEach` visits every line item of every order, and only those |
| Shop.ItemsAppend | pages/api/products.js:43-44 | the line items of two runs of orders are those of the first run followed by those of the second |
| Pagination.Walk | pages/api/orders.js:24-38 | a finished walk issued the first request and then only cursor requests without parameters, at most `budget` of them; a failing first request fails the walk |
| Pagination.WalkStep | pages/api/orders.js:24-37 | one loop turn: a page with no next URL ends the walk with its orders; otherwise its orders come before those of the walk from the next URL |
| Pagination.FetchAllOrders | pages/api/orders.js:14-38 | the `while (url)` loop computes exactly the walk from the first request, starting with that request |
| Pagination.ChainWalk | pages/api/orders.js:24-38 | over a server whose pages chain by next URLs, with budget for every page, the loop collects all pages' orders in order and sends the first request and then one parameter-free request per cursor URL |
| Pagination.ChainTooLong | pages/api/orders.js:24 | a chain longer than the budget ends in `PageLimit` |
| Pagination.LastPage | pages/api/orders.js:35-36 | a single page with no next link is the whole fetch |
| Financial.RefundsTotalIsFlatSum | pages/api/orders.js:54-58 | the nested refund `reduce` equals the sum over all refund transactions flattened |
| Financial.Summarize | pages/api/orders.js:68-70 | the order count is the number of orders, or 1 when there are none; average times count equals total sales less shipping |
| Financial.SalesArePerOrderSums | pages/api/orders.js:47-81 | every reported figure is a per-order sum: net sales, returns, shipping, taxes, duties and tips each add that field of every order, and total sales adds each order's sales figure (refunds included, shipping excluded) |
| Financial.AccumulateAppend | pages/api/orders.js:47-66 | the running totals over two runs of orders are the sum of each run's totals |
| Financial.SummaryIgnoresOrder | pages/api/orders.js:47-70 | the summary depends only on the multiset of orders, not on page or arrival order |
| Chunking.Chunks | pages/api/products.js:72-73 | the `slice(i, i + chunkSize)` batches are non-empty, at most the chunk size, all but the last full, and concatenate back to the ids |
| Chunking.ChunkCount | pages/api/products.js:72 | there are ⌈n / 100⌉ batches |
| Chunking.TwoHundredFiftyIds | pages/api/products.js:69-73 | 250 ids make batches of 100, 100 and 50 |
| Products.TallyItems | pages/api/products.js:43-61 | the product map and its insertion order hold the same keys, each listed once |
| Products.TallyKeys | pages/api/products.js:45-58 | the product map has an entry for exactly the variant ids that occur |
| Products.NoVariantNoSales | pages/api/products.js:59-61 | a variant that never occurs has sold nothing and earned nothing |
| Products.TallyIsPerVariantSum | pages/api/products.js:47-61 | each entry's totalSold and totalRevenue are the sums of quantity and `price × quantity` over that variant's items |
| Products.TallyKeepsFirstSeen | pages/api/products.js:50-58 | each entry's title, variant title (`''` when absent) and inventory item id come from the first item of that variant |
| Products.TallyConservesQuantity | pages/api/products.js:43-61 | the entries' units sold add up to all the line items' quantities |
| Products.InventoryIds | pages/api/products.js:63-68 | the ids looked up are distinct, and an id is looked up exactly when it is truthy and some item carries it |
| Products.FetchCostsFailure | pages/api/products.js:72-84 | fetching costs fails exactly when some batch fails |
| Products.MergeCatalogue | pages/api/products.js:80-83 | merging a batch answered from a catalogue adds exactly the costs of that batch's known ids |
| Products.FetchCatalogue | pages/api/products.js:72-84 | against a catalogue, the batches yield the costs of every id they contain |
| Products.CostsIgnoreBatching | pages/api/products.js:67-84 | against a catalogue, every batch size yields the same cost map: the known costs of the ids |
| Products.ComposeSold | pages/api/products.js:87-99 | the records' units sold add up to the units sold along the entries they come from |
| Products.ComposePerVariant | pages/api/products.js:87-99 | one record per variant, in the order of the variants' first line items: units sold, unit cost (0 when unknown) and margin = revenue − cost × units |
| Products.FirstIndexSpec | pages/api/products.js:45-58 | the first-appearance index of a variant names its first line item, and equals the item count exactly when the variant never occurs |
| Products.TallyFirstSeenOrder | pages/api/products.js:45-58 | the map lists each variant at the index of its first line item, in increasing order of that index, as insertion into `productMap` does |
| Products.ComposeConservesQuantity | pages/api/products.js:87-99 | the records' units sold add up to all the line items' quantities |
| Products.ProductReportFailure | pages/api/products.js:67-105 | the report fails exactly when some inventory batch fails |
| Products.ProductReportTotals | pages/api/products.js:40-101 | a successful report has one record per variant, conserves quantity, and each record's units and margin are those of its variant |
| Products.OneVariantScenario | pages/api/products.js:43-99 | one item of 2 units at 50.00 with unit cost c gives one record: 2 sold, cost c, margin 100.00 − 2c |
| Collections.ProductIds | pages/api/collections.js:39-46 | the products looked up are distinct, and a product is looked up exactly when its id is truthy and some item carries it |
| Collections.TagsRoundTrip | pages/api/collections.js:54-56 | a tags field written as ", "-joined clean tags names exactly those tags |
| Collections.SummerSale | pages/api/collections.js:54-56 | the field "Summer, Sale" names exactly the collections "Summer" and "Sale" |
| Collections.AddTagsEffect | pages/api/collections.js:54-62 | filing a product under its trimmed pieces adds it to each non-empty tag and files nothing else |
| Collections.MembershipSpec | pages/api/collections.js:49-66 | a product is filed under tag t exactly when it was looked up, its lookup succeeded and t is one of its tags; a failed lookup is skipped |
| Collections.CreditTagsEffect | pages/api/collections.js:76-84 | one line item adds its quantity and revenue to every collection holding its product, and changes no other collection |
| Collections.CreditNothing | pages/api/collections.js:76-84 | an item whose product is in no listed collection leaves the stats unchanged |
| Collections.RollupIsPerCollectionSum | pages/api/collections.js:68-86 | a collection has stats exactly when some item credits it, and its totals are the sums over the items of its products |
| Collections.CreditTagsSold | pages/api/collections.js:76-84 | one item adds its quantity once per collection its product is in |
| Collections.RollupCountsOverlaps | pages/api/collections.js:68-86 | the collections' units add up to each item's quantity times the number of its product's collections, so overlapping tags count twice |
| Collections.CollectionReportSpec | pages/api/collections.js:38-88 | the report lists each collection once; each record is a tag of a product looked up successfully, holding that tag's totals; every credited collection is listed |
| Collections.NewTagScenario | pages/api/collections.js:38-88 | one item of product 1 (2 units at 50.00) with tags "New" gives the single record ("New", 2, 100.00) |
| Reports.Status | pages/api/orders.js:72-85 | a reply is sent with 200 exactly when it succeeds and 500 exactly when it fails |
| Reports.FirstRequest | pages/api/orders.js:15-21 | the first request targets the orders URL with limit 250, status "any" and the window bounds |
| Reports.OrdersReply | pages/api/orders.js:23-86 | the orders route fails exactly when fetching fails, with its fixed message; otherwise it reports the order count |
| Reports.ProductsReply | pages/api/products.js:22-105 | the products route fails exactly when fetching or a cost batch fails, with its fixed message |
| Reports.CollectionsReply | pages/api/collections.js:22-92 | the collections route fails exactly when fetching fails, whatever the product lookups do |
| Reports.HandleOrders | pages/api/orders.js:3-87 | the orders handler answers the orders reply of the walk from its first request; a failing first request gives 500 |
| Reports.HandleProducts | pages/api/products.js:4-106 | the products handler answers the products reply of the walk; a failing first request gives 500 |
| Reports.HandleCollections | pages/api/collections.js:4-93 | the collections handler answers the collections reply of the walk; a failing first request gives 500 |
| Reports.NextUrlOfHeader | pages/api/orders.js:29-36 | on a header of well-formed links, or none, the parser returns the first "next" target |
| Reports.LinkedPagesChain | pages/api/orders.js:24-38 | a store whose link headers name the next page serves a chain the loop follows |
| Reports.OrdersOverLinkedPages | pages/api/orders.js:23-82 | over such a store, with budget for every page, the orders route answers 200 with the summary of all pages' orders |
| Reports.CollectionsOverLinkedPages | pages/api/collections.js:22-88 | over such a store, the collections route answers 200 with the report of all pages' orders, whatever the product lookups do |
| Reports.ProductsOverLinkedPages | pages/api/products.js:22-105 | over such a store, the products route fails exactly when one of its cost batches fails |

## Left out

- HTTP transport, the access-token header, environment variables and URL building are left out. The orders URL is the `baseUrl` parameter. The inventory-items and product URLs are folded into the `CostLookup` and `TagLookup` functions.
- The `Date` round trip of the `from` and `to` query values is left out. The bounds arrive already formatted, and the `RangeError` an invalid date raises is not modelled.
- `Number`, `parseFloat`, `NaN` and floating-point rounding are left out. Amounts are exact reals and quantities are natural numbers.
- Logging (`console.error`, `console.warn`) is left out.
- Pagination.Walk: the source loop is unbounded and never ends on a cyclic chain of next links. The model bounds it by a `budget` of requests and fails with `PageLimit` past it.
- Pagination.Walk: the link parser is a parameter. The handlers pass `LinkHeader.NextUrl`.
- `line_items` and `variant_id` are assumed present. The products and collections routes read `line_items` (pages/api/products.js:44, pages/api/collections.js:41) and throw when it is missing, which sends a 500; the orders route never reads it.
- A page whose response has no `orders` array is left out: `Page.orders` is always a sequence. In the source, `allOrders.concat(undefined)` (pages/api/orders.js:27, pages/api/products.js:26, pages/api/collections.js:25) appends `undefined`, the aggregation then throws a `TypeError`, and the route answers 500.
- Products.ProductReport: JavaScript lists array-index keys (integers below 4294967295) in ascending order before the other keys, which keep insertion order. Shopify variant ids are usually larger, so `Object.values` yields first-seen order, as the model does. Ids below that bound would come out in ascending order instead; the model does not treat them separately.
- Collections.CollectionReport: the same key-order rule applies to tag names that are array indices, such as `2024`. Those would come first, in ascending order; the model keeps first-seen order for every tag.
- Tags that name `Object.prototype` members, such as `constructor`, are left out. For them `!productToCollection[trimmed]` is false and the `add` call throws, inside the per-product `try`.
- Strings.Trim: whitespace is an enumerated set, the ECMAScript WhiteSpace and LineTerminator code points.
- Inventory and product ids are tested for JavaScript truthiness, so an id of 0 is dropped like a missing one; `Basics.TruthyIds` states exactly this.
- Absent amounts and quantities read as 0. A missing `line_items` throws, and the route answers 500, as noted above.
