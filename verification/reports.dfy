/** The three report handlers: each fetches the orders created in a window
    through the pagination loop, then answers 200 with its report or 500
    with a fixed message when a request it does not tolerate fails. */
module Reports {
  import opened Basics
  import opened Shop
  import opened LinkHeader
  import opened Pagination
  import opened Financial
  import opened Products
  import opened Collections
  import opened Chunking

  /** A handler's answer: the report, or the handler's fixed error message. */
  datatype Reply<T> = Success(body: T) | ServerError(message: string)

  /** The HTTP status sent with a reply. */
  function Status<T>(r: Reply<T>): (code: nat)
    ensures code == 200 <==> r.Success?
    ensures code == 500 <==> r.ServerError?
  {
    if r.Success? then 200 else 500
  }

  const OrdersFailure: string := "Noe gikk galt med Shopify-kallet."
  const ProductsFailure: string := "Kunne ikke hente produktdata"
  const CollectionsFailure: string := "Kunne ikke hente collections"

  /** The first request of every handler: the orders endpoint with the
      window, page size 250 and every order status. */
  function FirstRequest(baseUrl: string, createdAtMin: string, createdAtMax: string): (q: Request)
    ensures q.url == baseUrl && q.params.Some?
    ensures q.params.value.limit == 250 && q.params.value.status == "any"
    ensures q.params.value.createdAtMin == createdAtMin && q.params.value.createdAtMax == createdAtMax
  {
    Request(baseUrl, Some(OrdersQuery(createdAtMin, createdAtMax)))
  }

  /** The orders handler's reply to a finished fetch: any failed page is a 500. */
  function OrdersReply(fetched: Result<Fetched>): (r: Reply<FinancialSummary>)
    ensures r.ServerError? <==> fetched.Failure?
    ensures r.ServerError? ==> r.message == OrdersFailure
    ensures r.Success? ==> r.body.totalOrders == if fetched.value.orders == [] then 1 else |fetched.value.orders|
  {
    match fetched
    case Failure(_) => ServerError(OrdersFailure)
    case Ok(f) => Success(Summarize(f.orders))
  }

  /** The products handler's reply: a failed page or a failed cost batch is a 500. */
  function ProductsReply(fetched: Result<Fetched>, lookup: CostLookup): (r: Reply<seq<ProductStat>>)
    ensures r.ServerError? <==> fetched.Failure? || ProductReport(fetched.value.orders, lookup).Failure?
    ensures r.ServerError? ==> r.message == ProductsFailure
  {
    match fetched
    case Failure(_) => ServerError(ProductsFailure)
    case Ok(f) =>
      match ProductReport(f.orders, lookup)
      case Failure(_) => ServerError(ProductsFailure)
      case Ok(ps) => Success(ps)
  }

  /** The collections handler's reply: only a failed page is a 500; failed
      product lookups are skipped. */
  function CollectionsReply(fetched: Result<Fetched>, lookup: TagLookup): (r: Reply<seq<CollectionStat>>)
    ensures r.ServerError? <==> fetched.Failure?
    ensures r.ServerError? ==> r.message == CollectionsFailure
  {
    match fetched
    case Failure(_) => ServerError(CollectionsFailure)
    case Ok(f) => Success(CollectionReport(f.orders, lookup))
  }

  /** GET /api/orders: the financial summary of the window. */
  method HandleOrders(server: Server, baseUrl: string, createdAtMin: string, createdAtMax: string, budget: nat)
    returns (reply: Reply<FinancialSummary>)
    ensures reply == OrdersReply(Walk(server, NextUrl, FirstRequest(baseUrl, createdAtMin, createdAtMax), budget))
    ensures server(FirstRequest(baseUrl, createdAtMin, createdAtMax)).Failure? ==> Status(reply) == 500
  {
    var fetched := FetchAllOrders(server, NextUrl, baseUrl, OrdersQuery(createdAtMin, createdAtMax), budget);
    reply := OrdersReply(fetched);
  }

  /** GET /api/products: the per-variant sales and margins of the window. */
  method HandleProducts(server: Server, lookup: CostLookup, baseUrl: string, createdAtMin: string, createdAtMax: string, budget: nat)
    returns (reply: Reply<seq<ProductStat>>)
    ensures reply == ProductsReply(Walk(server, NextUrl, FirstRequest(baseUrl, createdAtMin, createdAtMax), budget), lookup)
    ensures server(FirstRequest(baseUrl, createdAtMin, createdAtMax)).Failure? ==> Status(reply) == 500
  {
    var fetched := FetchAllOrders(server, NextUrl, baseUrl, OrdersQuery(createdAtMin, createdAtMax), budget);
    reply := ProductsReply(fetched, lookup);
  }

  /** GET /api/collections: the per-collection sales of the window. */
  method HandleCollections(server: Server, lookup: TagLookup, baseUrl: string, createdAtMin: string, createdAtMax: string, budget: nat)
    returns (reply: Reply<seq<CollectionStat>>)
    ensures reply == CollectionsReply(Walk(server, NextUrl, FirstRequest(baseUrl, createdAtMin, createdAtMax), budget), lookup)
    ensures server(FirstRequest(baseUrl, createdAtMin, createdAtMax)).Failure? ==> Status(reply) == 500
  {
    var fetched := FetchAllOrders(server, NextUrl, baseUrl, OrdersQuery(createdAtMin, createdAtMax), budget);
    reply := CollectionsReply(fetched, lookup);
  }

  /** The `link` header a page carries for a list of links: none for an
      empty list. */
  function HeaderOf(links: seq<Link>): Option<string> {
    if |links| == 0 then None else Some(FormatLinkHeader(links))
  }

  /** A store answering a chain of pages whose link headers are lists of
      well-formed links: page i's first "next" link points to urls[i], and
      the last page has no "next" link. */
  ghost predicate ServesLinkedPages(server: Server, first: Request, pages: seq<Page>, urls: seq<string>, links: seq<seq<Link>>) {
    && |pages| >= 1 && |urls| == |pages| - 1 && |links| == |pages|
    && server(first) == Ok(pages[0])
    && (forall i :: 0 <= i < |urls| ==> server(Request(urls[i], None)) == Ok(pages[i + 1]))
    && (forall i :: 0 <= i < |pages| ==> pages[i].link == HeaderOf(links[i]))
    && (forall i, j :: 0 <= i < |links| && 0 <= j < |links[i]| ==> WellFormed(links[i][j]))
    && (forall i :: 0 <= i < |urls| ==> NextTarget(links[i]) == Some(urls[i]))
    && NextTarget(links[|pages| - 1]).None?
  }

  /** The parser reads back the first "next" link of a header it was sent,
      and nothing from a missing header. */
  lemma NextUrlOfHeader(links: seq<Link>)
    requires forall j :: 0 <= j < |links| ==> WellFormed(links[j])
    ensures NextUrl(HeaderOf(links)) == NextTarget(links)
  {
    if |links| > 0 {
      NextUrlOfFormatted(links);
    }
  }

  /** With the real link-header parser, such a store serves exactly that
      chain of pages. */
  lemma LinkedPagesChain(server: Server, first: Request, pages: seq<Page>, urls: seq<string>, links: seq<seq<Link>>)
    requires ServesLinkedPages(server, first, pages, urls, links)
    ensures ServesChain(server, NextUrl, first, pages, urls)
  {
    forall i | 0 <= i < |pages| ensures NextUrl(pages[i].link) == NextTarget(links[i]) {
      NextUrlOfHeader(links[i]);
    }
  }

  /** Over such a store, with room for every page, the orders handler
      answers 200 with the summary of all the pages' orders. */
  lemma OrdersOverLinkedPages(server: Server, baseUrl: string, createdAtMin: string, createdAtMax: string,
                              pages: seq<Page>, urls: seq<string>, links: seq<seq<Link>>, budget: nat)
    requires ServesLinkedPages(server, FirstRequest(baseUrl, createdAtMin, createdAtMax), pages, urls, links)
    requires budget >= |pages|
    ensures OrdersReply(Walk(server, NextUrl, FirstRequest(baseUrl, createdAtMin, createdAtMax), budget))
      == Success(Summarize(AllOrders(pages)))
  {
    var first := FirstRequest(baseUrl, createdAtMin, createdAtMax);
    LinkedPagesChain(server, first, pages, urls, links);
    ChainWalk(server, NextUrl, first, pages, urls, budget);
  }

  /** Over such a store, with room for every page, the collections handler
      answers 200 whatever the product lookups do. */
  lemma CollectionsOverLinkedPages(server: Server, lookup: TagLookup, baseUrl: string, createdAtMin: string, createdAtMax: string,
                                   pages: seq<Page>, urls: seq<string>, links: seq<seq<Link>>, budget: nat)
    requires ServesLinkedPages(server, FirstRequest(baseUrl, createdAtMin, createdAtMax), pages, urls, links)
    requires budget >= |pages|
    ensures CollectionsReply(Walk(server, NextUrl, FirstRequest(baseUrl, createdAtMin, createdAtMax), budget), lookup)
      == Success(CollectionReport(AllOrders(pages), lookup))
  {
    var first := FirstRequest(baseUrl, createdAtMin, createdAtMax);
    LinkedPagesChain(server, first, pages, urls, links);
    ChainWalk(server, NextUrl, first, pages, urls, budget);
  }

  /** Over such a store, with room for every page, the products handler
      fails exactly when one of its cost batches fails. */
  lemma ProductsOverLinkedPages(server: Server, lookup: CostLookup, baseUrl: string, createdAtMin: string, createdAtMax: string,
                                pages: seq<Page>, urls: seq<string>, links: seq<seq<Link>>, budget: nat)
    requires ServesLinkedPages(server, FirstRequest(baseUrl, createdAtMin, createdAtMax), pages, urls, links)
    requires budget >= |pages|
    ensures ProductsReply(Walk(server, NextUrl, FirstRequest(baseUrl, createdAtMin, createdAtMax), budget), lookup).ServerError?
      <==> SomeBatchFails(lookup, Chunks(InventoryIds(Items(AllOrders(pages))), ChunkSize))
  {
    var first := FirstRequest(baseUrl, createdAtMin, createdAtMax);
    LinkedPagesChain(server, first, pages, urls, links);
    ChainWalk(server, NextUrl, first, pages, urls, budget);
    ProductReportFailure(AllOrders(pages), lookup);
  }
}
