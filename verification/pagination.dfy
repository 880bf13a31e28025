/** Cursor pagination over the orders endpoint: the `while (url)` loop that
    each report handler runs before aggregating. The remote API is a
    `Server` oracle from requests to pages. */
module Pagination {
  import opened Basics
  import opened Shop
  import opened LinkHeader

  /** The query parameters of the first request. */
  datatype Query = Query(limit: nat, createdAtMin: string, createdAtMax: string, status: string)

  /** The page size the handlers ask for. */
  const PageSize: nat := 250

  /** The status filter meaning "orders of every status". */
  const AnyStatus: string := "any"

  /** The first request's filter for orders created in
      [createdAtMin, createdAtMax]; the timestamps arrive already formatted. */
  function OrdersQuery(createdAtMin: string, createdAtMax: string): Query {
    Query(PageSize, createdAtMin, createdAtMax, AnyStatus)
  }

  /** One GET: a URL and, for the first request only, the query parameters. */
  datatype Request = Request(url: string, params: Option<Query>)

  /** One response: its orders and its `link` header, if any. */
  datatype Page = Page(orders: seq<Order>, link: Option<string>)

  /** Everything a completed walk collected: the orders, in arrival order,
      and the requests that were issued, in issue order. */
  datatype Fetched = Fetched(orders: seq<Order>, requests: seq<Request>)

  type Server = Request -> Result<Page>

  /** Reads the next-page URL out of a response's `link` header; the
      handlers use `LinkHeader.NextUrl`. */
  type LinkParser = Option<string> -> Option<string>

  /** Puts the orders and requests of earlier pages in front of a walk's outcome. */
  function Extend(orders: seq<Order>, sent: seq<Request>, rest: Result<Fetched>): Result<Fetched> {
    match rest
    case Failure(e) => Failure(e)
    case Ok(f) => Ok(Fetched(orders + f.orders, sent + f.requests))
  }

  /** Requests that carry a cursor URL and no query parameters. */
  predicate CursorOnly(reqs: seq<Request>) {
    forall q :: q in reqs ==> q.params.None?
  }

  /** The pagination loop starting at `req`, allowed at most `budget`
      requests: it follows the next-page URL of every response, without the
      original query parameters, until a response has none; any failed
      request aborts the whole walk. */
  function Walk(server: Server, nextOf: LinkParser, req: Request, budget: nat): (r: Result<Fetched>)
    ensures r.Ok? ==> 1 <= |r.value.requests| <= budget && r.value.requests[0] == req
    ensures r.Ok? ==> CursorOnly(r.value.requests[1..])
    ensures server(req).Failure? ==> r.Failure?
    decreases budget
  {
    if budget == 0 then Failure(PageLimit)
    else
      match server(req)
      case Failure(e) => Failure(e)
      case Ok(page) =>
        match nextOf(page.link)
        case None => Ok(Fetched(page.orders, [req]))
        case Some(url) =>
          var rest := Walk(server, nextOf, Request(url, None), budget - 1);
          assert rest.Ok? ==> ([req] + rest.value.requests)[1..] == rest.value.requests;
          Extend(page.orders, [req], rest)
  }

  /** One turn of the loop: a successful response either ends the walk or
      hands over to the walk from its next URL. */
  lemma WalkStep(server: Server, nextOf: LinkParser, req: Request, budget: nat, page: Page)
    requires budget > 0 && server(req) == Ok(page)
    ensures nextOf(page.link).None? ==> Walk(server, nextOf, req, budget) == Ok(Fetched(page.orders, [req]))
    ensures nextOf(page.link).Some? ==>
      Walk(server, nextOf, req, budget)
        == Extend(page.orders, [req], Walk(server, nextOf, Request(nextOf(page.link).value, None), budget - 1))
  {
  }

  /** What is left to fetch: the walk from `url`, or nothing once the loop
      has no URL. */
  function Pending(server: Server, nextOf: LinkParser, url: Option<string>, params: Option<Query>, budget: nat): Result<Fetched> {
    match url
    case None => Ok(Fetched([], []))
    case Some(u) => Walk(server, nextOf, Request(u, params), budget)
  }

  lemma ExtendNothing(rest: Result<Fetched>)
    ensures Extend([], [], rest) == rest
  {
    if rest.Ok? {
      assert [] + rest.value.orders == rest.value.orders;
      assert [] + rest.value.requests == rest.value.requests;
    }
  }

  lemma ExtendTwice(a: seq<Order>, s: seq<Request>, b: seq<Order>, t: seq<Request>, rest: Result<Fetched>)
    ensures Extend(a, s, Extend(b, t, rest)) == Extend(a + b, s + t, rest)
  {
    if rest.Ok? {
      assert a + (b + rest.value.orders) == (a + b) + rest.value.orders;
      assert s + (t + rest.value.requests) == (s + t) + rest.value.requests;
    }
  }

  /** One turn of the loop moves a page from what is pending to what was collected. */
  lemma LoopStep(server: Server, nextOf: LinkParser, orders: seq<Order>, sent: seq<Request>,
                 req: Request, budget: nat, page: Page)
    requires budget > 0 && server(req) == Ok(page)
    ensures Extend(orders, sent, Pending(server, nextOf, Some(req.url), req.params, budget))
      == Extend(orders + page.orders, sent + [req], Pending(server, nextOf, nextOf(page.link), None, budget - 1))
  {
    WalkStep(server, nextOf, req, budget, page);
    var rest := Pending(server, nextOf, nextOf(page.link), None, budget - 1);
    if nextOf(page.link).None? {
      assert page.orders + [] == page.orders && [req] + [] == [req];
    }
    ExtendTwice(orders, sent, page.orders, [req], rest);
  }

  lemma ExtendDone(orders: seq<Order>, sent: seq<Request>)
    ensures Extend(orders, sent, Ok(Fetched([], []))) == Ok(Fetched(orders, sent))
  {
    assert orders + [] == orders && sent + [] == sent;
  }

  /** The handlers' `while (url)` loop itself: request, append the orders,
      follow the next URL and drop the parameters, until no URL is left.
      It computes exactly the walk from the base URL with the query. */
  method FetchAllOrders(server: Server, nextOf: LinkParser, baseUrl: string, query: Query, budget: nat)
    returns (r: Result<Fetched>)
    ensures r == Walk(server, nextOf, Request(baseUrl, Some(query)), budget)
    ensures r.Ok? ==> r.value.requests[0] == Request(baseUrl, Some(query))
  {
    var allOrders: seq<Order> := [];
    var sent: seq<Request> := [];
    var url: Option<string> := Some(baseUrl);
    var params: Option<Query> := Some(query);
    var left := budget;
    ghost var whole := Walk(server, nextOf, Request(baseUrl, Some(query)), budget);
    ExtendNothing(whole);
    while url.Some?
      invariant whole == Extend(allOrders, sent, Pending(server, nextOf, url, params, left))
      decreases left
    {
      if left == 0 {
        return Failure(PageLimit);
      }
      var req := Request(url.value, params);
      var response := server(req);
      if response.Failure? {
        return Failure(response.error);
      }
      var page := response.value;
      var next := nextOf(page.link);
      LoopStep(server, nextOf, allOrders, sent, req, left, page);
      allOrders := allOrders + page.orders;
      sent := sent + [req];
      left := left - 1;
      url := next;
      params := None;
    }
    ExtendDone(allOrders, sent);
    return Ok(Fetched(allOrders, sent));
  }

  /** The server answers a finite chain of pages: the first request gets
      `pages[0]`, the cursor request for `urls[i]` gets `pages[i + 1]`, every
      page but the last links to the next one, and the last links nowhere. */
  ghost predicate ServesChain(server: Server, nextOf: LinkParser, first: Request, pages: seq<Page>, urls: seq<string>) {
    && |pages| >= 1 && |urls| == |pages| - 1
    && server(first) == Ok(pages[0])
    && (forall i {:trigger urls[i]} :: 0 <= i < |urls| ==> server(Request(urls[i], None)) == Ok(pages[i + 1]))
    && (forall i {:trigger urls[i]} :: 0 <= i < |urls| ==> nextOf(pages[i].link) == Some(urls[i]))
    && nextOf(pages[|pages| - 1].link).None?
  }

  /** The orders of `pages`, page after page. */
  function AllOrders(pages: seq<Page>): seq<Order>
    decreases |pages|
  {
    if |pages| == 0 then [] else pages[0].orders + AllOrders(pages[1..])
  }

  /** The bare cursor requests for `urls`. */
  function CursorRequests(urls: seq<string>): (reqs: seq<Request>)
    ensures |reqs| == |urls|
    ensures forall i :: 0 <= i < |urls| ==> reqs[i] == Request(urls[i], None)
  {
    seq(|urls|, i requires 0 <= i < |urls| => Request(urls[i], None))
  }

  /** Over a chain of N pages the walk issues exactly N requests (the first
      one, then one bare cursor request per link) and returns the pages'
      orders concatenated in page order, empty pages included. */
  lemma {:induction false} ChainWalk(server: Server, nextOf: LinkParser, first: Request,
                                     pages: seq<Page>, urls: seq<string>, budget: nat)
    requires ServesChain(server, nextOf, first, pages, urls)
    requires budget >= |pages|
    ensures Walk(server, nextOf, first, budget) == Ok(Fetched(AllOrders(pages), [first] + CursorRequests(urls)))
    decreases |pages|
  {
    if |pages| == 1 {
      LastPage(server, nextOf, first, pages, urls, budget);
    } else {
      var next := Request(urls[0], None);
      ChainTail(server, nextOf, first, pages, urls);
      ChainWalk(server, nextOf, next, pages[1..], urls[1..], budget - 1);
      WalkStep(server, nextOf, first, budget, pages[0]);
      ExtendChain(first, pages, urls, Walk(server, nextOf, next, budget - 1));
    }
  }

  /** After its first page, a chain of two or more pages is the chain
      served from the first cursor request. */
  lemma ChainTail(server: Server, nextOf: LinkParser, first: Request, pages: seq<Page>, urls: seq<string>)
    requires ServesChain(server, nextOf, first, pages, urls) && |pages| >= 2
    ensures nextOf(pages[0].link) == Some(urls[0])
    ensures ServesChain(server, nextOf, Request(urls[0], None), pages[1..], urls[1..])
  {
    assert forall i :: 0 <= i < |urls| - 1 ==> urls[1..][i] == urls[i + 1] && pages[1..][i] == pages[i + 1];
  }

  /** The first page's orders and request in front of the rest of a
      chain's walk make up the whole chain's walk. */
  lemma ExtendChain(first: Request, pages: seq<Page>, urls: seq<string>, rest: Result<Fetched>)
    requires |pages| >= 2 && |urls| == |pages| - 1
    requires rest == Ok(Fetched(AllOrders(pages[1..]), [Request(urls[0], None)] + CursorRequests(urls[1..])))
    ensures Extend(pages[0].orders, [first], rest) == Ok(Fetched(AllOrders(pages), [first] + CursorRequests(urls)))
  {
    assert [Request(urls[0], None)] + CursorRequests(urls[1..]) == CursorRequests(urls);
  }

  /** A chain of N pages cannot be walked with fewer than N requests. */
  lemma {:induction false} ChainTooLong(server: Server, nextOf: LinkParser, first: Request,
                                        pages: seq<Page>, urls: seq<string>, budget: nat)
    requires ServesChain(server, nextOf, first, pages, urls)
    requires budget < |pages|
    ensures Walk(server, nextOf, first, budget) == Failure(PageLimit)
    decreases |pages|
  {
    if budget > 0 {
      var next := Request(urls[0], None);
      assert ServesChain(server, nextOf, next, pages[1..], urls[1..]);
      ChainTooLong(server, nextOf, next, pages[1..], urls[1..], budget - 1);
      WalkStep(server, nextOf, first, budget, pages[0]);
    }
  }

  lemma LastPage(server: Server, nextOf: LinkParser, first: Request,
                 pages: seq<Page>, urls: seq<string>, budget: nat)
    requires ServesChain(server, nextOf, first, pages, urls)
    requires |pages| == 1 && budget > 0
    ensures Walk(server, nextOf, first, budget) == Ok(Fetched(AllOrders(pages), [first] + CursorRequests(urls)))
  {
    WalkStep(server, nextOf, first, budget, pages[0]);
    assert AllOrders(pages[1..]) == [];
    assert AllOrders(pages) == pages[0].orders by {
      assert pages[0].orders + [] == pages[0].orders;
    }
    assert [first] + CursorRequests(urls) == [first];
  }
}
