/** The order records the remote commerce API returns, reduced to the fields
    the reports read. Absent fields are `None`; monetary amounts are exact
    `real`s rather than the API's decimal strings. */
module Shop {
  import opened Basics

  datatype Transaction = Transaction(amount: Option<real>)

  datatype Refund = Refund(transactions: Option<seq<Transaction>>)

  datatype LineItem = LineItem(
    productId: Option<int>,        // absent for custom items
    variantId: int,
    inventoryItemId: Option<int>,
    title: string,
    variantTitle: Option<string>,
    quantity: Option<nat>,
    price: Option<real>)

  datatype Order = Order(
    subtotal: Option<real>,
    shipping: Option<real>,        // the presentment amount of the shipping price set
    tax: Option<real>,
    duties: Option<real>,
    tip: Option<real>,
    lineItems: seq<LineItem>,
    refunds: Option<seq<Refund>>)

  /** An amount that defaults to 0 when absent. */
  function Amount(x: Option<real>): real {
    x.GetOr(0.0)
  }

  /** A line item's quantity, 0 when absent. */
  function Quantity(item: LineItem): nat {
    item.quantity.GetOr(0)
  }

  /** A line item's unit price (0 when absent) times its quantity. */
  function Revenue(item: LineItem): real {
    Amount(item.price) * Quantity(item) as real
  }

  /** The line items of all orders, in the order the nested `forEach` loops
      visit them. */
  function Items(orders: seq<Order>): (items: seq<LineItem>)
    ensures forall o, li :: o in orders && li in o.lineItems ==> li in items
    ensures forall li :: li in items ==> exists o :: o in orders && li in o.lineItems
    decreases |orders|
  {
    if |orders| == 0 then []
    else orders[0].lineItems + Items(orders[1..])
  }

  /** A single order contributes exactly its own line items. */
  lemma ItemsOfOne(o: Order)
    ensures Items([o]) == o.lineItems
  {
    assert [o][1..] == [];
    assert o.lineItems + [] == o.lineItems;
  }

  /** Visiting the line items of two runs of orders one after the other. */
  lemma {:induction false} ItemsAppend(a: seq<Order>, b: seq<Order>)
    ensures Items(a + b) == Items(a) + Items(b)
    decreases |a|
  {
    if |a| > 0 {
      assert (a + b)[1..] == a[1..] + b;
      ItemsAppend(a[1..], b);
    } else {
      assert a + b == b;
    }
  }
}
