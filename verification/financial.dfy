/** The financial summary of the orders report: per-order amounts folded
    into running totals, then the derived sales, order count and average. */
module Financial {
  import opened Basics
  import opened Shop

  /** The sum of the transaction amounts, an absent amount counting as 0. */
  function TransactionsTotal(txs: seq<Transaction>): real
    decreases |txs|
  {
    if |txs| == 0 then 0.0
    else TransactionsTotal(txs[..|txs| - 1]) + Amount(txs[|txs| - 1].amount)
  }

  /** The nested reduce over refunds: each refund's transactions, an absent
      list counting as empty. */
  function RefundsTotal(refunds: seq<Refund>): real
    decreases |refunds|
  {
    if |refunds| == 0 then 0.0
    else RefundsTotal(refunds[..|refunds| - 1]) + TransactionsTotal(refunds[|refunds| - 1].transactions.GetOr([]))
  }

  /** The refund total of one order; an absent refund list counts as empty. */
  function OrderRefunds(o: Order): real {
    RefundsTotal(o.refunds.GetOr([]))
  }

  /** All transactions of all refunds, refund after refund. */
  function RefundTransactions(refunds: seq<Refund>): seq<Transaction>
    decreases |refunds|
  {
    if |refunds| == 0 then []
    else RefundTransactions(refunds[..|refunds| - 1]) + refunds[|refunds| - 1].transactions.GetOr([])
  }

  lemma {:induction false} TransactionsTotalAppend(a: seq<Transaction>, b: seq<Transaction>)
    ensures TransactionsTotal(a + b) == TransactionsTotal(a) + TransactionsTotal(b)
    decreases |b|
  {
    if |b| == 0 {
      assert a + b == a;
    } else {
      assert (a + b)[..|a + b| - 1] == a + b[..|b| - 1];
      TransactionsTotalAppend(a, b[..|b| - 1]);
    }
  }

  /** The nested sum equals the flat sum over every transaction of every
      refund: no transaction is dropped or counted twice. */
  lemma {:induction false} RefundsTotalIsFlatSum(refunds: seq<Refund>)
    ensures RefundsTotal(refunds) == TransactionsTotal(RefundTransactions(refunds))
    decreases |refunds|
  {
    if |refunds| > 0 {
      RefundsTotalIsFlatSum(refunds[..|refunds| - 1]);
      TransactionsTotalAppend(RefundTransactions(refunds[..|refunds| - 1]),
                              refunds[|refunds| - 1].transactions.GetOr([]));
    }
  }

  /** The six running totals of the report. */
  datatype Totals = Totals(netSales: real, refunds: real, shipping: real, taxes: real, duties: real, tips: real)

  const NoTotals := Totals(0.0, 0.0, 0.0, 0.0, 0.0, 0.0)

  function Plus(a: Totals, b: Totals): Totals {
    Totals(a.netSales + b.netSales, a.refunds + b.refunds, a.shipping + b.shipping,
           a.taxes + b.taxes, a.duties + b.duties, a.tips + b.tips)
  }

  /** What one order adds to the running totals; absent amounts add 0. */
  function OrderTotals(o: Order): Totals {
    Totals(Amount(o.subtotal), OrderRefunds(o), Amount(o.shipping), Amount(o.tax), Amount(o.duties), Amount(o.tip))
  }

  /** The running totals after visiting `orders` in order. */
  function Accumulate(orders: seq<Order>): Totals
    decreases |orders|
  {
    if |orders| == 0 then NoTotals
    else Plus(Accumulate(orders[..|orders| - 1]), OrderTotals(orders[|orders| - 1]))
  }

  /** The JSON body of the orders report. */
  datatype FinancialSummary = FinancialSummary(
    totalOrders: nat,
    totalSales: real,
    avgOrderValue: real,
    totalNetSales: real,
    totalReturns: real,
    totalShipping: real,
    totalTaxes: real,
    totalDuties: real,
    totalTips: real)

  /** The summary of `orders`: sales add refunds and leave shipping out, the
      order count is floored at 1 (an empty list counts as one order), and the average divides
      sales net of shipping by that count. */
  function Summarize(orders: seq<Order>): (s: FinancialSummary)
    ensures s.totalOrders >= 1
    ensures |orders| > 0 ==> s.totalOrders == |orders|
    ensures |orders| == 0 ==> s.totalOrders == 1
    ensures s.avgOrderValue * s.totalOrders as real == s.totalSales - s.totalShipping
  {
    var t := Accumulate(orders);
    var sales := t.netSales + t.refunds + t.taxes + t.duties + t.tips;
    var count: nat := if |orders| == 0 then 1 else |orders|;
    FinancialSummary(count, sales, (sales - t.shipping) / count as real,
                     t.netSales, t.refunds, t.shipping, t.taxes, t.duties, t.tips)
  }

  /** The sales figure one order stands for: subtotal, refunds, tax, duties
      and tip, but not shipping. */
  function OrderSales(o: Order): real {
    Amount(o.subtotal) + OrderRefunds(o) + Amount(o.tax) + Amount(o.duties) + Amount(o.tip)
  }

  /** Σ of one per-order figure over `orders`. */
  function SumOf(orders: seq<Order>, f: Order -> real): real
    decreases |orders|
  {
    if |orders| == 0 then 0.0 else SumOf(orders[..|orders| - 1], f) + f(orders[|orders| - 1])
  }

  /** The per-order figures the summary adds up; absent amounts are 0. */
  function SubtotalOf(o: Order): real { Amount(o.subtotal) }
  function ShippingOf(o: Order): real { Amount(o.shipping) }
  function TaxOf(o: Order): real { Amount(o.tax) }
  function DutiesOf(o: Order): real { Amount(o.duties) }
  function TipOf(o: Order): real { Amount(o.tip) }

  /** Every figure of the summary is the sum of the orders' own figures:
      total sales adds each order's sales figure (refunds included, shipping
      excluded), and net sales, returns, shipping, taxes, duties and tips
      each add the matching field of every order. */
  lemma {:induction false} SalesArePerOrderSums(orders: seq<Order>)
    ensures Summarize(orders).totalSales == SumOf(orders, OrderSales)
    ensures Summarize(orders).totalNetSales == SumOf(orders, SubtotalOf)
    ensures Summarize(orders).totalReturns == SumOf(orders, OrderRefunds)
    ensures Summarize(orders).totalShipping == SumOf(orders, ShippingOf)
    ensures Summarize(orders).totalTaxes == SumOf(orders, TaxOf)
    ensures Summarize(orders).totalDuties == SumOf(orders, DutiesOf)
    ensures Summarize(orders).totalTips == SumOf(orders, TipOf)
    decreases |orders|
  {
    if |orders| > 0 {
      SalesArePerOrderSums(orders[..|orders| - 1]);
    }
  }

  /** The totals of two runs of orders are the sums of their totals. */
  lemma {:induction false} AccumulateAppend(a: seq<Order>, b: seq<Order>)
    ensures Accumulate(a + b) == Plus(Accumulate(a), Accumulate(b))
    decreases |b|
  {
    if |b| == 0 {
      assert a + b == a;
    } else {
      assert (a + b)[..|a + b| - 1] == a + b[..|b| - 1];
      AccumulateAppend(a, b[..|b| - 1]);
    }
  }

  /** The summary does not depend on the order in which orders arrive. */
  lemma {:induction false} SummaryIgnoresOrder(a: seq<Order>, b: seq<Order>)
    requires multiset(a) == multiset(b)
    ensures Summarize(a) == Summarize(b)
  {
    AccumulatePermutation(a, b);
    assert |a| == |multiset(a)| == |multiset(b)| == |b|;
  }

  lemma {:induction false} AccumulatePermutation(a: seq<Order>, b: seq<Order>)
    requires multiset(a) == multiset(b)
    ensures Accumulate(a) == Accumulate(b)
    decreases |a|
  {
    if |a| == 0 {
      assert |b| == |multiset(b)| == 0;
    } else {
      var x := a[|a| - 1];
      var a' := a[..|a| - 1];
      assert a == a' + [x];
      assert x in multiset(b);
      var j :| 0 <= j < |b| && b[j] == x;
      var b' := b[..j] + b[j + 1..];
      assert multiset(a') == multiset(b') by {
        assert multiset(a) == multiset(a') + multiset{x};
        WithoutOne(b, j);
      }
      AccumulatePermutation(a', b');
      AccumulateWithout(b, j);
    }
  }

  lemma WithoutOne(b: seq<Order>, j: int)
    requires 0 <= j < |b|
    ensures multiset(b[..j] + b[j + 1..]) == multiset(b) - multiset{b[j]}
  {
    assert b == b[..j] + [b[j]] + b[j + 1..];
    assert multiset(b) == multiset(b[..j]) + multiset{b[j]} + multiset(b[j + 1..]);
  }

  /** Taking one order out of a run takes exactly its totals out. */
  lemma AccumulateWithout(b: seq<Order>, j: int)
    requires 0 <= j < |b|
    ensures Accumulate(b) == Plus(Accumulate(b[..j] + b[j + 1..]), OrderTotals(b[j]))
  {
    var x := b[j];
    var front := b[..j];
    var back := b[j + 1..];
    calc {
      Accumulate(b);
      { assert b == (front + [x]) + back; }
      Accumulate((front + [x]) + back);
      { AccumulateAppend(front + [x], back); }
      Plus(Accumulate(front + [x]), Accumulate(back));
      { AccumulateAppend(front, [x]); AccumulateOne(x); }
      Plus(Plus(Accumulate(front), Plus(NoTotals, OrderTotals(x))), Accumulate(back));
      { PlusShuffle(Accumulate(front), Accumulate(back), OrderTotals(x)); }
      Plus(Plus(Accumulate(front), Accumulate(back)), OrderTotals(x));
      { AccumulateAppend(front, back); }
      Plus(Accumulate(front + back), OrderTotals(x));
    }
  }

  lemma AccumulateOne(x: Order)
    ensures Accumulate([x]) == Plus(NoTotals, OrderTotals(x))
  {
    assert [x][..0] == [];
  }

  lemma PlusShuffle(p: Totals, q: Totals, t: Totals)
    ensures Plus(Plus(p, Plus(NoTotals, t)), q) == Plus(Plus(p, q), t)
  {
  }
}
