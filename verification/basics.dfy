/** Failure-compatible wrappers shared by the whole model, and the one
    error taxonomy of the report handlers. */
module Basics {

  /** A value that may be absent: JavaScript's `undefined`/`null`. */
  datatype Option<+T> = None | Some(value: T) {
    /** The value, or `default` when absent. */
    function GetOr(default: T): T {
      match this
      case Some(v) => v
      case None => default
    }
  }

  /** Why a whole report call produced no data. */
  datatype Error =
    | RequestFailed   // a remote call failed (network, auth, remote error)
    | PageLimit       // the cursor chain was longer than the request budget

  /** The outcome of a call that either succeeds with a value or fails as a whole. */
  datatype Result<+T> = Ok(value: T) | Failure(error: Error)

  /** No element occurs twice. */
  ghost predicate Distinct<T>(s: seq<T>) {
    forall i, j :: 0 <= i < j < |s| ==> s[i] != s[j]
  }

  /** JavaScript truthiness of an optional numeric id: present and not 0. */
  predicate Truthy(id: Option<int>) {
    id.Some? && id.value != 0
  }

  /** The distinct truthy ids of `ids`: what adding every truthy id to a
      JavaScript `Set` and reading it back with `Array.from` yields. Each id
      is placed where it first occurs; the contract states the ids, not
      their order. */
  function TruthyIds(ids: seq<Option<int>>): (r: seq<int>)
    ensures Distinct(r)
    ensures forall x :: x in r <==> Some(x) in ids && x != 0
    decreases |ids|
  {
    if |ids| == 0 then []
    else
      var prev := TruthyIds(ids[..|ids| - 1]);
      var last := ids[|ids| - 1];
      assert ids == ids[..|ids| - 1] + [last];
      if Truthy(last) && last.value !in prev then prev + [last.value] else prev
  }

  /** Σ of `f` over the entries of `stats` visited along `order`: the
      report totals read back in output order. */
  function SumAlong<K, V>(order: seq<K>, stats: map<K, V>, f: V -> nat): nat
    requires forall i :: 0 <= i < |order| ==> order[i] in stats
    decreases |order|
  {
    if |order| == 0 then 0
    else SumAlong(order[..|order| - 1], stats, f) + f(stats[order[|order| - 1]])
  }

  /** Visiting one more key adds its entry to the sum. */
  lemma SumAlongSnoc<K, V>(order: seq<K>, stats: map<K, V>, f: V -> nat, k: K)
    requires forall i :: 0 <= i < |order| ==> order[i] in stats
    requires k in stats
    ensures SumAlong(order + [k], stats, f) == SumAlong(order, stats, f) + f(stats[k])
  {
    assert (order + [k])[..|order|] == order;
  }

  /** Replacing the entry of a key that `order` does not visit leaves the sum alone. */
  lemma {:induction false} SumAlongOther<K, V>(order: seq<K>, stats: map<K, V>, f: V -> nat, k: K, e: V)
    requires forall i :: 0 <= i < |order| ==> order[i] in stats
    requires k !in order
    ensures SumAlong(order, stats[k := e], f) == SumAlong(order, stats, f)
    decreases |order|
  {
    if |order| > 0 {
      SumAlongOther(order[..|order| - 1], stats, f, k, e);
    }
  }

  /** Replacing the entry of a key visited once changes the sum by the
      difference of the two entries. */
  lemma {:induction false} SumAlongUpdate<K, V>(order: seq<K>, stats: map<K, V>, f: V -> nat, k: K, e: V)
    requires forall i :: 0 <= i < |order| ==> order[i] in stats
    requires Distinct(order) && k in order
    ensures SumAlong(order, stats[k := e], f) + f(stats[k]) == SumAlong(order, stats, f) + f(e)
    decreases |order|
  {
    var front := order[..|order| - 1];
    if order[|order| - 1] == k {
      assert k !in front;
      SumAlongOther(front, stats, f, k, e);
    } else {
      assert k in front;
      SumAlongUpdate(front, stats, f, k, e);
    }
  }
}
