/**
 The executions held by one cached order and the two totals derived from them: the filled
 quantity and the average fill price. The loops of the cache are proved against recursive
 totals, and the totals are shown to be independent of the arrival order of the executions.
 */
module Executions {

  datatype Execution = Execution(id: string, px: real, qty: real)

  function Abs(x: real): (y: real)
    ensures y >= 0.0 && (y == x || y == -x)
  {
    if x < 0.0 then -x else x
  }

  /** The sum of a measure over a sequence of executions. */
  function Sum(es: seq<Execution>, f: Execution -> real): (total: real) {
    if es == [] then 0.0 else Sum(es[..|es| - 1], f) + f(es[|es| - 1])
  }

  function QtyOf(e: Execution): real {
    e.qty
  }

  function CostOf(e: Execution): real {
    e.px * e.qty
  }

  function TotalQty(es: seq<Execution>): (q: real) {
    Sum(es, QtyOf)
  }

  function TotalCost(es: seq<Execution>): (c: real) {
    Sum(es, CostOf)
  }

  /** The quantity-weighted average price, and zero when nothing has been filled. */
  function AveragePx(es: seq<Execution>): (px: real) {
    if TotalQty(es) > 0.0 then TotalCost(es) / TotalQty(es) else 0.0
  }

  predicate NonNegative(es: seq<Execution>) {
    forall i :: 0 <= i < |es| ==> es[i].qty >= 0.0
  }

  method FilledQty(es: seq<Execution>) returns (qty: real)
    ensures qty == TotalQty(es)
  {
    qty := 0.0;
    for i := 0 to |es|
      invariant qty == TotalQty(es[..i])
    {
      assert es[..i + 1][..i] == es[..i];
      qty := qty + es[i].qty;
    }
    assert es[..|es|] == es;
  }

  method AvgFillPx(es: seq<Execution>) returns (px: real)
    ensures px == AveragePx(es)
  {
    var tot, qty := 0.0, 0.0;
    for i := 0 to |es|
      invariant tot == TotalCost(es[..i]) && qty == TotalQty(es[..i])
    {
      assert es[..i + 1][..i] == es[..i];
      tot := tot + es[i].px * es[i].qty;
      qty := qty + es[i].qty;
    }
    assert es[..|es|] == es;
    if qty > 0.0 {
      px := tot / qty;
    } else {
      px := 0.0;
    }
  }

  lemma SumOfAppend(es: seq<Execution>, e: Execution, f: Execution -> real)
    ensures Sum(es + [e], f) == Sum(es, f) + f(e)
  {
    assert (es + [e])[..|es|] == es;
  }

  lemma TotalsOfAppend(es: seq<Execution>, e: Execution)
    ensures TotalQty(es + [e]) == TotalQty(es) + e.qty
    ensures TotalCost(es + [e]) == TotalCost(es) + e.px * e.qty
  {
    SumOfAppend(es, e, QtyOf);
    SumOfAppend(es, e, CostOf);
  }

  /** The average price of a quantity that was paid for with a cost. */
  predicate IsAverage(px: real, qty: real, cost: real) {
    if qty > 0.0 then px * qty == cost else px == 0.0
  }

  lemma AverageOf(es: seq<Execution>)
    ensures IsAverage(AveragePx(es), TotalQty(es), TotalCost(es))
  {
    if TotalQty(es) > 0.0 {
      QuotientTimes(TotalCost(es), TotalQty(es));
    }
  }

  lemma AverageOfSame(es: seq<Execution>, qty: real, cost: real)
    requires TotalQty(es) == qty && TotalCost(es) == cost
    ensures IsAverage(AveragePx(es), qty, cost)
  {
    AverageOf(es);
  }

  lemma QuotientTimes(c: real, q: real)
    requires q > 0.0
    ensures (c / q) * q == c
  {
  }

  lemma {:induction false} SumOfConcat(a: seq<Execution>, b: seq<Execution>, f: Execution -> real)
    ensures Sum(a + b, f) == Sum(a, f) + Sum(b, f)
    decreases |b|
  {
    if b == [] {
      assert a + b == a;
    } else {
      var init := b[..|b| - 1];
      SumOfConcat(a, init, f);
      assert (a + b)[..|a + b| - 1] == a + init;
    }
  }

  /** Taking one execution out of the middle takes exactly its share out of the sum. */
  lemma SumWithout(es: seq<Execution>, i: nat, f: Execution -> real)
    requires i < |es|
    ensures Sum(es, f) == Sum(es[..i] + es[i + 1..], f) + f(es[i])
  {
    SumOfParts(es[..i], es[i], es[i + 1..], f);
    assert es == (es[..i] + [es[i]]) + es[i + 1..];
  }

  lemma SumOfParts(a: seq<Execution>, e: Execution, b: seq<Execution>, f: Execution -> real)
    ensures Sum((a + [e]) + b, f) == Sum(a + b, f) + f(e)
  {
    SumOfConcat(a + [e], b, f);
    SumOfAppend(a, e, f);
    SumOfConcat(a, b, f);
  }

  lemma MultisetWithout<T>(s: seq<T>, i: nat)
    requires i < |s|
    ensures multiset(s[..i] + s[i + 1..]) == multiset(s) - multiset{s[i]}
  {
    assert s == s[..i] + [s[i]] + s[i + 1..];
  }

  lemma {:induction false} SumOrderFree(a: seq<Execution>, b: seq<Execution>, f: Execution -> real)
    requires multiset(a) == multiset(b)
    ensures Sum(a, f) == Sum(b, f)
    decreases |a|
  {
    if a == [] {
      assert |multiset(b)| == 0;
    } else {
      var last := |a| - 1;
      assert a[last] in multiset(b);
      var i :| 0 <= i < |b| && b[i] == a[last];
      MultisetWithout(a, last);
      MultisetWithout(b, i);
      SumWithout(a, last, f);
      SumWithout(b, i, f);
      SumOrderFree(a[..last] + a[last + 1..], b[..i] + b[i + 1..], f);
    }
  }

  /** The totals depend on which executions arrived, not on the order they arrived in. */
  lemma TotalsOrderFree(a: seq<Execution>, b: seq<Execution>)
    requires multiset(a) == multiset(b)
    ensures TotalQty(a) == TotalQty(b)
    ensures TotalCost(a) == TotalCost(b)
    ensures AveragePx(a) == AveragePx(b)
  {
    SumOrderFree(a, b, QtyOf);
    SumOrderFree(a, b, CostOf);
  }

  lemma {:induction false} TotalQtyNonNegative(es: seq<Execution>)
    requires NonNegative(es)
    ensures TotalQty(es) >= 0.0
  {
    if es != [] {
      TotalQtyNonNegative(es[..|es| - 1]);
    }
  }

  /** Average price times filled quantity is the money spent. */
  lemma AverageTimesQty(es: seq<Execution>)
    requires NonNegative(es)
    ensures AveragePx(es) * TotalQty(es) == if TotalQty(es) > 0.0 then TotalCost(es) else 0.0
  {
    TotalQtyNonNegative(es);
  }

  /** Recomputing after an append is the incremental weighted update. */
  lemma AverageOfAppend(es: seq<Execution>, e: Execution)
    requires NonNegative(es) && e.qty >= 0.0 && TotalQty(es) + e.qty > 0.0
    ensures TotalQty(es + [e]) == TotalQty(es) + e.qty
    ensures AveragePx(es + [e]) == (AveragePx(es) * TotalQty(es) + e.px * e.qty) / TotalQty(es + [e])
  {
    SumOfAppend(es, e, QtyOf);
    SumOfAppend(es, e, CostOf);
    TotalQtyNonNegative(es);
    AverageTimesQty(es);
    if TotalQty(es) == 0.0 {
      CostBounds(es, 0.0, 0.0);
    }
  }

  /** Bounds on the price of every execution with a quantity bound the money spent. */
  lemma {:induction false} CostBounds(es: seq<Execution>, lo: real, hi: real)
    requires NonNegative(es)
    requires TotalQty(es) == 0.0 || forall i :: 0 <= i < |es| && es[i].qty > 0.0 ==> lo <= es[i].px <= hi
    ensures lo * TotalQty(es) <= TotalCost(es) <= hi * TotalQty(es)
  {
    if es != [] {
      var init, e := es[..|es| - 1], es[|es| - 1];
      TotalQtyNonNegative(init);
      CostBounds(init, lo, hi);
      ScaleBounds(lo, TotalQty(init), e.px, e.qty, hi);
    }
  }

  lemma ScaleBounds(lo: real, q: real, px: real, qty: real, hi: real)
    requires qty >= 0.0 && (qty > 0.0 ==> lo <= px <= hi)
    ensures lo * (q + qty) <= lo * q + px * qty
    ensures hi * q + px * qty <= hi * (q + qty)
  {
    if qty > 0.0 {
      assert (px - lo) * qty >= 0.0 && (hi - px) * qty >= 0.0;
    }
  }

  /** The average lies between the least and the greatest price of a positive execution. */
  lemma AverageBetween(es: seq<Execution>, lo: real, hi: real)
    requires NonNegative(es) && TotalQty(es) > 0.0
    requires forall i :: 0 <= i < |es| && es[i].qty > 0.0 ==> lo <= es[i].px <= hi
    ensures lo <= AveragePx(es) <= hi
  {
    CostBounds(es, lo, hi);
    QuotientBounds(lo, TotalCost(es), TotalQty(es), hi);
  }

  lemma QuotientBounds(lo: real, c: real, q: real, hi: real)
    requires q > 0.0 && lo * q <= c <= hi * q
    ensures lo <= c / q <= hi
  {
    assert c == (c / q) * q;
  }
}
