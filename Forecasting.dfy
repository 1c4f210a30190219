/**
 * AdvancedForecastingEngine (AIPRTest/AdvancedForecastingEngine.cs): the two
 * `decimal` forecasts, computed here over exact reals.
 */
module Forecasting {
  import opened Wrappers
  import opened Models
  import opened Sorting

  function PriceKey(s: OrderItem): real { s.priceAtPurchase }

  function QuantityOf(s: OrderItem): real { s.quantity as real }

  function Min(a: int, b: int): int { if a <= b then a else b }

  /** `historicalSales.OrderByDescending(s => s.PriceAtPurchase).Take(periods)`. */
  function RecentSales(sales: seq<OrderItem>, periods: nat): seq<OrderItem> {
    var sorted := SortDesc(sales, PriceKey);
    if periods <= |sorted| then sorted[..periods] else sorted
  }

  /** The mean of the quantities; 0 for an empty list. */
  function AverageQuantity(xs: seq<OrderItem>): real {
    if |xs| == 0 then 0.0 else SumBy(xs, QuantityOf) / |xs| as real
  }

  /**
   * `CalculateMovingAverageForecast`: 0 for no data or a non-positive window;
   * otherwise the mean quantity of the `periods` highest-priced items, or of all of
   * them when there are fewer.
   */
  function CalculateMovingAverageForecast(sales: seq<OrderItem>, periods: int): (r: real)
    ensures |sales| == 0 || periods <= 0 ==> r == 0.0
  {
    if |sales| == 0 || periods <= 0 then 0.0
    else AverageQuantity(RecentSales(sales, periods))
  }

  /**
   * The window holds `min(periods, n)` of the items, and they are the most expensive
   * ones: sorted by price, each selected item costs at least as much as every item
   * left out. The selection is a sub-multiset of the input.
   */
  lemma RecentSalesAreHighestPriced(sales: seq<OrderItem>, periods: nat)
    ensures |RecentSales(sales, periods)| == Min(periods, |sales|)
    ensures var sorted := SortDesc(sales, PriceKey);
      forall i, j :: 0 <= i < |RecentSales(sales, periods)| <= j < |sorted| ==>
        sorted[i].priceAtPurchase >= sorted[j].priceAtPurchase
    ensures multiset(RecentSales(sales, periods)) <= multiset(sales)
    ensures SortedDesc(RecentSales(sales, periods), PriceKey)
  {
    var sorted := SortDesc(sales, PriceKey);
    SortDescCorrect(sales, PriceKey);
    SortDescKeepsSums(sales, PriceKey, PriceKey);
    if periods <= |sorted| {
      assert sorted == sorted[..periods] + sorted[periods..];
      assert multiset(sorted) == multiset(sorted[..periods]) + multiset(sorted[periods..]);
    }
    forall i, j | 0 <= i < |RecentSales(sales, periods)| <= j < |sorted|
      ensures sorted[i].priceAtPurchase >= sorted[j].priceAtPurchase
    {
      assert PriceKey(sorted[i]) >= PriceKey(sorted[j]);
    }
  }

  /** `n * x`, kept behind a name so the solver does not multiply unknowns unasked. */
  function Scale(n: nat, x: real): real {
    n as real * x
  }

  lemma ScaleStep(n: nat, x: real)
    ensures Scale(n + 1, x) == Scale(n, x) + x
  {
    Distributes(x, n as real, 1.0);
  }

  lemma {:induction false} SumByBounds(xs: seq<OrderItem>, lo: real, hi: real)
    requires forall x :: x in xs ==> lo <= QuantityOf(x) <= hi
    ensures Scale(|xs|, lo) <= SumBy(xs, QuantityOf) <= Scale(|xs|, hi)
    decreases |xs|
  {
    if |xs| > 0 {
      var rest := xs[1..];
      assert forall x :: x in rest ==> x in xs;
      SumByBounds(rest, lo, hi);
      assert xs[0] in xs;
      ScaleStep(|rest|, lo);
      ScaleStep(|rest|, hi);
    }
  }

  /** A sum between `n * lo` and `n * hi` has its mean between `lo` and `hi`. */
  lemma MeanWithin(s: real, n: nat, lo: real, hi: real)
    requires n > 0 && Scale(n, lo) <= s <= Scale(n, hi)
    ensures lo <= s / n as real <= hi
  {
    var m := n as real;
    assert s / m - lo == (s - lo * m) / m;
    assert hi - s / m == (hi * m - s) / m;
    assert (s - lo * m) / m >= 0.0 && (hi * m - s) / m >= 0.0;
  }

  /** The forecast lies within any bounds on the selected quantities. */
  lemma MovingAverageWithinSelected(sales: seq<OrderItem>, periods: int, lo: real, hi: real)
    requires |sales| > 0 && periods > 0
    requires forall x :: x in RecentSales(sales, periods) ==> lo <= QuantityOf(x) <= hi
    ensures lo <= CalculateMovingAverageForecast(sales, periods) <= hi
  {
    var recent := RecentSales(sales, periods);
    RecentSalesAreHighestPriced(sales, periods);
    SumByBounds(recent, lo, hi);
    MeanWithin(SumBy(recent, QuantityOf), |recent|, lo, hi);
  }

  /** With at least as many periods as items, every item is averaged, in whatever order. */
  lemma MovingAverageUsesAllWhenShort(sales: seq<OrderItem>, periods: int)
    requires |sales| > 0 && periods >= |sales|
    ensures CalculateMovingAverageForecast(sales, periods) == SumBy(sales, QuantityOf) / |sales| as real
  {
    SortDescKeepsSums(sales, PriceKey, QuantityOf);
    assert RecentSales(sales, periods) == SortDesc(sales, PriceKey);
  }

  /** The first test: the two dearest of 10@100, 12@101, 14@102 average to 13. */
  lemma MovingAverageExample()
    ensures CalculateMovingAverageForecast([OrderItem(1, 10, 100.0), OrderItem(1, 12, 101.0), OrderItem(1, 14, 102.0)], 2) == 13.0
  {
    var a, b, c := OrderItem(1, 10, 100.0), OrderItem(1, 12, 101.0), OrderItem(1, 14, 102.0);
    var xs := [a, b, c];
    assert xs[1..] == [b, c] && xs[1..][1..] == [c] && xs[1..][1..][1..] == [];
    assert SortDesc([c], PriceKey) == [c];
    assert InsertDesc(b, [c], PriceKey) == [c, b];
    assert SortDesc([b, c], PriceKey) == [c, b];
    assert InsertDesc(a, [c, b], PriceKey) == [c, b, a] by {
      assert InsertDesc(a, [b], PriceKey) == [b, a];
      assert [c, b][1..] == [b];
    }
    assert SortDesc(xs, PriceKey) == [c, b, a];
    assert RecentSales(xs, 2) == [c, b];
    assert SumBy([c, b], QuantityOf) == 26.0 by {
      assert [c, b][1..] == [b] && [b][1..] == [];
      assert QuantityOf(c) == 14.0 && QuantityOf(b) == 12.0;
      assert SumBy([b], QuantityOf) == 12.0;
    }
  }

  /** A single item with a wider window forecasts its own quantity. */
  lemma MovingAverageSingleExample()
    ensures CalculateMovingAverageForecast([OrderItem(1, 10, 100.0)], 3) == 10.0
  {
    var a := OrderItem(1, 10, 100.0);
    assert SortDesc([a], PriceKey) == [a];
    assert SumBy([a], QuantityOf) == 10.0;
  }

  // -------------------------------------------------- exponential smoothing

  /** `alpha * q + (1 - alpha) * f`: one smoothing step. */
  function Blend(alpha: real, q: int, f: real): real {
    alpha * q as real + (1.0 - alpha) * f
  }

  /** The running forecast after the loop has reached index `k` (1 before the loop). */
  function Smoothed(qs: seq<int>, alpha: real, k: nat): real
    requires 1 <= k <= |qs|
    decreases k
  {
    if k == 1 then qs[0] as real
    else Blend(alpha, qs[k - 2], Smoothed(qs, alpha, k - 1))
  }

  /** What `CalculateExponentialSmoothingForecast` returns or throws. */
  function ExponentialForecast(qs: seq<int>, alpha: real): Result<real, Fault> {
    if |qs| == 0 then Success(0.0)
    else if alpha <= 0.0 || alpha > 1.0 then Failure(ArgumentOutOfRange)
    else Success(Blend(alpha, qs[|qs| - 1], Smoothed(qs, alpha, |qs|)))
  }

  /**
   * `CalculateExponentialSmoothingForecast`: start from the first quantity, blend in
   * each earlier quantity in turn, then blend in the last one.
   */
  method CalculateExponentialSmoothingForecast(qs: seq<int>, alpha: real) returns (r: Result<real, Fault>)
    ensures r == ExponentialForecast(qs, alpha)
  {
    if |qs| == 0 {
      return Success(0.0);
    }
    if alpha <= 0.0 || alpha > 1.0 {
      return Failure(ArgumentOutOfRange);
    }
    var forecast: real := qs[0] as real;
    var i := 1;
    while i < |qs|
      invariant 1 <= i <= |qs|
      invariant forecast == Smoothed(qs, alpha, i)
    {
      forecast := Blend(alpha, qs[i - 1], forecast);
      i := i + 1;
    }
    forecast := Blend(alpha, qs[|qs| - 1], forecast);
    return Success(forecast);
  }

  /** The error and empty cases: an empty list wins over a bad alpha. */
  lemma ExponentialForecastCases(qs: seq<int>, alpha: real)
    ensures |qs| == 0 ==> ExponentialForecast(qs, alpha) == Success(0.0)
    ensures ExponentialForecast(qs, alpha).Failure? <==> |qs| > 0 && (alpha <= 0.0 || alpha > 1.0)
  {
  }

  /** A blend of two values in `[lo, hi]` stays in `[lo, hi]`. */
  lemma BlendWithin(alpha: real, q: int, f: real, lo: real, hi: real)
    requires 0.0 < alpha <= 1.0 && lo <= q as real <= hi && lo <= f <= hi
    ensures lo <= Blend(alpha, q, f) <= hi
  {
    var beta := 1.0 - alpha;
    NonNegativeProduct(alpha, q as real - lo);
    NonNegativeProduct(beta, f - lo);
    NonNegativeProduct(alpha, hi - q as real);
    NonNegativeProduct(beta, hi - f);
    Distributes(alpha, q as real, lo);
    Distributes(beta, f, lo);
    Distributes(alpha, hi, q as real);
    Distributes(beta, hi, f);
    Distributes(1.0, alpha, beta);
  }

  lemma NonNegativeProduct(a: real, b: real)
    requires a >= 0.0 && b >= 0.0
    ensures a * b >= 0.0
  {
  }

  lemma Distributes(a: real, x: real, y: real)
    ensures a * (x - y) == a * x - a * y
    ensures (x + y) * a == x * a + y * a
  {
  }

  lemma {:induction false} SmoothedWithin(qs: seq<int>, alpha: real, k: nat, lo: real, hi: real)
    requires 1 <= k <= |qs| && 0.0 < alpha <= 1.0
    requires forall i :: 0 <= i < |qs| ==> lo <= qs[i] as real <= hi
    ensures lo <= Smoothed(qs, alpha, k) <= hi
    decreases k
  {
    if k > 1 {
      SmoothedWithin(qs, alpha, k - 1, lo, hi);
      BlendWithin(alpha, qs[k - 2], Smoothed(qs, alpha, k - 1), lo, hi);
    }
  }

  /** The forecast never leaves the range of the history. */
  lemma ExponentialForecastWithinRange(qs: seq<int>, alpha: real, lo: real, hi: real)
    requires |qs| > 0 && 0.0 < alpha <= 1.0
    requires forall i :: 0 <= i < |qs| ==> lo <= qs[i] as real <= hi
    ensures ExponentialForecast(qs, alpha).Success?
    ensures lo <= ExponentialForecast(qs, alpha).value <= hi
  {
    SmoothedWithin(qs, alpha, |qs|, lo, hi);
    BlendWithin(alpha, qs[|qs| - 1], Smoothed(qs, alpha, |qs|), lo, hi);
  }

  lemma {:induction false} SmoothedConstant(qs: seq<int>, alpha: real, k: nat, c: int)
    requires 1 <= k <= |qs|
    requires forall i :: 0 <= i < |qs| ==> qs[i] == c
    ensures Smoothed(qs, alpha, k) == c as real
    decreases k
  {
    if k > 1 {
      SmoothedConstant(qs, alpha, k - 1, c);
      BlendOfEqual(alpha, c);
    }
  }

  /** Blending a value with itself gives the value back. */
  lemma BlendOfEqual(alpha: real, c: int)
    ensures Blend(alpha, c, c as real) == c as real
  {
    Distributes(c as real, alpha, 1.0 - alpha);
  }

  /** A constant history, a single value included, forecasts that constant. */
  lemma ExponentialForecastConstant(qs: seq<int>, alpha: real, c: int)
    requires |qs| > 0 && 0.0 < alpha <= 1.0
    requires forall i :: 0 <= i < |qs| ==> qs[i] == c
    ensures ExponentialForecast(qs, alpha) == Success(c as real)
  {
    SmoothedConstant(qs, alpha, |qs|, c);
    assert qs[|qs| - 1] == c;
    BlendOfEqual(alpha, c);
  }

  /** The test's worked example: 10, 12, 11, 13 with alpha 0.5 forecasts 12. */
  lemma ExponentialForecastExample()
    ensures ExponentialForecast([10, 12, 11, 13], 0.5) == Success(12.0)
  {
    var qs := [10, 12, 11, 13];
    assert Smoothed(qs, 0.5, 1) == 10.0;
    assert Smoothed(qs, 0.5, 2) == 10.0;
    assert Smoothed(qs, 0.5, 3) == 11.0;
    assert Smoothed(qs, 0.5, 4) == 11.0;
  }
}
