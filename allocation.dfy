/** The weighting heuristic: how many No shares each bin gets for a given
    share ceiling, scaled against the costliest No price. */
module Allocation {
  import opened Numeric

  /** Every entry is a No price between 0 and 1. */
  predicate ValidPrices(prices: seq<real>)
  {
    forall k :: 0 <= k < |prices| ==> 0.0 <= prices[k] <= 1.0
  }

  /** Prices the heuristic can weigh: `max` needs a non-empty list and the
      costliest price is a divisor. */
  predicate Weighable(prices: seq<real>)
  {
    |prices| >= 1 && ValidPrices(prices) && MaxReal(prices) > 0.0
  }

  /** Share weight of a bin with No price `cost`: the inverse of one less
      the fee on the No leg's gain per share. */
  function OptShares(cost: real): (w: real)
    requires 0.0 <= cost <= 1.0
    ensures 1.0 <= w <= 10.0 / 9.0
    ensures cost == 1.0 ==> w == 1.0
    ensures cost == 0.0 ==> w == 10.0 / 9.0
  {
    var d := 1.0 - (1.0 - cost) * 0.1;
    assert 0.9 <= d <= 1.0;
    assert 1.0 / d >= 1.0 by {
      assert (1.0 / d) * d == 1.0;
    }
    assert 1.0 / d <= 10.0 / 9.0 by {
      assert (1.0 / d) * d == 1.0;
      assert (10.0 / 9.0) * d >= 1.0;
    }
    1.0 / d
  }

  /** A dearer bin gets a strictly smaller weight. */
  lemma OptSharesDecreasing(a: real, b: real)
    requires 0.0 <= a < b <= 1.0
    ensures OptShares(a) > OptShares(b)
  {
    var da, db := 1.0 - (1.0 - a) * 0.1, 1.0 - (1.0 - b) * 0.1;
    assert 0.0 < da < db;
    var wa, wb := 1.0 / da, 1.0 / db;
    assert wa * da == 1.0 && wb * db == 1.0;
    assert wa > 0.0;
    assert wa * (db - da) > 0.0 by {
      PositiveProduct(wa, db - da);
    }
    assert (wa - wb) * db > 0.0;
    if wa <= wb {
      PositiveProduct(wb - wa, db);
      assert false;
    }
  }

  lemma PositiveProduct(x: real, y: real)
    requires x >= 0.0 && y > 0.0
    ensures x * y >= 0.0
    ensures x > 0.0 ==> x * y > 0.0
  {
  }

  /** The factor every weight is multiplied by: the ceiling over the
      costliest price, divided by the costliest price's weight. Bins priced
      1 take part in the maximum. */
  function Multiplier(prices: seq<real>, maxShares: int): real
    requires Weighable(prices)
  {
    var costliest := MaxReal(prices);
    (maxShares as real / costliest) / OptShares(costliest)
  }

  /** The share count given to a bin with No price p: 850 in test mode,
      otherwise the floor of its weight times the multiplier. */
  function Count(prices: seq<real>, maxShares: int, p: real, test: bool): int
    requires Weighable(prices) && 0.0 <= p <= 1.0
  {
    if test then 850 else (Multiplier(prices, maxShares) * OptShares(p)).Floor
  }

  /** The list of [price, count] pairs, one per bin in order. */
  method BestAmount(prices: seq<real>, maxShares: int, test: bool) returns (holds: seq<(real, int)>)
    requires Weighable(prices)
    ensures |holds| == |prices|
    ensures forall k :: 0 <= k < |prices| ==> holds[k] == (prices[k], Count(prices, maxShares, prices[k], test))
  {
    var costliest := MaxReal(prices);
    var multiplier := (maxShares as real / costliest) / OptShares(costliest);
    assert multiplier == Multiplier(prices, maxShares);
    holds := [];
    for k := 0 to |prices|
      invariant |holds| == k
      invariant forall m :: 0 <= m < k ==> holds[m] == (prices[m], Count(prices, maxShares, prices[m], test))
    {
      var price := prices[k];
      assert 0.0 <= price <= 1.0;
      if !test {
        assert (multiplier * OptShares(price)).Floor == Count(prices, maxShares, price, test);
        holds := holds + [(price, (multiplier * OptShares(price)).Floor)];
      } else {
        holds := holds + [(price, 850)];
      }
    }
  }

  lemma MultiplierPositive(prices: seq<real>, maxShares: int)
    requires Weighable(prices) && maxShares > 0
    ensures Multiplier(prices, maxShares) > 0.0
  {
    var costliest := MaxReal(prices);
    var q := maxShares as real / costliest;
    assert q * costliest == maxShares as real;
    assert q > 0.0;
    var w := OptShares(costliest);
    assert (q / w) * w == q;
  }

  /** With a positive ceiling no bin gets a negative count. */
  lemma CountNonNegative(prices: seq<real>, maxShares: int, p: real, test: bool)
    requires Weighable(prices) && 0.0 <= p <= 1.0 && maxShares > 0
    ensures Count(prices, maxShares, p, test) >= 0
  {
    if !test {
      MultiplierPositive(prices, maxShares);
      assert Multiplier(prices, maxShares) * OptShares(p) > 0.0;
    }
  }

  /** With a positive ceiling a cheaper bin never gets fewer shares than a
      dearer one. */
  lemma CountAntitone(prices: seq<real>, maxShares: int, p: real, q: real, test: bool)
    requires Weighable(prices) && 0.0 <= p <= q <= 1.0 && maxShares > 0
    ensures Count(prices, maxShares, p, test) >= Count(prices, maxShares, q, test)
  {
    if !test && p < q {
      MultiplierPositive(prices, maxShares);
      OptSharesDecreasing(p, q);
      var m := Multiplier(prices, maxShares);
      var x, y := m * OptShares(q), m * OptShares(p);
      assert x <= y;
      assert x.Floor as real <= x <= y < y.Floor as real + 1.0;
    }
  }

  /** The costliest bin gets the floor of the ceiling over its price. */
  lemma CountAtCostliest(prices: seq<real>, maxShares: int)
    requires Weighable(prices)
    ensures Count(prices, maxShares, MaxReal(prices), false) == (maxShares as real / MaxReal(prices)).Floor
  {
    var costliest := MaxReal(prices);
    var q := maxShares as real / costliest;
    var w := OptShares(costliest);
    assert (q / w) * w == q;
  }

  /** Bins priced 1 are not left out of the maximum: with No prices
      [1, 0.5, 0.5] and ceiling 10 the two live bins get 10 shares each,
      while the two-bin market [0.5, 0.5] gives them 20 each. */
  lemma PricedOutBinStillScales()
    ensures Weighable([1.0, 0.5, 0.5]) && Weighable([0.5, 0.5])
    ensures Count([1.0, 0.5, 0.5], 10, 0.5, false) == 10
    ensures Count([0.5, 0.5], 10, 0.5, false) == 20
  {
    assert MaxReal([1.0, 0.5, 0.5]) == 1.0 by {
      assert [1.0, 0.5, 0.5][1..] == [0.5, 0.5];
      assert [0.5, 0.5][1..] == [0.5];
    }
    assert MaxReal([0.5, 0.5]) == 0.5 by {
      assert [0.5, 0.5][1..] == [0.5];
    }
    assert OptShares(0.5) == 20.0 / 19.0;
    assert OptShares(1.0) == 1.0;
    assert Multiplier([1.0, 0.5, 0.5], 10) == 10.0;
    assert Multiplier([0.5, 0.5], 10) == 19.0;
    assert (10.0 * (20.0 / 19.0)).Floor == 10;
    assert (19.0 * (20.0 / 19.0)).Floor == 20;
  }
}
