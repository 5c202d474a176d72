/** The sweep: walk the share ceiling down from the budget to 1, build the
    heuristic spread at each ceiling, and keep the best guaranteed profit. */
module SpreadSearch {
  import opened Numeric
  import opened RiskModel
  import opened Allocation

  /** The spread built at one ceiling: the heuristic count of every bin,
      except that a bin priced exactly 1 gets none. */
  function Candidate(prices: seq<real>, ceiling: int, test: bool): (spread: seq<int>)
    requires Weighable(prices)
    ensures |spread| == |prices|
    ensures forall k :: 0 <= k < |prices| && prices[k] == 1.0 ==> spread[k] == 0
    ensures test ==> forall k :: 0 <= k < |prices| && prices[k] != 1.0 ==> spread[k] == 850
    ensures ceiling > 0 ==> forall k :: 0 <= k < |prices| ==> spread[k] >= 0
  {
    assert ceiling > 0 ==> forall k :: 0 <= k < |prices| ==> Count(prices, ceiling, prices[k], test) >= 0 by {
      if ceiling > 0 {
        forall k | 0 <= k < |prices| {
          CountNonNegative(prices, ceiling, prices[k], test);
        }
      }
    }
    seq(|prices|, k requires 0 <= k < |prices| =>
      if prices[k] != 1.0 then Count(prices, ceiling, prices[k], test) else 0)
  }

  /** No bin of the spread exceeds the budget (`max(spread) <= max_shares`
      on a non-empty spread). */
  predicate WithinBudget(spread: seq<int>, maxShares: int)
  {
    forall k :: 0 <= k < |spread| ==> spread[k] <= maxShares
  }

  /** The sweep's filter on the candidate at one ceiling. */
  predicate Feasible(prices: seq<real>, ceiling: int, maxShares: int, test: bool)
    requires Weighable(prices)
  {
    WithinBudget(Candidate(prices, ceiling, test), maxShares)
  }

  /** Guaranteed profit of the candidate at one ceiling. */
  function CandidateProfit(prices: seq<real>, ceiling: int, test: bool): real
    requires Weighable(prices)
  {
    CalcProfit(Candidate(prices, ceiling, test), prices)
  }

  /** Shape of every candidate: bins priced 1 get nothing; with a positive
      ceiling no count is negative and, among bins not priced 1, a cheaper
      bin never gets fewer shares than a dearer one. */
  lemma CandidateShape(prices: seq<real>, ceiling: int, test: bool)
    requires Weighable(prices) && ceiling > 0
    ensures forall k :: 0 <= k < |prices| && prices[k] == 1.0 ==> Candidate(prices, ceiling, test)[k] == 0
    ensures forall k :: 0 <= k < |prices| ==> Candidate(prices, ceiling, test)[k] >= 0
    ensures forall j, k :: 0 <= j < |prices| && 0 <= k < |prices| && prices[j] <= prices[k] && prices[k] != 1.0 ==>
      Candidate(prices, ceiling, test)[j] >= Candidate(prices, ceiling, test)[k]
  {
    var c := Candidate(prices, ceiling, test);
    forall k | 0 <= k < |prices|
      ensures c[k] >= 0
    {
      CountNonNegative(prices, ceiling, prices[k], test);
    }
    forall j, k | 0 <= j < |prices| && 0 <= k < |prices| && prices[j] <= prices[k] && prices[k] != 1.0
      ensures c[j] >= c[k]
    {
      CountAntitone(prices, ceiling, prices[j], prices[k], test);
    }
  }

  /** The inner loop of optimize_spread: the count of every [price, count]
      pair, or 0 where the price is exactly 1. */
  method SpreadOf(holds: seq<(real, int)>) returns (spread: seq<int>)
    ensures |spread| == |holds|
    ensures forall k :: 0 <= k < |holds| ==> spread[k] == if holds[k].0 != 1.0 then holds[k].1 else 0
  {
    spread := [];
    for k := 0 to |holds|
      invariant |spread| == k
      invariant forall m :: 0 <= m < k ==> spread[m] == if holds[m].0 != 1.0 then holds[m].1 else 0
    {
      if holds[k].0 != 1.0 {
        spread := spread + [holds[k].1];
      } else {
        spread := spread + [0];
      }
    }
  }

  /** optimize_spread. With `minimum` false it scores the candidate at the
      full budget and returns it whatever its profit or size. Otherwise it
      sweeps the ceiling from `maxShares` down to 1, skips candidates with a
      bin above the budget, and replaces the incumbent, which starts as the
      empty spread with profit 0, only on a strictly greater profit. */
  method OptimizeSpread(prices: seq<real>, maxShares: int, minimum: bool, test: bool)
    returns (spread: seq<int>, profit: real)
    requires maxShares > 0 ==> Weighable(prices)
    ensures spread == [] || |spread| == |prices|
    ensures forall k :: 0 <= k < |spread| && prices[k] == 1.0 ==> spread[k] == 0
    ensures maxShares <= 0 ==> spread == [] && profit == 0.0
    ensures !minimum && maxShares > 0 ==>
      spread == Candidate(prices, maxShares, test) && profit == CalcProfit(spread, prices)
    ensures minimum ==> profit >= 0.0
    ensures minimum ==> forall c :: 1 <= c <= maxShares && Feasible(prices, c, maxShares, test) ==>
      CandidateProfit(prices, c, test) <= profit
    ensures minimum && spread == [] ==> profit == 0.0
    ensures minimum && spread != [] ==>
      WithinBudget(spread, maxShares) && profit == CalcProfit(spread, prices) && profit > 0.0
    ensures minimum && spread != [] ==>
      exists c :: 1 <= c <= maxShares && spread == Candidate(prices, c, test) &&
        forall d :: c < d <= maxShares && Feasible(prices, d, maxShares, test) ==> CandidateProfit(prices, d, test) < profit
  {
    var maximum := maxShares;
    profit := 0.0;
    spread := [];
    ghost var chosen := 0;
    while maximum > 0
      invariant maxShares > 0 ==> 0 <= maximum <= maxShares
      invariant maxShares <= 0 ==> maximum == maxShares
      invariant !minimum ==> maximum == maxShares
      invariant spread == [] ==> profit == 0.0
      invariant spread != [] ==>
        minimum && maximum < chosen <= maxShares && spread == Candidate(prices, chosen, test) &&
        Feasible(prices, chosen, maxShares, test) && profit == CandidateProfit(prices, chosen, test) && profit > 0.0
      invariant spread != [] ==>
        forall d :: chosen < d <= maxShares && Feasible(prices, d, maxShares, test) ==> CandidateProfit(prices, d, test) < profit
      invariant forall c :: maximum < c <= maxShares && Feasible(prices, c, maxShares, test) ==>
        CandidateProfit(prices, c, test) <= profit
    {
      ghost var ceiling, before := maximum, profit;
      var holds := BestAmount(prices, maximum, test);
      var candidate := SpreadOf(holds);
      assert candidate == Candidate(prices, ceiling, test);
      maximum := maximum - 1;
      if !minimum {
        spread := candidate;
        profit := CalcProfit(spread, prices);
        break;
      } else if WithinBudget(candidate, maxShares) {
        var score := CalcProfit(candidate, prices);
        if score > profit {
          spread, profit := candidate, score;
          chosen := ceiling;
        }
      }
      assert before <= profit;
      assert Feasible(prices, ceiling, maxShares, test) ==> CandidateProfit(prices, ceiling, test) <= profit;
      forall c | maximum < c <= maxShares && Feasible(prices, c, maxShares, test)
        ensures CandidateProfit(prices, c, test) <= profit
      {
        if c != ceiling {
          assert CandidateProfit(prices, c, test) <= before;
        }
      }
    }
  }

  /** Two bins both priced 0.99 have no candidate with positive profit at
      any ceiling, so the sweep keeps its empty incumbent. */
  lemma NinetyNineSweepFindsNothing(ceiling: int, test: bool)
    requires ceiling > 0
    ensures Weighable([0.99, 0.99])
    ensures CandidateProfit([0.99, 0.99], ceiling, test) <= 0.0
  {
    var prices := [0.99, 0.99];
    assert MaxReal(prices) == 0.99 by {
      assert prices[1..] == [0.99];
    }
    var c := Candidate(prices, ceiling, test);
    CandidateShape(prices, ceiling, test);
    assert c == [c[0], c[1]];
    NoEdgeAtNinetyNine(c[0], c[1]);
  }

  /** The whole sweep on two bins both priced 0.99, at any budget and in
      either mode of the share heuristic, returns `([], 0)`. */
  method SweepNinetyNine(maxShares: int, test: bool) returns (spread: seq<int>, profit: real)
    ensures spread == [] && profit == 0.0
  {
    NinetyNineSweepFindsNothing(1, test);
    spread, profit := OptimizeSpread([0.99, 0.99], maxShares, true, test);
    if spread != [] {
      var c :| 1 <= c <= maxShares && spread == Candidate([0.99, 0.99], c, test);
      NinetyNineSweepFindsNothing(c, test);
      assert false;
    }
  }
}
