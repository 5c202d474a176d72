/** The scenario scorer: profit and loss of a spread of No shares under each
    possible winning bin, the guaranteed (worst-case) profit, and the summed
    raw edge of a market's No prices. */
module RiskModel {
  import opened Numeric

  datatype Option<T> = None | Some(value: T)

  /** Capital committed to bin i: its share count times its No price. */
  function ShareValue(shares: seq<int>, prices: seq<real>, i: nat): real
    requires i < |prices| <= |shares|
  {
    shares[i] as real * prices[i]
  }

  /** Gain of bin i's No leg when bin i resolves No: redemption less cost,
      less the 10% fee on that gain, rounded to 3 places. */
  function IfNo(shares: seq<int>, prices: seq<real>, i: nat): real
    requires i < |prices| <= |shares|
  {
    var gain := shares[i] as real - ShareValue(shares, prices, i);
    Round(gain - 0.1 * gain, Three)
  }

  /** The No-leg gains of every bin, in bin order. */
  function IfNoLegs(shares: seq<int>, prices: seq<real>): (legs: seq<real>)
    requires |prices| <= |shares|
    ensures |legs| == |prices|
    ensures forall i :: 0 <= i < |prices| ==> legs[i] == IfNo(shares, prices, i)
  {
    seq(|prices|, i requires 0 <= i < |prices| => IfNo(shares, prices, i))
  }

  /** Loss of bin i's No leg when bin i resolves Yes: the whole stake. */
  function IfYes(shares: seq<int>, prices: seq<real>, i: nat): real
    requires i < |prices| <= |shares|
  {
    -ShareValue(shares, prices, i)
  }

  /** Portfolio profit when bin i is the winner: bin i's stake is lost and
      every other bin's No leg pays out; rounded to 3 places. */
  function Scenario(shares: seq<int>, prices: seq<real>, i: nat): real
    requires i < |prices| <= |shares|
  {
    var legs := IfNoLegs(shares, prices);
    Round(IfYes(shares, prices, i) + Sum(legs[..i]) + Sum(legs[i + 1..]), Three)
  }

  /** The list of scenario values, one per bin. */
  function Scenarios(shares: seq<int>, prices: seq<real>): (risk: seq<real>)
    requires |prices| <= |shares|
    ensures |risk| == |prices|
    ensures forall i :: 0 <= i < |prices| ==> risk[i] == Scenario(shares, prices, i)
  {
    seq(|prices|, i requires 0 <= i < |prices| => Scenario(shares, prices, i))
  }

  /** Guaranteed profit of a spread: the worst scenario. Python's `min`
      needs a non-empty list and indexing needs a share count per price. */
  function CalcProfit(shares: seq<int>, prices: seq<real>): (profit: real)
    requires 1 <= |prices| <= |shares|
    ensures forall i :: 0 <= i < |prices| ==> profit <= Scenario(shares, prices, i)
    ensures exists i :: 0 <= i < |prices| && profit == Scenario(shares, prices, i)
  {
    MinReal(Scenarios(shares, prices))
  }

  /** Python list indexing: a negative index counts from the end. */
  function PyIndex(i: int, n: nat): (k: nat)
    requires -(n as int) <= i < n
    ensures k < n && (k == i || k == n + i)
  {
    if i < 0 then n + i else i
  }

  /** One minus the scenario value of the given bin; as in Python, a
      negative bin counts from the end of the scenario list. */
  function CalcRisk(shares: seq<int>, prices: seq<real>, bin: int): (r: real)
    requires |prices| <= |shares|
    requires -|prices| <= bin < |prices|
    ensures bin >= 0 ==> r == 1.0 - Scenarios(shares, prices)[bin]
    ensures bin < 0 ==> r == 1.0 - Scenarios(shares, prices)[|prices| + bin]
  {
    1.0 - Scenario(shares, prices, PyIndex(bin, |prices|))
  }

  /** Both scorers build the same scenario list: the guaranteed profit is
      at most one minus every bin's risk figure, and equals it for some bin. */
  lemma ProfitAtMostRisk(shares: seq<int>, prices: seq<real>)
    requires 1 <= |prices| <= |shares|
    ensures forall b :: -|prices| <= b < |prices| ==>
      CalcProfit(shares, prices) <= 1.0 - CalcRisk(shares, prices, b)
    ensures exists b :: 0 <= b < |prices| && CalcProfit(shares, prices) == 1.0 - CalcRisk(shares, prices, b)
  {
    var i :| 0 <= i < |prices| && CalcProfit(shares, prices) == Scenario(shares, prices, i);
    assert CalcProfit(shares, prices) == 1.0 - CalcRisk(shares, prices, i);
  }

  /** Scenario i, restated: the total of all No legs except bin i's, less
      bin i's stake. */
  lemma ScenarioExcludesWinner(shares: seq<int>, prices: seq<real>, i: nat)
    requires i < |prices| <= |shares|
    ensures Scenario(shares, prices, i)
         == Round(Sum(IfNoLegs(shares, prices)) - IfNo(shares, prices, i) - ShareValue(shares, prices, i), Three)
  {
    SumExcept(IfNoLegs(shares, prices), i);
  }

  /** Buying nothing breaks even in every scenario. */
  lemma ZeroSharesBreakEven(shares: seq<int>, prices: seq<real>)
    requires 1 <= |prices| <= |shares|
    requires forall k :: 0 <= k < |shares| ==> shares[k] == 0
    ensures CalcProfit(shares, prices) == 0.0
    ensures forall b :: -|prices| <= b < |prices| ==> CalcRisk(shares, prices, b) == 1.0
  {
    RoundOnGrid(0, Three);
    assert Round(0.0, Three) == 0.0;
    var legs := IfNoLegs(shares, prices);
    forall k | 0 <= k < |prices|
      ensures legs[k] == 0.0
    {
      assert shares[k] == 0;
      assert ShareValue(shares, prices, k) == 0.0;
    }
    forall i | 0 <= i < |prices|
      ensures Scenario(shares, prices, i) == 0.0
    {
      SumOfZeros(legs[..i]);
      SumOfZeros(legs[i + 1..]);
      assert Sum(legs[..i]) == 0.0 && Sum(legs[i + 1..]) == 0.0;
      assert IfYes(shares, prices, i) == 0.0;
    }
  }

  /** The bin that lands at position k when bins i and j are exchanged. */
  function Mirror(k: nat, i: nat, j: nat): nat
  {
    if k == i then j else if k == j then i else k
  }

  /** Exchange of two entries of a list. */
  function Swap<T>(s: seq<T>, i: nat, j: nat): (r: seq<T>)
    requires i < |s| && j < |s|
    ensures |r| == |s|
    ensures forall k :: 0 <= k < |s| ==> r[k] == s[Mirror(k, i, j)]
  {
    s[i := s[j]][j := s[i]]
  }

  lemma SumSwap(s: seq<real>, i: nat, j: nat)
    requires i < |s| && j < |s|
    ensures Sum(Swap(s, i, j)) == Sum(s)
  {
    if i == j {
      assert Swap(s, i, j) == s;
    } else {
      SumUpdate(s, i, s[j]);
      SumUpdate(s[i := s[j]], j, s[i]);
    }
  }

  /** After exchanging bins i and j, position k holds the stake and the
      No-leg gain of the bin that moved there. */
  lemma SwapBin(shares: seq<int>, prices: seq<real>, i: nat, j: nat, k: nat)
    requires |prices| <= |shares|
    requires i < |prices| && j < |prices| && k < |prices|
    ensures ShareValue(Swap(shares, i, j), Swap(prices, i, j), k) == ShareValue(shares, prices, Mirror(k, i, j))
    ensures IfNo(Swap(shares, i, j), Swap(prices, i, j), k) == IfNo(shares, prices, Mirror(k, i, j))
  {
    var n := Mirror(k, i, j);
    assert Swap(shares, i, j)[k] == shares[n] && Swap(prices, i, j)[k] == prices[n];
  }

  /** Exchanging two bins exchanges their No-leg gains. */
  lemma SwapLegs(shares: seq<int>, prices: seq<real>, i: nat, j: nat)
    requires |prices| <= |shares|
    requires i < |prices| && j < |prices|
    ensures IfNoLegs(Swap(shares, i, j), Swap(prices, i, j)) == Swap(IfNoLegs(shares, prices), i, j)
  {
    var legs, legs' := IfNoLegs(shares, prices), IfNoLegs(Swap(shares, i, j), Swap(prices, i, j));
    forall m | 0 <= m < |prices|
      ensures legs'[m] == Swap(legs, i, j)[m]
    {
      SwapBin(shares, prices, i, j, m);
    }
  }

  /** After exchanging bins i and j, scenario k is the old scenario of the
      bin that moved to position k. */
  lemma SwapScenario(shares: seq<int>, prices: seq<real>, i: nat, j: nat, k: nat)
    requires |prices| <= |shares|
    requires i < |prices| && j < |prices| && k < |prices|
    ensures Scenario(Swap(shares, i, j), Swap(prices, i, j), k) == Scenario(shares, prices, Mirror(k, i, j))
  {
    var shares', prices' := Swap(shares, i, j), Swap(prices, i, j);
    var n := Mirror(k, i, j);
    var total, total' := Sum(IfNoLegs(shares, prices)), Sum(IfNoLegs(shares', prices'));
    assert total' == total by {
      SwapLegs(shares, prices, i, j);
      SumSwap(IfNoLegs(shares, prices), i, j);
    }
    SwapBin(shares, prices, i, j, k);
    var x' := total' - IfNo(shares', prices', k) - ShareValue(shares', prices', k);
    var x := total - IfNo(shares, prices, n) - ShareValue(shares, prices, n);
    assert x' == x;
    ScenarioExcludesWinner(shares', prices', k);
    ScenarioExcludesWinner(shares, prices, n);
  }

  /** Relabelling bins does not change the guaranteed profit: exchanging
      two bins, together with their share counts, keeps it. Every
      permutation is a sequence of such exchanges. */
  lemma SwapBinsKeepsProfit(shares: seq<int>, prices: seq<real>, i: nat, j: nat)
    requires 1 <= |prices| <= |shares|
    requires i < |prices| && j < |prices|
    ensures CalcProfit(Swap(shares, i, j), Swap(prices, i, j)) == CalcProfit(shares, prices)
  {
    var shares', prices' := Swap(shares, i, j), Swap(prices, i, j);
    var a, b := Scenarios(shares', prices'), Scenarios(shares, prices);
    var ma, mb := CalcProfit(shares', prices'), CalcProfit(shares, prices);
    var k :| 0 <= k < |prices| && ma == a[k];
    var m :| 0 <= m < |prices| && mb == b[m];
    SwapScenario(shares, prices, i, j, k);
    SwapScenario(shares, prices, i, j, Mirror(m, i, j));
    assert mb <= b[Mirror(k, i, j)] == ma;
    assert ma <= a[Mirror(m, i, j)] == mb;
  }

  /** Two bins whose No prices are both 0.99 leave no edge after the fee:
      no spread of non-negative share counts has a positive guaranteed
      profit. */
  lemma NoEdgeAtNinetyNine(x: int, y: int)
    requires x >= 0 && y >= 0
    ensures CalcProfit([x, y], [0.99, 0.99]) <= 0.0
  {
    var shares, prices := [x, y], [0.99, 0.99];
    var legs := IfNoLegs(shares, prices);
    var n0, n1 := IfNo(shares, prices, 0), IfNo(shares, prices, 1);
    assert n0 <= 0.009 * x as real + 0.0005 by {
      var g := x as real - x as real * 0.99;
      RoundError(g - 0.1 * g, Three);
    }
    assert n1 <= 0.009 * y as real + 0.0005 by {
      var g := y as real - y as real * 0.99;
      RoundError(g - 0.1 * g, Three);
    }
    assert Sum(legs) == n0 + n1 by {
      assert |legs| == 2 && legs[0] == n0 && legs[1] == n1;
      assert legs[1..][0] == n1 && legs[1..][1..] == [];
      assert Sum(legs[1..][1..]) == 0.0;
      assert Sum(legs[1..]) == n1;
    }
    var s0 := Scenario(shares, prices, 0);
    var s1 := Scenario(shares, prices, 1);
    assert s0 <= n1 - 0.99 * x as real + 0.0005 by {
      ScenarioExcludesWinner(shares, prices, 0);
      RoundError(n1 - x as real * 0.99, Three);
    }
    assert s1 <= n0 - 0.99 * y as real + 0.0005 by {
      ScenarioExcludesWinner(shares, prices, 1);
      RoundError(n0 - y as real * 0.99, Three);
    }
    if x == 0 && y == 0 {
      RoundOnGrid(0, Three);
      assert n0 == 0.0 && n1 == 0.0;
      assert s0 == 0.0 by {
        ScenarioExcludesWinner(shares, prices, 0);
      }
    } else {
      assert s0 + s1 < 0.0;
    }
  }

  /** Summed raw edge: one minus the price of every quoted bin; bins with
      no quote are skipped. */
  function Edge(prices: seq<Option<real>>): real
  {
    if |prices| == 0 then 0.0
    else (if prices[0].Some? then 1.0 - prices[0].value else 0.0) + Edge(prices[1..])
  }

  /** The summed edge rounded to 2 places: a whole number of cents within
      half a cent of the raw edge. */
  function SumPrices(prices: seq<Option<real>>): (r: real)
    ensures Edge(prices) - 0.005 < r <= Edge(prices) + 0.005
    ensures (r * 100.0).Floor as real == r * 100.0
  {
    var cents := (Edge(prices) * 100.0 + 0.5).Floor;
    assert Round(Edge(prices), Two) == cents as real / 100.0;
    assert cents as real / 100.0 * 100.0 == cents as real;
    RoundError(Edge(prices), Two);
    Round(Edge(prices), Two)
  }

  lemma {:induction false} EdgeAppend(a: seq<Option<real>>, b: seq<Option<real>>)
    ensures Edge(a + b) == Edge(a) + Edge(b)
  {
    if |a| == 0 {
      assert a + b == b;
    } else {
      assert (a + b)[1..] == a[1..] + b;
      EdgeAppend(a[1..], b);
    }
  }

  /** A bin without a quote contributes nothing to the summed edge. */
  lemma SumPricesSkipsAbsent(xs: seq<Option<real>>, ys: seq<Option<real>>)
    ensures SumPrices(xs + [None] + ys) == SumPrices(xs + ys)
  {
    EdgeAppend(xs + [None], ys);
    EdgeAppend(xs, [None]);
    EdgeAppend(xs, ys);
  }

  lemma {:induction false} EdgeBounds(prices: seq<Option<real>>)
    requires forall k :: 0 <= k < |prices| && prices[k].Some? ==> 0.0 <= prices[k].value <= 1.0
    ensures 0.0 <= Edge(prices) <= |prices| as real
  {
    if |prices| > 0 {
      EdgeBounds(prices[1..]);
    }
  }

  /** With every quote in [0, 1], the summed edge lies between 0 and the
      number of bins. */
  lemma SumPricesBounds(prices: seq<Option<real>>)
    requires forall k :: 0 <= k < |prices| && prices[k].Some? ==> 0.0 <= prices[k].value <= 1.0
    ensures 0.0 <= SumPrices(prices) <= |prices| as real
  {
    EdgeBounds(prices);
    RoundMonotone(0.0, Edge(prices), Two);
    RoundMonotone(Edge(prices), |prices| as real, Two);
    RoundOnGrid(0, Two);
    RoundOnGrid(100 * |prices|, Two);
    assert (100 * |prices|) as real / Unit(Two) == |prices| as real;
  }
}
