/** The pure parts of the value-buy query: which bin to buy Yes on by
    default, and the vector of No shares that hedges it. */
module ValueBuy {
  import opened Numeric
  import opened RiskModel

  /** The default bin: the first position holding the highest Yes price. */
  function DefaultBin(yesPrices: seq<real>): (bin: nat)
    requires |yesPrices| >= 1
    ensures bin < |yesPrices|
    ensures forall k :: 0 <= k < |yesPrices| ==> yesPrices[k] <= yesPrices[bin]
    ensures forall k :: 0 <= k < bin ==> yesPrices[k] < yesPrices[bin]
  {
    var top := MaxReal(yesPrices);
    assert top in yesPrices;
    FirstIndex(yesPrices, top)
  }

  /** One No share in every bin except the chosen bin and bins priced 1. */
  function HedgeVector(noPrices: seq<real>, bin: int): (buys: seq<int>)
    ensures |buys| == |noPrices|
    ensures forall k :: 0 <= k < |buys| ==> buys[k] == 0 || buys[k] == 1
    ensures 0 <= bin < |buys| ==> buys[bin] == 0
    ensures forall k :: 0 <= k < |buys| && noPrices[k] == 1.0 ==> buys[k] == 0
    ensures forall k :: 0 <= k < |buys| && k != bin && noPrices[k] != 1.0 ==> buys[k] == 1
  {
    seq(|noPrices|, k requires 0 <= k < |noPrices| => if k != bin && noPrices[k] != 1.0 then 1 else 0)
  }

  /** Fee-adjusted gain of a single No share bought at price p, rounded to
      3 places. */
  function OneShareGain(p: real): real
  {
    Round((1.0 - p) * 0.9, Three)
  }

  function OneShareGains(noPrices: seq<real>): (gains: seq<real>)
    ensures |gains| == |noPrices|
  {
    seq(|noPrices|, k requires 0 <= k < |noPrices| => OneShareGain(noPrices[k]))
  }

  /** The hedge figure value_buy reports for an in-range bin is one less
      the rounded fee-adjusted gain of one No share in every OTHER bin:
      the chosen bin carries no stake, and leaving out bins priced 1 does
      not change the figure because their gain is 0. */
  lemma HedgeCost(noPrices: seq<real>, bin: nat)
    requires bin < |noPrices|
    ensures CalcRisk(HedgeVector(noPrices, bin), noPrices, bin)
         == 1.0 - Round(Sum(OneShareGains(noPrices)) - OneShareGain(noPrices[bin]), Three)
  {
    var buys := HedgeVector(noPrices, bin);
    var gains := OneShareGains(noPrices);
    var legs := IfNoLegs(buys, noPrices);
    RoundOnGrid(0, Three);
    forall k | 0 <= k < |noPrices|
      ensures legs[k] == if k == bin then 0.0 else gains[k]
    {
      var g := buys[k] as real - ShareValue(buys, noPrices, k);
      if k == bin || noPrices[k] == 1.0 {
        assert g == 0.0;
      } else {
        assert g == 1.0 - noPrices[k];
        assert g - 0.1 * g == (1.0 - noPrices[k]) * 0.9;
      }
    }
    assert legs[..bin] == gains[..bin];
    assert legs[bin + 1..] == gains[bin + 1..];
    SumExcept(gains, bin);
    assert ShareValue(buys, noPrices, bin) == 0.0;
  }
}
