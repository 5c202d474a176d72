# Negative-risk allocator for PredictIt markets

A Dafny model of the arbitrage core of a PredictIt Discord bot. A market is
a list of mutually exclusive bins; exactly one of them resolves Yes. Buying
"No" shares in every bin can lock in a profit whatever the outcome. The
core decides how many No shares to buy in each bin so that the worst-case
profit, after PredictIt's 10% fee on gains, is as large as possible.

The model has five modules:

- `Numeric` (numeric.dfy). Python's `round(x, 3)` and `round(x, 2)` over
  the reals, plus `sum`, `min`, `max` and `list.index`.
- `RiskModel` (risk_model.dfy). The scenario scorer `calc_profit` and its
  sibling `calc_risk`, which build the same per-scenario profit list.
  Also `sum_prices`, the summed raw edge of a market.
- `Allocation` (allocation.dfy). The weighting heuristic: `optShares`, and
  `best_amount` as a method with a loop. `best_amount` is specified
  bin by bin by the function `Count`.
- `SpreadSearch` (spread_search.dfy). `optimize_spread` as a method whose
  `while` loop walks the share ceiling down. It is specified against
  `Candidate`, the spread built at one ceiling.
- `ValueBuy` (value_buy.dfy). The two pure expressions of the value-buy
  query: the default bin and the hedge vector.

Prices are reals. Share counts are integers.

## Behaviour of the code that the model keeps

- A bin priced 1 still takes part in `max(prices)` (main.py:71), so it
  sets the scale of every other bin's count. `Allocation.PricedOutBinStillScales`
  shows this on [1, 0.5, 0.5] against [0.5, 0.5].
- `optShares` (main.py:66-67) decreases as the price rises, so a cheaper
  bin gets more shares.
- The sweep's incumbent starts as the empty list `[]` with profit 0
  (main.py:83-85).
- A share list shorter than the price list makes Python raise, so the
  model states it as a precondition. Extra shares are ignored.
- With every price 1, the costliest price is 1, every bin's count is
  replaced by 0, and that spread's profit is 0. So the sweep returns
  `([], 0)`, the same as when no spread is profitable.

## Model

| member | source | states |
|---|---|---|
| `RiskModel.CalcProfit` | main.py:28-41 | The guaranteed profit is at most every scenario value (stake of the winning bin lost, every other No leg paid net of the 10% fee, rounded to 3 places) and equals one of them. |
| `RiskModel.ScenarioExcludesWinner` | main.py:20-24 | Scenario i equals the total of all No-leg gains, less bin i's own gain, less bin i's stake, rounded. |
| `RiskModel.CalcRisk` | main.py:13-25 | The risk figure is one minus the scenario value of the given bin. A negative bin counts from the end of the scenario list, as Python indexing does. |
| `RiskModel.ProfitAtMostRisk` | main.py:13-41 | calc_profit is at most 1 - calc_risk for every bin index Python accepts, negative ones included, and equals it for some bin. |
| `RiskModel.ZeroSharesBreakEven` | main.py:13-41 | With no shares, the guaranteed profit is 0 and calc_risk is 1 for every bin. |
| `RiskModel.SwapBinsKeepsProfit` | main.py:35-40 | Exchanging two bins together with their share counts leaves the guaranteed profit unchanged. |
| `RiskModel.NoEdgeAtNinetyNine` | main.py:35-40 | With two bins both priced 0.99, no non-negative spread has a positive guaranteed profit. |
| `RiskModel.SumPrices` | main.py:44-51 | The result is a whole number of cents within half a cent of the summed 1 - price over the quoted bins. |
| `RiskModel.SumPricesBounds` | main.py:44-51 | With every quote in [0, 1], the rounded sum of 1 - price lies between 0 and the number of bins. |
| `RiskModel.SumPricesSkipsAbsent` | main.py:50 | A bin with no quote (None) does not change the summed edge. |
| `Allocation.OptShares` | main.py:66-67 | For a price in [0, 1] the weight lies in [1, 10/9]. It is 1 at price 1 (no division by zero) and 10/9 at price 0. |
| `Allocation.OptSharesDecreasing` | main.py:66-67 | The weight strictly decreases as the price rises. |
| `Allocation.BestAmount` | main.py:70-79 | Returns one [price, count] pair per bin, in order. Each count is 850 in test mode and otherwise the floor of the multiplier times the bin's weight. The multiplier is the ceiling over the costliest price divided by that price's weight. |
| `Allocation.CountNonNegative` | main.py:72-76 | With a positive ceiling, no count is negative. |
| `Allocation.CountAntitone` | main.py:72-76 | With a positive ceiling, a cheaper bin never gets fewer shares than a dearer one. |
| `Allocation.CountAtCostliest` | main.py:71-76 | The costliest bin gets floor(ceiling / costliest price). |
| `Allocation.PricedOutBinStillScales` | main.py:71-72 | At ceiling 10, the bins priced 0.5 get 10 shares in [1, 0.5, 0.5] but 20 in [0.5, 0.5]. The price-1 bin sets the scale. |
| `SpreadSearch.Candidate` | main.py:86-92 | The spread at one ceiling has one count per bin. A bin priced 1 gets 0. In test mode every other bin gets 850. With a positive ceiling no count is negative. |
| `SpreadSearch.SpreadOf` | main.py:87-92 | The spread keeps each pair's count, except that a pair whose price is exactly 1 gives 0. |
| `SpreadSearch.CandidateShape` | main.py:88-92 | At any positive ceiling: price-1 bins get 0; no count is negative; among bins not priced 1, a cheaper bin gets at least as many shares. |
| `SpreadSearch.OptimizeSpread` | main.py:82-102 | Price-1 bins get 0 in the result. With budget <= 0 the result is ([], 0). With `minimum` false it returns the budget-level candidate and its profit unfiltered. With `minimum` true the profit is >= 0 and at least every feasible candidate's profit for ceilings budget..1. The result is either ([], 0) or a feasible candidate with positive profit equal to its calc_profit; every feasible candidate at a higher ceiling scores strictly less (ties keep the highest ceiling). |
| `SpreadSearch.NinetyNineSweepFindsNothing` | main.py:98-101 | For prices [0.99, 0.99], no candidate at any ceiling has positive profit. |
| `SpreadSearch.SweepNinetyNine` | main.py:82-102 | On prices [0.99, 0.99] the sweep returns ([], 0) for every budget and in both share modes. |
| `ValueBuy.DefaultBin` | main.py:431 | The default bin holds the highest Yes price, and no earlier bin holds it. |
| `ValueBuy.HedgeVector` | main.py:433 | One entry per bin, each 0 or 1. The chosen bin and every bin priced 1 get 0. Every other bin gets 1. |
| `ValueBuy.HedgeCost` | main.py:433-434 | For the hedge vector (one No share everywhere but the chosen bin and price-1 bins), calc_risk at the chosen bin is 1 minus the rounded fee-adjusted gain of one No share in every other bin. |

## Left out

- Network, authentication and retries are not modelled: the market-data fetches (`get_all_offers`, `get_orderbook`, `get_contract_offers`), login and reload.
- Background alerting is not modelled: `run`, `check_alerts`, `log_alert`, `get_messages`. It is a polling thread that shares state with the bot.
- Market lookup by fuzzy name matching (`get_market_id`) is not modelled. It depends on string-matching libraries outside this model.
- The Discord message builders are not modelled. They are formatting, not logic. This covers the rest of `value_buy`, including its `int(x*100)` cent truncation.
- `convert` is not modelled: a string concatenation that nothing in the file calls.
- Floating point is not modelled. Prices are exact reals, and `round` rounds ties upward instead of to even on binary doubles.
- `Allocation.OptShares`: only prices in [0, 1] are modelled. The source divides by zero only at price -9, which no quote takes.
- `Allocation.BestAmount`: likewise requires prices in [0, 1]. It also requires a non-empty list and a positive costliest price, since the source raises otherwise.
- `ValueBuy.DefaultBin`: Yes prices are reals. A missing Yes quote (None) makes Python's `max` raise, and that case is not modelled.
- `ValueBuy.HedgeCost`: stated for non-negative in-range bins only. `HedgeVector` and `CalcRisk` do model a negative bin (Python counts it from the end, and the vector then hedges every bin), but no lemma covers that case.
