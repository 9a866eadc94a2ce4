# Portfolio allocation dashboard: valuation and metrics engine

A Dafny model of the computational core of `App.py`, a Streamlit dashboard.
You pick up to five tickers, enter a percentage weight for each, and choose a date range.
The dashboard then:

- downloads adjusted closing prices;
- turns them into daily returns;
- normalizes the weights;
- compounds an initial investment of 10000 through the weighted daily returns;
- reports cumulative return, Sharpe ratio and maximum drawdown.

All arithmetic is over Dafny `real`, which is exact; there is no floating point.

Modules, one per part of the script:

| module | part of `App.py` |
|---|---|
| `Frames` (`frames.dfy`) | Shared vocabulary. An asset is a ticker string. A `Frame` is a table of per-asset columns over a shared row count. Also holds sums over weights and the outcomes the panel can stop at. |
| `Returns` (`returns.dfy`) | `pct_change().dropna()` on a price table (line 105). Also compounding (`Compound`, `Growth`), its inverse. |
| `Allocation` (`allocation.dfy`) | The sidebar loop (lines 30-62). It records each entered weight and keeps `weights_assigned` and `remaining_weight`. It then chooses the warning, the info message, or nothing. |
| `Normalization` (`normalization.dfy`) | The two normalization loops (lines 112-121). |
| `Valuation` (`valuation.dfy`) | The nested valuation loop (lines 109-132), writing into an array. |
| `Metrics` (`metrics.dfy`) | Cumulative return, the Sharpe guard, `cummax`, drawdown and its minimum (lines 146-156). |
| `Dashboard` (`dashboard.dfy`) | One pass of the script (lines 30-156). It runs the sidebar loop, then the main panel's checks in order, then normalization, valuation and metrics. |

The imperative parts are methods whose loop invariants tie them to specification functions:

- `AssignWeights`;
- `Normalize` ↔ `Normalized`, through its two loops `DivideByTotal` and `ShareEqually`;
- `WeightedReturn` ↔ `DailyReturn`;
- `Valuate` ↔ `ValueSeries`.

`Run` is the method that calls them in the script's order. It has no loop of its own.

The vectorised pandas expressions are functions with lemmas.

## Model

| member | source | states |
|---|---|---|
| `Returns.PctChange` | App.py:105 | The return column has one entry fewer than the price column; it is empty when there are fewer than two prices. |
| `Returns.ReturnFrame` | App.py:105 | The return table is aligned, has the same tickers as the price table, and has one row fewer (zero rows for an empty table). |
| `Returns.ReturnFrameEntries` | App.py:105 | Every entry of the return table is `price[t+1]/price[t] - 1` for its column, and the divisor is non-zero. |
| `Returns.ReturnsAboveMinusOne` | App.py:105 | Positive prices give every return strictly above -100%. |
| `Returns.FlatPricesZeroReturns` | App.py:105 | A price table whose columns never move has all-zero returns. |
| `Returns.CompoundOfPctChange` | App.py:105 | Round trip: compounding a column's returns from its first price gives the price column back. |
| `Returns.PctChangeOfCompound` | App.py:105 | Reverse round trip: the returns of a compounded series with no zero slot are the returns it was built from. |
| `Returns.Compound` | App.py:127-132 | The series compounded from a start through a run of returns has one slot more than there are returns. Its values are pinned by `CompoundStarts`, `CompoundStep` and the round trip with `PctChange`. |
| `Returns.Growth` | App.py:127-132 | The total growth factor of a run of returns, the product of one plus each return. It is tied to the last compounded slot by `CompoundLast`. |
| `Returns.CompoundStep` | App.py:132 | Each slot of a compounded series is the previous slot times one plus one return. |
| `Returns.CompoundLast` | App.py:132 | The last slot of a compounded series is the start times the total growth factor. |
| `Returns.CompoundSnoc` | App.py:127-132 | Appending one return appends exactly one grown slot and leaves the earlier slots alone. |
| `Returns.CompoundPrefix` | App.py:127-132 | Compounding a prefix of the returns gives the matching prefix of the series. |
| `Returns.CompoundFlat` | App.py:127-132 | All-zero returns leave every slot at the start amount. |
| `Returns.CompoundPositive` | App.py:127-132 | A positive start and returns above -100% keep every slot positive. |
| `Returns.CompoundRescaled` | App.py:123-132 | Compounding is linear in the start: starting from `k*s` scales every slot by `k`. |
| `Returns.CompoundTracksPrices` | App.py:105 | Compounding a price column's returns from `c` gives `c / price[0] * price[t]` at every slot. |
| `Allocation.DefaultWeight` | App.py:35-45 | The default input is 20 exactly for the first five positions and 0 exactly from the sixth on. |
| `Allocation.Classify` | App.py:59-62 | Above 100 gives the over-allocation warning, below 100 gives the info notice quoting the total, and exactly 100 gives no notice; each in both directions. |
| `Allocation.AssignWeights` | App.py:30-62 | The weights map is keyed by exactly the selected tickers, and each ticker holds its entered value. `weights_assigned` is the sum of the entries and `remaining_weight` is 100 minus it. The notice is the warning or the info exactly when something is selected and the total is above or below 100. |
| `Allocation.TotalIsAssigned` | App.py:56 | Summing the recorded weights in selection order gives the loop's `weights_assigned`. |
| `Allocation.DefaultsNotice` | App.py:35-62 | Left at their defaults, five assets total exactly 100 (no notice); one to four assets fall short at 20 each, with the info notice. |
| `Normalization.Normalized` | App.py:112-121 | The normalized weights: weight over total when the total is positive, otherwise 1/n per selected ticker. Its entries are stated by `NormalizedShares` and its sum by `NormalizedSumsToOne`. |
| `Normalization.Normalize` | App.py:112-121 | For a selection with no repeated ticker, the result is exactly `Normalized`: each weight over the total when the total is positive, otherwise 1/n for each selected ticker, and the empty map when nothing is selected. |
| `Normalization.DivideByTotal` | App.py:115-116 | The first loop maps every selected ticker, and only those, to its weight over the total. |
| `Normalization.ShareEqually` | App.py:118-121 | The second loop maps every selected ticker, and only those, to 1/n. |
| `Normalization.NormalizedShares` | App.py:112-121 | The normalized map has the raw map's keys. When the total is positive each entry is weight over total; when it is not, each entry is 1/n. No selection gives the empty map. |
| `Normalization.NormalizedSumsToOne` | App.py:112-121 | With at least one ticker selected, the normalized weights sum to exactly 1 in either branch. |
| `Normalization.NormalizedNonNegative` | App.py:112-121 | Non-negative raw weights give non-negative normalized weights. |
| `Valuation.DailyReturn` | App.py:128-131 | The weighted return of one return row: the sum of return times normalized weight over the selected tickers that have a weight. It is computed by `WeightedReturn`'s loop. |
| `Valuation.DailyReturns` | App.py:127-131 | One weighted return per return row, for the first n rows; the list has exactly n entries. |
| `Valuation.WeightedReturn` | App.py:128-131 | The inner loop computes the weighted return of one return row: the sum of return times weight over the selected tickers that have a weight. |
| `Valuation.Valuate` | App.py:109-132 | An empty return table fails when slot 0 is written. Otherwise the array the loop fills is `ValueSeries`. |
| `Valuation.ValueSeries` | App.py:109-110 | The value series has one slot per return row. |
| `Valuation.HeldValues` | App.py:109-132 | Corrected series: 10000 compounded through every weighted daily return, one slot per price date (one more than there are return rows). For several assets this is a daily-rebalanced fixed-weight mix. |
| `Valuation.ValueSeriesRecurrence` | App.py:123-132 | Slot 0 is 10000, and slot i is slot i-1 times (1 + the weighted return of return row i-1). |
| `Valuation.DailyReturnOfFlatRow` | App.py:128-131 | A return row of zeros has a weighted return of zero. |
| `Valuation.ZeroReturnsConstant` | App.py:127-132 | All-zero returns give a series constant at 10000. |
| `Valuation.DailyReturnAgrees` | App.py:128-131 | The weighted return of a row depends only on the entries of weighted, selected tickers in that row. |
| `Valuation.LastRowNeverApplied` | App.py:127-132 | Two return tables that differ only in their last row give the same value series. |
| `Valuation.DailyReturnBound` | App.py:128-131 | With non-negative weights and returns above -100%, the weighted return plus the weight total is non-negative, and positive when the total is positive. |
| `Valuation.ValuesPositive` | App.py:127-132 | Normalized non-negative weights and returns above -100% keep every value positive. |
| `Valuation.ValueSeriesIsHeldPrefix` | App.py:127-132 | The series as written is `HeldValues`, the compounded series over the price dates, with its last slot cut off. |
| `Valuation.SingleAssetDailyReturns` | App.py:105-131 | For one ticker at weight 1, the weighted daily returns are that ticker's price returns. |
| `Valuation.HeldValuesTrackPrice` | App.py:123-132 | Corrected series: for one ticker at weight 1, the value on price date t is `10000 * price[t] / price[0]`. |
| `Valuation.ValueSeriesLagsPrice` | App.py:127-132 | As written: for one ticker at weight 1, slot i holds `10000 * price[i] / price[0]`, the value of price date i. (Line 109 labels that slot with the date of return row i, which is price date i+1. A `Frame` has no dates, so this label explains the lag but is not proved.) |
| `Valuation.LagCounterexample` | App.py:127-132 | Prices 100 then 105 give one return row and the series [10000], while the compounded value on the second price date is 10500. |
| `Metrics.CumulativeReturn` | App.py:148 | The first value times (1 + cumulative return) is the last value; 0 for an empty series. |
| `Metrics.SharpeRatio` | App.py:151 | The ratio is 0 whenever the volatility is not positive. Otherwise the ratio times the volatility is the annual return. |
| `Metrics.CumMax` | App.py:154 | The running maximum has one entry per value. Its defining properties are stated by `CumMaxBounds`. |
| `Metrics.CumMaxBounds` | App.py:154 | The running maximum is nondecreasing. It is at least every value up to its index. It equals some value at or before its index. |
| `Metrics.CumMaxOfNondecreasing` | App.py:154 | A nondecreasing series is its own running maximum. |
| `Metrics.Drawdowns` | App.py:155 | Every drawdown is at most 0, and above -1 wherever the value is positive. |
| `Metrics.MinOf` | App.py:156 | The result is an element of the sequence and no larger than any element. |
| `Metrics.MaxDrawdown` | App.py:156 | The result is at most 0, and above -1 for a positive series. It is one of the drawdowns and no larger than any of them; 0 for an empty series. |
| `Metrics.DrawdownAtPeak` | App.py:154-155 | Where the value equals its running maximum, the drawdown is 0. |
| `Metrics.NondecreasingHasNoDrawdown` | App.py:154-156 | A series that never falls has a maximum drawdown of 0. |
| `Metrics.FlatSeriesMetrics` | App.py:148-156 | A flat positive series has cumulative return 0 and maximum drawdown 0. |
| `Metrics.CumulativeReturnOfCompound` | App.py:148 | The cumulative return of a compounded series is its total growth factor minus 1. |
| `Dashboard.NormalizedCovers` | App.py:102-131 | Prices keyed by the selection make every weighted ticker a column of the return table. |
| `Dashboard.Run` | App.py:30-156 | The sidebar result is as in `AssignWeights`. After that the outcomes are, in order: no selection → the select-an-asset warning; start not before end → the date error; no download → the fetch error; an empty table → the no-data error; a one-row table → the failing write to slot 0. Each condition holds in both directions. On success the report's series is `ValueSeries` of the normalized weights and has rows-1 slots. It starts at 10000 and is positive. Its cumulative return links the first and last values, and its maximum drawdown is `MaxDrawdown` of the series: one of the drawdowns, no larger than any of them, and in (-1, 0]. |
| `Dashboard.PortfolioPositive` | App.py:112-132 | With entries in [0, 100] and positive prices, the series starts at 10000 and stays positive. |
| `Dashboard.FullAllocationIsPercent` | App.py:56-116 | When the entries total exactly 100, each normalized weight is the entry divided by 100. |
| `Dashboard.ConstantPricesFlat` | App.py:105-156 | Prices that never move give a series constant at 10000, cumulative return 0 and maximum drawdown 0. |
| `Dashboard.PortfolioReturns` | App.py:146 | The returns of the value series, from which the volatility is taken, are exactly the weighted daily returns that were compounded. |
| `Dashboard.CumulativeReturnIsGrowth` | App.py:148 | The cumulative return is the product of (1 + weighted daily return) over the applied rows, minus 1. |

## Left out

- Streamlit widgets, page layout, the debug `st.write` output, Plotly charts and metric formatting (lines 8-29, 47-54, 65-66, 91-92, 106-107, 134-142, 158-164). These are user interface.
- The price download, its caching and its per-ticker error handling (lines 74-100). These are network I/O through `yahoo_fin`. `Dashboard.Run` takes the download's outcome as an `Option<Frame>`: `None` when the fetch returned nothing. It also takes the date comparison on line 70 as a boolean.
- Default date window (lines 23-26): date arithmetic; only the start-before-end check is kept.
- Annualized return `(1 + c) ** (252 / len)` and the sample standard deviation (lines 149-150). They need real powers and square roots. `Metrics.SharpeRatio` takes both as inputs.
- Dashboard.Run: the report holds the series, cumulative return and maximum drawdown. It does not hold the annualized return, volatility or Sharpe ratio, for the reason above.
- IEEE floating point, rounding, `NaN` and the `pd.isna` fallbacks. Zero prices, which make pandas produce infinities or `NaN`, are excluded by requiring positive prices.
- Negative prices give finite returns, but adjusted closing prices are never negative. A negative price can also make a return fall to -100% or below, so the value series could reach zero or change sign. The positive-price requirement therefore excludes them as well.
- pandas index alignment and the column rename on line 102. The model requires the fetched table to be keyed by exactly the selected tickers, which makes the rename the identity.
- Whether the chained `portfolio_value['Portfolio'].iloc[i] = …` writes through to the frame: the model writes the slots of one array, as intended.
- Selection limits: the multiselect returns distinct tickers, so `Distinct(selected)` is a precondition. The weight inputs are bounded to [0, 100] (`InRange`), which `Run` requires.
- Where the code and a plain reading of its intent disagree, the model follows the code:
  - A price table with a single row yields an empty return table, and writing slot 0 then fails. It is not reported as "insufficient data".
  - Any non-positive total, not only a zero total, takes the equal-split branch of the normalizer.

## Findings

| source | as written | input that shows it | evidently intended | confidence | as-written member | corrected member |
|---|---|---|---|---|---|---|
| App.py:109-132 | The value series is indexed by the return rows, which start at the second price date. Slot i applies return row i-1, so every value is stamped one date late, and the last return row is never applied. | One asset at weight 100, prices 100 then 105. There is one return row (+5%); the series is [10000], stamped on the second date, and the final value is 10000. | A series over the price dates (for one asset, the value of holding it): 10000 on the first date and 10500 on the second, with cumulative return 0.05. | not executed | `Valuation.LagCounterexample` | `Valuation.HeldValuesTrackPrice` |
