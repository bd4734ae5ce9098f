# Multi-strategy backtest engine — a Dafny model

This project models the backtest engine of `strategy_example.py`: three signal rules that
scan an OHLC bar series and append trade records, the trade book built by concatenating
their lists, the equity curve (initial capital plus cumulative PnL), its running maximum
and drawdown, and the guards that turn Sharpe, Sortino, CAGR and Calmar into NaN.

Modules, one per component:

- `Wrappers` (`wrappers.dfy`): `Option`. `None` stands for a NaN metric.
- `PriceSeries` (`price_series.dfy`): `Bar` (timestamp in integer seconds, open, high, low,
  close as exact reals), up/down bars, and the window maximum and minimum used by the
  breakout rule.
- `SignalRules` (`signals.dfy`): the trade record, the three rules as loops
  (`Strategy1`, `Strategy2`, `Strategy3`), each proved equal to a specification function
  `Signals`, and the lemmas that say which indices fire, what each trade holds and how
  many trades there can be.
- `TradeBook` (`trade_book.dfy`): the book `S1 ++ S2 ++ S3` in that order.
- `Equity` (`equity.dfy`): cumulative sums, the capital curve, running maximum, drawdown
  and max drawdown.
- `Metrics` (`metrics.dfy`): the statistics record and its NaN guards.

Behaviour the model follows from the code:

- The book is not sorted by exit time (strategy_example.py:86). Capital, running maximum,
  drawdown and the day span all follow the concatenation order. Each rule's own list is
  in increasing time order (`SignalRules.SignalsTimeOrdered`), but the book as a whole
  need not be. A time-sorted book is what a backtester normally uses; the code does not
  build one. One consequence is proved in `Metrics.SpanFollowsBookOrder`: if the book's
  first trade exits after its last one, the day span is negative and CAGR and Calmar are NaN.
- `strategy1` and `strategy2` scan `range(2, len-1)`. A 3-bar series therefore gives no
  trade, even if bars 0 and 1 are up-bars; four bars are needed (`SignalRules.SignalCount`).
- The reward ratio is never validated: R < 0 is accepted and flips the sign of each PnL,
  and R = 0 makes every PnL zero (`SignalRules.TradeFields`).
- With no trades, nothing is computed: `Metrics.Evaluate` returns `None`, with no final
  capital and no trade count.
- `timedelta.days` rounds down. `Metrics.TotalDays` does the same on second timestamps.
  Dafny's division by a positive divisor is floor division, which gives that rounding.
- A NaN mean or standard deviation passes the `!= 0` guard and yields NaN. A NaN CAGR
  gives a NaN Calmar ratio even when max drawdown is non-zero.

## Model

| member | source | states |
|---|---|---|
| `PriceSeries.MaxHighIsMaximum` | strategy_example.py:74-75 | the window's `High.max()` is at least every high in the window and equals one of them |
| `PriceSeries.MinLowIsMinimum` | strategy_example.py:74-77 | the window's `Low.min()` is at most every low in the window and equals one of them |
| `PriceSeries.MaxHigh` | strategy_example.py:74-75 | `window.High.max()` over a non-empty window; its contract is carried by `PriceSeries.MaxHighIsMaximum` |
| `PriceSeries.MinLow` | strategy_example.py:74-77 | `window.Low.min()` over a non-empty window; its contract is carried by `PriceSeries.MinLowIsMinimum` |
| `SignalRules.Strategy1` | strategy_example.py:41-51 | the loop over `range(2, len-1)` returns exactly the specified S1 trade list (two up-bars, entry at bar i's open, stop at the lower of the two lows) |
| `SignalRules.Strategy2` | strategy_example.py:56-66 | the loop returns exactly the specified S2 trade list (two down-bars, stop at the higher of the two highs, target below entry) |
| `SignalRules.Strategy3` | strategy_example.py:71-81 | the loop over `range(5, len-1)` returns exactly the specified S3 trade list (close above the previous five highs, entry at the next bar's open) |
| `SignalRules.MakeTrade` | strategy_example.py:46-80 | the record appended at index i (lines 46-50, 61-65, 76-80); its fields are stated by `SignalRules.TradeFields` and `SignalRules.BreakoutWindow` |
| `SignalRules.Signals` | strategy_example.py:41-81 | a rule's whole trade list; characterised by `SignalRules.FiresExactly`, `SignalRules.SignalsMatchFiring`, `SignalRules.SignalCount`, `SignalRules.SignalsTagged` and `SignalRules.SignalsTimeOrdered` |
| `SignalRules.Fires` | strategy_example.py:45-75 | the `if` test of each rule (lines 45, 60, 75): two up-bars, two down-bars, or a close above the previous five highs; its contract is carried by `SignalRules.FiresExactly` and `SignalRules.BreakoutWindow` |
| `SignalRules.StopLevel` | strategy_example.py:47-77 | the `stop_loss` of each rule (lines 47, 62, 77): the lower of two lows, the higher of two highs, or the lowest low of the five-bar window; its contract is carried by `SignalRules.TradeFields` and `SignalRules.BreakoutWindow` |
| `SignalRules.FiringBelow` | strategy_example.py:43-45 | the indices a rule fires at lie in its scan range, strictly increase, and number at most one per scanned index |
| `SignalRules.FiresExactly` | strategy_example.py:43-75 | a rule fires at index i if and only if First <= i <= len-2 and its pattern holds at i |
| `SignalRules.SignalsMatchFiring` | strategy_example.py:43-80 | the k-th trade of a rule is the trade built at its k-th firing index: one trade per firing index, in index order |
| `SignalRules.FiringTrade` | strategy_example.py:45-80 | whenever a rule's test holds at a scanned index i, its list contains the trade built at i |
| `SignalRules.SignalCount` | strategy_example.py:43-73 | S1 and S2 emit at most len-3 trades and S3 at most len-6; fewer than 4 (S1, S2) or 7 (S3) bars give no trade |
| `SignalRules.TradeFields` | strategy_example.py:46-80 | entry is the open of bar i (S1, S2) or i+1 (S3), both times are that bar's timestamp, target = entry ± R·risk, PnL = 1000·R·risk, and for R > 0 the PnL is positive exactly when the entry is on the profitable side of the stop |
| `SignalRules.BreakoutWindow` | strategy_example.py:73-77 | S3 fires exactly when close[i] exceeds each high of bars i-5..i-1 (bar i excluded), and its stop is the lowest low of those bars |
| `SignalRules.SignalsTagged` | strategy_example.py:50-80 | every trade of a rule carries that rule's tag |
| `SignalRules.SignalsTimeOrdered` | strategy_example.py:43-80 | on a series with increasing timestamps, one rule's trades have equal entry and exit times and strictly increasing exit times |
| `TradeBook.RunStrategies` | strategy_example.py:86 | the book is S1's list, then S2's, then S3's, and its length is the sum of theirs |
| `TradeBook.Book` | strategy_example.py:86 | the concatenation S1 ++ S2 ++ S3; its order is stated by `TradeBook.BookGroupedByRule` and its size by `TradeBook.BookSize` |
| `TradeBook.BookGroupedByRule` | strategy_example.py:86 | the book is never reordered: the rule tags never go back from S3 to S2 or from S2 to S1 |
| `TradeBook.BookSize` | strategy_example.py:43-86 | fewer than 4 bars give an empty book; otherwise the book holds at most 2(len-3) trades, plus len-6 when len >= 7 |
| `TradeBook.SharedExitTimes` | strategy_example.py:43-90 | when S1 or S2 fires at bar i and S3 fired at bar i-1, the book holds two trades (one of each rule) that both exit at bar i's timestamp, so the `ExitTime` index set at line 90 has duplicate labels |
| `TradeBook.SharedExitTimesExample` | strategy_example.py:43-90 | on an eight-bar series (four flat bars, two up-bars breaking out, two flat bars) the book holds two trades exiting at the same time, for every reward ratio |
| `Equity.CumSum` | strategy_example.py:91 | entry k of `cumsum` is the sum of the first k+1 PnL values |
| `Equity.EquityCurve` | strategy_example.py:91-92 | `capital + cumsum(PnL)`; its contract is carried by `Equity.CapitalIsPrefixSum`, `Equity.CapitalStep` and `Equity.FinalCapitalIsTotal` |
| `Equity.CapitalIsPrefixSum` | strategy_example.py:91-92 | capital k is the initial capital plus the PnL of the first k+1 trades of the book |
| `Equity.CapitalStep` | strategy_example.py:91-92 | the first capital is the initial capital plus the first PnL, and each later one adds exactly one trade's PnL |
| `Equity.FinalCapitalIsTotal` | strategy_example.py:103 | final capital is the initial capital plus the book's total PnL |
| `Equity.TotalSplitsOverBlocks` | strategy_example.py:86-92 | the book's total PnL is the sum of the three rules' totals, so final capital is the same in either block order |
| `Equity.RunningMax` | strategy_example.py:105 | `cummax` of the capital curve, one point per capital; its contract is carried by `Equity.RunningMaxBounds` and `Equity.RunningMaxAttained` |
| `Equity.RunningMaxBounds` | strategy_example.py:105 | `cummax` never decreases and is at least every capital up to that point |
| `Equity.RunningMaxAttained` | strategy_example.py:105 | each `cummax` value is one of the capitals up to that point |
| `Equity.PositiveStartPeaks` | strategy_example.py:105 | if the first capital is positive, the running max is at least that value everywhere, so no drawdown divides by zero |
| `Equity.Drawdown` | strategy_example.py:106 | `capital / running max - 1` at every point; its contract is carried by `Equity.DrawdownBounds` |
| `Equity.MaxDrawdown` | strategy_example.py:107 | `drawdown.min()`; its contract is carried by `Equity.Minimum`, `Equity.MaxDrawdownNonPositive`, `Equity.MaxDrawdownZeroIff` and `Equity.RuinedCapitalDrawdown` |
| `Equity.Minimum` | strategy_example.py:107 | `drawdown.min()` is at most every drawdown value and equals one of them |
| `Equity.DrawdownBounds` | strategy_example.py:105-106 | if the first capital is positive, every drawdown is <= 0; it is 0 exactly where capital is at its running max, and <= -1 exactly where capital is <= 0 |
| `Equity.MaxDrawdownNonPositive` | strategy_example.py:105-107 | max drawdown is never positive |
| `Equity.MaxDrawdownZeroIff` | strategy_example.py:105-107 | if the first capital is positive, max drawdown is 0 if and only if capital never falls below its running max |
| `Equity.RuinedCapitalDrawdown` | strategy_example.py:105-107 | if capital starts positive and later reaches zero or below, max drawdown is <= -1 |
| `Metrics.AnnualisedRatio` | strategy_example.py:98-101 | Sharpe and Sortino are defined exactly when the mean and the deviation are defined and the deviation is non-zero; then ratio × deviation = mean × annual factor |
| `Metrics.TotalDays` | strategy_example.py:102 | the day span is the floor of the seconds between the two exit times divided by 86400 |
| `Metrics.Cagr` | strategy_example.py:104 | CAGR is defined exactly when the day span is positive and the power (final/initial)^(365/days) is a number (it is NaN for a negative base with a non-integer exponent); then CAGR + 1 equals that power |
| `Metrics.Calmar` | strategy_example.py:108 | Calmar is defined exactly when CAGR is defined and max drawdown is non-zero; then Calmar × abs(max drawdown) = CAGR |
| `Metrics.Evaluate` | strategy_example.py:89-108 | no statistics for an empty book; otherwise the trade count, final capital = initial + total PnL, max drawdown <= 0, and each ratio is defined exactly under its guard (CAGR also needs the power to be a number) |
| `Metrics.SpanFollowsBookOrder` | strategy_example.py:102-108 | when the book's first trade exits after its last one, CAGR and Calmar are NaN |
| `Metrics.ShortSeriesNoReport` | strategy_example.py:86-89 | a series of fewer than four bars yields no trade and so no statistics |
| `Metrics.RuinReport` | strategy_example.py:105-107 | a book whose losses wipe out a positive first capital reports max drawdown <= -1 |

## Left out

- Dummy data generation (strategy_example.py:29-36): random prices over a pandas date range. The bar series is an input.
- Printing and plotting (strategy_example.py:110-127): output only.
- Configuration constants (strategy_example.py:16-24): the capital and the reward ratio are parameters. `risk_per_trade_pct` and `risk_per_trade_dollars` are unused by the engine.
- The daily resample with forward fill, `pct_change().dropna()`, and the mean and sample standard deviations (strategy_example.py:96-100): these are pandas library behaviour. Their results enter `Metrics.Evaluate` as `DailyStats`, with `None` for a NaN.
- `math.sqrt(252)` and the real exponent in CAGR (strategy_example.py:99-104) are parameters (`annual`, `pow`), because Dafny's reals have no square root or real power. `pow` answers `None` where the floating-point power is NaN, such as a negative base with a non-integer exponent after losses beyond the initial capital.
- Floating-point rounding: prices, PnL and capital are exact reals. The model therefore proves PnL = 1000·R·(entry − stop) exactly, while the source computes `target - entry` in doubles.
- Metrics.Evaluate: requires a non-zero initial capital and no zero point on the running maximum of capital. Without them the source divides by zero, and numpy then yields inf or NaN; those values are not modelled.
- Equity.MaxDrawdown: requires no zero point on the running maximum, for the same reason.
- Equity.Drawdown: requires no zero point on the running maximum, for the same reason.
- Metrics.Cagr: requires a non-zero initial capital, for the same reason.
- Metrics.Evaluate: assumes the daily resample at strategy_example.py:96 succeeds. pandas refuses to forward-fill an index with duplicate labels and raises an error there, so the source computes no statistics for a book in which two trades share an exit time. Such books are common: S1 or S2 firing at bar i together with S3 firing at bar i-1 gives one (`TradeBook.SharedExitTimes`, `TradeBook.SharedExitTimesExample`). `Evaluate` still returns a report for them.
- Input validation (reward ratio <= 0, non-increasing timestamps, high below low): the code performs none, so the model has none. `PriceSeries.TimesIncrease` (strictly increasing timestamps) is used only as the hypothesis of `SignalRules.SignalsTimeOrdered`; no lemma assumes that open and close lie within low and high, which the bar generator does not guarantee.
- Sorting the book by exit time: the code does not sort, so the model does not either.
