# Daily-candle backtester: the simulation engine

This project models, in Dafny, the simulation engine of a long-only
backtester over daily candles, and proves properties of the model. The
engine has four parts:

- **Candles** (`candles.dfy`, from `StockCandle.h`). A candle is one day of
  one symbol. It carries open, high, low, close and volume, plus derived
  fields: its colour, its body and its two shadows, each as a fraction of a
  price. The Marubozu predicates test those fields against thresholds, with
  a tolerance of `Eps = 0.00001`.
- **Average volume** (`average_volume.dfy`, from the last part of
  `GetStockCandles`). A rolling pass over one symbol's candles, stored
  newest first. It writes a trailing mean of the volume into every candle.
  The oldest `numDays` candles average over the days that are available.
- **Trade state** (`trading.dfy`, from `TradeState.h`). One `OngoingTrade`
  per symbol, plus win and loss counters. The capital is not stored; it is
  threaded through every call. The sell and buy rules are first written as
  functions over a `Ledger` value. The class `TradeState` then holds the
  same state in fields, and each of its methods is proved to follow its
  function.
- **Merge and run** (`candle_merge.dfy` and `backtesting.dfy`, from
  `Backtest.cpp`).
  - `MergeStockCandles` is a k-way merge of the per-symbol series into
    frames, one frame per timestamp, newest frame first.
  - `Backtest` skips the frames before the start time. It then walks the
    remaining frames from oldest to newest and, for every candle, runs the
    sell step and then the buy step. At the end it settles every open
    position at its buy price.

`criteria.dfy` holds the configuration records of `BacktestCriteria.h`.

Main results:

- **Merge.** The merge emits every input candle exactly once. Each frame
  holds only candles at its own time, named by their input positions. When
  the inputs are newest first, the frame times strictly decrease, so two
  candles share a frame exactly when their times are equal.
- **Trade steps.** A sale credits the shares held times the sell price. If
  the stop loss and the exit gain are both hit, the sale is at the stop
  loss. A buy never spends more than the capital it is given. Without risk
  sizing, a buy leaves less capital than one more share costs. The
  single-position invariant holds before and after every step: a symbol is
  long exactly when it holds shares.
- **Capital conservation.** A buy of a non-negative share count (buy price
  above the stop loss) leaves the capital plus the value of the open
  positions unchanged. A sale changes that sum by the trade's profit.
- **Run.** The loop-based `Backtest` equals `BacktestResult`, a function
  that folds the steps over the frames. Without the Marubozu entry, a
  backtest returns its initial capital. A worked three-day scenario turns
  100000 into 110000.

Behaviours of the code that a reader might not expect, all kept by the
model:

- The LOW stop rule and the exit-gain test are strict (`<` and `>`), not
  `<=` and `>=`.
- The affordability gate is applied whether or not the buy criterion is
  enabled. The stop-loss rule is applied whether or not the stop-loss
  criterion is enabled: neither flag is ever read.
- A buy whose share count is zero still overwrites the entry's buy price
  and stop loss.
- With risk sizing, a buy price below the stop loss gives a risk-wise
  count of zero or less. When it is negative, the entry stays flat and the
  capital grows by the price times the count's magnitude.
- The merged frames come out newest first, and so do the input series. The
  runner walks from the last index, the oldest frame, toward index 0.

## Model

| member | source | states |
|---|---|---|
| Criteria.DefaultCriteria | BacktestCriteria.h:9-11 | a default-constructed configuration has every criterion disabled |
| Candles.DeriveShape | StockCandle.h:66-76 | Red exactly when open > close, so a doji is Green; a positive open gives a non-negative body; equal open and close give a zero body; on a well-formed candle both shadows are non-negative |
| Candles.NewCandle | StockCandle.h:56-77 | the parsed prices are stored as given and the derived colour and body follow them |
| Candles.IsMarubozu | StockCandle.h:79-84 | all four comparisons are strict and widened by Eps, so a candle can qualify only when the minimum body threshold lies below the maximum plus 2 Eps |
| Candles.IsBullishMarubozu | StockCandle.h:86-88 | a bullish Marubozu is a Marubozu that is not Red |
| Candles.IsBearishMarubozu | StockCandle.h:90-92 | a bearish Marubozu is a Marubozu and never a bullish one |
| Candles.ClosedThresholdsQualify | StockCandle.h:79-84 | because of the tolerance, a body exactly at either threshold and shadows exactly at theirs qualify |
| Candles.BodyMaximumEpsilonBoundary | StockCandle.h:79-84 | a body 0.9 Eps above the maximum qualifies; at Eps and at 1.1 Eps above it, it does not |
| Candles.BullishXorBearish | StockCandle.h:86-92 | every Marubozu is exactly one of bullish and bearish |
| Candles.BullishMarubozuDoesNotFall | StockCandle.h:66-88 | a freshly built candle that is a bullish Marubozu opens at or below its close |
| AverageVolume.WindowAverage | GoogleFinanceDataReader.h:49-61 | definition: the oldest numDays candles average over every day from them to the oldest; every other candle over the numDays days ending at it |
| AverageVolume.WindowAverageIsTrailingMean | GoogleFinanceDataReader.h:48-63 | the value written at each index is the mean over min(numDays, days available) days ending there |
| AverageVolume.ConstantVolumeAverage | GoogleFinanceDataReader.h:48-63 | a constant volume is its own average on every day, partial windows included |
| AverageVolume.AverageNonNegative | GoogleFinanceDataReader.h:48-63 | non-negative volumes give non-negative averages |
| AverageVolume.GrowWindow | GoogleFinanceDataReader.h:51-55 | one step of the first loop adds the new day to the running total |
| AverageVolume.SlideWindow | GoogleFinanceDataReader.h:57-60 | one step of the second loop subtracts the day leaving the window and adds the day entering it |
| AverageVolume.SetAverageVolumes | GoogleFinanceDataReader.h:48-63 | the in-place pass leaves every candle as it was, except that the two average fields hold that day's window average |
| AverageVolume.SlideAverageVolumes | GoogleFinanceDataReader.h:57-63 | the sliding loop completes the averages of every candle up to the newest |
| Trading.Trunc | TradeState.h:213-221 | a share count is the quotient truncated toward zero, for either sign |
| Trading.OngoingTrade.IsStopLossBreached | TradeState.h:19-35 | LOW: breached exactly when low < stop + Eps; CLOSE with a positive close: breached exactly when close < stop + Eps or close * 0.998 < stop |
| Trading.Flat | TradeState.h:13-17 | the untouched entry has no open value, and a map holding only it keeps both per-symbol invariants |
| Trading.OngoingTrade.TargetPrice | TradeState.h:37-45 | with a positive buy price and a positive gain the target lies above the buy price; with non-negative ones it is not below it |
| Trading.OngoingTrade.IsExitGainHit | TradeState.h:37-45 | hit only when the exit gain is enabled, and then exactly when high > TargetPrice; with non-negative buy price and gain a hit means the high exceeds the buy price |
| Trading.Sold | TradeState.h:166-181 | only the sold symbol's entry changes: it goes flat with no shares; the capital grows by held * sellPrice; exactly one counter grows, wins exactly when sellPrice > buyPrice; the invariants are kept |
| Trading.SellIfFits | TradeState.h:100-121 | a flat symbol, or one still long afterwards, leaves everything unchanged; at most one sale is counted; only the candle's entry can change; the invariants are kept |
| Trading.StopLossTakesPrecedence | TradeState.h:103-112 | with the stop loss breached, the sale is at the stop loss whether or not the exit gain is also hit |
| Trading.ExitGainSale | TradeState.h:115-120 | without a breach, a hit exit gain sells at buyPrice * (1 + gain), and otherwise the position is kept |
| Trading.ExitGainSaleIsWin | TradeState.h:115-117 | with a positive buy price and gain and no breach, an exit-gain sale counts one win and no loss |
| Trading.GetStopLoss | TradeState.h:184-190 | with the Marubozu entry enabled, the stop loss is the candle's low; with a non-negative low it never lies above the low |
| Trading.VolumeFilterFails | TradeState.h:69-73 | with a threshold of at most 1 and a non-negative average, a candle the filter rejects trades below its average volume |
| Trading.PolicyPrice | TradeState.h:202-208 | the buy price of every policy (CLOSE, HIGH, their mean) lies between close and high when close <= high, and is positive when both are |
| Trading.ReachesBuy | TradeState.h:67-94 | every candle that passes all gates is Green and gets the low as its stop loss |
| Trading.MaxStocks | TradeState.h:213-214 | capital that reaches a positive price affords at least one share; capital below the price affords none |
| Trading.RiskWiseStocks | TradeState.h:215-217 | with a non-negative risk budget, the risk-wise count is non-negative when the price is above the stop loss and non-positive when below it |
| Trading.AffordableShares | TradeState.h:76-85 | capital that reaches a positive price buys at least one share and keeps less than one more share costs |
| Trading.NoOverdraft | TradeState.h:213-228 | no share count up to the affordable maximum costs more than the capital |
| Trading.SharesToBuy | TradeState.h:212-222 | the count is capped at what the capital pays for; without risk sizing it is that maximum, with risk sizing the smaller of the risk-wise count and the maximum |
| Trading.Bought | TradeState.h:197-229 | only the bought symbol's entry changes: buy price from the policy, stop loss from GetStopLoss, shares from SharesToBuy; it goes long exactly when shares > 0; the capital drops by price * shares; the counters are unchanged |
| Trading.BuyIfFits | TradeState.h:65-98 | if any gate fails (already long, volume filter, affordability, Marubozu disabled, not a bullish Marubozu) nothing changes; if all pass the result is Bought |
| Trading.FullCapitalBuy | TradeState.h:220-228 | without risk sizing, a buy at a positive price goes long with the full affordable count, at least one share, and leaves capital between 0 and one share's price |
| Trading.BuyNeverOverdraws | TradeState.h:212-228 | at a positive price, a buy leaves non-negative capital, with or without risk sizing |
| Trading.RiskSizedBuy | TradeState.h:210-226 | with risk sizing, the stop is the low and the count is min(risk-wise, affordable); it goes long exactly when the count is positive; a zero count leaves the capital unchanged |
| Trading.RiskSizedBuyBelowStop | TradeState.h:210-228 | with risk sizing and a buy price below the candle's low, the count is at most zero, the symbol stays flat and the capital does not decrease |
| Trading.TradeValue | TradeState.h:124-128 | a flat entry contributes nothing to the final capital |
| Trading.OpenValue | TradeState.h:123-131 | when every entry has a non-negative value, so does their sum |
| Trading.BoughtEntryValue | TradeState.h:124-128 | an entry that holds a non-negative count and is long exactly when it holds shares is worth its purchase cost |
| Trading.FlatTradesHaveNoOpenValue | TradeState.h:123-131 | when every symbol is flat, settlement adds nothing |
| Trading.SaleBookValue | TradeState.h:166-181 | a sale changes capital plus open value by held * (sellPrice - buyPrice) |
| Trading.PurchaseKeepsBookValue | TradeState.h:197-229 | a buy of a non-negative count leaves capital plus open value unchanged |
| Trading.Dedup | TradeState.h:60-62 | the visiting order holds each inserted symbol exactly once |
| Trading.FreshTrades | TradeState.h:13-17 | one flat entry, keyed by its own symbol, for each symbol of the universe |
| Trading.FreshTradesExtend | TradeState.h:60-62 | inserting a symbol adds its flat entry, and a repeated insertion changes nothing |
| Trading.DedupExtend | TradeState.h:60-62 | one symbol more is appended to the visiting order unless it was already seen |
| Trading.InsertStep | TradeState.h:60-62 | one insertion, with or without the symbol already present, keeps the map and the order equal to FreshTrades and Dedup of the prefix |
| Trading.InsertFlat | TradeState.h:60-62 | the insertion loop builds exactly FreshTrades(universe) and Dedup(universe) |
| Trading.TradeState.constructor | TradeState.h:56-63 | the map holds FreshTrades(universe), the visiting order is Dedup(universe), the counters are zero, and the invariant holds |
| Trading.TradeState.GetWins | TradeState.h:157-159 | the win count is non-negative |
| Trading.TradeState.GetLosses | TradeState.h:161-163 | the loss count is non-negative |
| Trading.TradeState.Sell | TradeState.h:166-181 | the fields and the return value are those of Sold; the invariant is kept |
| Trading.TradeState.SellIfFitsCriteria | TradeState.h:100-121 | the fields and the return value are those of SellIfFits |
| Trading.TradeState.Buy | TradeState.h:197-229 | the fields and the return value are those of Bought |
| Trading.TradeState.BuyIfFitsCriteria | TradeState.h:65-98 | the fields and the return value are those of BuyIfFits |
| Trading.TradeState.GetFinalCapital | TradeState.h:123-131 | the result is the capital plus shares * buy price over every open position |
| CandleMerge.Reversed | Backtest.cpp:116 | same length, element k taken from position n-1-k |
| CandleMerge.Reverse | Backtest.cpp:116 | the swap loop computes Reversed |
| CandleMerge.FirstLive | Backtest.cpp:75-85 | -1 exactly when every cursor is exhausted, otherwise the first live cursor |
| CandleMerge.MinimumTime | Backtest.cpp:87-97 | the earliest time under a live cursor, attained by some series |
| CandleMerge.CollectFrame | Backtest.cpp:99-113 | in series order, takes every cursor candle at the minimum time and moves exactly those cursors by one |
| CandleMerge.OldestCursors | Backtest.cpp:69-72 | one cursor per series, on its last (oldest) index, -1 for an empty series |
| CandleMerge.RemainingInitial | Backtest.cpp:69-72 | cursors on each series' last index leave every candle still to merge |
| CandleMerge.MergeStart | Backtest.cpp:69-72 | those cursors, with nothing emitted, satisfy the merge's loop invariant |
| CandleMerge.NewFrame | Backtest.cpp:99-113 | the frame of a round is non-empty, lists each series at most once, and holds candles at its time |
| CandleMerge.OffsetsKeepDecreasing | Backtest.cpp:103-113 | within a series, later frames take strictly smaller indexes |
| CandleMerge.CoverageStep | Backtest.cpp:103-113 | every candle a cursor has passed appears in some frame |
| CandleMerge.OrderStep | Backtest.cpp:87-113 | with newest-first inputs, frames are emitted at strictly increasing times, each earlier than every candle still under a cursor |
| CandleMerge.MergeStep | Backtest.cpp:74-114 | one round keeps the merge's loop invariant |
| CandleMerge.EmitFrames | Backtest.cpp:74-114 | the rounds end with every cursor exhausted and the loop invariant intact |
| CandleMerge.MergeStockCandles | Backtest.cpp:66-118 | every frame is well formed and traced to its inputs; no input position is used twice; every input candle is used; the frames hold as many candles as the inputs; newest-first inputs give strictly decreasing frame times |
| CandleMerge.MergeDone | Backtest.cpp:114-117 | after the last round, the reversed frames have every property of the merge's result, descending times included |
| CandleMerge.UniqueFromOrder | Backtest.cpp:103-111 | strict series order within a frame and decreasing indexes across frames mean no position is named twice |
| CandleMerge.FramesReversed | Backtest.cpp:116 | read backwards, frame f is the emitted frame n-1-f and keeps its trace to the inputs |
| CandleMerge.TimesReversed | Backtest.cpp:116 | strictly increasing emission times become strictly decreasing times in the result |
| CandleMerge.TotalSizeReversed | Backtest.cpp:116 | reversing keeps the number of candles |
| CandleMerge.SameTimeSameFrame | Backtest.cpp:99-116 | in frames that are Descending (strictly decreasing times), two candles share a frame exactly when their times are equal |
| Backtesting.StartIndex | Backtest.cpp:26-36 | the start index is -1 or a frame at or after the start, and every frame above it is earlier than the start |
| Backtesting.StartIndexUnique | Backtest.cpp:26-36 | those two properties determine the start index |
| Backtesting.FindStart | Backtest.cpp:26-36 | the skipping loop stops at StartIndex |
| Backtesting.VisitedFramesAreAfterStart | Backtest.cpp:26-52 | with descending frames, every frame the run visits is at or after the start |
| Backtesting.ProcessCandle | Backtest.cpp:46-49 | sell then buy: the symbols and the invariants are kept, and the counters never decrease |
| Backtesting.ProcessFrame | Backtest.cpp:46-49 | the frame's candles in order keep the symbols and the invariants |
| Backtesting.Run | Backtest.cpp:38-52 | frames from index down to 0 keep the symbols and the invariants |
| Backtesting.Initial | Backtest.cpp:38 | the fresh state is flat, sound, and has an entry for exactly the universe's symbols |
| Backtesting.TradeFrame | Backtest.cpp:46-49 | the inner loop leaves the object in ProcessFrame of its state on entry, invariant kept |
| Backtesting.BacktestResult | Backtest.cpp:38-55 | definition: the run from StartIndex over the fresh state, plus every open position at its buy price |
| Backtesting.Backtest | Backtest.cpp:16-64 | the loops return BacktestResult: the run from StartIndex settled at buy prices |
| Backtesting.NoStartFrameKeepsCapital | Backtest.cpp:26-55 | with no frame at or after the start, the result is the initial capital |
| Backtesting.NoEntryCandle | TradeState.h:87-97 | without the Marubozu entry, a candle leaves a flat state unchanged |
| Backtesting.NoEntryRun | Backtest.cpp:38-52 | without the Marubozu entry, a run leaves a flat state unchanged |
| Backtesting.NoEntryKeepsCapital | Backtest.cpp:38-55 | without the Marubozu entry, a backtest returns its initial capital |
| Backtesting.SafeBacktestDefined | Backtest.cpp:38-52 | candles whose symbols are registered, whose close is non-zero under the CLOSE stop rule, and whose buy divisions are defined make every step of the run defined |
| Backtesting.DayOneBuys | Backtest.cpp:46-49 | a bullish Marubozu closing at 100 with 100000 capital buys 1000 shares and leaves 0 |
| Backtesting.DayTwoSells | Backtest.cpp:46-49 | a high of 111 against a target of 110 sells the 1000 shares at 110 for a win |
| Backtesting.ScenarioRun | Backtest.cpp:26-52 | the three-day run starts at day 1 and ends flat with one win, no loss and 110000 |
| Backtesting.ThreeDayScenario | Backtest.cpp:16-64 | the three-day backtest returns 110000 |

## Left out

- Reading the CSV files and parsing their fields, `strptime` and `mktime`
  are not modelled. A candle's time is an integer count of seconds, and the
  start time is given as an integer.
- The CAGR computation, every console print, `operator<<` and `main` are
  left out. This includes the log lines printed when the stop loss and the
  exit gain fire together. None of them affects the returned capital.
- `Constants.h` is not part of this model. The fixed symbol list becomes
  the `universe` parameter of the `TradeState` constructor.
- `double` arithmetic is modelled with exact reals, so rounding is not
  modelled.
- Trading.Trunc: does not model the overflow of a share count beyond the
  range of `int`, because the reals are unbounded.
- Trading.TradeState.GetWins: the source's counters are `double` and are
  converted to `int`. The model keeps them as `int`; they only ever hold
  whole numbers.
- Trading.TradeState.GetLosses: the same as GetWins.
- Trading.TradeState.GetFinalCapital: visits the symbols in their first
  insertion order, not the lexicographic order of `std::map`. Over exact
  reals the sum does not depend on the order.
- CandleMerge.Reverse: models `std::reverse` on a sequence value, not on a
  vector in place.
- CandleMerge.MergeStockCandles: the `indexes` vector is a sequence value.
  The frame's time is an integer, not a `tm` record.
- AverageVolume.SetAverageVolumes: requires `numDays >= 1`. With zero, the
  source divides zero by zero. With a negative value, it reads outside the
  vector.
- AverageVolume.SetAverageVolumes: the source's single function is split
  into two methods, one per loop. The second is
  AverageVolume.SlideAverageVolumes.
- Candles.DeriveShape: requires a non-zero open and close, because each
  branch divides by both. The source would produce infinities or NaN
  instead.
- Candles.NewCandle: the same precondition as DeriveShape.
- Trading.OngoingTrade.IsStopLossBreached: requires that the CLOSE rule's
  division by the close is defined. It states the 0.2% rule only for a
  positive close.
- Trading.BuyIfFits: requires a non-zero buy price whenever every gate
  passes. With risk sizing, it also requires a buy price that differs from
  the stop loss. The source converts the resulting infinite quotient to
  `int`, which is undefined behaviour.
- Trading.SellIfFits: requires the candle's symbol to have an entry. The
  source dereferences the end iterator otherwise.
- Backtesting.Backtest: requires every step of the run to be defined, as
  above. Backtesting.SafeBacktestDefined gives a condition on the candles
  alone that ensures this.
- The fields of an `OngoingTrade` that the source leaves uninitialised
  (buy price and stop loss) start at 0.0 in the model.
- The sell-volume criterion is never read by the engine, so it is carried
  in the configuration but has no effect.
