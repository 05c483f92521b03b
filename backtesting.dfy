/** The run loop: find the first frame at or after the start time, counting
    from the oldest frame, then walk toward the newest frame and, for every
    candle of every frame, try a sell and then a buy, threading the capital
    through both; finally settle every open position at its buy price. */
module Backtesting {
  import opened Criteria
  import opened Candles
  import opened Trading
  import opened CandleMerge

  /** The largest index whose frame is at or after `startTime`, or -1. */
  function StartIndex(frames: seq<Frame>, startTime: int): (k: int)
    ensures -1 <= k < |frames|
    ensures k >= 0 ==> frames[k].time >= startTime
    ensures forall i :: k < i < |frames| ==> frames[i].time < startTime
    decreases |frames|
  {
    if frames == [] then -1
    else if frames[|frames| - 1].time >= startTime then |frames| - 1
    else StartIndex(frames[..|frames| - 1], startTime)
  }

  /** The two properties of StartIndex determine it. */
  lemma StartIndexUnique(frames: seq<Frame>, startTime: int, k: int)
    requires -1 <= k < |frames|
    requires k >= 0 ==> frames[k].time >= startTime
    requires forall i :: k < i < |frames| ==> frames[i].time < startTime
    ensures k == StartIndex(frames, startTime)
  {
  }

  /** With descending frames every frame the run visits is at or after the
      start time. */
  lemma VisitedFramesAreAfterStart(frames: seq<Frame>, startTime: int)
    requires Descending(frames)
    ensures forall i :: 0 <= i <= StartIndex(frames, startTime) ==> frames[i].time >= startTime
  {
    var k := StartIndex(frames, startTime);
    forall i | 0 <= i <= k ensures frames[i].time >= startTime {
      if i < k {
        assert frames[i].time > frames[k].time;
      }
    }
  }

  ////// The run, as functions of the state

  /** The divisions of both steps on `candle` are defined in state `st`,
      and the candle's symbol has an entry. */
  predicate CandleDefined(st: Step, candle: StockCandle, criteria: BacktestCriteria)
  {
    && candle.symbol in st.ledger.trades
    && (st.ledger.trades[candle.symbol].tradeOngoing ==> st.ledger.trades[candle.symbol].StopLossDefined(candle, criteria))
    && var s1 := SellIfFits(st.ledger, candle, st.capital, criteria);
       ReachesBuy(s1.ledger.trades[candle.symbol], candle, s1.capital, criteria) ==> BuyDefined(candle, criteria)
  }

  /** The invariants the trade state keeps. */
  predicate Sound(st: Step)
  {
    KeyedBySymbol(st.ledger.trades) && OngoingIffHeld(st.ledger.trades) && st.ledger.wins >= 0 && st.ledger.losses >= 0
  }

  /** One candle: the sell step, then the buy step on what it left. */
  function ProcessCandle(st: Step, candle: StockCandle, criteria: BacktestCriteria): (r: Step)
    requires CandleDefined(st, candle, criteria)
    ensures r.ledger.trades.Keys == st.ledger.trades.Keys
    ensures Sound(st) ==> Sound(r)
    ensures r.ledger.wins >= st.ledger.wins && r.ledger.losses >= st.ledger.losses
  {
    var s1 := SellIfFits(st.ledger, candle, st.capital, criteria);
    BuyIfFits(s1.ledger, candle, s1.capital, criteria)
  }

  predicate FrameDefined(st: Step, candles: seq<StockCandle>, criteria: BacktestCriteria)
    decreases |candles|
  {
    candles != [] ==>
      CandleDefined(st, candles[0], criteria)
      && FrameDefined(ProcessCandle(st, candles[0], criteria), candles[1..], criteria)
  }

  /** The candles of one frame, in frame order. */
  function ProcessFrame(st: Step, candles: seq<StockCandle>, criteria: BacktestCriteria): (r: Step)
    requires FrameDefined(st, candles, criteria)
    ensures r.ledger.trades.Keys == st.ledger.trades.Keys
    ensures Sound(st) ==> Sound(r)
    decreases |candles|
  {
    if candles == [] then st
    else ProcessFrame(ProcessCandle(st, candles[0], criteria), candles[1..], criteria)
  }

  predicate RunDefined(st: Step, frames: seq<Frame>, index: int, criteria: BacktestCriteria)
    requires -1 <= index < |frames|
    decreases index + 1
  {
    index >= 0 ==>
      FrameDefined(st, frames[index].candles, criteria)
      && RunDefined(ProcessFrame(st, frames[index].candles, criteria), frames, index - 1, criteria)
  }

  /** Frames `index`, `index - 1`, ..., 0, in that order. */
  function Run(st: Step, frames: seq<Frame>, index: int, criteria: BacktestCriteria): (r: Step)
    requires -1 <= index < |frames| && RunDefined(st, frames, index, criteria)
    ensures r.ledger.trades.Keys == st.ledger.trades.Keys
    ensures Sound(st) ==> Sound(r)
    decreases index + 1
  {
    if index < 0 then st
    else Run(ProcessFrame(st, frames[index].candles, criteria), frames, index - 1, criteria)
  }

  /** A fresh trade state with the starting capital. */
  function Initial(universe: seq<string>, capital: real): (st: Step)
    ensures Sound(st) && AllFlat(st.ledger.trades)
    ensures forall s :: s in st.ledger.trades <==> s in universe
  {
    Step(Ledger(FreshTrades(universe), 0, 0), capital)
  }

  /** The final capital of a backtest: the capital left after the run plus
      every open position at its buy price. */
  function BacktestResult(frames: seq<Frame>, startTime: int, capital: real, criteria: BacktestCriteria,
                          universe: seq<string>): real
    requires RunDefined(Initial(universe, capital), frames, StartIndex(frames, startTime), criteria)
  {
    var final := Run(Initial(universe, capital), frames, StartIndex(frames, startTime), criteria);
    final.capital + OpenValue(final.ledger.trades, Dedup(universe))
  }

  ////// The run as a loop over a TradeState

  /** Skip the frames before the start, oldest first: the index of the
      oldest frame at or after `startTime`, or -1. */
  method FindStart(frames: seq<Frame>, startTime: int) returns (index: int)
    ensures index == StartIndex(frames, startTime)
  {
    index := |frames| - 1;
    while index >= 0
      invariant -1 <= index < |frames|
      invariant forall i :: index < i < |frames| ==> frames[i].time < startTime
    {
      if frames[index].time >= startTime {
        break;
      }
      index := index - 1;
    }
    StartIndexUnique(frames, startTime, index);
  }

  method Backtest(frames: seq<Frame>, startTime: int, capital: real, criteria: BacktestCriteria,
                  universe: seq<string>) returns (r: real)
    requires RunDefined(Initial(universe, capital), frames, StartIndex(frames, startTime), criteria)
    ensures r == BacktestResult(frames, startTime, capital, criteria, universe)
  {
    var index := FindStart(frames, startTime);
    ghost var first := index;

    var state := new TradeState(universe);
    var c := capital;
    while index >= 0
      invariant -1 <= index <= first
      invariant state.Valid() && state.symbols == Dedup(universe)
      invariant RunDefined(Step(state.State(), c), frames, index, criteria)
      invariant Run(Step(state.State(), c), frames, index, criteria) == Run(Initial(universe, capital), frames, first, criteria)
    {
      c := TradeFrame(state, frames[index].candles, c, criteria);
      index := index - 1;
    }
    r := state.GetFinalCapital(c);
  }

  /** The inner loop of the backtest: each candle of one frame, in frame
      order, first offered for sale and then for purchase. */
  method TradeFrame(state: TradeState, candles: seq<StockCandle>, capital: real, criteria: BacktestCriteria)
    returns (c: real)
    requires state.Valid() && FrameDefined(Step(state.State(), capital), candles, criteria)
    modifies state
    ensures state.Valid()
    ensures Step(state.State(), c) == ProcessFrame(old(Step(state.State(), capital)), candles, criteria)
  {
    c := capital;
    ghost var before := Step(state.State(), c);
    for j := 0 to |candles|
      invariant state.Valid()
      invariant FrameDefined(Step(state.State(), c), candles[j..], criteria)
      invariant ProcessFrame(Step(state.State(), c), candles[j..], criteria) == ProcessFrame(before, candles, criteria)
    {
      var candle := candles[j];
      ghost var here := Step(state.State(), c);
      assert candles[j..][1..] == candles[j + 1..];
      c := state.SellIfFitsCriteria(candle, c, criteria);
      c := state.BuyIfFitsCriteria(candle, c, criteria);
      assert Step(state.State(), c) == ProcessCandle(here, candle, criteria);
    }
    assert candles[|candles|..] == [];
  }


  ////// Properties of the run

  /** With no frame at or after the start the fresh state is settled at
      once: the result is the initial capital. */
  lemma NoStartFrameKeepsCapital(frames: seq<Frame>, startTime: int, capital: real, criteria: BacktestCriteria,
                                 universe: seq<string>)
    requires forall i :: 0 <= i < |frames| ==> frames[i].time < startTime
    ensures RunDefined(Initial(universe, capital), frames, StartIndex(frames, startTime), criteria)
    ensures BacktestResult(frames, startTime, capital, criteria, universe) == capital
  {
    StartIndexUnique(frames, startTime, -1);
    FlatTradesHaveNoOpenValue(FreshTrades(universe), Dedup(universe));
  }

  /** Without the Marubozu entry nothing is ever bought, so a candle leaves
      a flat state as it is. */
  lemma NoEntryCandle(st: Step, candle: StockCandle, criteria: BacktestCriteria)
    requires !criteria.marubozuCriteria.enabled && AllFlat(st.ledger.trades)
    requires CandleDefined(st, candle, criteria)
    ensures ProcessCandle(st, candle, criteria) == st
  {
  }

  lemma {:induction false} NoEntryFrame(st: Step, candles: seq<StockCandle>, criteria: BacktestCriteria)
    requires !criteria.marubozuCriteria.enabled && AllFlat(st.ledger.trades)
    requires FrameDefined(st, candles, criteria)
    ensures ProcessFrame(st, candles, criteria) == st
    decreases |candles|
  {
    if candles != [] {
      NoEntryCandle(st, candles[0], criteria);
      NoEntryFrame(st, candles[1..], criteria);
    }
  }

  lemma {:induction false} NoEntryRun(st: Step, frames: seq<Frame>, index: int, criteria: BacktestCriteria)
    requires !criteria.marubozuCriteria.enabled && AllFlat(st.ledger.trades)
    requires -1 <= index < |frames| && RunDefined(st, frames, index, criteria)
    ensures Run(st, frames, index, criteria) == st
    decreases index + 1
  {
    if index >= 0 {
      NoEntryFrame(st, frames[index].candles, criteria);
      NoEntryRun(st, frames, index - 1, criteria);
    }
  }

  /** Buying is reachable only through the Marubozu entry: without it a
      backtest ends with exactly its initial capital. */
  lemma NoEntryKeepsCapital(frames: seq<Frame>, startTime: int, capital: real, criteria: BacktestCriteria,
                            universe: seq<string>)
    requires !criteria.marubozuCriteria.enabled
    requires RunDefined(Initial(universe, capital), frames, StartIndex(frames, startTime), criteria)
    ensures BacktestResult(frames, startTime, capital, criteria, universe) == capital
  {
    NoEntryRun(Initial(universe, capital), frames, StartIndex(frames, startTime), criteria);
    FlatTradesHaveNoOpenValue(FreshTrades(universe), Dedup(universe));
  }

  ////// A state-independent condition for a defined run

  /** Per-candle conditions that make every division of the run defined,
      whatever the state: the symbol is in the universe, the CLOSE stop
      rule never divides by a zero close, and a candle that can be bought
      has a non-zero price that differs from its stop loss. */
  predicate CandleSafe(candle: StockCandle, criteria: BacktestCriteria, universe: seq<string>)
  {
    && candle.symbol in universe
    && (criteria.stopLossCriteria.kind.Close? ==> candle.close != 0.0)
    && (criteria.marubozuCriteria.enabled && IsBullishMarubozu(candle, criteria.marubozuCriteria) ==> BuyDefined(candle, criteria))
  }

  predicate FramesSafe(frames: seq<Frame>, criteria: BacktestCriteria, universe: seq<string>)
  {
    forall f, j :: 0 <= f < |frames| && 0 <= j < |frames[f].candles| ==> CandleSafe(frames[f].candles[j], criteria, universe)
  }

  lemma {:induction false} SafeFrameDefined(st: Step, candles: seq<StockCandle>, criteria: BacktestCriteria, universe: seq<string>)
    requires forall s :: s in universe ==> s in st.ledger.trades
    requires forall j :: 0 <= j < |candles| ==> CandleSafe(candles[j], criteria, universe)
    ensures FrameDefined(st, candles, criteria)
    decreases |candles|
  {
    if candles != [] {
      assert CandleSafe(candles[0], criteria, universe);
      assert CandleDefined(st, candles[0], criteria);
      SafeFrameDefined(ProcessCandle(st, candles[0], criteria), candles[1..], criteria, universe);
    }
  }

  lemma {:induction false} SafeRunDefined(st: Step, frames: seq<Frame>, index: int, criteria: BacktestCriteria,
                                          universe: seq<string>)
    requires forall s :: s in universe ==> s in st.ledger.trades
    requires -1 <= index < |frames| && FramesSafe(frames, criteria, universe)
    ensures RunDefined(st, frames, index, criteria)
    decreases index + 1
  {
    if index >= 0 {
      SafeFrameDefined(st, frames[index].candles, criteria, universe);
      SafeRunDefined(ProcessFrame(st, frames[index].candles, criteria), frames, index - 1, criteria, universe);
    }
  }

  /** Safe candles make the whole backtest defined, whatever the start. */
  lemma SafeBacktestDefined(frames: seq<Frame>, startTime: int, capital: real, criteria: BacktestCriteria,
                            universe: seq<string>)
    requires FramesSafe(frames, criteria, universe)
    ensures RunDefined(Initial(universe, capital), frames, StartIndex(frames, startTime), criteria)
  {
    SafeRunDefined(Initial(universe, capital), frames, StartIndex(frames, startTime), criteria, universe);
  }

  ////// A worked scenario

  /** Buy at the close, enter on a bullish Marubozu, stop at its low, take
      a 10% gain; no volume filter, no risk sizing. */
  function ScenarioCriteria(): BacktestCriteria
  {
    BacktestCriteria(
      BuyCriteria(true, BuyCriteriaEnum.Close),
      MarubozuCriteria(true, 0.01, 0.1, 0.003, 0.003),
      StoplossCriteria(true, StoplossType.Low),
      ExitGainCriteria(true, 0.10),
      VolumeCriteria(false, 10, 1.0),
      VolumeCriteria(false, 10, 1.0),
      RiskCriteria(false, 0.075))
  }

  /** Day 1: opens at 95 (its low) and closes at 100 (its high). */
  function DayOne(): StockCandle { NewCandle("S", 1, 95.0, 100.0, 95.0, 100.0, 1.0) }

  /** Day 2: red, low 100, high 111. */
  function DayTwo(): StockCandle { NewCandle("S", 2, 105.0, 111.0, 100.0, 104.0, 1.0) }

  /** Day 3: red. */
  function DayThree(): StockCandle { NewCandle("S", 3, 105.0, 106.0, 104.0, 104.0, 1.0) }

  function ScenarioFrames(): seq<Frame>
  {
    [Frame(3, [DayThree()]), Frame(2, [DayTwo()]), Frame(1, [DayOne()])]
  }

  /** The position held after day 1. */
  function Long(): OngoingTrade { OngoingTrade("S", true, 1000, 100.0, 95.0) }

  /** Day 1 buys 1000 shares at 100 with a stop at 95 and spends the whole
      capital. */
  lemma DayOneBuys()
    ensures var st := Initial(["S"], 100000.0);
              FrameDefined(st, [DayOne()], ScenarioCriteria())
              && ProcessFrame(st, [DayOne()], ScenarioCriteria()) == Step(Ledger(map["S" := Long()], 0, 0), 0.0)
  {
    var c, criteria := DayOne(), ScenarioCriteria();
    var st := Initial(["S"], 100000.0);
    assert st.ledger.trades == map["S" := Flat("S")];
    assert c.colour == Green && c.body == 5.0 / 95.0 && c.lowerShadow == 0.0 && c.upperShadow == 0.0;
    assert IsBullishMarubozu(c, criteria.marubozuCriteria);
    assert MaxStocks(100000.0, 100.0) == 1000;
    assert SellIfFits(st.ledger, c, st.capital, criteria) == st;
    assert Bought(st.ledger, c, st.capital, criteria) == Step(Ledger(map["S" := Long()], 0, 0), 0.0);
  }

  /** Day 2 passes the target of 110 without touching the stop: the 1000
      shares are sold at 110, a win, and nothing is bought back. */
  lemma DayTwoSells()
    ensures var st := Step(Ledger(map["S" := Long()], 0, 0), 0.0);
              FrameDefined(st, [DayTwo()], ScenarioCriteria())
              && ProcessFrame(st, [DayTwo()], ScenarioCriteria())
                 == Step(Ledger(map["S" := Long().(tradeOngoing := false, stocksHeld := 0)], 1, 0), 110000.0)
  {
    var c, criteria := DayTwo(), ScenarioCriteria();
    var st := Step(Ledger(map["S" := Long()], 0, 0), 0.0);
    assert c.colour == Red && c.low == 100.0 && c.high == 111.0;
    assert !Long().IsStopLossBreached(c, criteria);
    assert Long().TargetPrice(criteria) == 110.0;
    assert SellIfFits(st.ledger, c, st.capital, criteria)
        == Sold(st.ledger, st.capital, 110.0, "S");
  }

  /** Day 3 is red: a flat symbol stays flat. */
  lemma DayThreeIdles(st: Step)
    requires "S" in st.ledger.trades && !st.ledger.trades["S"].tradeOngoing
    ensures FrameDefined(st, [DayThree()], ScenarioCriteria())
    ensures ProcessFrame(st, [DayThree()], ScenarioCriteria()) == st
  {
    assert DayThree().colour == Red;
  }

  /** The state after day 2: flat again with one win and 110000. */
  function AfterSale(): Step
  {
    Step(Ledger(map["S" := Long().(tradeOngoing := false, stocksHeld := 0)], 1, 0), 110000.0)
  }

  /** The run starts at frame 2 (day 1), and frames 2, 1 and 0 in turn take
      the fresh state to AfterSale(): one win, no loss, 110000. */
  lemma ScenarioRun()
    ensures StartIndex(ScenarioFrames(), 1) == 2
    ensures RunDefined(Initial(["S"], 100000.0), ScenarioFrames(), 2, ScenarioCriteria())
    ensures Run(Initial(["S"], 100000.0), ScenarioFrames(), 2, ScenarioCriteria()) == AfterSale()
  {
    var frames, criteria := ScenarioFrames(), ScenarioCriteria();
    StartIndexUnique(frames, 1, 2);
    DayOneBuys();
    DayTwoSells();
    DayThreeIdles(AfterSale());
    var s1 := Step(Ledger(map["S" := Long()], 0, 0), 0.0);
    assert frames[2].candles == [DayOne()] && frames[1].candles == [DayTwo()] && frames[0].candles == [DayThree()];
    assert RunDefined(AfterSale(), frames, 0, criteria) && Run(AfterSale(), frames, 0, criteria) == AfterSale();
    assert RunDefined(s1, frames, 1, criteria) && Run(s1, frames, 1, criteria) == AfterSale();
  }

  /** Settling AfterSale() adds nothing: no position is open. */
  lemma AfterSaleSettles()
    ensures forall i :: 0 <= i < |Dedup(["S"])| ==> Dedup(["S"])[i] in AfterSale().ledger.trades
    ensures OpenValue(AfterSale().ledger.trades, Dedup(["S"])) == 0.0
  {
    assert AllFlat(AfterSale().ledger.trades);
    FlatTradesHaveNoOpenValue(AfterSale().ledger.trades, Dedup(["S"]));
  }

  /** The whole run: 100000 becomes 110000. */
  lemma ThreeDayScenario()
    ensures RunDefined(Initial(["S"], 100000.0), ScenarioFrames(), StartIndex(ScenarioFrames(), 1), ScenarioCriteria())
    ensures BacktestResult(ScenarioFrames(), 1, 100000.0, ScenarioCriteria(), ["S"]) == 110000.0
  {
    ScenarioRun();
    AfterSaleSettles();
  }
}
