/** The per-symbol trade state machine of a long-only strategy. Capital is
    not stored: every step takes the capital available and returns the capital
    left, the single pool that funds every position.

    The rules are first given as functions over a `Ledger` value (the map of
    trades and the win and loss counters); the class `TradeState` then holds
    that state in fields and its methods are proved to follow the functions. */
module Trading {
  import opened Criteria
  import opened Candles

  /** A price quotient converted to a whole number of shares: truncation
      toward zero, for either sign. */
  function Trunc(x: real): (n: int)
    ensures 0.0 <= x ==> 0 <= n && n as real <= x < n as real + 1.0
    ensures x < 0.0 ==> n <= 0 && n as real - 1.0 < x <= n as real
  {
    if x >= 0.0 then x.Floor else -((-x).Floor)
  }

  /** The position in one symbol. While the trade is not ongoing, buyPrice and
      stopLoss keep the values of the last buy attempt. */
  datatype OngoingTrade = OngoingTrade(
    symbol: string,
    tradeOngoing: bool,
    stocksHeld: int,
    buyPrice: real,
    stopLoss: real)
  {
    /** The CLOSE rule divides by the close only when the close is not
        already below the stop loss; that division must be defined. */
    predicate StopLossDefined(candle: StockCandle, criteria: BacktestCriteria)
    {
      criteria.stopLossCriteria.kind.Close? && !(candle.close < stopLoss + Eps) ==> candle.close != 0.0
    }

    /** LOW: the day's low went below the stop loss (with tolerance). CLOSE:
        the close went below it, or closed within 0.2% above it. */
    function IsStopLossBreached(candle: StockCandle, criteria: BacktestCriteria): (b: bool)
      requires StopLossDefined(candle, criteria)
      ensures criteria.stopLossCriteria.kind.Low? ==> (b <==> candle.low < stopLoss + Eps)
      ensures criteria.stopLossCriteria.kind.Close? && candle.close > 0.0 ==>
                (b <==> candle.close < stopLoss + Eps || candle.close * 0.998 < stopLoss)
    {
      match criteria.stopLossCriteria.kind
      case Low => candle.low < stopLoss + Eps
      case Close =>
        if candle.close < stopLoss + Eps then true
        else
          QuotientLess(candle.close - stopLoss, candle.close, 0.002);
          (candle.close - stopLoss) / candle.close < 0.002
    }

    /** The price at which the exit gain is taken. */
    function TargetPrice(criteria: BacktestCriteria): (p: real)
      ensures buyPrice > 0.0 && criteria.exitGainCriteria.gainPercentage > 0.0 ==> p > buyPrice
      ensures buyPrice >= 0.0 && criteria.exitGainCriteria.gainPercentage >= 0.0 ==> p >= buyPrice
    {
      buyPrice * (1.0 + criteria.exitGainCriteria.gainPercentage)
    }

    function IsExitGainHit(candle: StockCandle, criteria: BacktestCriteria): (b: bool)
      ensures b ==> criteria.exitGainCriteria.enabled
      ensures b <==> criteria.exitGainCriteria.enabled && candle.high > TargetPrice(criteria)
      ensures b && buyPrice >= 0.0 && criteria.exitGainCriteria.gainPercentage >= 0.0 ==> candle.high > buyPrice
    {
      if criteria.exitGainCriteria.enabled then candle.high > TargetPrice(criteria) else false
    }
  }

  /** The untouched entry of a symbol. */
  function Flat(symbol: string): (t: OngoingTrade)
    ensures TradeValue(t) == 0.0
    ensures OngoingIffHeld(map[symbol := t]) && KeyedBySymbol(map[symbol := t])
  {
    OngoingTrade(symbol, false, 0, 0.0, 0.0)
  }

  /** The state machine's state: one trade per symbol and the two counters. */
  datatype Ledger = Ledger(trades: map<string, OngoingTrade>, wins: int, losses: int)

  /** The state after a step and the capital it returns. */
  datatype Step = Step(ledger: Ledger, capital: real)

  /** The single-position invariant: a symbol is long exactly when shares are held. */
  predicate OngoingIffHeld(trades: map<string, OngoingTrade>)
  {
    forall s :: s in trades ==> (trades[s].tradeOngoing <==> trades[s].stocksHeld > 0)
  }

  predicate KeyedBySymbol(trades: map<string, OngoingTrade>)
  {
    forall s :: s in trades ==> trades[s].symbol == s
  }

  predicate AllFlat(trades: map<string, OngoingTrade>)
  {
    forall s :: s in trades ==> !trades[s].tradeOngoing
  }

  /** `after` differs from `before` at most in the entry of `symbol`. */
  predicate OnlyEntryChanged(before: map<string, OngoingTrade>, after: map<string, OngoingTrade>, symbol: string)
  {
    && after.Keys == before.Keys
    && forall s :: s in before && s != symbol ==> after[s] == before[s]
  }

  ////// Selling

  /** Closing the position of `symbol` at `sellPrice`. */
  function Sold(l: Ledger, capital: real, sellPrice: real, symbol: string): (r: Step)
    requires symbol in l.trades
    ensures OnlyEntryChanged(l.trades, r.ledger.trades, symbol)
    ensures var t, t' := l.trades[symbol], r.ledger.trades[symbol];
              && !t'.tradeOngoing && t'.stocksHeld == 0
              && t'.symbol == t.symbol && t'.buyPrice == t.buyPrice && t'.stopLoss == t.stopLoss
    ensures r.capital == capital + l.trades[symbol].stocksHeld as real * sellPrice
    ensures r.ledger.wins + r.ledger.losses == l.wins + l.losses + 1
    ensures r.ledger.wins >= l.wins && r.ledger.losses >= l.losses
    ensures r.ledger.wins == l.wins + 1 <==> sellPrice > l.trades[symbol].buyPrice
    ensures OngoingIffHeld(l.trades) ==> OngoingIffHeld(r.ledger.trades)
    ensures KeyedBySymbol(l.trades) ==> KeyedBySymbol(r.ledger.trades)
  {
    var t := l.trades[symbol];
    var trades := l.trades[symbol := t.(tradeOngoing := false, stocksHeld := 0)];
    var credited := capital + t.stocksHeld as real * sellPrice;
    if sellPrice > t.buyPrice then Step(Ledger(trades, l.wins + 1, l.losses), credited)
    else Step(Ledger(trades, l.wins, l.losses + 1), credited)
  }

  /** The sell step of one candle: a long position is closed at the stop
      loss when it is breached, otherwise at the target when the exit gain is
      hit, otherwise kept. */
  function SellIfFits(l: Ledger, candle: StockCandle, capital: real, criteria: BacktestCriteria): (r: Step)
    requires candle.symbol in l.trades
    requires l.trades[candle.symbol].tradeOngoing ==> l.trades[candle.symbol].StopLossDefined(candle, criteria)
    ensures OnlyEntryChanged(l.trades, r.ledger.trades, candle.symbol)
    ensures !l.trades[candle.symbol].tradeOngoing ==> r == Step(l, capital)
    ensures r.ledger.trades[candle.symbol].tradeOngoing ==> r == Step(l, capital)
    ensures r.ledger.wins >= l.wins && r.ledger.losses >= l.losses
    ensures r.ledger.wins + r.ledger.losses <= l.wins + l.losses + 1
    ensures OngoingIffHeld(l.trades) ==> OngoingIffHeld(r.ledger.trades)
    ensures KeyedBySymbol(l.trades) ==> KeyedBySymbol(r.ledger.trades)
  {
    var t := l.trades[candle.symbol];
    if !t.tradeOngoing then Step(l, capital)
    else if t.IsStopLossBreached(candle, criteria) then Sold(l, capital, t.stopLoss, candle.symbol)
    else if t.IsExitGainHit(candle, criteria) then Sold(l, capital, t.TargetPrice(criteria), candle.symbol)
    else Step(l, capital)
  }

  /** When both exits fire on one candle the stop loss wins: the sale is at
      the stop loss whether or not the exit gain is also hit. */
  lemma StopLossTakesPrecedence(l: Ledger, candle: StockCandle, capital: real, criteria: BacktestCriteria)
    requires candle.symbol in l.trades
    requires var t := l.trades[candle.symbol];
               t.tradeOngoing && t.StopLossDefined(candle, criteria) && t.IsStopLossBreached(candle, criteria)
    ensures var t := l.trades[candle.symbol];
              SellIfFits(l, candle, capital, criteria) == Sold(l, capital, t.stopLoss, candle.symbol)
    ensures var t := l.trades[candle.symbol];
              SellIfFits(l, candle, capital, criteria).capital == capital + t.stocksHeld as real * t.stopLoss
  {
  }

  /** Without a stop-loss breach, a hit exit gain sells at buy price times
      (1 + gain percentage); with neither, the position is kept. */
  lemma ExitGainSale(l: Ledger, candle: StockCandle, capital: real, criteria: BacktestCriteria)
    requires candle.symbol in l.trades
    requires var t := l.trades[candle.symbol];
               t.tradeOngoing && t.StopLossDefined(candle, criteria) && !t.IsStopLossBreached(candle, criteria)
    ensures var t := l.trades[candle.symbol];
              t.IsExitGainHit(candle, criteria) ==>
                SellIfFits(l, candle, capital, criteria)
                == Sold(l, capital, t.buyPrice * (1.0 + criteria.exitGainCriteria.gainPercentage), candle.symbol)
    ensures var t := l.trades[candle.symbol];
              !t.IsExitGainHit(candle, criteria) ==> SellIfFits(l, candle, capital, criteria) == Step(l, capital)
  {
  }

  /** A sale at the exit-gain target of a positive buy price with a positive
      gain percentage is counted as a win. */
  lemma ExitGainSaleIsWin(l: Ledger, candle: StockCandle, capital: real, criteria: BacktestCriteria)
    requires candle.symbol in l.trades
    requires var t := l.trades[candle.symbol];
               && t.tradeOngoing && t.StopLossDefined(candle, criteria) && !t.IsStopLossBreached(candle, criteria)
               && t.IsExitGainHit(candle, criteria)
               && t.buyPrice > 0.0 && criteria.exitGainCriteria.gainPercentage > 0.0
    ensures SellIfFits(l, candle, capital, criteria).ledger.wins == l.wins + 1
    ensures SellIfFits(l, candle, capital, criteria).ledger.losses == l.losses
  {
    var t := l.trades[candle.symbol];
    assert SellIfFits(l, candle, capital, criteria) == Sold(l, capital, t.TargetPrice(criteria), candle.symbol);
  }

  ////// Buying

  /** The unit price the buy policy pays for a candle. */
  function PolicyPrice(candle: StockCandle, policy: BuyCriteriaEnum): (p: real)
    ensures candle.close <= candle.high ==> candle.close <= p <= candle.high
    ensures candle.close > 0.0 && candle.high > 0.0 ==> p > 0.0
  {
    match policy
    case Close => candle.close
    case High => candle.high
    case MeanCloseHigh => (candle.close + candle.high) / 2.0
  }

  /** The stop loss set on a buy: the candle's low when the Marubozu entry is
      enabled, else zero. */
  function GetStopLoss(candle: StockCandle, criteria: BacktestCriteria): (stop: real)
    ensures criteria.marubozuCriteria.enabled ==> stop == candle.low
    ensures candle.low >= 0.0 ==> stop <= candle.low
  {
    if criteria.marubozuCriteria.enabled then candle.low else 0.0
  }

  /** The volume filter fails when enabled and the day's volume is below the
      average times the threshold. */
  predicate VolumeFilterFails(candle: StockCandle, criteria: BacktestCriteria)
    ensures (VolumeFilterFails(candle, criteria) && candle.averageVolume >= 0.0
             && criteria.buyVolumeCriteria.averageVolumeThreshold <= 1.0) ==> candle.volume < candle.averageVolume
  {
    criteria.buyVolumeCriteria.enabled
    && candle.volume < candle.averageVolume * criteria.buyVolumeCriteria.averageVolumeThreshold
  }

  /** The whole entry gate as one condition: flat, the volume filter passes,
      the capital reaches the policy price, Marubozu entry is enabled and the
      candle is a bullish Marubozu. */
  predicate ReachesBuy(t: OngoingTrade, candle: StockCandle, capital: real, criteria: BacktestCriteria)
    ensures ReachesBuy(t, candle, capital, criteria) ==>
              GetStopLoss(candle, criteria) == candle.low && candle.colour == Green
  {
    && !t.tradeOngoing
    && !VolumeFilterFails(candle, criteria)
    && !(capital < PolicyPrice(candle, criteria.buyCriteria.criteria))
    && criteria.marubozuCriteria.enabled
    && IsBullishMarubozu(candle, criteria.marubozuCriteria)
  }

  /** The share-count divisions of a buy must be defined: a non-zero price
      and, with risk sizing, a price different from the stop loss. */
  predicate BuyDefined(candle: StockCandle, criteria: BacktestCriteria)
  {
    var price := PolicyPrice(candle, criteria.buyCriteria.criteria);
    price != 0.0 && (criteria.riskCriteria.enabled ==> price != GetStopLoss(candle, criteria))
  }

  /** Multiplying by a positive factor keeps the order. */
  lemma ScaleOrder(c: real, a: real, b: real)
    requires c > 0.0
    ensures a <= b ==> c * a <= c * b
    ensures a < b ==> c * a < c * b
  {
    if a < b {
      assert c * b - c * a == c * (b - a);
    }
  }

  /** A quotient by a positive divisor is below k exactly when the dividend
      is below k times the divisor. */
  lemma QuotientLess(a: real, c: real, k: real)
    requires c != 0.0
    ensures c > 0.0 ==> (a / c < k <==> a < k * c)
  {
    if c > 0.0 {
      var q := a / c;
      assert q * c == a;
      ScaleOrder(c, q, k);
      ScaleOrder(c, k, q);
    }
  }

  /** The most shares `capital` pays for at `price`. */
  function MaxStocks(capital: real, price: real): (n: int)
    requires price != 0.0
    ensures 0.0 < price <= capital ==> n >= 1
    ensures 0.0 < price && capital < price ==> n <= 0
  {
    QuotientLess(capital, price, 1.0);
    Trunc(capital / price)
  }

  /** The shares whose loss down to `stop` is `riskPercentage` of `capital`. */
  function RiskWiseStocks(capital: real, price: real, stop: real, riskPercentage: real): (n: int)
    requires price != stop
    ensures riskPercentage * capital >= 0.0 && price > stop ==> n >= 0
    ensures riskPercentage * capital >= 0.0 && price < stop ==> n <= 0
  {
    QuotientSign(riskPercentage * capital, price - stop);
    Trunc(riskPercentage * capital / (price - stop))
  }

  /** A non-negative dividend over a divisor keeps the divisor's sign. */
  lemma QuotientSign(a: real, d: real)
    requires d != 0.0
    ensures a >= 0.0 && d > 0.0 ==> a / d >= 0.0
    ensures a >= 0.0 && d < 0.0 ==> a / d <= 0.0
  {
    var q := a / d;
    assert q * d == a;
    if a >= 0.0 && d > 0.0 && q < 0.0 {
      ScaleOrder(d, q, 0.0);
    }
    if a >= 0.0 && d < 0.0 && q > 0.0 {
      ScaleOrder(q, d, 0.0);
    }
  }

  /** What `n` shares cost at `price`. */
  function Cost(price: real, n: int): real
  {
    price * n as real
  }

  /** Capital that reaches a positive price pays for at least one share, and
      what is left of it after buying as many as it pays for is less than one
      more share costs. */
  lemma AffordableShares(capital: real, price: real)
    requires 0.0 < price <= capital
    ensures MaxStocks(capital, price) >= 1
    ensures 0.0 <= capital - Cost(price, MaxStocks(capital, price)) < price
  {
    var q := capital / price;
    var m := Trunc(q) as real;
    assert price * q == capital;
    QuotientLess(capital, price, 1.0);
    assert m <= q < m + 1.0;
    ScaleOrder(price, m, q);
    ScaleOrder(price, q, m + 1.0);
    assert capital < price * (m + 1.0);
    assert price * (m + 1.0) == price * m + price;
    assert Cost(price, MaxStocks(capital, price)) == price * m;
  }

  /** No count above what the capital pays for costs more than the capital. */
  lemma NoOverdraft(capital: real, price: real, n: int)
    requires 0.0 < price && 0.0 <= capital && n <= MaxStocks(capital, price)
    ensures Cost(price, n) <= capital
  {
    var q := capital / price;
    assert price * q == capital;
    ScaleOrder(price, n as real, q);
  }

  /** Share count of a buy: as many as the capital pays for, or with risk
      sizing the risk-wise count capped at that. */
  function SharesToBuy(capital: real, price: real, stop: real, criteria: BacktestCriteria): (n: int)
    requires price != 0.0 && (criteria.riskCriteria.enabled ==> price != stop)
    ensures n <= MaxStocks(capital, price)
    ensures !criteria.riskCriteria.enabled ==> n == MaxStocks(capital, price)
    ensures criteria.riskCriteria.enabled ==>
              n == Min(RiskWiseStocks(capital, price, stop, criteria.riskCriteria.riskPercentage),
                       MaxStocks(capital, price))
  {
    if criteria.riskCriteria.enabled then
      Min(RiskWiseStocks(capital, price, stop, criteria.riskCriteria.riskPercentage), MaxStocks(capital, price))
    else MaxStocks(capital, price)
  }

  /** Executing a buy of `candle`'s symbol. */
  function Bought(l: Ledger, candle: StockCandle, capital: real, criteria: BacktestCriteria): (r: Step)
    requires candle.symbol in l.trades && BuyDefined(candle, criteria)
    ensures OnlyEntryChanged(l.trades, r.ledger.trades, candle.symbol)
    ensures r.ledger.wins == l.wins && r.ledger.losses == l.losses
    ensures var t, t' := l.trades[candle.symbol], r.ledger.trades[candle.symbol];
              && t'.symbol == t.symbol
              && t'.buyPrice == PolicyPrice(candle, criteria.buyCriteria.criteria)
              && t'.stopLoss == GetStopLoss(candle, criteria)
              && t'.stocksHeld == SharesToBuy(capital, t'.buyPrice, t'.stopLoss, criteria)
              && (t'.tradeOngoing <==> t.tradeOngoing || t'.stocksHeld > 0)
              && r.capital == capital - Cost(t'.buyPrice, t'.stocksHeld)
    ensures !l.trades[candle.symbol].tradeOngoing && OngoingIffHeld(l.trades) ==> OngoingIffHeld(r.ledger.trades)
    ensures KeyedBySymbol(l.trades) ==> KeyedBySymbol(r.ledger.trades)
  {
    var t := l.trades[candle.symbol];
    var price := PolicyPrice(candle, criteria.buyCriteria.criteria);
    var stop := GetStopLoss(candle, criteria);
    var n := SharesToBuy(capital, price, stop, criteria);
    var t' := t.(buyPrice := price, stopLoss := stop, stocksHeld := n, tradeOngoing := t.tradeOngoing || n > 0);
    Step(Ledger(l.trades[candle.symbol := t'], l.wins, l.losses), capital - Cost(price, n))
  }

  /** The buy step of one candle: the gate is tried in order (already long,
      volume filter, affordability, Marubozu enabled, bullish Marubozu) and
      any failure leaves everything unchanged. */
  function BuyIfFits(l: Ledger, candle: StockCandle, capital: real, criteria: BacktestCriteria): (r: Step)
    requires candle.symbol in l.trades
    requires ReachesBuy(l.trades[candle.symbol], candle, capital, criteria) ==> BuyDefined(candle, criteria)
    ensures !ReachesBuy(l.trades[candle.symbol], candle, capital, criteria) ==> r == Step(l, capital)
    ensures ReachesBuy(l.trades[candle.symbol], candle, capital, criteria) ==> r == Bought(l, candle, capital, criteria)
    ensures OnlyEntryChanged(l.trades, r.ledger.trades, candle.symbol)
    ensures r.ledger.wins == l.wins && r.ledger.losses == l.losses
    ensures OngoingIffHeld(l.trades) ==> OngoingIffHeld(r.ledger.trades)
    ensures KeyedBySymbol(l.trades) ==> KeyedBySymbol(r.ledger.trades)
  {
    var t := l.trades[candle.symbol];
    if t.tradeOngoing then Step(l, capital)
    else if VolumeFilterFails(candle, criteria) then Step(l, capital)
    else if capital < PolicyPrice(candle, criteria.buyCriteria.criteria) then Step(l, capital)
    else if !criteria.marubozuCriteria.enabled then Step(l, capital)
    else if !IsBullishMarubozu(candle, criteria.marubozuCriteria) then Step(l, capital)
    else Bought(l, candle, capital, criteria)
  }

  /** Without risk sizing a buy at a positive price always goes long, with at
      least one share, and leaves less capital than one more share costs. */
  lemma FullCapitalBuy(l: Ledger, candle: StockCandle, capital: real, criteria: BacktestCriteria)
    requires candle.symbol in l.trades
    requires ReachesBuy(l.trades[candle.symbol], candle, capital, criteria) && BuyDefined(candle, criteria)
    requires !criteria.riskCriteria.enabled && PolicyPrice(candle, criteria.buyCriteria.criteria) > 0.0
    ensures var r := BuyIfFits(l, candle, capital, criteria);
            var t' := r.ledger.trades[candle.symbol];
              && t'.tradeOngoing && t'.stocksHeld >= 1
              && t'.stocksHeld == MaxStocks(capital, PolicyPrice(candle, criteria.buyCriteria.criteria))
              && 0.0 <= r.capital < PolicyPrice(candle, criteria.buyCriteria.criteria)
  {
    AffordableShares(capital, PolicyPrice(candle, criteria.buyCriteria.criteria));
  }

  /** A buy at a positive price never spends more than the capital it is
      given, with or without risk sizing. */
  lemma BuyNeverOverdraws(l: Ledger, candle: StockCandle, capital: real, criteria: BacktestCriteria)
    requires candle.symbol in l.trades && BuyDefined(candle, criteria)
    requires PolicyPrice(candle, criteria.buyCriteria.criteria) > 0.0 && capital >= 0.0
    ensures Bought(l, candle, capital, criteria).capital >= 0.0
  {
    var price := PolicyPrice(candle, criteria.buyCriteria.criteria);
    NoOverdraft(capital, price, SharesToBuy(capital, price, GetStopLoss(candle, criteria), criteria));
  }

  /** With risk sizing the count is the smaller of the risk-wise and the
      affordable count; a count that is not positive leaves the symbol flat,
      and a zero count leaves the capital unchanged. */
  lemma RiskSizedBuy(l: Ledger, candle: StockCandle, capital: real, criteria: BacktestCriteria)
    requires candle.symbol in l.trades
    requires ReachesBuy(l.trades[candle.symbol], candle, capital, criteria) && BuyDefined(candle, criteria)
    requires criteria.riskCriteria.enabled
    ensures var r := BuyIfFits(l, candle, capital, criteria);
            var t' := r.ledger.trades[candle.symbol];
            var price := PolicyPrice(candle, criteria.buyCriteria.criteria);
              && t'.stopLoss == candle.low
              && t'.stocksHeld == Min(RiskWiseStocks(capital, price, candle.low, criteria.riskCriteria.riskPercentage),
                                      MaxStocks(capital, price))
              && (t'.tradeOngoing <==> t'.stocksHeld > 0)
              && (t'.stocksHeld == 0 ==> r.capital == capital)
  {
    var r := BuyIfFits(l, candle, capital, criteria);
    assert r == Bought(l, candle, capital, criteria);
    var price := PolicyPrice(candle, criteria.buyCriteria.criteria);
    assert r.ledger.trades[candle.symbol].stocksHeld == SharesToBuy(capital, price, candle.low, criteria);
  }

  /** With risk sizing, a buy price below the stop loss (the candle's low)
      and a non-negative risk budget give a share count of zero or less: the
      symbol stays flat and the capital does not decrease. */
  lemma RiskSizedBuyBelowStop(l: Ledger, candle: StockCandle, capital: real, criteria: BacktestCriteria)
    requires candle.symbol in l.trades
    requires ReachesBuy(l.trades[candle.symbol], candle, capital, criteria) && BuyDefined(candle, criteria)
    requires criteria.riskCriteria.enabled && criteria.riskCriteria.riskPercentage * capital >= 0.0
    requires 0.0 < PolicyPrice(candle, criteria.buyCriteria.criteria) < candle.low
    ensures var r := BuyIfFits(l, candle, capital, criteria);
              && r.ledger.trades[candle.symbol].stocksHeld <= 0
              && !r.ledger.trades[candle.symbol].tradeOngoing
              && r.capital >= capital
  {
    var r := BuyIfFits(l, candle, capital, criteria);
    assert r == Bought(l, candle, capital, criteria);
    var price := PolicyPrice(candle, criteria.buyCriteria.criteria);
    var n := r.ledger.trades[candle.symbol].stocksHeld;
    assert n == SharesToBuy(capital, price, candle.low, criteria);
    assert n <= 0;
    ScaleOrder(price, n as real, 0.0);
    assert Cost(price, n) <= 0.0;
  }

  ////// Final settlement

  /** What a trade adds at settlement: an open position at its buy price. */
  function TradeValue(t: OngoingTrade): (v: real)
    ensures !t.tradeOngoing ==> v == 0.0
  {
    if t.tradeOngoing then t.stocksHeld as real * t.buyPrice else 0.0
  }

  /** The settlement value of the trades visited in `order`. */
  function OpenValue(trades: map<string, OngoingTrade>, order: seq<string>): (v: real)
    requires forall i :: 0 <= i < |order| ==> order[i] in trades
    ensures (forall s :: s in trades ==> TradeValue(trades[s]) >= 0.0) ==> v >= 0.0
    decreases |order|
  {
    if order == [] then 0.0 else TradeValue(trades[order[0]]) + OpenValue(trades, order[1..])
  }

  /** With every symbol flat, settlement adds nothing. */
  lemma {:induction false} FlatTradesHaveNoOpenValue(trades: map<string, OngoingTrade>, order: seq<string>)
    requires forall i :: 0 <= i < |order| ==> order[i] in trades
    requires AllFlat(trades)
    ensures OpenValue(trades, order) == 0.0
    decreases |order|
  {
    if order != [] {
      FlatTradesHaveNoOpenValue(trades, order[1..]);
    }
  }

  /** Capital plus every open position at its buy price. */
  function BookValue(st: Step, order: seq<string>): real
    requires forall i :: 0 <= i < |order| ==> order[i] in st.ledger.trades
  {
    st.capital + OpenValue(st.ledger.trades, order)
  }

  /** Replacing the entry of a symbol visited at most once changes the
      settlement value by the difference of the two entries' values. */
  lemma {:induction false} OpenValueUpdate(trades: map<string, OngoingTrade>, order: seq<string>, symbol: string,
                                           t: OngoingTrade)
    requires forall i :: 0 <= i < |order| ==> order[i] in trades
    requires Distinct(order) && symbol in trades
    ensures OpenValue(trades[symbol := t], order)
         == OpenValue(trades, order) + (if symbol in order then TradeValue(t) - TradeValue(trades[symbol]) else 0.0)
    decreases |order|
  {
    if order != [] {
      assert Distinct(order[1..]) by {
        forall i, j | 0 <= i < j < |order[1..]| ensures order[1..][i] != order[1..][j] {
          assert order[1..][i] == order[i + 1] && order[1..][j] == order[j + 1];
        }
      }
      OpenValueUpdate(trades, order[1..], symbol, t);
      assert symbol in order <==> order[0] == symbol || symbol in order[1..];
      if order[0] == symbol {
        assert symbol !in order[1..] by {
          forall j | 0 <= j < |order[1..]| ensures order[1..][j] != symbol {
            assert order[1..][j] == order[j + 1];
          }
        }
      }
    }
  }

  /** A sale changes the book value by the trade's profit: the shares held
      times the difference of the sell and the buy price. */
  lemma SaleBookValue(l: Ledger, capital: real, sellPrice: real, symbol: string, order: seq<string>)
    requires symbol in l.trades && l.trades[symbol].tradeOngoing
    requires forall i :: 0 <= i < |order| ==> order[i] in l.trades
    requires Distinct(order) && symbol in order
    ensures var t := l.trades[symbol];
              BookValue(Sold(l, capital, sellPrice, symbol), order)
              == BookValue(Step(l, capital), order) + t.stocksHeld as real * (sellPrice - t.buyPrice)
  {
    var t := l.trades[symbol];
    var r := Sold(l, capital, sellPrice, symbol);
    assert r.ledger.trades == l.trades[symbol := r.ledger.trades[symbol]];
    OpenValueUpdate(l.trades, order, symbol, r.ledger.trades[symbol]);
    assert t.stocksHeld as real * (sellPrice - t.buyPrice) == t.stocksHeld as real * sellPrice - t.stocksHeld as real * t.buyPrice;
  }

  /** A buy of a non-negative share count moves value from capital into the
      position and leaves the book value as it was. */
  lemma PurchaseKeepsBookValue(l: Ledger, candle: StockCandle, capital: real, criteria: BacktestCriteria,
                               order: seq<string>)
    requires candle.symbol in l.trades && !l.trades[candle.symbol].tradeOngoing && BuyDefined(candle, criteria)
    requires forall i :: 0 <= i < |order| ==> order[i] in l.trades
    requires Distinct(order) && candle.symbol in order
    requires Bought(l, candle, capital, criteria).ledger.trades[candle.symbol].stocksHeld >= 0
    ensures BookValue(Bought(l, candle, capital, criteria), order) == BookValue(Step(l, capital), order)
  {
    var r := Bought(l, candle, capital, criteria);
    var t' := r.ledger.trades[candle.symbol];
    assert r.ledger.trades == l.trades[candle.symbol := t'];
    OpenValueUpdate(l.trades, order, candle.symbol, t');
    BoughtEntryValue(t');
    assert TradeValue(l.trades[candle.symbol]) == 0.0;
  }

  /** An entry that is long exactly when it holds a non-negative, non-zero
      count is worth what its shares cost. */
  lemma BoughtEntryValue(t: OngoingTrade)
    requires t.stocksHeld >= 0 && (t.tradeOngoing <==> t.stocksHeld > 0)
    ensures TradeValue(t) == Cost(t.buyPrice, t.stocksHeld)
  {
    if t.stocksHeld == 0 {
      assert Cost(t.buyPrice, 0) == 0.0;
    }
  }

  ////// The universe of symbols

  predicate Distinct(s: seq<string>)
  {
    forall i, j :: 0 <= i < j < |s| ==> s[i] != s[j]
  }

  /** The symbols in first-insertion order, each once. */
  function Dedup(s: seq<string>): (d: seq<string>)
    ensures Distinct(d)
    ensures forall x :: x in d <==> x in s
    decreases |s|
  {
    if s == [] then []
    else
      var d := Dedup(s[..|s| - 1]);
      if s[|s| - 1] in d then d else d + [s[|s| - 1]]
  }

  /** One flat trade per symbol of the universe. */
  function FreshTrades(universe: seq<string>): (m: map<string, OngoingTrade>)
    ensures forall s :: s in m <==> s in universe
    ensures KeyedBySymbol(m) && OngoingIffHeld(m) && AllFlat(m)
  {
    map s | s in universe :: Flat(s)
  }

  /** Inserting one more symbol adds its flat trade; a symbol already
      present keeps its entry. */
  lemma FreshTradesExtend(universe: seq<string>, i: int)
    requires 0 <= i < |universe|
    ensures FreshTrades(universe[..i + 1])
         == if universe[i] in universe[..i] then FreshTrades(universe[..i])
            else FreshTrades(universe[..i])[universe[i] := Flat(universe[i])]
  {
    assert universe[..i + 1] == universe[..i] + [universe[i]];
  }

  /** Deduplicating one symbol more appends it unless it was seen. */
  lemma DedupExtend(universe: seq<string>, i: int)
    requires 0 <= i < |universe|
    ensures Dedup(universe[..i + 1])
         == if universe[i] in universe[..i] then Dedup(universe[..i]) else Dedup(universe[..i]) + [universe[i]]
  {
    assert universe[..i + 1][..i] == universe[..i];
  }

  /** One iteration of the constructor's loop keeps its invariant. */
  lemma InsertStep(universe: seq<string>, i: int, m: map<string, OngoingTrade>, order: seq<string>)
    requires 0 <= i < |universe|
    requires m == FreshTrades(universe[..i]) && order == Dedup(universe[..i])
    ensures universe[i] in m ==> m == FreshTrades(universe[..i + 1]) && order == Dedup(universe[..i + 1])
    ensures universe[i] !in m ==>
              && m[universe[i] := Flat(universe[i])] == FreshTrades(universe[..i + 1])
              && order + [universe[i]] == Dedup(universe[..i + 1])
  {
    FreshTradesExtend(universe, i);
    DedupExtend(universe, i);
    assert universe[i] in m <==> universe[i] in universe[..i];
  }

  /** The constructor's loop: insert a flat trade for each symbol of the
      universe not seen before, remembering the insertion order. */
  method InsertFlat(universe: seq<string>) returns (m: map<string, OngoingTrade>, order: seq<string>)
    ensures m == FreshTrades(universe) && order == Dedup(universe)
  {
    m, order := map[], [];
    assert universe[..0] == [];
    for i := 0 to |universe|
      invariant m == FreshTrades(universe[..i]) && order == Dedup(universe[..i])
    {
      var s := universe[i];
      InsertStep(universe, i, m, order);
      if s !in m {
        m := m[s := Flat(s)];
        order := order + [s];
      }
    }
    assert universe[..|universe|] == universe;
  }

  ////// The state machine as an object

  class TradeState {
    var tradeMap: map<string, OngoingTrade>
    var wins: int
    var losses: int
    /** The order in which the keys of tradeMap are visited. */
    const symbols: seq<string>

    ghost predicate Valid()
      reads this
    {
      && KeyedBySymbol(tradeMap)
      && OngoingIffHeld(tradeMap)
      && Distinct(symbols)
      && (forall s :: s in tradeMap <==> s in symbols)
      && wins >= 0 && losses >= 0
    }

    function State(): Ledger
      reads this
    {
      Ledger(tradeMap, wins, losses)
    }

    /** One flat trade per symbol of `universe`; a repeated symbol is
        inserted once. */
    constructor (universe: seq<string>)
      ensures Valid()
      ensures tradeMap == FreshTrades(universe) && symbols == Dedup(universe)
      ensures wins == 0 && losses == 0
    {
      var m, order := InsertFlat(universe);
      tradeMap := m;
      symbols := order;
      wins := 0;
      losses := 0;
    }

    function GetWins(): (w: int)
      reads this
      requires Valid()
      ensures w >= 0
    {
      wins
    }

    function GetLosses(): (n: int)
      reads this
      requires Valid()
      ensures n >= 0
    {
      losses
    }

    method Sell(capital: real, sellPrice: real, candle: StockCandle) returns (r: real)
      requires Valid() && candle.symbol in tradeMap
      modifies this
      ensures Valid()
      ensures Step(State(), r) == Sold(old(State()), capital, sellPrice, candle.symbol)
    {
      var t := tradeMap[candle.symbol];
      r := capital + t.stocksHeld as real * sellPrice;
      t := t.(tradeOngoing := false);
      t := t.(stocksHeld := 0);
      tradeMap := tradeMap[candle.symbol := t];
      if sellPrice > t.buyPrice {
        wins := wins + 1;
      } else {
        losses := losses + 1;
      }
    }

    method SellIfFitsCriteria(candle: StockCandle, capital: real, criteria: BacktestCriteria) returns (r: real)
      requires Valid() && candle.symbol in tradeMap
      requires tradeMap[candle.symbol].tradeOngoing ==> tradeMap[candle.symbol].StopLossDefined(candle, criteria)
      modifies this
      ensures Valid()
      ensures Step(State(), r) == SellIfFits(old(State()), candle, capital, criteria)
    {
      var t := tradeMap[candle.symbol];
      if t.tradeOngoing {
        if t.IsStopLossBreached(candle, criteria) {
          if t.IsExitGainHit(candle, criteria) {
            // Both exits fire: the stop loss decides the price.
            r := Sell(capital, t.stopLoss, candle);
            return;
          } else {
            r := Sell(capital, t.stopLoss, candle);
            return;
          }
        }
        if t.IsExitGainHit(candle, criteria) {
          assert SellIfFits(State(), candle, capital, criteria) == Sold(State(), capital, t.TargetPrice(criteria), candle.symbol);
          r := Sell(capital, t.TargetPrice(criteria), candle);
          return;
        }
      }
      r := capital;
    }

    method Buy(candle: StockCandle, capital: real, criteria: BacktestCriteria) returns (r: real)
      requires Valid() && candle.symbol in tradeMap && !tradeMap[candle.symbol].tradeOngoing
      requires BuyDefined(candle, criteria)
      modifies this
      ensures Valid()
      ensures Step(State(), r) == Bought(old(State()), candle, capital, criteria)
    {
      ghost var expected := Bought(State(), candle, capital, criteria);
      // The entry is edited in place; `t` stands for that entry.
      var t := tradeMap[candle.symbol];
      match criteria.buyCriteria.criteria {
        case Close => t := t.(buyPrice := candle.close);
        case High => t := t.(buyPrice := candle.high);
        case MeanCloseHigh => t := t.(buyPrice := (candle.high + candle.close) / 2.0);
      }
      t := t.(stopLoss := GetStopLoss(candle, criteria));
      if criteria.riskCriteria.enabled {
        var maxStocks := MaxStocks(capital, t.buyPrice);
        var riskWiseStocks := RiskWiseStocks(capital, t.buyPrice, t.stopLoss, criteria.riskCriteria.riskPercentage);
        if riskWiseStocks > maxStocks {
          riskWiseStocks := maxStocks;
        }
        t := t.(stocksHeld := riskWiseStocks);
        assert t.stocksHeld == SharesToBuy(capital, t.buyPrice, t.stopLoss, criteria);
      } else {
        t := t.(stocksHeld := MaxStocks(capital, t.buyPrice));
        assert t.stocksHeld == SharesToBuy(capital, t.buyPrice, t.stopLoss, criteria);
      }
      if t.stocksHeld > 0 {
        t := t.(tradeOngoing := true);
      }
      assert t.buyPrice == PolicyPrice(candle, criteria.buyCriteria.criteria);
      assert t.stocksHeld == SharesToBuy(capital, t.buyPrice, t.stopLoss, criteria);
      assert t == expected.ledger.trades[candle.symbol];
      assert expected.ledger.trades == tradeMap[candle.symbol := t];
      tradeMap := tradeMap[candle.symbol := t];
      r := capital - Cost(t.buyPrice, t.stocksHeld);
      assert Step(Ledger(tradeMap, wins, losses), r) == expected;
    }

    method BuyIfFitsCriteria(candle: StockCandle, capital: real, criteria: BacktestCriteria) returns (r: real)
      requires Valid() && candle.symbol in tradeMap
      requires ReachesBuy(tradeMap[candle.symbol], candle, capital, criteria) ==> BuyDefined(candle, criteria)
      modifies this
      ensures Valid()
      ensures Step(State(), r) == BuyIfFits(old(State()), candle, capital, criteria)
    {
      if !tradeMap[candle.symbol].tradeOngoing {
        if criteria.buyVolumeCriteria.enabled {
          if candle.volume < candle.averageVolume * criteria.buyVolumeCriteria.averageVolumeThreshold {
            return capital;
          }
        }
        match criteria.buyCriteria.criteria {
          case Close => if capital < candle.close { return capital; }
          case High => if capital < candle.high { return capital; }
          case MeanCloseHigh => if capital < (candle.close + candle.high) / 2.0 { return capital; }
        }
        if criteria.marubozuCriteria.enabled {
          if !IsBullishMarubozu(candle, criteria.marubozuCriteria) {
            return capital;
          }
          r := Buy(candle, capital, criteria);
          return;
        }
      }
      r := capital;
    }

    /** Settlement: every open position is added back at its buy price. */
    method GetFinalCapital(capital: real) returns (r: real)
      requires Valid()
      ensures r == capital + OpenValue(tradeMap, symbols)
    {
      r := capital;
      for i := 0 to |symbols|
        invariant r + OpenValue(tradeMap, symbols[i..]) == capital + OpenValue(tradeMap, symbols)
      {
        assert symbols[i..][1..] == symbols[i + 1..];
        var t := tradeMap[symbols[i]];
        if t.tradeOngoing {
          r := r + t.stocksHeld as real * t.buyPrice;
        }
      }
    }
  }
}
