/** A daily candle, its derived shape (colour, body, shadows) and the
    epsilon-tolerant Marubozu pattern predicates. */
module Candles {
  import opened Criteria

  /** Tolerance of every threshold comparison. */
  const Eps: real := 0.00001

  /** The smaller of two counts. */
  function Min(a: int, b: int): (m: int)
    ensures m <= a && m <= b && (m == a || m == b)
  {
    if a <= b then a else b
  }

  datatype Colour = Red | Green

  /** One day of one symbol. `closeTime` is the calendar time as seconds;
      body and shadows are fractions of a price; `averageVolume` and
      `averageVolumeDays` are filled in by the rolling-average pass. */
  datatype StockCandle = StockCandle(
    symbol: string,
    closeTime: int,
    open: real,
    low: real,
    high: real,
    close: real,
    volume: real,
    body: real,
    lowerShadow: real,
    upperShadow: real,
    colour: Colour,
    averageVolume: real,
    averageVolumeDays: int)

  /** The fields a candle derives from its four prices. */
  datatype Shape = Shape(colour: Colour, body: real, lowerShadow: real, upperShadow: real)

  /** Derived fields: a candle is Red when it opened above its close, Green
      otherwise (so a doji is Green); shadows are measured from the top and
      bottom of the body, the body relative to the open. */
  function DeriveShape(open: real, high: real, low: real, close: real): (s: Shape)
    requires open != 0.0 && close != 0.0
    ensures s.colour == Red <==> open > close
    ensures open > 0.0 ==> s.body >= 0.0
    ensures close == open ==> s.body == 0.0
    ensures s.colour == Green && high >= close >= open >= low && open > 0.0 ==>
              s.lowerShadow >= 0.0 && s.upperShadow >= 0.0
    ensures s.colour == Red && high >= open > close >= low && close > 0.0 ==>
              s.lowerShadow >= 0.0 && s.upperShadow >= 0.0
  {
    var body := (if close >= open then close - open else open - close) / open;
    if open > close then
      Shape(Red, body, (close - low) / close, (high - open) / open)
    else
      Shape(Green, body, (open - low) / open, (high - close) / close)
  }

  /** A candle built from already-parsed fields. The average volume is not
      known yet; it is zero until the rolling-average pass writes it. */
  function NewCandle(symbol: string, closeTime: int, open: real, high: real, low: real, close: real,
                     volume: real): (c: StockCandle)
    requires open != 0.0 && close != 0.0
    ensures c.open == open && c.high == high && c.low == low && c.close == close
    ensures c.colour == Red <==> open > close
    ensures open > 0.0 ==> c.body >= 0.0
  {
    var s := DeriveShape(open, high, low, close);
    StockCandle(symbol, closeTime, open, low, high, close, volume,
                s.body, s.lowerShadow, s.upperShadow, s.colour, 0.0, 0)
  }

  /** Body within [min, max] and both shadows below their thresholds, each
      comparison strict and widened by Eps. */
  predicate IsMarubozu(candle: StockCandle, criteria: MarubozuCriteria)
    ensures IsMarubozu(candle, criteria) ==>
              criteria.bodyMinimumThreshold < criteria.bodyMaximumThreshold + 2.0 * Eps
  {
    && candle.body > criteria.bodyMinimumThreshold - Eps
    && candle.body < criteria.bodyMaximumThreshold + Eps
    && candle.lowerShadow < criteria.lowerShadowThreshold + Eps
    && candle.upperShadow < criteria.upperShadowThreshold + Eps
  }

  function IsBullishMarubozu(candle: StockCandle, criteria: MarubozuCriteria): (b: bool)
    ensures b ==> IsMarubozu(candle, criteria) && candle.colour != Red
  {
    candle.colour == Green && IsMarubozu(candle, criteria)
  }

  function IsBearishMarubozu(candle: StockCandle, criteria: MarubozuCriteria): (b: bool)
    ensures b ==> IsMarubozu(candle, criteria) && !IsBullishMarubozu(candle, criteria)
  {
    candle.colour == Red && IsMarubozu(candle, criteria)
  }

  /** The tolerance widens the closed threshold intervals: a body exactly at
      either threshold and shadows exactly at theirs still qualify. */
  lemma ClosedThresholdsQualify(candle: StockCandle, criteria: MarubozuCriteria)
    requires criteria.bodyMinimumThreshold <= candle.body <= criteria.bodyMaximumThreshold
    requires candle.lowerShadow <= criteria.lowerShadowThreshold
    requires candle.upperShadow <= criteria.upperShadowThreshold
    ensures IsMarubozu(candle, criteria)
  {
  }

  /** The epsilon boundary of the body maximum: 0.9 Eps above it passes,
      Eps and 1.1 Eps above it fail. */
  lemma BodyMaximumEpsilonBoundary(candle: StockCandle, criteria: MarubozuCriteria)
    requires criteria.bodyMinimumThreshold <= criteria.bodyMaximumThreshold
    requires candle.lowerShadow < criteria.lowerShadowThreshold + Eps
    requires candle.upperShadow < criteria.upperShadowThreshold + Eps
    ensures IsMarubozu(candle.(body := criteria.bodyMaximumThreshold + 0.9 * Eps), criteria)
    ensures !IsMarubozu(candle.(body := criteria.bodyMaximumThreshold + Eps), criteria)
    ensures !IsMarubozu(candle.(body := criteria.bodyMaximumThreshold + 1.1 * Eps), criteria)
  {
  }

  /** A candle built from its prices is a bullish Marubozu only on a day
      that did not close below its open. */
  lemma BullishMarubozuDoesNotFall(symbol: string, closeTime: int, open: real, high: real, low: real,
                                   close: real, volume: real, criteria: MarubozuCriteria)
    requires open != 0.0 && close != 0.0
    requires IsBullishMarubozu(NewCandle(symbol, closeTime, open, high, low, close, volume), criteria)
    ensures open <= close
  {
  }

  /** Every Marubozu is exactly one of bullish and bearish. */
  lemma BullishXorBearish(candle: StockCandle, criteria: MarubozuCriteria)
    requires IsMarubozu(candle, criteria)
    ensures IsBullishMarubozu(candle, criteria) != IsBearishMarubozu(candle, criteria)
  {
  }
}
