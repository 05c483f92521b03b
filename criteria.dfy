/** Configuration of a backtest run: one record per criteria class, each with
    its `enabled` flag, and the two policy enumerations. */
module Criteria {

  /** Price at which a buy is executed. */
  datatype BuyCriteriaEnum = Close | High | MeanCloseHigh

  /** Price that is compared against the stop loss. */
  datatype StoplossType = Low | Close

  datatype BuyCriteria = BuyCriteria(enabled: bool, criteria: BuyCriteriaEnum)

  datatype MarubozuCriteria = MarubozuCriteria(
    enabled: bool,
    bodyMinimumThreshold: real,
    bodyMaximumThreshold: real,
    lowerShadowThreshold: real,
    upperShadowThreshold: real)

  datatype StoplossCriteria = StoplossCriteria(enabled: bool, kind: StoplossType)

  /** numDays: length of the averaging window; averageVolumeThreshold: multiplier of the average. */
  datatype VolumeCriteria = VolumeCriteria(enabled: bool, numDays: int, averageVolumeThreshold: real)

  /** gainPercentage is a fraction: 0.01 means 1%. */
  datatype ExitGainCriteria = ExitGainCriteria(enabled: bool, gainPercentage: real)

  /** riskPercentage is the fraction of capital risked on one trade. */
  datatype RiskCriteria = RiskCriteria(enabled: bool, riskPercentage: real)

  datatype BacktestCriteria = BacktestCriteria(
    buyCriteria: BuyCriteria,
    marubozuCriteria: MarubozuCriteria,
    stopLossCriteria: StoplossCriteria,
    exitGainCriteria: ExitGainCriteria,
    buyVolumeCriteria: VolumeCriteria,
    sellVolumeCriteria: VolumeCriteria,
    riskCriteria: RiskCriteria)

  /** A default-constructed configuration: every criteria is disabled. The
      numeric and enumeration fields, which the default constructors leave
      uninitialised, are given their first or zero value. */
  function DefaultCriteria(): (c: BacktestCriteria)
    ensures !c.buyCriteria.enabled && !c.marubozuCriteria.enabled && !c.stopLossCriteria.enabled
    ensures !c.exitGainCriteria.enabled && !c.buyVolumeCriteria.enabled
    ensures !c.sellVolumeCriteria.enabled && !c.riskCriteria.enabled
  {
    BacktestCriteria(
      BuyCriteria(false, BuyCriteriaEnum.Close),
      MarubozuCriteria(false, 0.0, 0.0, 0.0, 0.0),
      StoplossCriteria(false, StoplossType.Low),
      ExitGainCriteria(false, 0.0),
      VolumeCriteria(false, 0, 0.0),
      VolumeCriteria(false, 0, 0.0),
      RiskCriteria(false, 0.0))
  }
}
