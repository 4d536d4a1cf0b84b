/** The earlier price-extreme policy of Application/PriceExtremeStrategy.cs: the same predicates
    as the current one with a threshold of 0.24 %; it computes the price change with the same
    expression. */
module LegacyPriceExtremeStrategy {
  import opened Common
  import opened Candles
  import opened Ema
  import opened Trading
  import PriceExtremeStrategy

  /** LongEntryCondition: out of the market, with a 20-EMA value at this timestamp and a price
      change of at most -0.24. */
  function LongEntryCondition(status: StrategyStatus, emaIndicators: PriceExtremeStrategy.EmaIndicators, candle: Candle): (r: Result<bool>)
    ensures status == InTheMarket ==> r == Success(false)
  {
    if status != OutOfTheMarket then Success(false)
    else
      var ema :- PriceExtremeStrategy.Ema20At(emaIndicators, candle);
      if ema.None? then Success(false)
      else
        var priceChange :- PriceExtremeStrategy.CalculateEmaPriceChange(candle, ema.value.value);
        Success(priceChange < 0.0 && priceChange <= -0.24)
  }

  /** ShortEntryCondition: out of the market, with a 20-EMA value at this timestamp and a price
      change of at least 0.24. */
  function ShortEntryCondition(status: StrategyStatus, emaIndicators: PriceExtremeStrategy.EmaIndicators, candle: Candle): (r: Result<bool>)
    ensures status == InTheMarket ==> r == Success(false)
  {
    if status != OutOfTheMarket then Success(false)
    else
      var ema :- PriceExtremeStrategy.Ema20At(emaIndicators, candle);
      if ema.None? then Success(false)
      else
        var priceChange :- PriceExtremeStrategy.CalculateEmaPriceChange(candle, ema.value.value);
        Success(priceChange > 0.0 && priceChange >= 0.24)
  }

  /** The long predicate holds exactly when the strategy is flat, a 20-EMA value exists and the
      price change is at most -0.24. */
  lemma LongEntryExactly(status: StrategyStatus, emaIndicators: PriceExtremeStrategy.EmaIndicators, candle: Candle)
    ensures LongEntryCondition(status, emaIndicators, candle) == Success(true) <==>
      && status == OutOfTheMarket
      && 20 in emaIndicators
      && FindEma(emaIndicators[20], candle.timeOfDay).Some?
      && PriceExtremeStrategy.CalculateEmaPriceChange(candle, FindEma(emaIndicators[20], candle.timeOfDay).value.value).Success?
      && PriceExtremeStrategy.CalculateEmaPriceChange(candle, FindEma(emaIndicators[20], candle.timeOfDay).value.value).value <= -0.24
  {
  }

  /** The short predicate holds exactly when the strategy is flat, a 20-EMA value exists and the
      price change is at least 0.24. */
  lemma ShortEntryExactly(status: StrategyStatus, emaIndicators: PriceExtremeStrategy.EmaIndicators, candle: Candle)
    ensures ShortEntryCondition(status, emaIndicators, candle) == Success(true) <==>
      && status == OutOfTheMarket
      && 20 in emaIndicators
      && FindEma(emaIndicators[20], candle.timeOfDay).Some?
      && PriceExtremeStrategy.CalculateEmaPriceChange(candle, FindEma(emaIndicators[20], candle.timeOfDay).value.value).Success?
      && PriceExtremeStrategy.CalculateEmaPriceChange(candle, FindEma(emaIndicators[20], candle.timeOfDay).value.value).value >= 0.24
  {
  }

  /** The two predicates never both hold for the same candle and state. */
  lemma EntriesExclusive(status: StrategyStatus, emaIndicators: PriceExtremeStrategy.EmaIndicators, candle: Candle)
    ensures !(LongEntryCondition(status, emaIndicators, candle) == Success(true)
              && ShortEntryCondition(status, emaIndicators, candle) == Success(true))
  {
  }

  /** Every candle that fires the current 0.25 % policy also fires this 0.24 % one, in both
      directions. */
  lemma LegacyThresholdIsLooser(status: StrategyStatus, emaIndicators: PriceExtremeStrategy.EmaIndicators, candle: Candle)
    ensures PriceExtremeStrategy.LongEntryCondition(status, emaIndicators, candle) == Success(true)
      ==> LongEntryCondition(status, emaIndicators, candle) == Success(true)
    ensures PriceExtremeStrategy.ShortEntryCondition(status, emaIndicators, candle) == Success(true)
      ==> ShortEntryCondition(status, emaIndicators, candle) == Success(true)
  {
  }
}
