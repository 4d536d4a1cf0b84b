/** The price-extreme entry policy of Application/Strategies/PriceExtremeStrategy.cs: enter long
    when the candle has moved at least 0.25 % below the 20-period EMA, short when it has moved at
    least 0.25 % above it. The predicates only read the strategy's state. */
module PriceExtremeStrategy {
  import opened Common
  import opened Candles
  import opened Ema
  import opened Trading

  /** The EMA series the policy keeps, keyed by period. */
  type EmaIndicators = map<int, seq<EmaValue>>

  /** The move of the candle away from the EMA, as a percentage rounded to two places: measured
      from the High when the candle closes above the EMA and from the Low otherwise. Decimal
      division by a zero EMA raises DivideByZeroException. */
  function CalculateEmaPriceChange(candle: Candle, emaValue: real): (r: Result<real>)
    ensures r.Failure? <==> emaValue == 0.0
    ensures r.Failure? ==> r.error == DivideByZero
    ensures r.Success? && candle.close > emaValue ==> r.value == Round2((candle.high - emaValue) / emaValue * 100.0)
    ensures r.Success? && candle.close <= emaValue ==> r.value == Round2((candle.low - emaValue) / emaValue * 100.0)
  {
    if emaValue == 0.0 then Failure(DivideByZero)
    else if candle.close > emaValue then Success(Round2((candle.high - emaValue) / emaValue * 100.0))
    else Success(Round2((candle.low - emaValue) / emaValue * 100.0))
  }

  /** On a well-formed candle (Low <= Close <= High) above a positive EMA the change is never
      negative, and at or below it the change is never positive. */
  lemma PriceChangeSign(candle: Candle, emaValue: real)
    requires emaValue > 0.0 && candle.low <= candle.close <= candle.high
    ensures candle.close > emaValue ==> CalculateEmaPriceChange(candle, emaValue).value >= 0.0
    ensures candle.close <= emaValue ==> CalculateEmaPriceChange(candle, emaValue).value <= 0.0
  {
    if candle.close > emaValue {
      Round2NonNegative((candle.high - emaValue) / emaValue * 100.0);
    } else {
      Round2NonPositive((candle.low - emaValue) / emaValue * 100.0);
    }
  }

  /** The 20-period EMA at the candle's timestamp, or a KeyNotFound fault when no 20-period series
      was ever loaded. */
  function Ema20At(emaIndicators: EmaIndicators, candle: Candle): (r: Result<Option<EmaValue>>)
    ensures r.Failure? <==> 20 !in emaIndicators
    ensures r.Failure? ==> r.error == KeyNotFound
    ensures r.Success? ==> r.value == FindEma(emaIndicators[20], candle.timeOfDay)
  {
    if 20 in emaIndicators then Success(FindEma(emaIndicators[20], candle.timeOfDay)) else Failure(KeyNotFound)
  }

  /** LongEntryCondition: out of the market, with a 20-EMA value at this timestamp and a price
      change of at most -0.25. */
  function LongEntryCondition(status: StrategyStatus, emaIndicators: EmaIndicators, candle: Candle): (r: Result<bool>)
    ensures status == InTheMarket ==> r == Success(false)
  {
    if status != OutOfTheMarket then Success(false)
    else
      var ema :- Ema20At(emaIndicators, candle);
      if ema.None? then Success(false)
      else
        var priceChange :- CalculateEmaPriceChange(candle, ema.value.value);
        Success(priceChange < 0.0 && priceChange <= -0.25)
  }

  /** ShortEntryCondition: out of the market, with a 20-EMA value at this timestamp and a price
      change of at least 0.25. */
  function ShortEntryCondition(status: StrategyStatus, emaIndicators: EmaIndicators, candle: Candle): (r: Result<bool>)
    ensures status == InTheMarket ==> r == Success(false)
  {
    if status != OutOfTheMarket then Success(false)
    else
      var ema :- Ema20At(emaIndicators, candle);
      if ema.None? then Success(false)
      else
        var priceChange :- CalculateEmaPriceChange(candle, ema.value.value);
        Success(priceChange > 0.0 && priceChange >= 0.25)
  }

  /** The long predicate holds exactly when the strategy is flat, a 20-EMA value exists at the
      candle's timestamp, and the price change measured from it is at most -0.25. */
  lemma LongEntryExactly(status: StrategyStatus, emaIndicators: EmaIndicators, candle: Candle)
    ensures LongEntryCondition(status, emaIndicators, candle) == Success(true) <==>
      && status == OutOfTheMarket
      && 20 in emaIndicators
      && FindEma(emaIndicators[20], candle.timeOfDay).Some?
      && CalculateEmaPriceChange(candle, FindEma(emaIndicators[20], candle.timeOfDay).value.value).Success?
      && CalculateEmaPriceChange(candle, FindEma(emaIndicators[20], candle.timeOfDay).value.value).value <= -0.25
  {
  }

  /** The short predicate holds exactly when the strategy is flat, a 20-EMA value exists at the
      candle's timestamp, and the price change measured from it is at least 0.25. */
  lemma ShortEntryExactly(status: StrategyStatus, emaIndicators: EmaIndicators, candle: Candle)
    ensures ShortEntryCondition(status, emaIndicators, candle) == Success(true) <==>
      && status == OutOfTheMarket
      && 20 in emaIndicators
      && FindEma(emaIndicators[20], candle.timeOfDay).Some?
      && CalculateEmaPriceChange(candle, FindEma(emaIndicators[20], candle.timeOfDay).value.value).Success?
      && CalculateEmaPriceChange(candle, FindEma(emaIndicators[20], candle.timeOfDay).value.value).value >= 0.25
  {
  }

  /** A missing 20-EMA value at the timestamp makes both predicates false. */
  lemma MissingEmaNoEntry(status: StrategyStatus, emaIndicators: EmaIndicators, candle: Candle)
    requires 20 in emaIndicators
    requires forall i :: 0 <= i < |emaIndicators[20]| ==> emaIndicators[20][i].timeOfDay != candle.timeOfDay
    ensures LongEntryCondition(status, emaIndicators, candle) == Success(false)
    ensures ShortEntryCondition(status, emaIndicators, candle) == Success(false)
  {
  }

  /** The two predicates never both hold for the same candle and state. */
  lemma EntriesExclusive(status: StrategyStatus, emaIndicators: EmaIndicators, candle: Candle)
    ensures !(LongEntryCondition(status, emaIndicators, candle) == Success(true)
              && ShortEntryCondition(status, emaIndicators, candle) == Success(true))
  {
  }
}
