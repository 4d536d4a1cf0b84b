/** The two-step policy of Application/Strategies/EnterAfterPriceExtremeAndEmaCloseStrategy.cs.
    A price extreme against the 20-period EMA arms a per-direction flag; the entry fires, and the
    flag is cleared, once the close has come back at least five points past the 10-period EMA.
    Each predicate returns its answer together with the new value of its flag. */
module EnterAfterPriceExtremeAndEmaCloseStrategy {
  import opened Common
  import opened Candles
  import opened Ema
  import opened Trading
  import PriceExtremeStrategy

  const EmaCloseThreshold: real := 5.0

  /** What one call of an entry predicate returns, and the value it leaves in its flag. */
  datatype Decision = Decision(fire: bool, armed: bool)

  /** Both dictionary look-ups run before anything else: a missing key 20 or 10 raises
      KeyNotFoundException; the value found under each is the first one stamped like the candle. */
  function Lookups(emaIndicators: PriceExtremeStrategy.EmaIndicators, candle: Candle): (r: Result<(Option<EmaValue>, Option<EmaValue>)>)
    ensures r.Failure? <==> 20 !in emaIndicators || 10 !in emaIndicators
    ensures r.Failure? ==> r.error == KeyNotFound
    ensures r.Success? ==> r.value == (FindEma(emaIndicators[20], candle.timeOfDay), FindEma(emaIndicators[10], candle.timeOfDay))
  {
    if 20 !in emaIndicators || 10 !in emaIndicators then Failure(KeyNotFound)
    else Success((FindEma(emaIndicators[20], candle.timeOfDay), FindEma(emaIndicators[10], candle.timeOfDay)))
  }

  /** LongEntryCondition with the long flag `isLongExtreme`. A change of at most -0.25 arms the
      flag; the 10-EMA is then read whatever the flag says, so a missing 10-EMA value raises
      NullReferenceException; an armed flag fires when Close - EMA10 >= 5 and is cleared. */
  function LongEntryCondition(status: StrategyStatus, emaIndicators: PriceExtremeStrategy.EmaIndicators, isLongExtreme: bool, candle: Candle): (r: Result<Decision>)
    ensures status == InTheMarket ==> r == Success(Decision(false, isLongExtreme))
    ensures r.Success? && r.value.fire ==> !r.value.armed
  {
    if status != OutOfTheMarket then Success(Decision(false, isLongExtreme))
    else
      var emas :- Lookups(emaIndicators, candle);
      var (ema, ema10) := emas;
      if ema.None? then Success(Decision(false, isLongExtreme))
      else
        var priceChange :- PriceExtremeStrategy.CalculateEmaPriceChange(candle, ema.value.value);
        var armed := if priceChange < 0.0 && priceChange <= -0.25 && !isLongExtreme then true else isLongExtreme;
        if ema10.None? then Failure(NullReference)
        else if armed && candle.close - ema10.value.value >= EmaCloseThreshold then Success(Decision(true, false))
        else Success(Decision(false, armed))
  }

  /** ShortEntryCondition with the short flag `isShortExtreme`. A change of at least 0.25 arms the
      flag; only an armed flag reads the 10-EMA (a missing value then raises
      NullReferenceException), and it fires when EMA10 - Close >= 5 and is cleared. */
  function ShortEntryCondition(status: StrategyStatus, emaIndicators: PriceExtremeStrategy.EmaIndicators, isShortExtreme: bool, candle: Candle): (r: Result<Decision>)
    ensures status == InTheMarket ==> r == Success(Decision(false, isShortExtreme))
    ensures r.Success? && r.value.fire ==> !r.value.armed
  {
    if status != OutOfTheMarket then Success(Decision(false, isShortExtreme))
    else
      var emas :- Lookups(emaIndicators, candle);
      var (ema, ema10) := emas;
      if ema.None? then Success(Decision(false, isShortExtreme))
      else
        var priceChange :- PriceExtremeStrategy.CalculateEmaPriceChange(candle, ema.value.value);
        var armed := if priceChange > 0.0 && priceChange >= 0.25 && !isShortExtreme then true else isShortExtreme;
        if !armed then Success(Decision(false, false))
        else if ema10.None? then Failure(NullReference)
        else if ema10.value.value - candle.close >= EmaCloseThreshold then Success(Decision(true, false))
        else Success(Decision(false, true))
  }

  /** The long flag after a call: a price change of at most -0.25 arms it, and it stays armed
      unless this call fired; with the 20-EMA value missing nothing changes. */
  lemma LongArming(status: StrategyStatus, emaIndicators: PriceExtremeStrategy.EmaIndicators, isLongExtreme: bool, candle: Candle)
    requires status == OutOfTheMarket && 20 in emaIndicators && 10 in emaIndicators
    ensures FindEma(emaIndicators[20], candle.timeOfDay).None? ==>
      LongEntryCondition(status, emaIndicators, isLongExtreme, candle) == Success(Decision(false, isLongExtreme))
    ensures FindEma(emaIndicators[20], candle.timeOfDay).Some? ==>
      var change := PriceExtremeStrategy.CalculateEmaPriceChange(candle, FindEma(emaIndicators[20], candle.timeOfDay).value.value);
      var r := LongEntryCondition(status, emaIndicators, isLongExtreme, candle);
      change.Success? && r.Success? ==>
        r.value.armed == ((isLongExtreme || change.value <= -0.25) && !r.value.fire)
  {
  }

  /** The long entry fires exactly when the flag is armed (before or by this candle) and the
      close is at least five points above the 10-EMA. */
  lemma LongFiresExactly(status: StrategyStatus, emaIndicators: PriceExtremeStrategy.EmaIndicators, isLongExtreme: bool, candle: Candle)
    requires status == OutOfTheMarket && 20 in emaIndicators && 10 in emaIndicators
    requires FindEma(emaIndicators[20], candle.timeOfDay).Some? && FindEma(emaIndicators[10], candle.timeOfDay).Some?
    requires PriceExtremeStrategy.CalculateEmaPriceChange(candle, FindEma(emaIndicators[20], candle.timeOfDay).value.value).Success?
    ensures
      var change := PriceExtremeStrategy.CalculateEmaPriceChange(candle, FindEma(emaIndicators[20], candle.timeOfDay).value.value).value;
      var ema10 := FindEma(emaIndicators[10], candle.timeOfDay).value.value;
      var r := LongEntryCondition(status, emaIndicators, isLongExtreme, candle);
      r.Success? && (r.value.fire <==> (isLongExtreme || change <= -0.25) && candle.close - ema10 >= 5.0)
  {
  }

  /** The short flag after a call: a price change of at least 0.25 arms it, and it stays armed
      unless this call fired; with the 20-EMA value missing nothing changes. */
  lemma ShortArming(status: StrategyStatus, emaIndicators: PriceExtremeStrategy.EmaIndicators, isShortExtreme: bool, candle: Candle)
    requires status == OutOfTheMarket && 20 in emaIndicators && 10 in emaIndicators
    ensures FindEma(emaIndicators[20], candle.timeOfDay).None? ==>
      ShortEntryCondition(status, emaIndicators, isShortExtreme, candle) == Success(Decision(false, isShortExtreme))
    ensures FindEma(emaIndicators[20], candle.timeOfDay).Some? ==>
      var change := PriceExtremeStrategy.CalculateEmaPriceChange(candle, FindEma(emaIndicators[20], candle.timeOfDay).value.value);
      var r := ShortEntryCondition(status, emaIndicators, isShortExtreme, candle);
      change.Success? && r.Success? ==>
        r.value.armed == ((isShortExtreme || change.value >= 0.25) && !r.value.fire)
  {
  }

  /** The short entry fires exactly when the flag is armed (before or by this candle) and the
      close is at least five points below the 10-EMA. */
  lemma ShortFiresExactly(status: StrategyStatus, emaIndicators: PriceExtremeStrategy.EmaIndicators, isShortExtreme: bool, candle: Candle)
    requires status == OutOfTheMarket && 20 in emaIndicators && 10 in emaIndicators
    requires FindEma(emaIndicators[20], candle.timeOfDay).Some? && FindEma(emaIndicators[10], candle.timeOfDay).Some?
    requires PriceExtremeStrategy.CalculateEmaPriceChange(candle, FindEma(emaIndicators[20], candle.timeOfDay).value.value).Success?
    ensures
      var change := PriceExtremeStrategy.CalculateEmaPriceChange(candle, FindEma(emaIndicators[20], candle.timeOfDay).value.value).value;
      var ema10 := FindEma(emaIndicators[10], candle.timeOfDay).value.value;
      var r := ShortEntryCondition(status, emaIndicators, isShortExtreme, candle);
      r.Success? && (r.value.fire <==> (isShortExtreme || change >= 0.25) && ema10 - candle.close >= 5.0)
  {
  }

  /** A missing 10-EMA value, once the 20-EMA value is found and the change computes: the long
      side always raises NullReferenceException, since it reads the 10-EMA whatever its flag says;
      the short side raises exactly when its flag ends armed, and otherwise answers false with its
      flag down. */
  lemma MissingEma10Raises(emaIndicators: PriceExtremeStrategy.EmaIndicators, isLongExtreme: bool, isShortExtreme: bool, candle: Candle)
    requires 20 in emaIndicators && 10 in emaIndicators
    requires FindEma(emaIndicators[20], candle.timeOfDay).Some? && FindEma(emaIndicators[10], candle.timeOfDay).None?
    requires PriceExtremeStrategy.CalculateEmaPriceChange(candle, FindEma(emaIndicators[20], candle.timeOfDay).value.value).Success?
    ensures LongEntryCondition(OutOfTheMarket, emaIndicators, isLongExtreme, candle) == Failure(NullReference)
    ensures var change := PriceExtremeStrategy.CalculateEmaPriceChange(candle, FindEma(emaIndicators[20], candle.timeOfDay).value.value).value;
      var r := ShortEntryCondition(OutOfTheMarket, emaIndicators, isShortExtreme, candle);
      && (r == Failure(NullReference) <==> isShortExtreme || change >= 0.25)
      && (r != Failure(NullReference) ==> r == Success(Decision(false, false)))
  {
  }

  /** On one candle, with the same series, the long and the short entry never both fire. */
  lemma EntriesExclusive(emaIndicators: PriceExtremeStrategy.EmaIndicators, isLongExtreme: bool, isShortExtreme: bool, candle: Candle)
    ensures !(&& LongEntryCondition(OutOfTheMarket, emaIndicators, isLongExtreme, candle).Success?
              && LongEntryCondition(OutOfTheMarket, emaIndicators, isLongExtreme, candle).value.fire
              && ShortEntryCondition(OutOfTheMarket, emaIndicators, isShortExtreme, candle).Success?
              && ShortEntryCondition(OutOfTheMarket, emaIndicators, isShortExtreme, candle).value.fire)
  {
  }
}
