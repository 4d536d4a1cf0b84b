/** The older candle helper of Domain/Helpers/CandleDataParser.cs: every row becomes a candle, with
    no blank-row skip, no day filter and no exception handling. Its timeframe conversion and
    session split are the same code as CandleDataProcessor's. */
module CandleDataParser {
  import opened Common
  import opened Candles
  import CandleDataProcessor

  /** ConvertRawDataToCandleSticks: one candle per row, in order; the first failing row aborts. */
  method ConvertRawDataToCandleSticks(items: seq<string>, parseDate: string -> Parsed<DateTime>, parseDecimal: string -> Parsed<real>)
    returns (r: Result<seq<Candle>>)
    ensures r.Success? <==> forall i :: 0 <= i < |items| ==> ParseRow(items[i], parseDate, parseDecimal).Success?
    ensures r.Success? ==> |r.value| == |items|
    ensures r.Success? ==> forall i :: 0 <= i < |items| ==> r.value[i] == ParseRow(items[i], parseDate, parseDecimal).value
    ensures r.Failure? ==>
      exists i :: && 0 <= i < |items| && ParseRow(items[i], parseDate, parseDecimal) == Failure(r.error)
                  && forall j :: 0 <= j < i ==> ParseRow(items[j], parseDate, parseDecimal).Success?
  {
    var candles: seq<Candle> := [];
    for i := 0 to |items|
      invariant |candles| == i
      invariant forall j :: 0 <= j < i ==> ParseRow(items[j], parseDate, parseDecimal) == Success(candles[j])
    {
      var candle := ParseRow(items[i], parseDate, parseDecimal);
      if candle.Failure? {
        return Failure(candle.error);
      }
      candles := candles + [candle.value];
    }
    r := Success(candles);
  }

  /** ConvertCandleTimeframe, identical to CandleDataProcessor's. */
  method ConvertCandleTimeframe(candles: seq<Candle>, timeframeMinutes: int) returns (r: Result<seq<Candle>>)
    ensures r.Failure? <==> |candles| == 0 || timeframeMinutes <= 0
    ensures r.Failure? ==> r.error == InvalidOperation
    ensures r.Success? ==> |r.value| == BarCount(|candles|, timeframeMinutes)
    ensures r.Success? ==> forall k :: 0 <= k < |r.value| ==> r.value[k] == BarAt(candles, timeframeMinutes, k)
  {
    r := CandleDataProcessor.ConvertCandleTimeframe(candles, timeframeMinutes);
  }

  /** SplitCandlesIntoSessions, identical to CandleDataProcessor's. */
  method SplitCandlesIntoSessions(candles: seq<Candle>) returns (t: SessionTable)
    ensures IsSessionSplit(candles, t)
  {
    t := CandleDataProcessor.SplitCandlesIntoSessions(candles);
  }
}
