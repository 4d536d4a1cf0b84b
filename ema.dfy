/** The exponential moving average of Domain/Indicators/Ema.cs. */
module Ema {
  import opened Common
  import opened Candles

  /** An EmaValue record: the EMA at one candle's timestamp. */
  datatype EmaValue = EmaValue(timeOfDay: DateTime, value: real)

  /** The smoothing factor 2 / (period + 1). */
  function Multiplier(lookbackPeriod: int): real
    requires lookbackPeriod + 1 != 0
  {
    2.0 / (lookbackPeriod + 1) as real
  }

  /** The unrounded accumulator after candle `i`: the first close, then
      m * close_i + (1 - m) * previous accumulator. */
  function Raw(candles: seq<Candle>, m: real, i: nat): real
    requires i < |candles|
    decreases i
  {
    if i == 0 then candles[0].close else m * candles[i].close + (1.0 - m) * Raw(candles, m, i - 1)
  }

  /** The value reported at candle `i`: its timestamp and the accumulator rounded to two places. */
  function Point(candles: seq<Candle>, m: real, i: nat): EmaValue
    requires i < |candles|
  {
    EmaValue(candles[i].timeOfDay, Round2(Raw(candles, m, i)))
  }

  /** Calculate: one value per candle, at that candle's timestamp, holding the accumulator rounded
      to two places; the rounding never feeds back into the accumulator. A period of -1 divides
      by zero before any candle is read. */
  method Calculate(candles: seq<Candle>, lookbackPeriod: int) returns (r: Result<seq<EmaValue>>)
    ensures r.Failure? <==> lookbackPeriod + 1 == 0
    ensures r.Failure? ==> r.error == DivideByZero
    ensures r.Success? ==> |r.value| == |candles|
    ensures r.Success? ==> forall i :: 0 <= i < |candles| ==>
      r.value[i] == Point(candles, Multiplier(lookbackPeriod), i)
    ensures r.Success? ==> r.value == Series(candles, lookbackPeriod)
  {
    if lookbackPeriod + 1 == 0 {
      return Failure(DivideByZero);
    }
    var multiplier := 2.0 / (lookbackPeriod + 1) as real;
    assert multiplier == Multiplier(lookbackPeriod);
    var emaValues: seq<EmaValue> := [];
    var result := 0.0;
    for i := 0 to |candles|
      invariant |emaValues| == i
      invariant forall k :: 0 <= k < i ==> emaValues[k] == Point(candles, multiplier, k)
      invariant i > 0 ==> result == Raw(candles, multiplier, i - 1)
    {
      result := if i == 0 then candles[i].close else multiplier * candles[i].close + (1.0 - multiplier) * result;
      assert result == Raw(candles, multiplier, i);
      emaValues := emaValues + [Point(candles, multiplier, i)];
    }
    r := Success(emaValues);
  }

  /** The whole series Calculate returns for a period other than -1. */
  function Series(candles: seq<Candle>, lookbackPeriod: int): (r: seq<EmaValue>)
    requires lookbackPeriod + 1 != 0
  {
    seq(|candles|, i requires 0 <= i < |candles| => Point(candles, Multiplier(lookbackPeriod), i))
  }

  /** For a period of at least one the factor lies in (0, 1]. */
  lemma MultiplierInUnit(lookbackPeriod: int)
    requires lookbackPeriod >= 1
    ensures 0.0 < Multiplier(lookbackPeriod) <= 1.0
  {
  }

  /** A constant close series `c` keeps the accumulator at `c` at every position. */
  lemma {:induction false} ConstantSeries(candles: seq<Candle>, m: real, c: real, i: nat)
    requires i < |candles|
    requires forall j :: 0 <= j < |candles| ==> candles[j].close == c
    ensures Raw(candles, m, i) == c
    decreases i
  {
    if i > 0 {
      ConstantSeries(candles, m, c, i - 1);
      calc {
        Raw(candles, m, i);
        m * c + (1.0 - m) * c;
        c;
      }
    }
  }

  /** With a factor in [0, 1] the accumulator stays within any bounds of the closes seen so far. */
  lemma {:induction false} RawWithinBounds(candles: seq<Candle>, m: real, i: nat, lo: real, hi: real)
    requires i < |candles| && 0.0 <= m <= 1.0
    requires forall j :: 0 <= j <= i ==> lo <= candles[j].close <= hi
    ensures lo <= Raw(candles, m, i) <= hi
    decreases i
  {
    if i > 0 {
      RawWithinBounds(candles, m, i - 1, lo, hi);
      Convex(m, candles[i].close, Raw(candles, m, i - 1), lo, hi);
    }
  }

  /** A convex combination of two values in [lo, hi] stays in [lo, hi]. */
  lemma Convex(m: real, a: real, b: real, lo: real, hi: real)
    requires 0.0 <= m <= 1.0 && lo <= a <= hi && lo <= b <= hi
    ensures lo <= m * a + (1.0 - m) * b <= hi
  {
    var n := 1.0 - m;
    MulNonneg(m, a - lo);
    MulNonneg(n, b - lo);
    assert m * a + n * b - lo == m * (a - lo) + n * (b - lo);
    MulNonneg(m, hi - a);
    MulNonneg(n, hi - b);
    assert hi - (m * a + n * b) == m * (hi - a) + n * (hi - b);
  }

  lemma MulNonneg(k: real, x: real)
    requires k >= 0.0 && x >= 0.0
    ensures k * x >= 0.0
  {
  }

  /** The smallest close among candles 0..i. */
  function MinClose(candles: seq<Candle>, i: nat): (r: real)
    requires i < |candles|
    ensures forall j :: 0 <= j <= i ==> r <= candles[j].close
    ensures exists j :: 0 <= j <= i && candles[j].close == r
    decreases i
  {
    if i == 0 then candles[0].close else Min(MinClose(candles, i - 1), candles[i].close)
  }

  /** The largest close among candles 0..i. */
  function MaxClose(candles: seq<Candle>, i: nat): (r: real)
    requires i < |candles|
    ensures forall j :: 0 <= j <= i ==> candles[j].close <= r
    ensures exists j :: 0 <= j <= i && candles[j].close == r
    decreases i
  {
    if i == 0 then candles[0].close else Max(MaxClose(candles, i - 1), candles[i].close)
  }

  /** For a period of at least one, each accumulator value lies between the smallest and the largest
      close of the prefix seen so far. */
  lemma RawWithinPrefixRange(candles: seq<Candle>, lookbackPeriod: int, i: nat)
    requires i < |candles| && lookbackPeriod >= 1
    ensures MinClose(candles, i) <= Raw(candles, Multiplier(lookbackPeriod), i) <= MaxClose(candles, i)
  {
    MultiplierInUnit(lookbackPeriod);
    RawWithinBounds(candles, Multiplier(lookbackPeriod), i, MinClose(candles, i), MaxClose(candles, i));
  }

  /** A constant close series `c` yields round(c, 2) at every position, for every period. */
  lemma ConstantSeriesRounded(candles: seq<Candle>, lookbackPeriod: int, c: real, i: nat)
    requires i < |candles| && lookbackPeriod + 1 != 0
    requires forall j :: 0 <= j < |candles| ==> candles[j].close == c
    ensures Round2(Raw(candles, Multiplier(lookbackPeriod), i)) == Round2(c)
  {
    ConstantSeries(candles, Multiplier(lookbackPeriod), c, i);
  }

  /** `values.Where(m => m.TimeOfDay == t).FirstOrDefault()`: the first value stamped `t`, or
      None when there is none. */
  function FindEma(values: seq<EmaValue>, t: DateTime): (r: Option<EmaValue>)
    ensures r.None? <==> forall i :: 0 <= i < |values| ==> values[i].timeOfDay != t
    ensures r.Some? ==> exists i ::
      && 0 <= i < |values| && values[i] == r.value && r.value.timeOfDay == t
      && forall j :: 0 <= j < i ==> values[j].timeOfDay != t
  {
    if |values| == 0 then None
    else if values[0].timeOfDay == t then Some(values[0])
    else
      var r := FindEma(values[1..], t);
      assert forall i :: 1 <= i < |values| ==> values[i] == values[1..][i - 1];
      r
  }

  /** An EMA series computed over `candles` has a value at the timestamp of every candle. */
  lemma {:induction false} SeriesCoversCandles(candles: seq<Candle>, lookbackPeriod: int, series: seq<EmaValue>, i: nat)
    requires lookbackPeriod + 1 != 0 && |series| == |candles| && i < |candles|
    requires forall k :: 0 <= k < |candles| ==> series[k] == Point(candles, Multiplier(lookbackPeriod), k)
    ensures FindEma(series, candles[i].timeOfDay).Some?
  {
    assert series[i].timeOfDay == candles[i].timeOfDay;
  }
}
