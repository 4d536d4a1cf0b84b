/** The candle pipeline of Domain/Data/CandleDataProcessor.cs: raw rows to 1-minute candles
    (blank rows and Sundays skipped, a format error fatal, other row errors skipped), candles to
    N-minute bars, and bars to per-date sessions. */
module CandleDataProcessor {
  import opened Common
  import opened Candles

  /** The result of converting `lines` row by row, as the loop builds it. */
  function KeptRows(lines: seq<string>, parseDate: string -> Parsed<DateTime>, parseDecimal: string -> Parsed<real>)
    : Result<seq<Candle>>
    decreases |lines|
  {
    if lines == [] then Success([])
    else
      match KeptRows(lines[..|lines| - 1], parseDate, parseDecimal)
      case Failure(e) => Failure(e)
      case Success(cs) => RowStep(cs, lines[|lines| - 1], parseDate, parseDecimal)
  }

  /** One row: a blank row adds nothing; a parsed row adds its candle unless it is dated Sunday;
      a FormatException aborts; any other exception skips the row. */
  function RowStep(cs: seq<Candle>, line: string, parseDate: string -> Parsed<DateTime>, parseDecimal: string -> Parsed<real>)
    : Result<seq<Candle>>
  {
    if line == "" then Success(cs)
    else
      match ParseRow(line, parseDate, parseDecimal)
      case Success(c) => if IsSunday(c.timeOfDay) then Success(cs) else Success(cs + [c])
      case Failure(e) => if e == FormatException then Failure(FormatException) else Success(cs)
  }

  /** Row-level outcome: the candle a row contributes, on its own. */
  function RowCandles(line: string, parseDate: string -> Parsed<DateTime>, parseDecimal: string -> Parsed<real>)
    : Result<seq<Candle>>
  {
    RowStep([], line, parseDate, parseDecimal)
  }

  /** ConvertRawDataToCandleSticks. */
  method ConvertRawDataToCandleSticks(items: seq<string>, parseDate: string -> Parsed<DateTime>, parseDecimal: string -> Parsed<real>)
    returns (r: Result<seq<Candle>>)
    ensures r == KeptRows(items, parseDate, parseDecimal)
  {
    var candles: seq<Candle> := [];
    for i := 0 to |items|
      invariant KeptRows(items[..i], parseDate, parseDecimal) == Success(candles)
    {
      assert items[..i + 1][..i] == items[..i];
      var line := items[i];
      if line == "" {
        continue;
      }
      var row := ParseRow(line, parseDate, parseDecimal);
      match row {
        case Success(candle) =>
          if !IsSunday(candle.timeOfDay) {
            candles := candles + [candle];
          }
        case Failure(e) =>
          if e == FormatException {
            AbortPersists(items, i + 1, parseDate, parseDecimal);
            assert items[..i + 1] + items[i + 1..] == items;
            return Failure(FormatException);
          }
      }
    }
    assert items[..|items|] == items;
    r := Success(candles);
  }

  lemma {:induction false} AbortPersists(lines: seq<string>, i: nat, parseDate: string -> Parsed<DateTime>, parseDecimal: string -> Parsed<real>)
    requires i <= |lines| && KeptRows(lines[..i], parseDate, parseDecimal).Failure?
    ensures KeptRows(lines, parseDate, parseDecimal) == KeptRows(lines[..i], parseDate, parseDecimal)
    decreases |lines| - i
  {
    if i < |lines| {
      assert lines[..i + 1][..i] == lines[..i];
      AbortPersists(lines, i + 1, parseDate, parseDecimal);
    } else {
      assert lines[..i] == lines;
    }
  }

  /** Converting two blocks of rows one after the other gives the first block's candles followed by
      the second's (input order is kept), and aborts exactly when either block aborts. */
  lemma {:induction false} KeptRowsAppend(a: seq<string>, b: seq<string>, parseDate: string -> Parsed<DateTime>, parseDecimal: string -> Parsed<real>)
    ensures var ra, rb := KeptRows(a, parseDate, parseDecimal), KeptRows(b, parseDate, parseDecimal);
      KeptRows(a + b, parseDate, parseDecimal) == if ra.Success? && rb.Success? then Success(ra.value + rb.value) else Failure(FormatException)
    decreases |b|
  {
    var ra, rb := KeptRows(a, parseDate, parseDecimal), KeptRows(b, parseDate, parseDecimal);
    if b == [] {
      assert a + b == a;
      KeptRowsFailureIsFormat(a, parseDate, parseDecimal);
      if ra.Success? {
        assert ra.value + [] == ra.value;
      }
    } else {
      var b' := b[..|b| - 1];
      var line := b[|b| - 1];
      assert (a + b)[..|a + b| - 1] == a + b';
      assert (a + b)[|a + b| - 1] == line;
      KeptRowsAppend(a, b', parseDate, parseDecimal);
      var rb' := KeptRows(b', parseDate, parseDecimal);
      if ra.Success? && rb'.Success? {
        match ParseRow(line, parseDate, parseDecimal)
        case Success(c) =>
          if line != "" && !IsSunday(c.timeOfDay) {
            assert ra.value + rb'.value + [c] == ra.value + (rb'.value + [c]);
          }
        case Failure(e) =>
      }
    }
  }

  lemma {:induction false} KeptRowsFailureIsFormat(lines: seq<string>, parseDate: string -> Parsed<DateTime>, parseDecimal: string -> Parsed<real>)
    ensures KeptRows(lines, parseDate, parseDecimal).Failure? ==> KeptRows(lines, parseDate, parseDecimal).error == FormatException
    decreases |lines|
  {
    if lines != [] {
      KeptRowsFailureIsFormat(lines[..|lines| - 1], parseDate, parseDecimal);
    }
  }

  /** A row that aborts the whole parse: non-blank, and its parse raises FormatException. */
  predicate RowAborts(line: string, parseDate: string -> Parsed<DateTime>, parseDecimal: string -> Parsed<real>) {
    line != "" && ParseRow(line, parseDate, parseDecimal) == Failure(FormatException)
  }

  /** The whole parse aborts exactly when some non-blank row raises a FormatException. */
  lemma {:induction false} AbortsIffFormatError(lines: seq<string>, parseDate: string -> Parsed<DateTime>, parseDecimal: string -> Parsed<real>)
    ensures KeptRows(lines, parseDate, parseDecimal).Failure? <==>
      exists i :: 0 <= i < |lines| && RowAborts(lines[i], parseDate, parseDecimal)
    decreases |lines|
  {
    if lines != [] {
      var init := lines[..|lines| - 1];
      AbortsIffFormatError(init, parseDate, parseDecimal);
      assert KeptRows(lines, parseDate, parseDecimal).Failure? <==>
        KeptRows(init, parseDate, parseDecimal).Failure? || RowAborts(lines[|lines| - 1], parseDate, parseDecimal);
      SomeRowAbortsSplit(lines, parseDate, parseDecimal);
    }
  }

  /** Some row aborts exactly when some row before the last one does, or the last one does. */
  lemma SomeRowAbortsSplit(lines: seq<string>, parseDate: string -> Parsed<DateTime>, parseDecimal: string -> Parsed<real>)
    requires lines != []
    ensures var init := lines[..|lines| - 1];
      (exists i :: 0 <= i < |lines| && RowAborts(lines[i], parseDate, parseDecimal)) <==>
      (exists i :: 0 <= i < |init| && RowAborts(init[i], parseDate, parseDecimal)) || RowAborts(lines[|lines| - 1], parseDate, parseDecimal)
  {
    var init := lines[..|lines| - 1];
    if exists i :: 0 <= i < |init| && RowAborts(init[i], parseDate, parseDecimal) {
      var i :| 0 <= i < |init| && RowAborts(init[i], parseDate, parseDecimal);
      assert lines[i] == init[i];
    }
    if exists i :: 0 <= i < |lines| && RowAborts(lines[i], parseDate, parseDecimal) {
      var i :| 0 <= i < |lines| && RowAborts(lines[i], parseDate, parseDecimal);
      if i < |init| {
        assert init[i] == lines[i];
      }
    }
  }

  /** Every row yields at most one candle, so there are never more candles than non-blank rows;
      no kept candle is dated Sunday, and each one is what some row parses to. */
  lemma {:induction false} KeptRowsShape(lines: seq<string>, parseDate: string -> Parsed<DateTime>, parseDecimal: string -> Parsed<real>)
    requires KeptRows(lines, parseDate, parseDecimal).Success?
    ensures var cs := KeptRows(lines, parseDate, parseDecimal).value;
      && |cs| <= NonBlank(lines)
      && (forall k :: 0 <= k < |cs| ==> !IsSunday(cs[k].timeOfDay))
      && (forall k :: 0 <= k < |cs| ==> exists i :: 0 <= i < |lines| && lines[i] != "" && ParseRow(lines[i], parseDate, parseDecimal) == Success(cs[k]))
    decreases |lines|
  {
    if lines != [] {
      var init := lines[..|lines| - 1];
      KeptRowsShape(init, parseDate, parseDecimal);
      var prev := KeptRows(init, parseDate, parseDecimal).value;
      var cs := KeptRows(lines, parseDate, parseDecimal).value;
      assert NonBlank(lines) == NonBlank(init) + (if lines[|lines| - 1] == "" then 0 else 1);
      forall k | 0 <= k < |cs|
        ensures exists i :: 0 <= i < |lines| && lines[i] != "" && ParseRow(lines[i], parseDate, parseDecimal) == Success(cs[k])
      {
        if k < |prev| {
          assert cs[k] == prev[k];
          var i :| 0 <= i < |init| && init[i] != "" && ParseRow(init[i], parseDate, parseDecimal) == Success(prev[k]);
          assert lines[i] == init[i];
        } else {
          assert lines[|lines| - 1] != "";
        }
      }
    }
  }

  function NonBlank(lines: seq<string>): nat
    decreases |lines|
  {
    if lines == [] then 0 else NonBlank(lines[..|lines| - 1]) + (if lines[|lines| - 1] == "" then 0 else 1)
  }

  /** ConvertCandleTimeframe: consecutive groups of `timeframeMinutes` candles, each rolled into one
      bar. Grouping runs over the whole list, so a group may hold candles of two dates. */
  method ConvertCandleTimeframe(candles: seq<Candle>, timeframeMinutes: int) returns (r: Result<seq<Candle>>)
    ensures r.Failure? <==> |candles| == 0 || timeframeMinutes <= 0
    ensures r.Failure? ==> r.error == InvalidOperation
    ensures r.Success? ==> |r.value| == BarCount(|candles|, timeframeMinutes)
    ensures r.Success? ==> forall k :: 0 <= k < |r.value| ==> r.value[k] == BarAt(candles, timeframeMinutes, k)
  {
    if |candles| == 0 || timeframeMinutes <= 0 {
      // the do-while's first pass takes an empty group, and First() throws
      return Failure(InvalidOperation);
    }
    var tf: nat := timeframeMinutes;
    var newCandles: seq<Candle> := [];
    var skipCounter: nat := 0;
    // the first pass of the do-while runs with skipCounter == 0 < Count, as every pass of this loop does
    while skipCounter < |candles|
      invariant skipCounter == |newCandles| * tf
      invariant |newCandles| <= BarCount(|candles|, tf)
      invariant forall k :: 0 <= k < |newCandles| ==> newCandles[k] == BarAt(candles, tf, k)
      decreases |candles| - skipCounter
    {
      StartsInside(|candles|, tf, |newCandles|);
      MulSucc(|newCandles|, tf);
      var workingCandles := candles[skipCounter .. MinNat(skipCounter + tf, |candles|)];
      assert workingCandles == Window(candles, tf, |newCandles|);
      newCandles := newCandles + [Bar(workingCandles)];
      skipCounter := skipCounter + tf;
    }
    StartsPastEnd(|candles|, tf, |newCandles|);
    r := Success(newCandles);
  }

  /** SplitCandlesIntoSessions: a dictionary keyed by date, filled in input order. */
  method SplitCandlesIntoSessions(candles: seq<Candle>) returns (t: SessionTable)
    ensures IsSessionSplit(candles, t)
  {
    var keys: seq<int> := [];
    var sessions: map<int, seq<Candle>> := map[];
    for i := 0 to |candles|
      invariant IsSessionSplit(candles[..i], SessionTable(keys, sessions))
    {
      var candle := candles[i];
      var key := DateKey(candle.timeOfDay);
      assert candles[..i + 1][..i] == candles[..i];
      assert candles[..i + 1][i] == candle;
      if key in sessions {
        sessions := sessions[key := sessions[key] + [candle]];
      } else {
        OnDateAbsent(candles[..i], key);
        ghost var before := keys;
        keys := keys + [key];
        sessions := sessions[key := [candle]];
        assert (set k | k in keys) == (set k | k in before) + {key};
      }
    }
    assert candles[..|candles|] == candles;
    t := SessionTable(keys, sessions);
  }
}
