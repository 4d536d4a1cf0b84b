/** The StrategyEngine class of Domain/Strategy/StrategyEngine.cs: it runs every configured
    strategy over every session of the candle data, managing the open position, stopping a
    session after a win, and submitting the engine's own long and short trades. Each method is
    proved against the functions of the EngineReplay module. */
module StrategyEngine {
  import opened Common
  import opened Candles
  import opened Trading
  import opened Position
  import opened EngineReplay
  import opened Strategies
  import CandleDataProcessor

  /** What the engine prints for one replay: the strategy's name and starting balance, then the
      summary statistics. */
  datatype Report = Report(strategyName: string, startingAccountBalance: real, summary: Summary)

  /** A candle's outcome as the engine method returns it (the new counter and whether the session
      is over), together with the book the strategy is left holding. */
  function WithBook(r: Result<()>, count: nat, over: bool, b: Book): Result<Progress> {
    if r.Failure? then Failure(r.error) else Success(Progress(b, count, over))
  }

  /** A replay's outcome as the engine method returns it, together with the book the strategy is
      left holding. */
  function Settled(r: Result<()>, b: Book): Result<Book> {
    if r.Failure? then Failure(r.error) else Success(b)
  }

  class StrategyEngine {
    const strategyConfigs: seq<StrategyConfig>

    /** The constructor taking the configurations directly. */
    constructor(strategyConfigs: seq<StrategyConfig>)
      ensures this.strategyConfigs == strategyConfigs
    {
      this.strategyConfigs := strategyConfigs;
    }

    /** Run: for every configuration and, inside it, every strategy in list order, load the
        configuration, parse the candle data, load the strategy's EMA series and replay it. The
        EMA series are added to a dictionary that nothing clears, so the second configuration
        raises a duplicate-key error on the first strategy: with two or more configurations and
        at least one strategy the run fails, and no strategy is replayed under any configuration
        but the first. */
    method Run(strategies: seq<Strategy>, rawCandleData: seq<string>, parseDate: string -> Parsed<DateTime>,
               parseDecimal: string -> Parsed<real>, newGuid: nat -> Guid)
      returns (r: Result<()>, reports: seq<Report>)
      modifies strategies
      ensures |strategyConfigs| >= 2 && |strategies| >= 1 ==> r.Failure?
      ensures |reports| <= |strategies|
      ensures reports != [] ==> |strategyConfigs| >= 1 && forall k :: 0 <= k < |reports| ==>
        && reports[k].strategyName == strategyConfigs[0].name
        && reports[k].startingAccountBalance == strategyConfigs[0].startingAccountBalance
      ensures r.Success? ==> |reports| == if |strategyConfigs| == 0 then 0 else |strategies|
    {
      reports := [];
      for i := 0 to |strategyConfigs|
        invariant i >= 1 ==> forall k :: 0 <= k < |strategies| ==> 10 in strategies[k].emaIndicators
        invariant i >= 2 ==> |strategies| == 0
        invariant |reports| == if i == 0 then 0 else |strategies|
        invariant reports != [] ==> forall k :: 0 <= k < |reports| ==>
          && reports[k].strategyName == strategyConfigs[0].name
          && reports[k].startingAccountBalance == strategyConfigs[0].startingAccountBalance
      {
        var config := strategyConfigs[i];
        for j := 0 to |strategies|
          invariant i >= 1 ==> j == 0 && forall k :: 0 <= k < |strategies| ==> 10 in strategies[k].emaIndicators
          invariant i == 0 ==> forall k :: 0 <= k < j ==> 10 in strategies[k].emaIndicators
          invariant |reports| == if i == 0 then j else |strategies|
          invariant reports != [] ==> forall k :: 0 <= k < |reports| ==>
            && reports[k].strategyName == strategyConfigs[0].name
            && reports[k].startingAccountBalance == strategyConfigs[0].startingAccountBalance
        {
          var report := RunOne(strategies[j], config, rawCandleData, parseDate, parseDecimal, newGuid);
          if report.Failure? {
            r := Failure(report.error);
            return;
          }
          reports := reports + [report.value];
        }
      }
      r := Success(());
    }

    /** One strategy under one configuration: prepare it, then replay it, stopping at the first
        exception. The report carries the name and balance the replay starts with. */
    method RunOne(strategy: Strategy, config: StrategyConfig, rawCandleData: seq<string>,
                  parseDate: string -> Parsed<DateTime>, parseDecimal: string -> Parsed<real>, newGuid: nat -> Guid)
      returns (r: Result<Report>)
      modifies strategy
      ensures 10 in old(strategy.emaIndicators) ==> r.Failure?
      ensures r.Success? ==> 10 in strategy.emaIndicators
      ensures 10 in old(strategy.emaIndicators) ==> 10 in strategy.emaIndicators
      ensures r.Success? ==> r.value.strategyName == config.name && r.value.startingAccountBalance == config.startingAccountBalance
    {
      var prepared := Prepare(strategy, config, rawCandleData, parseDate, parseDecimal);
      if prepared.Failure? {
        return Failure(prepared.error);
      }
      var name, balance := strategy.name, strategy.accountBalance;
      var summary := StartLookingForTradeOpportunities(strategy, newGuid);
      if summary.Failure? {
        return Failure(summary.error);
      }
      r := Success(Report(name, balance, summary.value));
    }

    /** The chained LoadConfiguration, ParseCandleData (on the parsed rows) and
        LoadCustomStrategyStuff; the EMA series are added to the dictionary found, so a strategy
        that already holds them fails with a duplicate key. */
    method Prepare(strategy: Strategy, config: StrategyConfig, rawCandleData: seq<string>,
                   parseDate: string -> Parsed<DateTime>, parseDecimal: string -> Parsed<real>)
      returns (r: Result<()>)
      modifies strategy
      ensures 10 in old(strategy.emaIndicators) ==> r.Failure?
      ensures r.Success? ==> 10 in strategy.emaIndicators
      ensures 10 in old(strategy.emaIndicators) ==> 10 in strategy.emaIndicators
      ensures r.Success? ==> strategy.name == config.name && strategy.accountBalance == config.startingAccountBalance
    {
      var loaded := LoadData(strategy, config, rawCandleData, parseDate, parseDecimal);
      if loaded.Failure? {
        return Failure(loaded.error);
      }
      r := strategy.LoadStrategySpecificSettings();
    }

    /** LoadConfiguration, then ParseCandleData on the parsed rows. */
    method LoadData(strategy: Strategy, config: StrategyConfig, rawCandleData: seq<string>,
                    parseDate: string -> Parsed<DateTime>, parseDecimal: string -> Parsed<real>)
      returns (r: Result<()>)
      modifies strategy`id, strategy`initialAccountBalance, strategy`initialStopLoss, strategy`accountBalance,
        strategy`contracts, strategy`strategyConfig, strategy`pricePerTick, strategy`name, strategy`description,
        strategy`maxTradesPerSession, strategy`timeframe, strategy`stopTradingAfterWinning,
        strategy`trailStopToBreakeven, strategy`trailStopToHalfStop, strategy`tradingWindowEndTime,
        strategy`tradingWindowStartTime, strategy`allowedOrderEntryWindowStartTime,
        strategy`allowedOrderEntryWindowEndTime, strategy`candles, strategy`availableSessions
      ensures r.Success? ==> strategy.name == config.name && strategy.accountBalance == config.startingAccountBalance
    {
      var loaded := strategy.LoadConfiguration(config);
      if loaded.Failure? {
        return Failure(loaded.error);
      }
      var oneMinute := CandleDataProcessor.ConvertRawDataToCandleSticks(rawCandleData, parseDate, parseDecimal);
      if oneMinute.Failure? {
        return Failure(oneMinute.error);
      }
      r := strategy.ParseCandleData(oneMinute.value);
    }

    /** StartLookingForTradeOpportunities: replay every session in the table's order, then
        compute the summary statistics. */
    method StartLookingForTradeOpportunities(strategy: Strategy, newGuid: nat -> Guid) returns (r: Result<Summary>)
      modifies strategy`status, strategy`accountBalance, strategy`statistics, strategy`trades, strategy`events,
        strategy`isLongExtreme, strategy`isShortExtreme
      ensures var spec := Sessions(old(strategy.Snapshot()), strategy.Config(), strategy.availableSessions, newGuid,
                                   |strategy.availableSessions.keys|);
        && (spec.Failure? ==> r == Failure(spec.error))
        && (spec.Success? ==> strategy.Snapshot() == spec.value && r == Summarize(spec.value, strategy.initialAccountBalance))
    {
      var played := PlaySessions(strategy, newGuid);
      if played.Failure? {
        return Failure(played.error);
      }
      r := Summarize(strategy.Snapshot(), strategy.initialAccountBalance);
    }

    /** Every session of the table, in key order, until one raises. */
    method PlaySessions(strategy: Strategy, newGuid: nat -> Guid) returns (r: Result<()>)
      modifies strategy`status, strategy`accountBalance, strategy`statistics, strategy`trades, strategy`events,
        strategy`isLongExtreme, strategy`isShortExtreme
      ensures Settled(r, strategy.Snapshot())
              == Sessions(old(strategy.Snapshot()), strategy.Config(), strategy.availableSessions, newGuid,
                          |strategy.availableSessions.keys|)
    {
      ghost var b0 := strategy.Snapshot();
      var table := strategy.availableSessions;
      var m := 0;
      r := Success(());
      while m < |table.keys| && r.Success?
        invariant m <= |table.keys|
        invariant Sessions(b0, strategy.Config(), table, newGuid, m) == Settled(r, strategy.Snapshot())
      {
        var key := table.keys[m];
        r := PlaySession(strategy, key, SessionCandles(table, key), newGuid);
        m := m + 1;
      }
      if m < |table.keys| {
        SessionsFailurePersists(b0, strategy.Config(), table, newGuid, m, |table.keys|);
      }
    }

    /** One session: the counter starts at zero and every candle is processed in order until one
        finds a win dated on the session. */
    method PlaySession(strategy: Strategy, key: int, candles: seq<Candle>, newGuid: nat -> Guid) returns (r: Result<()>)
      modifies strategy`status, strategy`accountBalance, strategy`statistics, strategy`trades, strategy`events,
        strategy`isLongExtreme, strategy`isShortExtreme
      ensures strategy.Config() == old(strategy.Config())
      ensures var spec := Session(old(strategy.Snapshot()), strategy.Config(), key, candles, newGuid, |candles|);
        && (r.Failure? <==> spec.Failure?)
        && (r.Failure? ==> r.error == spec.error)
        && (r.Success? ==> strategy.Snapshot() == spec.value.book)
    {
      ghost var b0 := strategy.Snapshot();
      var sessionTradeCount: nat := 0;
      var over := false;
      var k := 0;
      r := Success(());
      while k < |candles| && r.Success? && !over
        invariant k <= |candles|
        invariant Session(b0, strategy.Config(), key, candles, newGuid, k) == WithBook(r, sessionTradeCount, over, strategy.Snapshot())
      {
        r, sessionTradeCount, over := ProcessCandle(strategy, key, sessionTradeCount, candles[k], newGuid);
        k := k + 1;
      }
      SessionEnds(b0, strategy.Config(), key, candles, newGuid, k, WithBook(r, sessionTradeCount, over, strategy.Snapshot()));
    }

    /** One candle: manage the open position while in the market, report a win dated on the
        session, else try the long entry and then the short one; returns the new counter and
        whether the session is over. */
    method ProcessCandle(strategy: Strategy, key: int, count: nat, candle: Candle, newGuid: nat -> Guid)
      returns (r: Result<()>, newCount: nat, over: bool)
      modifies strategy`status, strategy`accountBalance, strategy`statistics, strategy`trades, strategy`events,
        strategy`isLongExtreme, strategy`isShortExtreme
      ensures strategy.Config() == old(strategy.Config())
      ensures WithBook(r, newCount, over, strategy.Snapshot()) == CandleStep(old(strategy.Snapshot()), strategy.Config(), key, count, candle, newGuid)
    {
      newCount, over := count, false;
      r := Manage(strategy, candle);
      if r.Failure? {
        return;
      }
      if WinsOn(strategy.trades, key) > 0 {
        over := true;
        return;
      }
      var enteredLong := Enter(strategy, count, candle, newGuid, true);
      if enteredLong.Failure? {
        r := Failure(enteredLong.error);
        return;
      }
      var enteredShort := Enter(strategy, count, candle, newGuid, false);
      if enteredShort.Failure? {
        r := Failure(enteredShort.error);
        return;
      }
      if enteredShort.value {
        newCount := count + 1;
      }
    }

    /** CheckOpenPosition while in the market. */
    method Manage(strategy: Strategy, candle: Candle) returns (r: Result<()>)
      modifies strategy`status, strategy`accountBalance, strategy`statistics, strategy`trades, strategy`events,
        strategy`isLongExtreme, strategy`isShortExtreme
      ensures var spec := ManageStep(old(strategy.Snapshot()), strategy.Config(), candle);
        && (r.Failure? <==> spec.Failure?)
        && (r.Failure? ==> r.error == spec.error)
        && (r.Success? ==> strategy.Snapshot() == spec.value)
    {
      r := Success(());
      if strategy.status == InTheMarket {
        r := strategy.CheckOpenPosition(candle);
      }
    }

    /** Ask the long (or short) entry condition and submit the engine's trade of that direction
        when it fires while the counter is below the session maximum; says whether it did. */
    method Enter(strategy: Strategy, count: nat, candle: Candle, newGuid: nat -> Guid, long: bool) returns (r: Result<bool>)
      modifies strategy`trades, strategy`status, strategy`events, strategy`isLongExtreme, strategy`isShortExtreme
      ensures var spec := TryEntry(old(strategy.Snapshot()), strategy.Config(), count, candle, newGuid, long);
        && (r.Failure? <==> spec.Failure?)
        && (r.Failure? ==> r.error == spec.error)
        && (r.Success? ==> r.value == spec.value.0 && strategy.Snapshot() == spec.value.1)
    {
      var fire;
      if long {
        fire :- strategy.LongEntryCondition(candle);
      } else {
        fire :- strategy.ShortEntryCondition(candle);
      }
      if fire && count < strategy.maxTradesPerSession {
        strategy.ExecuteTrade(NewTrade(long, candle, strategy.contracts, newGuid, |strategy.trades|));
        return Success(true);
      }
      r := Success(false);
    }
  }
}
