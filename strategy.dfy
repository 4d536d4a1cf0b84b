/** The Strategy class of Domain/Strategy/Strategy.cs together with the state of its two concrete
    strategies (Application/Strategies). Every method changes the object's fields in place and is
    proved against the functions of the Position module. */
module Strategies {
  import opened Common
  import opened Candles
  import opened Ema
  import opened Trading
  import opened Position
  import CandleDataProcessor

  /** `Where(m => start <= m.TimeOfDay.TimeOfDay <= end)`: the candles whose time of day lies in the
      window, both ends included, in input order. */
  function WithinWindow(cs: seq<Candle>, start: int, end: int): (r: seq<Candle>)
    ensures forall c :: c in r ==> c in cs && start <= c.timeOfDay.secondOfDay <= end
    ensures forall c :: c in cs && start <= c.timeOfDay.secondOfDay <= end ==> c in r
    ensures |r| <= |cs|
    decreases |cs|
  {
    if cs == [] then []
    else
      var init := WithinWindow(cs[..|cs| - 1], start, end);
      var last := cs[|cs| - 1];
      assert forall c :: c in cs ==> c in cs[..|cs| - 1] || c == last;
      if start <= last.timeOfDay.secondOfDay <= end then init + [last] else init
  }

  /** The filter keeps input order and repeats: filtering two blocks one after the other gives
      the first block's kept candles followed by the second's. */
  lemma {:induction false} WithinWindowAppend(a: seq<Candle>, b: seq<Candle>, start: int, end: int)
    ensures WithinWindow(a + b, start, end) == WithinWindow(a, start, end) + WithinWindow(b, start, end)
    decreases |b|
  {
    if b == [] {
      assert a + b == a;
    } else {
      var b0, last := b[..|b| - 1], b[|b| - 1];
      var kept := if start <= last.timeOfDay.secondOfDay <= end then [last] else [];
      assert (a + b)[..|a + b| - 1] == a + b0 && (a + b)[|a + b| - 1] == last;
      assert WithinWindow(b, start, end) == WithinWindow(b0, start, end) + kept;
      assert WithinWindow(a + b, start, end) == WithinWindow(a + b0, start, end) + kept;
      WithinWindowAppend(a, b0, start, end);
    }
  }

  /** A single candle is kept exactly when its time of day lies in the window. */
  lemma WithinWindowSingle(c: Candle, start: int, end: int)
    ensures WithinWindow([c], start, end) == if start <= c.timeOfDay.secondOfDay <= end then [c] else []
  {
    assert [c][..0] == [];
  }

  /** Seconds since midnight of an hour and a minute, as a TimeSpan. */
  function Seconds(hour: int, minute: int): int {
    hour * 3600 + minute * 60
  }

  class Strategy {
    var id: Guid
    var name: string
    var description: string
    var pricePerTick: real
    var timeframe: int
    var tradingWindowStartTime: TimeOnly
    var tradingWindowEndTime: TimeOnly
    var allowedOrderEntryWindowStartTime: TimeOnly
    var allowedOrderEntryWindowEndTime: TimeOnly
    var statistics: StrategyStatistics
    var contracts: int
    var accountBalance: real
    var initialAccountBalance: real
    var trades: seq<Trade>
    var status: StrategyStatus
    var initialStopLoss: real
    var maxTradesPerSession: int
    var stopTradingAfterWinning: bool
    var trailStopToBreakeven: bool
    var trailStopToHalfStop: bool
    var candles: seq<Candle>
    var strategyConfig: Option<StrategyConfig>
    var availableSessions: SessionTable
    /** The published events, oldest first. */
    var events: seq<Event>

    /** Which concrete strategy this object is, with that strategy's own fields. */
    const kind: PolicyKind
    var emaIndicators: map<int, seq<EmaValue>>
    var isLongExtreme: bool
    var isShortExtreme: bool

    /** The fields trading changes. */
    function Snapshot(): Book
      reads this`status, this`accountBalance, this`statistics, this`trades, this`events,
        this`isLongExtreme, this`isShortExtreme
    {
      Book(status, accountBalance, statistics, trades, events, isLongExtreme, isShortExtreme)
    }

    /** The fields trading only reads. */
    function Config(): Settings
      reads this`pricePerTick, this`initialStopLoss, this`trailStopToBreakeven, this`trailStopToHalfStop,
        this`contracts, this`maxTradesPerSession, this`emaIndicators
    {
      Settings(kind, pricePerTick, initialStopLoss, trailStopToBreakeven, trailStopToHalfStop,
               contracts, maxTradesPerSession, emaIndicators)
    }

    /** The parameterless constructors: out of the market, no trades, empty statistics and no EMA
        series. */
    constructor(kind: PolicyKind)
      ensures this.kind == kind
      ensures status == OutOfTheMarket && trades == [] && events == []
      ensures statistics == NoStatistics && emaIndicators == map[]
      ensures !isLongExtreme && !isShortExtreme
      ensures accountBalance == 0.0 && initialAccountBalance == 0.0
    {
      this.kind := kind;
      id := 0;
      name := "";
      description := "";
      pricePerTick := 0.0;
      timeframe := 0;
      tradingWindowStartTime := Midnight;
      tradingWindowEndTime := Midnight;
      allowedOrderEntryWindowStartTime := Midnight;
      allowedOrderEntryWindowEndTime := Midnight;
      statistics := NoStatistics;
      contracts := 0;
      accountBalance := 0.0;
      initialAccountBalance := 0.0;
      trades := [];
      status := OutOfTheMarket;
      initialStopLoss := 0.0;
      maxTradesPerSession := 0;
      stopTradingAfterWinning := false;
      trailStopToBreakeven := false;
      trailStopToHalfStop := false;
      candles := [];
      strategyConfig := None;
      availableSessions := SessionTable([], map[]);
      events := [];
      emaIndicators := map[];
      isLongExtreme := false;
      isShortExtreme := false;
    }

    // -------------------------------------------------------------------------------------------
    // Configuration and candle data

    /** LoadConfiguration: copy the configuration's settings (balances, stop, contracts, limits,
        trailing flags) and set the four window times two hours later than configured. The times
        are built end, start, entry start, entry end; the first one that is not a valid time of
        day raises ArgumentOutOfRangeException with the settings already copied. Status, trades,
        statistics and the concrete strategy's fields are left as they are. */
    method LoadConfiguration(config: StrategyConfig) returns (r: Result<()>)
      modifies this`id, this`initialAccountBalance, this`initialStopLoss, this`accountBalance,
        this`contracts, this`strategyConfig, this`pricePerTick, this`name, this`description,
        this`maxTradesPerSession, this`timeframe, this`stopTradingAfterWinning,
        this`trailStopToBreakeven, this`trailStopToHalfStop, this`tradingWindowEndTime,
        this`tradingWindowStartTime, this`allowedOrderEntryWindowStartTime,
        this`allowedOrderEntryWindowEndTime
      ensures SettingsCopied(config)
      ensures r.Failure? ==> r.error == ArgumentOutOfRange
      ensures var e, st := config.tradingWindowEndTime, config.tradingWindowStartTime;
        var ae, ast := config.executionSettings.allowedOrderEntryWindowEndTime, config.executionSettings.allowedOrderEntryWindowStartTime;
        && (r.Success? <==> NewTimeOnly(e.hour + 2, e.minute).Success? && NewTimeOnly(st.hour + 2, st.minute).Success?
                            && NewTimeOnly(ast.hour + 2, ast.minute).Success? && NewTimeOnly(ae.hour + 2, ae.minute).Success?)
        && (r.Success? ==> && tradingWindowEndTime == TimeOnly(e.hour + 2, e.minute)
                           && tradingWindowStartTime == TimeOnly(st.hour + 2, st.minute)
                           && allowedOrderEntryWindowStartTime == TimeOnly(ast.hour + 2, ast.minute)
                           && allowedOrderEntryWindowEndTime == TimeOnly(ae.hour + 2, ae.minute))
    {
      CopyAccountSettings(config);
      CopyDescriptiveSettings(config);
      CopyTradingFlags(config);
      r := SetWindowTimes(config);
    }

    /** The settings LoadConfiguration copies from a configuration, before the window times. */
    predicate SettingsCopied(config: StrategyConfig)
      reads this`id, this`initialAccountBalance, this`initialStopLoss, this`accountBalance,
        this`contracts, this`strategyConfig, this`pricePerTick, this`name, this`description,
        this`maxTradesPerSession, this`timeframe, this`stopTradingAfterWinning,
        this`trailStopToBreakeven, this`trailStopToHalfStop
    {
      && id == config.id && name == config.name && description == config.description
      && initialAccountBalance == config.startingAccountBalance && accountBalance == config.startingAccountBalance
      && initialStopLoss == config.executionSettings.initialStopLoss as real
      && contracts == config.executionSettings.contracts && pricePerTick == config.pricePerTick
      && strategyConfig == Some(config)
      && maxTradesPerSession == config.maxTradesPerSession && timeframe == config.timeframe
      && stopTradingAfterWinning == config.stopTradingAfterWinning
      && trailStopToBreakeven == config.executionSettings.trailStopToBreakeven
      && trailStopToHalfStop == config.executionSettings.trailStopToHalfStop
    }

    /** LoadConfiguration's first assignments: identity, balances, stop and contracts. */
    method CopyAccountSettings(config: StrategyConfig)
      modifies this`id, this`initialAccountBalance, this`initialStopLoss, this`accountBalance, this`contracts
      ensures id == config.id && initialAccountBalance == config.startingAccountBalance
      ensures initialStopLoss == config.executionSettings.initialStopLoss as real
      ensures accountBalance == config.startingAccountBalance && contracts == config.executionSettings.contracts
    {
      id := config.id;
      initialAccountBalance := config.startingAccountBalance;
      initialStopLoss := config.executionSettings.initialStopLoss as real;
      accountBalance := config.startingAccountBalance;
      contracts := config.executionSettings.contracts;
    }

    /** LoadConfiguration's next assignments: the configuration itself, tick value, name,
        description and the per-session trade limit. */
    method CopyDescriptiveSettings(config: StrategyConfig)
      modifies this`strategyConfig, this`pricePerTick, this`name, this`description, this`maxTradesPerSession
      ensures strategyConfig == Some(config) && pricePerTick == config.pricePerTick
      ensures name == config.name && description == config.description
      ensures maxTradesPerSession == config.maxTradesPerSession
    {
      strategyConfig := Some(config);
      pricePerTick := config.pricePerTick;
      name := config.name;
      description := config.description;
      maxTradesPerSession := config.maxTradesPerSession;
    }

    /** LoadConfiguration's last plain assignments: timeframe and the three trading flags. */
    method CopyTradingFlags(config: StrategyConfig)
      modifies this`timeframe, this`stopTradingAfterWinning, this`trailStopToBreakeven, this`trailStopToHalfStop
      ensures timeframe == config.timeframe && stopTradingAfterWinning == config.stopTradingAfterWinning
      ensures trailStopToBreakeven == config.executionSettings.trailStopToBreakeven
      ensures trailStopToHalfStop == config.executionSettings.trailStopToHalfStop
    {
      timeframe := config.timeframe;
      stopTradingAfterWinning := config.stopTradingAfterWinning;
      trailStopToBreakeven := config.executionSettings.trailStopToBreakeven;
      trailStopToHalfStop := config.executionSettings.trailStopToHalfStop;
    }

    /** The four window times of LoadConfiguration, each two hours after the configured one, built
        in the order end, start, entry start, entry end. */
    method SetWindowTimes(config: StrategyConfig) returns (r: Result<()>)
      modifies this`tradingWindowEndTime, this`tradingWindowStartTime,
        this`allowedOrderEntryWindowStartTime, this`allowedOrderEntryWindowEndTime
      ensures r.Failure? ==> r.error == ArgumentOutOfRange
      ensures var e, st := config.tradingWindowEndTime, config.tradingWindowStartTime;
        var ae, ast := config.executionSettings.allowedOrderEntryWindowEndTime, config.executionSettings.allowedOrderEntryWindowStartTime;
        && (r.Success? <==> NewTimeOnly(e.hour + 2, e.minute).Success? && NewTimeOnly(st.hour + 2, st.minute).Success?
                            && NewTimeOnly(ast.hour + 2, ast.minute).Success? && NewTimeOnly(ae.hour + 2, ae.minute).Success?)
        && (r.Success? ==> && tradingWindowEndTime == TimeOnly(e.hour + 2, e.minute)
                           && tradingWindowStartTime == TimeOnly(st.hour + 2, st.minute)
                           && allowedOrderEntryWindowStartTime == TimeOnly(ast.hour + 2, ast.minute)
                           && allowedOrderEntryWindowEndTime == TimeOnly(ae.hour + 2, ae.minute))
    {
      var e, st := config.tradingWindowEndTime, config.tradingWindowStartTime;
      var ae, ast := config.executionSettings.allowedOrderEntryWindowEndTime, config.executionSettings.allowedOrderEntryWindowStartTime;
      tradingWindowEndTime :- NewTimeOnly(e.hour + 2, e.minute);
      tradingWindowStartTime :- NewTimeOnly(st.hour + 2, st.minute);
      allowedOrderEntryWindowStartTime :- NewTimeOnly(ast.hour + 2, ast.minute);
      allowedOrderEntryWindowEndTime :- NewTimeOnly(ae.hour + 2, ae.minute);
      r := Success(());
    }

    /** ParseCandleData: roll the 1-minute candles up to the strategy's timeframe over the whole
        list, keep the bars whose time of day lies between the start time and the end hour (minute
        zero), both included, and split those into per-date sessions. */
    method ParseCandleData(oneMinute: seq<Candle>) returns (r: Result<()>)
      modifies this`candles, this`availableSessions
      ensures r.Failure? <==> |oneMinute| == 0 || timeframe <= 0
      ensures r.Failure? ==> r.error == InvalidOperation && candles == old(candles)
      ensures r.Success? ==> |candles| == BarCount(|oneMinute|, timeframe)
      ensures r.Success? ==> forall k :: 0 <= k < |candles| ==> candles[k] == BarAt(oneMinute, timeframe, k)
      ensures r.Success? ==> IsSessionSplit(WithinWindow(candles, WindowStart(), WindowEnd()), availableSessions)
      ensures r.Success? ==> forall key, c :: key in availableSessions.sessions && c in availableSessions.sessions[key] ==>
        WindowStart() <= c.timeOfDay.secondOfDay <= WindowEnd() && DateKey(c.timeOfDay) == key
    {
      var bars :- CandleDataProcessor.ConvertCandleTimeframe(oneMinute, timeframe);
      candles := bars;
      var start := Seconds(tradingWindowStartTime.hour, tradingWindowStartTime.minute);
      var end := Seconds(tradingWindowEndTime.hour, 0);
      var inWindow := WithinWindow(candles, start, end);
      availableSessions := CandleDataProcessor.SplitCandlesIntoSessions(inWindow);
      forall key | key in availableSessions.sessions
        ensures forall c :: c in availableSessions.sessions[key] ==> c in inWindow && DateKey(c.timeOfDay) == key
      {
        OnDateMembers(inWindow, key);
      }
      r := Success(());
    }

    /** The window's start as seconds since midnight: its hour and minute. */
    function WindowStart(): int
      reads this
    {
      Seconds(tradingWindowStartTime.hour, tradingWindowStartTime.minute)
    }

    /** The window's end as seconds since midnight: its hour only; the minute is dropped. */
    function WindowEnd(): int
      reads this
    {
      Seconds(tradingWindowEndTime.hour, 0)
    }

    /** LoadStrategySpecificSettings (LoadCustomStrategyStuff in PriceExtremeStrategy): add the
        10- and the 20-period EMA of the timeframe candles, in that order; Dictionary.Add raises
        ArgumentException on a key already present. */
    method LoadStrategySpecificSettings() returns (r: Result<()>)
      modifies this`emaIndicators
      ensures r.Failure? <==> 10 in old(emaIndicators) || 20 in old(emaIndicators)
      ensures r.Failure? ==> r.error == DuplicateKey
      ensures 10 in old(emaIndicators) ==> emaIndicators == old(emaIndicators)
      ensures r.Success? ==> emaIndicators == old(emaIndicators)[10 := Series(candles, 10)][20 := Series(candles, 20)]
    {
      var ema10 := Ema.Calculate(candles, 10);
      if 10 in emaIndicators {
        return Failure(DuplicateKey);
      }
      emaIndicators := emaIndicators[10 := ema10.value];
      var ema20 := Ema.Calculate(candles, 20);
      if 20 in emaIndicators {
        return Failure(DuplicateKey);
      }
      emaIndicators := emaIndicators[20 := ema20.value];
      r := Success(());
    }

    // -------------------------------------------------------------------------------------------
    // Balances and events

    /** UpdateAccountBalances. */
    method UpdateAccountBalances(profitAndLoss: real)
      modifies this`accountBalance, this`statistics
      ensures Snapshot() == Position.UpdateAccountBalances(old(Snapshot()), profitAndLoss)
    {
      accountBalance := accountBalance + profitAndLoss;
      statistics := statistics.(totalProfit := statistics.totalProfit + (if profitAndLoss > 0.0 then profitAndLoss else 0.0));
      statistics := statistics.(totalLosses := statistics.totalLosses + (if profitAndLoss < 0.0 then profitAndLoss else 0.0));
    }

    /** ResetSessionSettings: the two-step policy clears both of its flags. */
    method ResetSessionSettings()
      modifies this`isLongExtreme, this`isShortExtreme
      ensures Snapshot() == Position.ResetSessionSettings(old(Snapshot()), kind)
    {
      if kind == EnterAfterPriceExtremeAndEmaClose {
        isShortExtreme := false;
        isLongExtreme := false;
      }
    }

    /** OnTradeCreated: enter the market and publish TradeCreated. */
    method OnTradeCreated(trade: Trade)
      modifies this`status, this`events
      ensures status == InTheMarket
      ensures events == old(events) + [TradeCreated(trade)]
    {
      status := InTheMarket;
      events := events + [TradeCreated(trade)];
    }

    /** ExecuteTrade: append the trade, then OnTradeCreated. */
    method ExecuteTrade(trade: Trade)
      modifies this`trades, this`status, this`events
      ensures Snapshot() == Position.ExecuteTrade(old(Snapshot()), trade)
    {
      trades := trades + [trade];
      OnTradeCreated(trade);
    }

    /** OnTradeClosed for trade `idx`. */
    method OnTradeClosed(idx: nat)
      requires idx < |trades|
      modifies this`isLongExtreme, this`isShortExtreme, this`status, this`trades, this`events
      ensures Snapshot() == Position.OnTradeClosed(old(Snapshot()), kind, idx)
    {
      ResetSessionSettings();
      status := OutOfTheMarket;
      if trades[idx].profit > 0.0 {
        trades := trades[idx := trades[idx].(outcome := Win)];
      }
      events := events + [TradeClosed(trades[idx], accountBalance)];
    }

    // -------------------------------------------------------------------------------------------
    // Stop loss and profit targets

    /** ProcessStopLossHit for trade `idx`. */
    method ProcessStopLossHit(idx: nat, candle: Candle)
      requires idx < |trades| && trades[idx].stopLoss.Some?
      modifies this`trades, this`accountBalance, this`statistics, this`events
      ensures Snapshot() == Position.ProcessStopLossHit(old(Snapshot()), Config(), idx, candle)
    {
      var pendingTrade := trades[idx];
      var stop := pendingTrade.stopLoss.value;
      var isBreakEven := stop.orderPrice == pendingTrade.initialEntryPrice;
      var loss := if isBreakEven then 0.0
                  else Abs(stop.orderPrice - pendingTrade.initialEntryPrice) * (pricePerTick * 4.0) * pendingTrade.contracts as real * -1.0;
      assert loss == StopLossAmount(pendingTrade, pricePerTick);
      var closedStop := stop.(closingDate := Some(candle.timeOfDay));
      trades := trades[idx := pendingTrade.(stopLoss := Some(closedStop),
                                             outcome := if isBreakEven then Breakeven else Loss,
                                             profit := pendingTrade.profit + loss)];
      UpdateAccountBalances(loss);
      events := events + [StopLossHit(pendingTrade.id, closedStop, if loss == 0.0 then Breakeven else StoppedOut, loss)];
    }

    /** ProcessProfitTargetHit for target `j` of trade `idx`. */
    method ProcessProfitTargetHit(idx: nat, j: nat, candle: Candle) returns (r: Result<()>)
      requires idx < |trades| && j < |trades[idx].profitTargets|
      modifies this`trades, this`accountBalance, this`statistics, this`events
      ensures var spec := Position.ProcessProfitTargetHit(old(Snapshot()), Config(), idx, j, candle);
        && (r.Failure? <==> spec.Failure?)
        && (r.Failure? ==> r.error == NullReference)
        && (r.Success? ==> Snapshot() == spec.value)
    {
      ghost var t0 := trades[idx];
      var profit, closedTarget := FillProfitTarget(idx, j, candle);
      assert TrailStop(Config(), trades[idx]) == TrailStop(Config(), t0);
      r := TrailStopLoss(idx);
      if r.Failure? {
        return;
      }
      events := events + [ProfitTargetHit(trades[idx].id, closedTarget, profit, Win)];
    }

    /** The first half of ProcessProfitTargetHit: the fill of target `j`, up to and including
        UpdateAccountBalances. */
    method FillProfitTarget(idx: nat, j: nat, candle: Candle) returns (profit: real, closedTarget: Order)
      requires idx < |trades| && j < |trades[idx].profitTargets|
      modifies this`trades, this`accountBalance, this`statistics
      ensures Snapshot() == Position.FillTarget(old(Snapshot()), Config(), idx, j, candle)
      ensures profit == TargetProfit(old(trades)[idx].profitTargets[j], old(trades)[idx], pricePerTick)
      ensures closedTarget == trades[idx].profitTargets[j]
    {
      var pendingTrade := trades[idx];
      var target := pendingTrade.profitTargets[j];
      profit := Abs(target.orderPrice - pendingTrade.initialEntryPrice) * (pricePerTick * 4.0) * target.contracts as real;
      assert profit == TargetProfit(target, pendingTrade, pricePerTick);
      closedTarget := target.(closingDate := Some(candle.timeOfDay));
      trades := trades[idx := pendingTrade.(contracts := pendingTrade.contracts - target.contracts,
                                             profit := pendingTrade.profit + profit,
                                             profitTargets := pendingTrade.profitTargets[j := closedTarget])];
      UpdateAccountBalances(profit);
    }

    /** The second half of ProcessProfitTargetHit: trail the stop of trade `idx`. */
    method TrailStopLoss(idx: nat) returns (r: Result<()>)
      requires idx < |trades|
      modifies this`trades
      ensures var spec := TrailStop(Config(), old(trades)[idx]);
        && (r.Failure? <==> spec.Failure?)
        && (r.Failure? ==> r.error == NullReference)
        && (r.Success? ==> trades == old(trades)[idx := old(trades)[idx].(stopLoss := spec.value)])
    {
      var t := trades[idx];
      if trailStopToBreakeven {
        if t.stopLoss.None? {
          return Failure(NullReference);
        }
        trades := trades[idx := t.(stopLoss := Some(t.stopLoss.value.(orderPrice := t.initialEntryPrice)))];
      } else if trailStopToHalfStop {
        if t.stopLoss.None? {
          return Failure(NullReference);
        }
        if t.tradeDirection == Long {
          trades := trades[idx := t.(stopLoss := Some(t.stopLoss.value.(orderPrice := t.stopLoss.value.orderPrice + initialStopLoss / 2.0)))];
        } else {
          trades := trades[idx := t.(stopLoss := Some(t.stopLoss.value.(orderPrice := t.stopLoss.value.orderPrice - initialStopLoss / 2.0)))];
        }
      }
      r := Success(());
    }

    /** CheckLongForStopLoss (`long`) and CheckShortForStopLoss. */
    method CheckForStopLoss(idx: nat, candle: Candle, long: bool)
      requires idx < |trades|
      modifies this`trades, this`accountBalance, this`statistics, this`events, this`status,
        this`isLongExtreme, this`isShortExtreme
      ensures Snapshot() == Position.CheckForStopLoss(old(Snapshot()), Config(), idx, candle, long)
    {
      if StopHit(long, trades[idx].stopLoss, candle) {
        ProcessStopLossHit(idx, candle);
        OnTradeClosed(idx);
      }
    }

    /** CheckLongForProfitTarget (`long`) and CheckShortForProfitTarget: one pass over the targets
        in list order, skipping those already closed. */
    method CheckForProfitTarget(idx: nat, candle: Candle, long: bool) returns (r: Result<()>)
      requires idx < |trades|
      modifies this`trades, this`accountBalance, this`statistics, this`events, this`status,
        this`isLongExtreme, this`isShortExtreme
      ensures var spec := Position.CheckForProfitTarget(old(Snapshot()), Config(), idx, candle, long, |old(trades)[idx].profitTargets|);
        && (r.Failure? <==> spec.Failure?)
        && (r.Failure? ==> r.error == NullReference)
        && (r.Success? ==> Snapshot() == spec.value)
    {
      ghost var b0 := Snapshot();
      var n := |trades[idx].profitTargets|;
      for j := 0 to n
        invariant idx < |trades| && |trades[idx].profitTargets| == n
        invariant Position.CheckForProfitTarget(b0, Config(), idx, candle, long, j) == Success(Snapshot())
      {
        ghost var before := Snapshot();
        var pass := TargetPass(idx, j, candle, long);
        if pass.Failure? {
          TargetFailurePersists(b0, Config(), idx, candle, long, j + 1, n);
          return pass;
        }
        assert Position.CheckForProfitTarget(b0, Config(), idx, candle, long, j + 1) == TargetStep(before, Config(), idx, candle, long, j);
      }
      r := Success(());
    }

    /** One pass of the target loop over target `j`. */
    method TargetPass(idx: nat, j: nat, candle: Candle, long: bool) returns (r: Result<()>)
      requires idx < |trades| && j < |trades[idx].profitTargets|
      modifies this`trades, this`accountBalance, this`statistics, this`events, this`status,
        this`isLongExtreme, this`isShortExtreme
      ensures Config() == old(Config())
      ensures var spec := TargetStep(old(Snapshot()), Config(), idx, candle, long, j);
        && (r.Failure? <==> spec.Failure?)
        && (r.Failure? ==> r.error == NullReference)
        && (r.Success? ==> Snapshot() == spec.value)
    {
      r := Success(());
      if trades[idx].profitTargets[j].closingDate.None? {
        r := FillIfHit(idx, j, candle, long);
        if r.Success? {
          CloseIfFlat(idx);
        }
      }
    }

    /** The fill part of a pass: process target `j` when the candle reaches it. */
    method FillIfHit(idx: nat, j: nat, candle: Candle, long: bool) returns (r: Result<()>)
      requires idx < |trades| && j < |trades[idx].profitTargets|
      modifies this`trades, this`accountBalance, this`statistics, this`events
      ensures var spec := TargetFill(old(Snapshot()), Config(), idx, candle, long, j);
        && (r.Failure? <==> spec.Failure?)
        && (r.Failure? ==> r.error == NullReference)
        && (r.Success? ==> Snapshot() == spec.value)
    {
      r := Success(());
      if TargetHit(long, trades[idx].profitTargets[j], candle) {
        r := ProcessProfitTargetHit(idx, j, candle);
      }
    }

    /** The end of a pass of the target loop: with no contracts left, mark the trade Win and
        close it. */
    method CloseIfFlat(idx: nat)
      requires idx < |trades|
      modifies this`trades, this`events, this`status, this`isLongExtreme, this`isShortExtreme
      ensures Snapshot() == Position.CloseIfFlat(old(Snapshot()), kind, idx)
    {
      if trades[idx].contracts <= 0 {
        trades := trades[idx := trades[idx].(outcome := Win)];
        OnTradeClosed(idx);
      }
    }

    /** CheckLongPosition (`long`) and CheckShortPosition: the stop check, then the target check. */
    method CheckPosition(idx: nat, candle: Candle, long: bool) returns (r: Result<()>)
      requires idx < |trades|
      modifies this`trades, this`accountBalance, this`statistics, this`events, this`status,
        this`isLongExtreme, this`isShortExtreme
      ensures var spec := Position.CheckPosition(old(Snapshot()), Config(), idx, candle, long);
        && (r.Failure? <==> spec.Failure?)
        && (r.Failure? ==> r.error == NullReference)
        && (r.Success? ==> Snapshot() == spec.value)
    {
      CheckForStopLoss(idx, candle, long);
      r := CheckForProfitTarget(idx, candle, long);
    }

    /** CheckOpenPosition: manage the first pending trade by its direction. */
    method CheckOpenPosition(candle: Candle) returns (r: Result<()>)
      modifies this`trades, this`accountBalance, this`statistics, this`events, this`status,
        this`isLongExtreme, this`isShortExtreme
      ensures var spec := Position.CheckOpenPosition(old(Snapshot()), Config(), candle);
        && (r.Failure? <==> spec.Failure?)
        && (r.Failure? ==> r.error == NullReference)
        && (r.Success? ==> Snapshot() == spec.value)
    {
      var pending := PendingIndex(trades);
      r := Success(());
      if pending.Some? {
        var pendingTrade := trades[pending.value];
        if pendingTrade.tradeDirection == Long {
          r := CheckPosition(pending.value, candle, true);
        }
        if pendingTrade.tradeDirection == Short {
          r := CheckPosition(pending.value, candle, false);
        }
      }
    }

    // -------------------------------------------------------------------------------------------
    // Entry predicates

    /** LongEntryCondition of this object's concrete strategy. */
    method LongEntryCondition(candle: Candle) returns (r: Result<bool>)
      modifies this`isLongExtreme
      ensures var spec := Position.LongEntry(old(Snapshot()), Config(), candle);
        && (r.Failure? <==> spec.Failure?)
        && (r.Failure? ==> r.error == spec.error)
        && (r.Success? ==> r.value == spec.value.0 && Snapshot() == spec.value.1)
    {
      var decision :- Position.LongEntry(Snapshot(), Config(), candle);
      isLongExtreme := decision.1.isLongExtreme;
      r := Success(decision.0);
    }

    /** ShortEntryCondition of this object's concrete strategy. */
    method ShortEntryCondition(candle: Candle) returns (r: Result<bool>)
      modifies this`isShortExtreme
      ensures var spec := Position.ShortEntry(old(Snapshot()), Config(), candle);
        && (r.Failure? <==> spec.Failure?)
        && (r.Failure? ==> r.error == spec.error)
        && (r.Success? ==> r.value == spec.value.0 && Snapshot() == spec.value.1)
    {
      var decision :- Position.ShortEntry(Snapshot(), Config(), candle);
      isShortExtreme := decision.1.isShortExtreme;
      r := Success(decision.0);
    }
  }
}
