/** The data holders of the backtester: orders, trades, running statistics, the events a strategy
    publishes, and the configuration a strategy is loaded from. They carry no behaviour. */
module Trading {
  import opened Common

  /** Ids are opaque; the replay draws them from a caller-supplied generator. */
  type Guid = int

  datatype StrategyStatus = OutOfTheMarket | InTheMarket

  datatype TradeDirection = Long | Short | StopLoss

  datatype TradeOutcome = Loss | Win | Breakeven | Pending | StoppedOut

  /** A stop-loss or profit-target order; `closingDate` is None while the order is working. */
  datatype Order = Order(
    id: Guid,
    openingDate: DateTime,
    closingDate: Option<DateTime>,
    contracts: int,
    orderDirection: TradeDirection,
    orderPrice: real)

  /** A trade: `contracts` are the contracts still open, `profit` the realised P/L so far. */
  datatype Trade = Trade(
    id: Guid,
    dateInitiated: DateTime,
    outcome: TradeOutcome,
    profit: real,
    contracts: int,
    initialEntryPrice: real,
    tradeDirection: TradeDirection,
    stopLoss: Option<Order>,
    profitTargets: seq<Order>)

  datatype StrategyStatistics = StrategyStatistics(
    winRate: real,
    losingTrades: int,
    winningTrades: int,
    totalProfit: real,
    totalLosses: real)

  const NoStatistics := StrategyStatistics(0.0, 0, 0, 0.0, 0.0)

  /** The events a strategy publishes, in the order it publishes them. Each carries the values
      the handlers see when the event is raised. */
  datatype Event =
    | TradeCreated(trade: Trade)
    | TradeClosed(closedTrade: Trade, newAccountBalance: real)
    | ProfitTargetHit(tradeId: Guid, profitTargetOrder: Order, profit: real, outcome: TradeOutcome)
    | StopLossHit(tradeId: Guid, stopLossOrder: Order, outcome: TradeOutcome, lossAmount: real)

  /** A .NET TimeOnly holding an hour and a minute. */
  datatype TimeOnly = TimeOnly(hour: int, minute: int)

  const Midnight := TimeOnly(0, 0)

  /** `new TimeOnly(hour, minute)`: the constructor rejects an hour outside 0..23 or a minute
      outside 0..59. */
  function NewTimeOnly(hour: int, minute: int): (r: Result<TimeOnly>)
    ensures r.Success? <==> 0 <= hour < 24 && 0 <= minute < 60
    ensures r.Success? ==> r.value.hour == hour && r.value.minute == minute
    ensures r.Failure? ==> r.error == ArgumentOutOfRange
  {
    if 0 <= hour < 24 && 0 <= minute < 60 then Success(TimeOnly(hour, minute))
    else Failure(ArgumentOutOfRange)
  }

  /** The hour and minute of a configured window boundary. */
  datatype StrategyTradingTimeWindow = StrategyTradingTimeWindow(hour: int, minute: int)

  datatype StrategyExecutionSettings = StrategyExecutionSettings(
    allowedOrderEntryWindowStartTime: StrategyTradingTimeWindow,
    allowedOrderEntryWindowEndTime: StrategyTradingTimeWindow,
    contracts: int,
    initialStopLoss: int,
    trailStopToBreakeven: bool,
    trailStopTrigger: int,
    trailStopToHalfStop: bool)

  datatype StrategyConfig = StrategyConfig(
    id: Guid,
    name: string,
    description: string,
    pricePerTick: real,
    timeframe: int,
    tradingWindowStartTime: StrategyTradingTimeWindow,
    tradingWindowEndTime: StrategyTradingTimeWindow,
    startingAccountBalance: real,
    maxTradesPerSession: int,
    stopTradingAfterWinning: bool,
    executionSettings: StrategyExecutionSettings)
}
