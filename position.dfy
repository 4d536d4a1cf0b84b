/** Position management of Domain/Strategy/Strategy.cs, as functions on the part of a strategy it
    changes (a `Book`). The Strategy class runs the same steps in place and is proved against
    these functions; the lemmas here state what the steps promise. */
module Position {
  import opened Common
  import opened Candles
  import opened Ema
  import opened Trading
  import PriceExtremeStrategy
  import EnterAfterPriceExtremeAndEmaCloseStrategy

  /** Which concrete strategy a Strategy object is. */
  datatype PolicyKind = PriceExtreme | EnterAfterPriceExtremeAndEmaClose

  /** The fields of a strategy that trading changes. */
  datatype Book = Book(
    status: StrategyStatus,
    accountBalance: real,
    statistics: StrategyStatistics,
    trades: seq<Trade>,
    events: seq<Event>,
    isLongExtreme: bool,
    isShortExtreme: bool)

  /** The fields of a strategy that trading only reads. */
  datatype Settings = Settings(
    kind: PolicyKind,
    pricePerTick: real,
    initialStopLoss: real,
    trailStopToBreakeven: bool,
    trailStopToHalfStop: bool,
    contracts: int,
    maxTradesPerSession: int,
    emaIndicators: map<int, seq<EmaValue>>)

  // ---------------------------------------------------------------------------------------------
  // Invariants

  /** Balance minus the running profit and loss totals; every P/L update leaves it unchanged. */
  function Drift(b: Book): real {
    b.accountBalance - b.statistics.totalProfit - b.statistics.totalLosses
  }

  function SumProfit(trades: seq<Trade>): real
    decreases |trades|
  {
    if |trades| == 0 then 0.0 else SumProfit(trades[..|trades| - 1]) + trades[|trades| - 1].profit
  }

  /** Balance minus the P/L booked on the trades; a trade's P/L and the balance move together. */
  function Ledger(b: Book): real {
    b.accountBalance - SumProfit(b.trades)
  }

  lemma {:induction false} SumProfitUpdate(trades: seq<Trade>, i: nat, t: Trade)
    requires i < |trades|
    ensures SumProfit(trades[i := t]) == SumProfit(trades) - trades[i].profit + t.profit
    decreases |trades|
  {
    var n := |trades| - 1;
    assert trades[i := t][..n] == if i == n then trades[..n] else trades[..n][i := t];
    if i < n {
      SumProfitUpdate(trades[..n], i, t);
    }
  }

  lemma SumProfitAppend(trades: seq<Trade>, t: Trade)
    ensures SumProfit(trades + [t]) == SumProfit(trades) + t.profit
  {
    assert (trades + [t])[..|trades|] == trades;
  }

  /** Trade `idx` is pending exactly while the strategy is in the market. */
  predicate Consistent(b: Book, idx: nat)
    requires idx < |b.trades|
  {
    (b.trades[idx].outcome == Pending) == (b.status == InTheMarket)
  }

  /** At most one trade is pending, and one is pending exactly while the strategy is in the market. */
  predicate Valid(b: Book) {
    && (forall i, j ::
          0 <= i < |b.trades| && 0 <= j < |b.trades| && b.trades[i].outcome == Pending && b.trades[j].outcome == Pending
          ==> i == j)
    && (b.status == InTheMarket <==> exists i :: 0 <= i < |b.trades| && b.trades[i].outcome == Pending)
  }

  /** Going from `b` to `r` touched trade `idx` only (and kept its direction, entry, targets and
      the presence of its stop), and only appended events. */
  predicate Frame(b: Book, r: Book, idx: nat) {
    && idx < |b.trades|
    && |r.trades| == |b.trades|
    && (forall i :: 0 <= i < |b.trades| && i != idx ==> r.trades[i] == b.trades[i])
    && |r.trades[idx].profitTargets| == |b.trades[idx].profitTargets|
    && r.trades[idx].tradeDirection == b.trades[idx].tradeDirection
    && r.trades[idx].initialEntryPrice == b.trades[idx].initialEntryPrice
    && r.trades[idx].id == b.trades[idx].id
    && (b.trades[idx].stopLoss.Some? ==> r.trades[idx].stopLoss.Some?)
    && b.events <= r.events
  }

  /** What every step of position management keeps. */
  predicate Keeps(b: Book, r: Book, idx: nat) {
    && Frame(b, r, idx)
    && Drift(r) == Drift(b)
    && Ledger(r) == Ledger(b)
    && (Consistent(b, idx) ==> Consistent(r, idx))
  }

  lemma KeepsTransitive(a: Book, b: Book, c: Book, idx: nat)
    requires Keeps(a, b, idx) && Keeps(b, c, idx)
    ensures Keeps(a, c, idx)
  {
  }

  // ---------------------------------------------------------------------------------------------
  // Balance updates and events

  /** UpdateAccountBalances: the balance moves by exactly `x`; a gain is added to TotalProfit and
      a loss to TotalLosses, so balance minus both totals is unchanged. */
  function UpdateAccountBalances(b: Book, x: real): (r: Book)
    ensures r.accountBalance == b.accountBalance + x
    ensures r.statistics.totalProfit + r.statistics.totalLosses == b.statistics.totalProfit + b.statistics.totalLosses + x
    ensures r.statistics.totalProfit >= b.statistics.totalProfit && r.statistics.totalLosses <= b.statistics.totalLosses
    ensures x >= 0.0 ==> r.statistics.totalLosses == b.statistics.totalLosses
    ensures x <= 0.0 ==> r.statistics.totalProfit == b.statistics.totalProfit
    ensures Drift(r) == Drift(b)
    ensures r == b.(accountBalance := r.accountBalance, statistics := r.statistics)
    ensures r.statistics == b.statistics.(totalProfit := r.statistics.totalProfit, totalLosses := r.statistics.totalLosses)
  {
    var stats := b.statistics;
    b.(accountBalance := b.accountBalance + x,
       statistics := stats.(totalProfit := stats.totalProfit + (if x > 0.0 then x else 0.0),
                            totalLosses := stats.totalLosses + (if x < 0.0 then x else 0.0)))
  }

  /** ResetSessionSettings: the two-step policy clears both flags; the base does nothing. */
  function ResetSessionSettings(b: Book, kind: PolicyKind): (r: Book)
    ensures kind == EnterAfterPriceExtremeAndEmaClose ==> !r.isLongExtreme && !r.isShortExtreme
    ensures kind == PriceExtreme ==> r == b
    ensures r == b.(isLongExtreme := r.isLongExtreme, isShortExtreme := r.isShortExtreme)
  {
    match kind
    case PriceExtreme => b
    case EnterAfterPriceExtremeAndEmaClose => b.(isLongExtreme := false, isShortExtreme := false)
  }

  /** OnTradeClosed: reset the session settings, leave the market, turn the outcome into Win
      whenever the trade's cumulative profit is positive, and publish TradeClosed. */
  function OnTradeClosed(b: Book, kind: PolicyKind, idx: nat): (r: Book)
    requires idx < |b.trades|
    ensures r.status == OutOfTheMarket
    ensures |r.trades| == |b.trades|
    ensures b.trades[idx].profit > 0.0 ==> r.trades[idx].outcome == Win
    ensures b.trades[idx].profit <= 0.0 ==> r.trades[idx].outcome == b.trades[idx].outcome
    ensures r.trades == b.trades[idx := b.trades[idx].(outcome := r.trades[idx].outcome)]
    ensures r.events == b.events + [TradeClosed(r.trades[idx], b.accountBalance)]
    ensures r.accountBalance == b.accountBalance && r.statistics == b.statistics
  {
    var b1 := ResetSessionSettings(b, kind);
    var t := b1.trades[idx];
    var closed := if t.profit > 0.0 then t.(outcome := Win) else t;
    b1.(status := OutOfTheMarket,
        trades := b1.trades[idx := closed],
        events := b1.events + [TradeClosed(closed, b1.accountBalance)])
  }

  /** Closing a trade that is no longer pending, or that made money, keeps the invariants. */
  lemma OnTradeClosedKeeps(b: Book, kind: PolicyKind, idx: nat)
    requires idx < |b.trades| && (b.trades[idx].outcome != Pending || b.trades[idx].profit > 0.0)
    ensures Keeps(b, OnTradeClosed(b, kind, idx), idx)
  {
    var t := b.trades[idx];
    SumProfitUpdate(b.trades, idx, if t.profit > 0.0 then t.(outcome := Win) else t);
  }

  /** Appends a trade and enters the market (ExecuteTrade followed by OnTradeCreated). */
  function ExecuteTrade(b: Book, trade: Trade): (r: Book)
    ensures r.trades == b.trades + [trade]
    ensures r.status == InTheMarket
    ensures r.events == b.events + [TradeCreated(trade)]
    ensures r == b.(trades := r.trades, status := r.status, events := r.events)
  {
    b.(trades := b.trades + [trade], status := InTheMarket, events := b.events + [TradeCreated(trade)])
  }

  /** Executing a trade leaves balance minus the running totals unchanged and lowers balance
      minus the trades' P/L by the new trade's P/L. */
  lemma ExecuteTradeBalances(b: Book, trade: Trade)
    ensures Drift(ExecuteTrade(b, trade)) == Drift(b)
    ensures Ledger(ExecuteTrade(b, trade)) == Ledger(b) - trade.profit
  {
    SumProfitAppend(b.trades, trade);
  }

  /** Executing a pending trade while flat keeps the one-open-position invariant. */
  lemma ExecuteTradeValid(b: Book, trade: Trade)
    requires Valid(b) && b.status == OutOfTheMarket && trade.outcome == Pending
    ensures Valid(ExecuteTrade(b, trade))
  {
    var r := ExecuteTrade(b, trade);
    assert r.trades[|b.trades|].outcome == Pending;
    assert forall i :: 0 <= i < |b.trades| ==> r.trades[i] == b.trades[i] && r.trades[i].outcome != Pending;
  }

  // ---------------------------------------------------------------------------------------------
  // Stop loss

  /** The stop fires on a long position when Low or Close reach it, on a short position when High
      or Close reach it; a comparison with a missing stop is false, so no stop never fires. */
  predicate StopHit(long: bool, stop: Option<Order>, candle: Candle) {
    && stop.Some?
    && if long then candle.low <= stop.value.orderPrice || candle.close <= stop.value.orderPrice
       else candle.high >= stop.value.orderPrice || candle.close >= stop.value.orderPrice
  }

  /** The P/L of a stop fill: zero when the stop sits at the entry, otherwise minus the distance
      times PricePerTick * 4 times the open contracts. */
  function StopLossAmount(t: Trade, pricePerTick: real): (loss: real)
    requires t.stopLoss.Some?
    ensures t.stopLoss.value.orderPrice == t.initialEntryPrice ==> loss == 0.0
    ensures t.stopLoss.value.orderPrice != t.initialEntryPrice ==>
      loss == -(Abs(t.stopLoss.value.orderPrice - t.initialEntryPrice) * (pricePerTick * 4.0) * t.contracts as real)
    ensures pricePerTick >= 0.0 && t.contracts >= 0 ==> loss <= 0.0
  {
    if t.stopLoss.value.orderPrice == t.initialEntryPrice then 0.0
    else
      var d := Abs(t.stopLoss.value.orderPrice - t.initialEntryPrice);
      var k := pricePerTick * 4.0;
      assert pricePerTick >= 0.0 && t.contracts >= 0 ==> d * k * t.contracts as real >= 0.0 by {
        if pricePerTick >= 0.0 && t.contracts >= 0 {
          NonNegProduct(d, k, t.contracts as real);
        }
      }
      d * k * t.contracts as real * -1.0
  }

  lemma NonNegProduct(x: real, y: real, z: real)
    requires x >= 0.0 && y >= 0.0 && z >= 0.0
    ensures x * y * z >= 0.0
  {
    assert x * y >= 0.0;
  }

  /** ProcessStopLossHit: stamp the stop with the candle's time, mark the trade Breakeven (stop at
      entry) or Loss, book the loss on the trade and the balance, and publish StopLossHit. */
  function ProcessStopLossHit(b: Book, s: Settings, idx: nat, candle: Candle): (r: Book)
    requires idx < |b.trades| && b.trades[idx].stopLoss.Some?
    ensures
      var t := b.trades[idx];
      var loss := StopLossAmount(t, s.pricePerTick);
      var stop := t.stopLoss.value.(closingDate := Some(candle.timeOfDay));
      && |r.trades| == |b.trades|
      && r.trades == b.trades[idx := r.trades[idx]]
      && r.trades[idx] == t.(stopLoss := Some(stop),
                             outcome := if t.stopLoss.value.orderPrice == t.initialEntryPrice then Breakeven else Loss,
                             profit := t.profit + loss)
      && r.accountBalance == b.accountBalance + loss
      && r.events == b.events + [StopLossHit(t.id, stop, if loss == 0.0 then Breakeven else StoppedOut, loss)]
    ensures r.status == b.status && r.isLongExtreme == b.isLongExtreme && r.isShortExtreme == b.isShortExtreme
    ensures r.statistics.totalProfit + r.statistics.totalLosses == b.statistics.totalProfit + b.statistics.totalLosses + StopLossAmount(b.trades[idx], s.pricePerTick)
  {
    var t := b.trades[idx];
    var isBreakEven := t.stopLoss.value.orderPrice == t.initialEntryPrice;
    var loss := StopLossAmount(t, s.pricePerTick);
    var stop := t.stopLoss.value.(closingDate := Some(candle.timeOfDay));
    var t1 := t.(stopLoss := Some(stop), outcome := if isBreakEven then Breakeven else Loss, profit := t.profit + loss);
    var b1 := UpdateAccountBalances(b.(trades := b.trades[idx := t1]), loss);
    b1.(events := b1.events + [StopLossHit(t.id, stop, if loss == 0.0 then Breakeven else StoppedOut, loss)])
  }

  /** A stop fill touches its own trade only, and moves the balance, the totals and the trade's
      profit by the same amount. */
  lemma ProcessStopLossHitKeeps(b: Book, s: Settings, idx: nat, candle: Candle)
    requires idx < |b.trades| && b.trades[idx].stopLoss.Some?
    ensures var r := ProcessStopLossHit(b, s, idx, candle);
      Frame(b, r, idx) && Drift(r) == Drift(b) && Ledger(r) == Ledger(b)
  {
    var r := ProcessStopLossHit(b, s, idx, candle);
    SumProfitUpdate(b.trades, idx, r.trades[idx]);
  }

  /** Check{Long,Short}ForStopLoss: on a fill, process it and close the trade. */
  function CheckForStopLoss(b: Book, s: Settings, idx: nat, candle: Candle, long: bool): (r: Book)
    requires idx < |b.trades|
    ensures !StopHit(long, b.trades[idx].stopLoss, candle) ==> r == b
    ensures StopHit(long, b.trades[idx].stopLoss, candle) ==>
      r == OnTradeClosed(ProcessStopLossHit(b, s, idx, candle), s.kind, idx)
    ensures StopHit(long, b.trades[idx].stopLoss, candle) ==>
      r.status == OutOfTheMarket && r.trades[idx].outcome != Pending
    ensures |r.trades| == |b.trades| && |r.trades[idx].profitTargets| == |b.trades[idx].profitTargets|
  {
    if StopHit(long, b.trades[idx].stopLoss, candle) then
      var b1 := ProcessStopLossHit(b, s, idx, candle);
      OnTradeClosed(b1, s.kind, idx)
    else b
  }

  /** The stop check keeps the invariants. */
  lemma CheckForStopLossKeeps(b: Book, s: Settings, idx: nat, candle: Candle, long: bool)
    requires idx < |b.trades|
    ensures Keeps(b, CheckForStopLoss(b, s, idx, candle, long), idx)
  {
    if StopHit(long, b.trades[idx].stopLoss, candle) {
      var b1 := ProcessStopLossHit(b, s, idx, candle);
      ProcessStopLossHitKeeps(b, s, idx, candle);
      OnTradeClosedKeeps(b1, s.kind, idx);
    }
  }

  // ---------------------------------------------------------------------------------------------
  // Profit targets

  /** A long target fills when High or Close reach it, a short target when Low or Close do. */
  predicate TargetHit(long: bool, target: Order, candle: Candle) {
    if long then candle.high >= target.orderPrice || candle.close >= target.orderPrice
    else candle.low <= target.orderPrice || candle.close <= target.orderPrice
  }

  /** The profit of a target fill: distance from the entry times PricePerTick * 4 times the
      target's contracts; never negative when price per tick and contracts are not. */
  function TargetProfit(target: Order, t: Trade, pricePerTick: real): (profit: real)
    ensures profit == Abs(target.orderPrice - t.initialEntryPrice) * (pricePerTick * 4.0) * target.contracts as real
    ensures pricePerTick >= 0.0 && target.contracts >= 0 ==> profit >= 0.0
  {
    var d := Abs(target.orderPrice - t.initialEntryPrice);
    var k := pricePerTick * 4.0;
    assert pricePerTick >= 0.0 && target.contracts >= 0 ==> d * k * target.contracts as real >= 0.0 by {
      if pricePerTick >= 0.0 && target.contracts >= 0 {
        NonNegProduct(d, k, target.contracts as real);
      }
    }
    d * k * target.contracts as real
  }

  /** The stop after a target fill: to the entry price when trailing to breakeven, otherwise half
      the initial stop distance towards the market (up for a long, down for anything else) when
      trailing to half a stop, otherwise unchanged. Moving a missing stop raises
      NullReferenceException. */
  function TrailStop(s: Settings, t: Trade): (r: Result<Option<Order>>)
    ensures r.Failure? <==> (s.trailStopToBreakeven || s.trailStopToHalfStop) && t.stopLoss.None?
    ensures r.Failure? ==> r.error == NullReference
    ensures r.Success? && s.trailStopToBreakeven ==>
      r.value == Some(t.stopLoss.value.(orderPrice := t.initialEntryPrice))
    ensures r.Success? && !s.trailStopToBreakeven && s.trailStopToHalfStop ==>
      r.value == Some(t.stopLoss.value.(orderPrice := t.stopLoss.value.orderPrice +
        (if t.tradeDirection == Long then s.initialStopLoss / 2.0 else -(s.initialStopLoss / 2.0))))
    ensures !s.trailStopToBreakeven && !s.trailStopToHalfStop ==> r == Success(t.stopLoss)
  {
    if s.trailStopToBreakeven then
      if t.stopLoss.None? then Failure(NullReference)
      else Success(Some(t.stopLoss.value.(orderPrice := t.initialEntryPrice)))
    else if s.trailStopToHalfStop then
      if t.stopLoss.None? then Failure(NullReference)
      else if t.tradeDirection == Long then
        Success(Some(t.stopLoss.value.(orderPrice := t.stopLoss.value.orderPrice + s.initialStopLoss / 2.0)))
      else
        Success(Some(t.stopLoss.value.(orderPrice := t.stopLoss.value.orderPrice - s.initialStopLoss / 2.0)))
    else Success(t.stopLoss)
  }

  /** The fill of target `j`: take its contracts off the trade, book its profit on the trade and
      the balance, and stamp it with the candle's time; the stop is not touched yet. */
  function FillTarget(b: Book, s: Settings, idx: nat, j: nat, candle: Candle): (r: Book)
    requires idx < |b.trades| && j < |b.trades[idx].profitTargets|
    ensures |r.trades| == |b.trades|
    ensures var t := b.trades[idx];
      var target := t.profitTargets[j];
      r.trades[idx] == t.(contracts := t.contracts - target.contracts,
                          profit := t.profit + TargetProfit(target, t, s.pricePerTick),
                          profitTargets := t.profitTargets[j := target.(closingDate := Some(candle.timeOfDay))])
    ensures r.accountBalance == b.accountBalance + TargetProfit(b.trades[idx].profitTargets[j], b.trades[idx], s.pricePerTick)
    ensures r.events == b.events && r.status == b.status
    ensures r.isLongExtreme == b.isLongExtreme && r.isShortExtreme == b.isShortExtreme
    ensures r.trades == b.trades[idx := r.trades[idx]]
    ensures Drift(r) == Drift(b)
  {
    var t := b.trades[idx];
    var target := t.profitTargets[j];
    var profit := TargetProfit(target, t, s.pricePerTick);
    var t1 := t.(contracts := t.contracts - target.contracts, profit := t.profit + profit,
                 profitTargets := t.profitTargets[j := target.(closingDate := Some(candle.timeOfDay))]);
    UpdateAccountBalances(b.(trades := b.trades[idx := t1]), profit)
  }

  /** ProcessProfitTargetHit for target `j`: the fill, then the stop trailed, then ProfitTargetHit
      published with the stamped target and its profit. */
  function ProcessProfitTargetHit(b: Book, s: Settings, idx: nat, j: nat, candle: Candle): (r: Result<Book>)
    requires idx < |b.trades| && j < |b.trades[idx].profitTargets|
    ensures r.Failure? <==> (s.trailStopToBreakeven || s.trailStopToHalfStop) && b.trades[idx].stopLoss.None?
    ensures r.Failure? ==> r.error == NullReference
  {
    var b1 := FillTarget(b, s, idx, j, candle);
    var t1 := b1.trades[idx];
    var stop :- TrailStop(s, b.trades[idx]);
    var profit := TargetProfit(b.trades[idx].profitTargets[j], b.trades[idx], s.pricePerTick);
    Success(b1.(trades := b1.trades[idx := t1.(stopLoss := stop)],
                events := b1.events + [ProfitTargetHit(t1.id, t1.profitTargets[j], profit, Win)]))
  }

  /** A successful target fill takes the target's contracts off the trade, books its profit on
      the trade and the balance, stamps the target, trails the stop and publishes
      ProfitTargetHit; nothing else changes. */
  lemma ProcessProfitTargetHitSpec(b: Book, s: Settings, idx: nat, j: nat, candle: Candle)
    requires idx < |b.trades| && j < |b.trades[idx].profitTargets|
    ensures var r := ProcessProfitTargetHit(b, s, idx, j, candle);
      r.Success? ==>
        var t := b.trades[idx];
        var target := t.profitTargets[j];
        var profit := TargetProfit(target, t, s.pricePerTick);
        var t1 := r.value.trades[idx];
        && |r.value.trades| == |b.trades|
        && r.value.trades == b.trades[idx := t1]
        && t1.contracts == t.contracts - target.contracts
        && t1.profit == t.profit + profit
        && t1.profitTargets == t.profitTargets[j := target.(closingDate := Some(candle.timeOfDay))]
        && t1 == t.(contracts := t1.contracts, profit := t1.profit, profitTargets := t1.profitTargets, stopLoss := t1.stopLoss)
        && Success(t1.stopLoss) == TrailStop(s, t)
        && r.value.accountBalance == b.accountBalance + profit
        && r.value.events == b.events + [ProfitTargetHit(t.id, target.(closingDate := Some(candle.timeOfDay)), profit, Win)]
        && r.value.status == b.status && r.value.isLongExtreme == b.isLongExtreme && r.value.isShortExtreme == b.isShortExtreme
        && Drift(r.value) == Drift(b)
  {
  }

  /** A target fill touches its own trade only, and moves the balance and the trade's profit by
      the same amount. */
  lemma ProcessProfitTargetHitKeeps(b: Book, s: Settings, idx: nat, j: nat, candle: Candle)
    requires idx < |b.trades| && j < |b.trades[idx].profitTargets|
    requires ProcessProfitTargetHit(b, s, idx, j, candle).Success?
    ensures var r := ProcessProfitTargetHit(b, s, idx, j, candle).value;
      Frame(b, r, idx) && Drift(r) == Drift(b) && Ledger(r) == Ledger(b)
  {
    ProcessProfitTargetHitSpec(b, s, idx, j, candle);
    var r := ProcessProfitTargetHit(b, s, idx, j, candle).value;
    SumProfitUpdate(b.trades, idx, r.trades[idx]);
  }

  /** The end of a pass of the target loop: with no contracts left the trade is marked Win and
      closed; otherwise nothing changes. */
  function CloseIfFlat(b: Book, kind: PolicyKind, idx: nat): (r: Book)
    requires idx < |b.trades|
    ensures b.trades[idx].contracts > 0 ==> r == b
    ensures b.trades[idx].contracts <= 0 ==>
      r == OnTradeClosed(b.(trades := b.trades[idx := b.trades[idx].(outcome := Win)]), kind, idx)
    ensures b.trades[idx].contracts <= 0 ==> r.status == OutOfTheMarket && r.trades[idx].outcome == Win
    ensures |r.trades| == |b.trades| && |r.trades[idx].profitTargets| == |b.trades[idx].profitTargets|
  {
    if b.trades[idx].contracts <= 0 then
      var won := b.(trades := b.trades[idx := b.trades[idx].(outcome := Win)]);
      OnTradeClosed(won, kind, idx)
    else b
  }

  /** Closing a flat trade as a Win keeps the invariants. */
  lemma CloseIfFlatKeeps(b: Book, kind: PolicyKind, idx: nat)
    requires idx < |b.trades|
    ensures Keeps(b, CloseIfFlat(b, kind, idx), idx)
  {
    if b.trades[idx].contracts <= 0 {
      var won := b.(trades := b.trades[idx := b.trades[idx].(outcome := Win)]);
      SumProfitUpdate(b.trades, idx, b.trades[idx].(outcome := Win));
      OnTradeClosedKeeps(won, kind, idx);
    }
  }

  /** One pass of the target loop over target `j`, which is examined only while its closing date
      is null: process a fill, then close the trade as a Win whenever no contracts remain, whether
      or not this target filled. */
  function TargetStep(b: Book, s: Settings, idx: nat, candle: Candle, long: bool, j: nat): (r: Result<Book>)
    requires idx < |b.trades| && j < |b.trades[idx].profitTargets|
    ensures r.Failure? ==> r.error == NullReference
    ensures r.Failure? ==> (s.trailStopToBreakeven || s.trailStopToHalfStop) && b.trades[idx].stopLoss.None?
    ensures r.Success? ==> |r.value.trades| == |b.trades| && |r.value.trades[idx].profitTargets| == |b.trades[idx].profitTargets|
    ensures b.trades[idx].profitTargets[j].closingDate.Some? ==> r == Success(b)
  {
    if b.trades[idx].profitTargets[j].closingDate.Some? then Success(b)
    else
      var b1 :- TargetFill(b, s, idx, candle, long, j);
      Success(CloseIfFlat(b1, s.kind, idx))
  }

  /** The fill part of a pass: process target `j` when the candle reaches it. */
  function TargetFill(b: Book, s: Settings, idx: nat, candle: Candle, long: bool, j: nat): (r: Result<Book>)
    requires idx < |b.trades| && j < |b.trades[idx].profitTargets|
    ensures !TargetHit(long, b.trades[idx].profitTargets[j], candle) ==> r == Success(b)
    ensures TargetHit(long, b.trades[idx].profitTargets[j], candle) ==> r == ProcessProfitTargetHit(b, s, idx, j, candle)
  {
    if TargetHit(long, b.trades[idx].profitTargets[j], candle) then ProcessProfitTargetHit(b, s, idx, j, candle) else Success(b)
  }

  /** One pass of the target loop keeps the invariants. */
  lemma TargetStepKeeps(b: Book, s: Settings, idx: nat, candle: Candle, long: bool, j: nat)
    requires idx < |b.trades| && j < |b.trades[idx].profitTargets|
    requires TargetStep(b, s, idx, candle, long, j).Success?
    ensures Keeps(b, TargetStep(b, s, idx, candle, long, j).value, idx)
  {
    var t := b.trades[idx];
    if t.profitTargets[j].closingDate.None? {
      var b1 := if TargetHit(long, t.profitTargets[j], candle) then ProcessProfitTargetHit(b, s, idx, j, candle).value else b;
      if TargetHit(long, t.profitTargets[j], candle) {
        ProcessProfitTargetHitKeeps(b, s, idx, j, candle);
        assert Consistent(b, idx) ==> Consistent(b1, idx);
      }
      CloseIfFlatKeeps(b1, s.kind, idx);
      KeepsTransitive(b, b1, CloseIfFlat(b1, s.kind, idx), idx);
    }
  }

  /** Check{Long,Short}ForProfitTarget over the first `n` targets, in list order. */
  function CheckForProfitTarget(b: Book, s: Settings, idx: nat, candle: Candle, long: bool, n: nat): (r: Result<Book>)
    requires idx < |b.trades| && n <= |b.trades[idx].profitTargets|
    ensures r.Failure? ==> r.error == NullReference
    ensures r.Success? ==> |r.value.trades| == |b.trades| && |r.value.trades[idx].profitTargets| == |b.trades[idx].profitTargets|
    decreases n
  {
    if n == 0 then Success(b)
    else
      var b1 :- CheckForProfitTarget(b, s, idx, candle, long, n - 1);
      TargetStep(b1, s, idx, candle, long, n - 1)
  }

  /** The target loop keeps the invariants. */
  lemma {:induction false} CheckForProfitTargetKeeps(b: Book, s: Settings, idx: nat, candle: Candle, long: bool, n: nat)
    requires idx < |b.trades| && n <= |b.trades[idx].profitTargets|
    requires CheckForProfitTarget(b, s, idx, candle, long, n).Success?
    ensures Keeps(b, CheckForProfitTarget(b, s, idx, candle, long, n).value, idx)
    decreases n
  {
    if n > 0 {
      CheckForProfitTargetKeeps(b, s, idx, candle, long, n - 1);
      var b1 := CheckForProfitTarget(b, s, idx, candle, long, n - 1).value;
      assert CheckForProfitTarget(b, s, idx, candle, long, n) == TargetStep(b1, s, idx, candle, long, n - 1);
      TargetStepKeepsAfter(b, b1, s, idx, candle, long, n - 1);
    }
  }

  /** A target pass after a run of passes that kept the invariants keeps them too. */
  lemma TargetStepKeepsAfter(b: Book, b1: Book, s: Settings, idx: nat, candle: Candle, long: bool, j: nat)
    requires idx < |b1.trades| && j < |b1.trades[idx].profitTargets|
    requires Keeps(b, b1, idx) && TargetStep(b1, s, idx, candle, long, j).Success?
    ensures Keeps(b, TargetStep(b1, s, idx, candle, long, j).value, idx)
  {
    TargetStepKeeps(b1, s, idx, candle, long, j);
    KeepsTransitive(b, b1, TargetStep(b1, s, idx, candle, long, j).value, idx);
  }

  /** The target loop cannot fail while the trade has a stop. */
  lemma {:induction false} CheckForProfitTargetSucceeds(b: Book, s: Settings, idx: nat, candle: Candle, long: bool, n: nat)
    requires idx < |b.trades| && n <= |b.trades[idx].profitTargets| && b.trades[idx].stopLoss.Some?
    ensures CheckForProfitTarget(b, s, idx, candle, long, n).Success?
    decreases n
  {
    if n > 0 {
      CheckForProfitTargetSucceeds(b, s, idx, candle, long, n - 1);
      CheckForProfitTargetKeeps(b, s, idx, candle, long, n - 1);
    }
  }

  /** Once a target pass has failed, the loop has failed: the failure survives the later targets. */
  lemma {:induction false} TargetFailurePersists(b: Book, s: Settings, idx: nat, candle: Candle, long: bool, j: nat, n: nat)
    requires idx < |b.trades| && j <= n <= |b.trades[idx].profitTargets|
    requires CheckForProfitTarget(b, s, idx, candle, long, j).Failure?
    ensures CheckForProfitTarget(b, s, idx, candle, long, n).Failure?
    decreases n
  {
    if n > j {
      TargetFailurePersists(b, s, idx, candle, long, j, n - 1);
    }
  }

  /** Check{Long,Short}Position: the stop check, then the target check over every target. */
  function CheckPosition(b: Book, s: Settings, idx: nat, candle: Candle, long: bool): (r: Result<Book>)
    requires idx < |b.trades|
    ensures r.Failure? ==> r.error == NullReference
  {
    var b1 := CheckForStopLoss(b, s, idx, candle, long);
    CheckForProfitTarget(b1, s, idx, candle, long, |b1.trades[idx].profitTargets|)
  }

  /** Managing a position keeps the invariants, and cannot fail while the trade has a stop. */
  lemma CheckPositionKeeps(b: Book, s: Settings, idx: nat, candle: Candle, long: bool)
    requires idx < |b.trades|
    ensures var r := CheckPosition(b, s, idx, candle, long);
      && (r.Success? ==> Keeps(b, r.value, idx))
      && (b.trades[idx].stopLoss.Some? ==> r.Success?)
  {
    var b1 := CheckForStopLoss(b, s, idx, candle, long);
    CheckForStopLossKeeps(b, s, idx, candle, long);
    var r := CheckPosition(b, s, idx, candle, long);
    if r.Success? {
      CheckForProfitTargetKeeps(b1, s, idx, candle, long, |b1.trades[idx].profitTargets|);
      KeepsTransitive(b, b1, r.value, idx);
    }
    if b.trades[idx].stopLoss.Some? {
      CheckForProfitTargetSucceeds(b1, s, idx, candle, long, |b1.trades[idx].profitTargets|);
    }
  }

  /** The first pending trade, if any. */
  function PendingIndex(trades: seq<Trade>): (r: Option<nat>)
    ensures r.None? <==> forall i :: 0 <= i < |trades| ==> trades[i].outcome != Pending
    ensures r.Some? ==>
      && r.value < |trades| && trades[r.value].outcome == Pending
      && forall i :: 0 <= i < r.value ==> trades[i].outcome != Pending
    decreases |trades|
  {
    if |trades| == 0 then None
    else
      var p := PendingIndex(trades[..|trades| - 1]);
      if p.Some? then p
      else if trades[|trades| - 1].outcome == Pending then Some(|trades| - 1)
      else None
  }

  /** CheckOpenPosition: manage the first pending trade, as a long or a short by its direction. */
  function CheckOpenPosition(b: Book, s: Settings, candle: Candle): (r: Result<Book>) {
    match PendingIndex(b.trades)
    case None => Success(b)
    case Some(i) =>
      if b.trades[i].tradeDirection == Long then CheckPosition(b, s, i, candle, true)
      else if b.trades[i].tradeDirection == Short then CheckPosition(b, s, i, candle, false)
      else Success(b)
  }

  /** With no pending trade, CheckOpenPosition changes nothing; otherwise it touches the first
      pending trade only and keeps both conservation laws and the one-open-position invariant. */
  lemma CheckOpenPositionKeeps(b: Book, s: Settings, candle: Candle)
    ensures PendingIndex(b.trades).None? ==> CheckOpenPosition(b, s, candle) == Success(b)
    ensures PendingIndex(b.trades).Some? && CheckOpenPosition(b, s, candle).Success? ==>
      Keeps(b, CheckOpenPosition(b, s, candle).value, PendingIndex(b.trades).value)
    ensures Valid(b) && CheckOpenPosition(b, s, candle).Success? ==> Valid(CheckOpenPosition(b, s, candle).value)
  {
    var p := PendingIndex(b.trades);
    var r := CheckOpenPosition(b, s, candle);
    if p.Some? && r.Success? {
      var i := p.value;
      CheckPositionKeeps(b, s, i, candle, b.trades[i].tradeDirection == Long);
      assert Keeps(b, r.value, i);
      if Valid(b) {
        ValidAfterKeeps(b, r.value, i);
      }
    }
  }

  /** If `b` is valid with `idx` its pending trade, a step that keeps `Keeps` leaves a valid book. */
  lemma ValidAfterKeeps(b: Book, r: Book, idx: nat)
    requires Valid(b) && Keeps(b, r, idx) && b.trades[idx].outcome == Pending
    ensures Valid(r)
  {
    assert Consistent(b, idx);
    forall i | 0 <= i < |r.trades| && i != idx
      ensures r.trades[i].outcome != Pending
    {
      assert r.trades[i] == b.trades[i];
    }
  }

  // ---------------------------------------------------------------------------------------------
  // Entry predicates of the concrete strategies

  /** LongEntryCondition of the strategy's own kind: its answer and the book it leaves (the
      two-step policy updates its long flag). */
  function LongEntry(b: Book, s: Settings, candle: Candle): (r: Result<(bool, Book)>)
    ensures r.Success? ==> r.value.1 == b.(isLongExtreme := r.value.1.isLongExtreme)
    ensures r.Success? && r.value.0 ==> b.status == OutOfTheMarket
    ensures b.status == InTheMarket ==> r == Success((false, b))
  {
    match s.kind
    case PriceExtreme =>
      var fire :- PriceExtremeStrategy.LongEntryCondition(b.status, s.emaIndicators, candle);
      Success((fire, b))
    case EnterAfterPriceExtremeAndEmaClose =>
      var d :- EnterAfterPriceExtremeAndEmaCloseStrategy.LongEntryCondition(b.status, s.emaIndicators, b.isLongExtreme, candle);
      Success((d.fire, b.(isLongExtreme := d.armed)))
  }

  /** ShortEntryCondition of the strategy's own kind: its answer and the book it leaves (the
      two-step policy updates its short flag). */
  function ShortEntry(b: Book, s: Settings, candle: Candle): (r: Result<(bool, Book)>)
    ensures r.Success? ==> r.value.1 == b.(isShortExtreme := r.value.1.isShortExtreme)
    ensures r.Success? && r.value.0 ==> b.status == OutOfTheMarket
    ensures b.status == InTheMarket ==> r == Success((false, b))
  {
    match s.kind
    case PriceExtreme =>
      var fire :- PriceExtremeStrategy.ShortEntryCondition(b.status, s.emaIndicators, candle);
      Success((fire, b))
    case EnterAfterPriceExtremeAndEmaClose =>
      var d :- EnterAfterPriceExtremeAndEmaCloseStrategy.ShortEntryCondition(b.status, s.emaIndicators, b.isShortExtreme, candle);
      Success((d.fire, b.(isShortExtreme := d.armed)))
  }
}
