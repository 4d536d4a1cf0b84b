/** The replay of Domain/Strategy/StrategyEngine.cs, StartLookingForTradeOpportunities, as functions
    on a strategy's trading state (a `Book`): one candle, one session, every session, and the
    summary printed at the end. The engine class runs the same loops in place and is proved
    against these functions; the lemmas here state what the replay promises. */
module EngineReplay {
  import opened Common
  import opened Candles
  import opened Trading
  import opened Position

  /** The engine's stop sits this many points against the entry, */
  const StopDistance: real := 30.0
  /** and its single profit target this many points in the trade's favour. */
  const TargetDistance: real := 10.0

  // ---------------------------------------------------------------------------------------------
  // Trades the engine creates

  /** The trade the engine submits at `candle`: a pending long (or short) for the strategy's
      contracts, entered at the close, with a stop 30 points against it and one target 10 points
      in its favour. The ids come from `newGuid`, indexed by the trade's position `n` in the
      strategy's list: the trade's own, then its stop's, then its target's. The target carries
      all the trade's contracts, so that a target fill closes the trade; the engine as written
      leaves the target's Contracts unset (see NewTradeAsWritten). */
  function NewTrade(long: bool, candle: Candle, contracts: int, newGuid: nat -> Guid, n: nat): (t: Trade)
    ensures t.outcome == Pending && t.profit == 0.0 && t.contracts == contracts
    ensures t.initialEntryPrice == candle.close && t.dateInitiated == candle.timeOfDay
    ensures t.tradeDirection == (if long then Long else Short)
    ensures t.stopLoss.Some? && t.stopLoss.value.closingDate.None?
    ensures |t.profitTargets| == 1 && t.profitTargets[0].closingDate.None?
    ensures t.profitTargets[0].contracts == t.contracts
    ensures t.id == newGuid(3 * n)
  {
    var stop := Order(newGuid(3 * n + 1), candle.timeOfDay, None, 0, StopLoss,
                      if long then candle.close - StopDistance else candle.close + StopDistance);
    var target := Order(newGuid(3 * n + 2), candle.timeOfDay, None, contracts, if long then Long else Short,
                        if long then candle.close + TargetDistance else candle.close - TargetDistance);
    Trade(newGuid(3 * n), candle.timeOfDay, Pending, 0.0, contracts, candle.close,
          if long then Long else Short, Some(stop), [target])
  }

  /** Risk and reward of an engine trade: a stop fill loses 30 points times PricePerTick * 4 per
      contract and a target fill gains 10 points times the same; the stop lies below the entry
      and the target above it for a long, the other way round for a short. */
  lemma NewTradeRiskReward(long: bool, candle: Candle, contracts: int, newGuid: nat -> Guid, n: nat, pricePerTick: real)
    ensures var t := NewTrade(long, candle, contracts, newGuid, n);
      && StopLossAmount(t, pricePerTick) == -(StopDistance * (pricePerTick * 4.0) * contracts as real)
      && TargetProfit(t.profitTargets[0], t, pricePerTick) == TargetDistance * (pricePerTick * 4.0) * contracts as real
      && (long ==> t.stopLoss.value.orderPrice < t.initialEntryPrice < t.profitTargets[0].orderPrice)
      && (!long ==> t.profitTargets[0].orderPrice < t.initialEntryPrice < t.stopLoss.value.orderPrice)
  {
  }

  /** The trade exactly as StartLookingForTradeOpportunities builds it: the target order's
      Contracts is never assigned and keeps its default of zero. Everything else is NewTrade's. */
  function NewTradeAsWritten(long: bool, candle: Candle, contracts: int, newGuid: nat -> Guid, n: nat): (t: Trade)
    ensures var intended := NewTrade(long, candle, contracts, newGuid, n);
      t == intended.(profitTargets := [intended.profitTargets[0].(contracts := 0)])
    ensures t.profitTargets[0].contracts == 0
  {
    var intended := NewTrade(long, candle, contracts, newGuid, n);
    intended.(profitTargets := [intended.profitTargets[0].(contracts := 0)])
  }

  /** As written, a target fill never closes an engine trade: the target books no profit and
      takes no contracts off, so after the pass the trade is still pending with zero profit and
      all its contracts, the balance and the status are unchanged, and only the target is
      stamped. Hence a target never turns such a trade into a Win. */
  lemma AsWrittenTargetFillKeepsTradeOpen(long: bool, candle: Candle, contracts: int, newGuid: nat -> Guid, n: nat,
                                          b: Book, s: Settings, idx: nat, c: Candle)
    requires contracts > 0
    requires idx < |b.trades| && b.trades[idx] == NewTradeAsWritten(long, candle, contracts, newGuid, n)
    requires TargetHit(long, b.trades[idx].profitTargets[0], c)
    ensures var r := TargetStep(b, s, idx, c, long, 0);
      && r.Success?
      && r.value.trades[idx].outcome == Pending
      && r.value.trades[idx].profit == 0.0
      && r.value.trades[idx].contracts == contracts
      && r.value.trades[idx].profitTargets[0].closingDate == Some(c.timeOfDay)
      && r.value.accountBalance == b.accountBalance
      && r.value.status == b.status
  {
    var t := b.trades[idx];
    assert TargetProfit(t.profitTargets[0], t, s.pricePerTick) == 0.0;
    ProcessProfitTargetHitSpec(b, s, idx, 0, c);
  }

  /** With the target carrying the trade's contracts, the fill of an engine trade's target closes
      it as a Win out of the market, with the target's 10 points per contract booked on the trade
      and on the balance. */
  lemma TargetFillClosesTrade(long: bool, candle: Candle, contracts: int, newGuid: nat -> Guid, n: nat,
                              b: Book, s: Settings, idx: nat, c: Candle)
    requires idx < |b.trades| && b.trades[idx] == NewTrade(long, candle, contracts, newGuid, n)
    requires TargetHit(long, b.trades[idx].profitTargets[0], c)
    ensures var r := TargetStep(b, s, idx, c, long, 0);
      var gain := TargetDistance * (s.pricePerTick * 4.0) * contracts as real;
      && r.Success?
      && r.value.trades[idx].outcome == Win
      && r.value.trades[idx].contracts == 0
      && r.value.trades[idx].profit == gain
      && r.value.accountBalance == b.accountBalance + gain
      && r.value.status == OutOfTheMarket
  {
    var t := b.trades[idx];
    assert TargetProfit(t.profitTargets[0], t, s.pricePerTick) == TargetDistance * (s.pricePerTick * 4.0) * contracts as real;
    ProcessProfitTargetHitSpec(b, s, idx, 0, c);
  }

  /** Distinct trade positions draw distinct generator indices, so an injective generator gives
      every trade, stop and target its own id. */
  lemma NewTradeIdsDistinct(long1: bool, long2: bool, c1: Candle, c2: Candle, k1: int, k2: int, newGuid: nat -> Guid, n1: nat, n2: nat)
    requires n1 != n2
    requires forall i: nat, j: nat :: i != j ==> newGuid(i) != newGuid(j)
    ensures var t1, t2 := NewTrade(long1, c1, k1, newGuid, n1), NewTrade(long2, c2, k2, newGuid, n2);
      && t1.id != t2.id
      && t1.stopLoss.value.id != t2.stopLoss.value.id
      && t1.profitTargets[0].id != t2.profitTargets[0].id
      && t1.id != t1.stopLoss.value.id && t1.id != t1.profitTargets[0].id
      && t1.stopLoss.value.id != t1.profitTargets[0].id
  {
  }

  // ---------------------------------------------------------------------------------------------
  // Counting trades

  /** Trade `t` is a win initiated on session date `key`. */
  predicate WonOn(t: Trade, key: int) {
    t.outcome == Win && DateKey(t.dateInitiated) == key
  }

  /** `Trades.Where(m => m.Outcome == Win && m.DateInitiated.ToShortDateString() == key).Count()`. */
  function WinsOn(trades: seq<Trade>, key: int): (n: nat)
    ensures n <= |trades|
    decreases |trades|
  {
    if |trades| == 0 then 0
    else WinsOn(trades[..|trades| - 1], key) + (if WonOn(trades[|trades| - 1], key) then 1 else 0)
  }

  /** The session-break test succeeds exactly when some trade is a win dated on the session. */
  lemma {:induction false} WinsOnPositive(trades: seq<Trade>, key: int)
    ensures WinsOn(trades, key) > 0 <==> exists i :: 0 <= i < |trades| && WonOn(trades[i], key)
    decreases |trades|
  {
    if |trades| > 0 {
      var init := trades[..|trades| - 1];
      WinsOnPositive(init, key);
      if exists i :: 0 <= i < |init| && WonOn(init[i], key) {
        var i :| 0 <= i < |init| && WonOn(init[i], key);
        assert trades[i] == init[i];
      }
      if exists i :: 0 <= i < |trades| - 1 && WonOn(trades[i], key) {
        var i :| 0 <= i < |trades| - 1 && WonOn(trades[i], key);
        assert init[i] == trades[i];
      }
    }
  }

  /** `Trades.Where(m => m.Outcome == o).Count()`. */
  function CountOutcome(trades: seq<Trade>, o: TradeOutcome): (n: nat)
    ensures n <= |trades|
    decreases |trades|
  {
    if |trades| == 0 then 0
    else CountOutcome(trades[..|trades| - 1], o) + (if trades[|trades| - 1].outcome == o then 1 else 0)
  }

  /** A trade is counted at most once, as a win or as a loss. */
  lemma {:induction false} WinsPlusLosses(trades: seq<Trade>)
    ensures CountOutcome(trades, Win) + CountOutcome(trades, Loss) <= |trades|
    decreases |trades|
  {
    if |trades| > 0 {
      WinsPlusLosses(trades[..|trades| - 1]);
    }
  }

  // ---------------------------------------------------------------------------------------------
  // One candle

  /** Where a session's replay stands: the book, the session's trade counter, and whether the
      session was left after a win. */
  datatype Progress = Progress(book: Book, count: nat, done: bool)

  /** Ask the long (or short) entry condition and, if it fires while the session counter is below
      the session maximum, submit an engine trade of that direction; also says whether a trade
      was submitted. The condition is asked even when the counter blocks the trade. */
  function TryEntry(b: Book, s: Settings, count: nat, c: Candle, newGuid: nat -> Guid, long: bool): (r: Result<(bool, Book)>)
  {
    var d :- if long then LongEntry(b, s, c) else ShortEntry(b, s, c);
    if d.0 && count < s.maxTradesPerSession
    then Success((true, ExecuteTrade(d.1, NewTrade(long, c, s.contracts, newGuid, |d.1.trades|))))
    else Success((false, d.1))
  }

  /** The entry half of a candle: the long entry first, then the short one. Only a short entry
      advances the counter. */
  function EnterStep(b: Book, s: Settings, count: nat, c: Candle, newGuid: nat -> Guid): (r: Result<Progress>)
  {
    var long :- TryEntry(b, s, count, c, newGuid, true);
    var short :- TryEntry(long.1, s, count, c, newGuid, false);
    Success(Progress(short.1, if short.0 then count + 1 else count, false))
  }

  /** The management half of a candle: CheckOpenPosition while in the market. */
  function ManageStep(b: Book, s: Settings, c: Candle): (r: Result<Book>) {
    if b.status == InTheMarket then CheckOpenPosition(b, s, c) else Success(b)
  }

  /** One candle of session `key`: manage the open position, leave the session if a trade dated
      on it has been won, and otherwise look for entries. */
  function CandleStep(b: Book, s: Settings, key: int, count: nat, c: Candle, newGuid: nat -> Guid): (r: Result<Progress>)
  {
    var b1 :- ManageStep(b, s, c);
    if WinsOn(b1.trades, key) > 0 then Success(Progress(b1, count, true))
    else EnterStep(b1, s, count, c, newGuid)
  }

  /** Every trade carries a stop-loss order (true of every trade the engine submits). */
  predicate AllStopped(b: Book) {
    forall i :: 0 <= i < |b.trades| ==> b.trades[i].stopLoss.Some?
  }

  /** What a step of the replay keeps: the one-open-position invariant, a stop on every trade,
      both conservation laws, and the trades and events it found (events only grow, trades only
      grow, and a trade that was not pending is left as it was). */
  predicate Sound(b: Book) {
    Valid(b) && AllStopped(b)
  }

  predicate Conserves(b: Book, r: Book) {
    && Drift(r) == Drift(b)
    && Ledger(r) == Ledger(b)
    && |b.trades| <= |r.trades|
    && b.events <= r.events
    && (forall i :: 0 <= i < |b.trades| && b.trades[i].outcome != Pending ==> r.trades[i] == b.trades[i])
    && (forall i :: 0 <= i < |b.trades| ==> r.trades[i].tradeDirection == b.trades[i].tradeDirection)
  }

  lemma ConservesTransitive(a: Book, b: Book, c: Book)
    requires Conserves(a, b) && Conserves(b, c)
    ensures Conserves(a, c)
  {
    forall i | 0 <= i < |a.trades| && a.trades[i].outcome != Pending
      ensures c.trades[i] == a.trades[i]
    {
      assert b.trades[i] == a.trades[i];
    }
    forall i | 0 <= i < |a.trades|
      ensures c.trades[i].tradeDirection == a.trades[i].tradeDirection
    {
      assert b.trades[i].tradeDirection == a.trades[i].tradeDirection;
    }
  }

  /** Managing a position whose trades all carry stops never fails, and keeps everything `Sound`
      and `Conserves` ask for. */
  lemma {:induction false} ManageStepSound(b: Book, s: Settings, c: Candle)
    requires Sound(b)
    ensures ManageStep(b, s, c).Success?
    ensures Sound(ManageStep(b, s, c).value) && Conserves(b, ManageStep(b, s, c).value)
    ensures |ManageStep(b, s, c).value.trades| == |b.trades|
  {
    if b.status == InTheMarket {
      var p := PendingIndex(b.trades);
      CheckOpenPositionKeeps(b, s, c);
      if p.Some? {
        var i := p.value;
        CheckPositionKeeps(b, s, i, c, b.trades[i].tradeDirection == Long);
        var r := CheckOpenPosition(b, s, c).value;
        assert Keeps(b, r, i);
        forall j | 0 <= j < |r.trades|
          ensures r.trades[j].stopLoss.Some?
        {
          if j != i {
            assert r.trades[j] == b.trades[j];
          }
        }
      }
    }
  }

  /** Submitting an engine trade while flat keeps `Sound` and `Conserves`. */
  lemma ExecuteNewTradeSound(b: Book, t: Trade)
    requires Sound(b) && b.status == OutOfTheMarket && t.outcome == Pending && t.profit == 0.0 && t.stopLoss.Some?
    ensures Sound(ExecuteTrade(b, t)) && Conserves(b, ExecuteTrade(b, t))
  {
    ExecuteTradeValid(b, t);
    ExecuteTradeBalances(b, t);
    var r := ExecuteTrade(b, t);
    assert forall i :: 0 <= i < |b.trades| ==> r.trades[i] == b.trades[i];
  }

  /** One entry attempt keeps `Sound` and `Conserves`. */
  lemma TryEntrySound(b: Book, s: Settings, count: nat, c: Candle, newGuid: nat -> Guid, long: bool)
    requires Sound(b)
    ensures var r := TryEntry(b, s, count, c, newGuid, long);
      r.Success? ==> Sound(r.value.1) && Conserves(b, r.value.1)
  {
    var r := TryEntry(b, s, count, c, newGuid, long);
    if r.Success? {
      var d := (if long then LongEntry(b, s, c) else ShortEntry(b, s, c)).value;
      assert Sound(d.1) && Conserves(b, d.1);
      if d.0 && count < s.maxTradesPerSession {
        ExecuteNewTradeSound(d.1, NewTrade(long, c, s.contracts, newGuid, |d.1.trades|));
        ConservesTransitive(b, d.1, r.value.1);
      }
    }
  }

  /** One entry attempt submits a trade only while flat and below the session maximum, and then
      exactly the engine trade of its direction, numbered by its position; otherwise the trades
      are left as they are, and in the market nothing changes at all. */
  lemma TryEntryShape(b: Book, s: Settings, count: nat, c: Candle, newGuid: nat -> Guid, long: bool)
    ensures var r := TryEntry(b, s, count, c, newGuid, long);
      && (b.status == InTheMarket ==> r == Success((false, b)))
      && (r.Success? ==>
        && (r.value.0 ==> && b.status == OutOfTheMarket && count < s.maxTradesPerSession
                          && r.value.1.status == InTheMarket
                          && r.value.1.trades == b.trades + [NewTrade(long, c, s.contracts, newGuid, |b.trades|)])
        && (!r.value.0 ==> r.value.1.trades == b.trades))
  {
  }

  /** The trades after the entry half: the ones found, then at most one new pending trade. */
  predicate AppendsAtMostOnePending(b: Book, r: Book) {
    && |b.trades| <= |r.trades| <= |b.trades| + 1
    && r.trades[..|b.trades|] == b.trades
    && (|r.trades| == |b.trades| + 1 ==> r.trades[|b.trades|].outcome == Pending)
  }

  /** The entry half keeps `Sound` and `Conserves` and never leaves the session. */
  lemma EnterStepSound(b: Book, s: Settings, count: nat, c: Candle, newGuid: nat -> Guid)
    requires Sound(b)
    ensures var r := EnterStep(b, s, count, c, newGuid);
      r.Success? ==> Sound(r.value.book) && Conserves(b, r.value.book) && !r.value.done
  {
    var r := EnterStep(b, s, count, c, newGuid);
    if r.Success? {
      TryEntrySound(b, s, count, c, newGuid, true);
      var long := TryEntry(b, s, count, c, newGuid, true).value;
      TryEntrySound(long.1, s, count, c, newGuid, false);
      var short := TryEntry(long.1, s, count, c, newGuid, false).value;
      ConservesTransitive(b, long.1, short.1);
    }
  }

  /** The entry half submits at most one trade (a long and a short never on the same candle),
      only below the session maximum, and advances the counter exactly when it submitted a short. */
  lemma EnterStepShape(b: Book, s: Settings, count: nat, c: Candle, newGuid: nat -> Guid)
    ensures var r := EnterStep(b, s, count, c, newGuid);
      r.Success? ==>
        && AppendsAtMostOnePending(b, r.value.book)
        && (|r.value.book.trades| == |b.trades| + 1 ==> count < s.maxTradesPerSession)
        && r.value.count == count + (if |r.value.book.trades| == |b.trades| + 1 && r.value.book.trades[|b.trades|].tradeDirection == Short then 1 else 0)
  {
    var r := EnterStep(b, s, count, c, newGuid);
    if r.Success? {
      TryEntryShape(b, s, count, c, newGuid, true);
      var long := TryEntry(b, s, count, c, newGuid, true).value;
      TryEntryShape(long.1, s, count, c, newGuid, false);
      var short := TryEntry(long.1, s, count, c, newGuid, false).value;
      if long.0 {
        assert short == (false, long.1);
        assert long.1.trades[..|b.trades|] == b.trades;
      } else if short.0 {
        assert short.1.trades[..|b.trades|] == b.trades;
      }
    }
  }

  /** One candle keeps `Sound` and `Conserves`. */
  lemma CandleStepSound(b: Book, s: Settings, key: int, count: nat, c: Candle, newGuid: nat -> Guid)
    requires Sound(b)
    ensures var r := CandleStep(b, s, key, count, c, newGuid);
      r.Success? ==> Sound(r.value.book) && Conserves(b, r.value.book)
  {
    ManageStepSound(b, s, c);
    var b1 := ManageStep(b, s, c).value;
    if WinsOn(b1.trades, key) == 0 {
      EnterStepSound(b1, s, count, c, newGuid);
      var r := EnterStep(b1, s, count, c, newGuid);
      if r.Success? {
        ConservesTransitive(b, b1, r.value.book);
      }
    }
  }

  /** One candle submits at most one trade (never both a long and a short), only below the
      session maximum; it advances the counter by one exactly when it submitted a short, and it
      ends the session exactly when a trade dated on the session has been won. */
  lemma CandleStepShape(b: Book, s: Settings, key: int, count: nat, c: Candle, newGuid: nat -> Guid)
    requires Sound(b)
    ensures var r := CandleStep(b, s, key, count, c, newGuid);
      r.Success? ==>
        && |b.trades| <= |r.value.book.trades| <= |b.trades| + 1
        && (|r.value.book.trades| == |b.trades| + 1 ==> count < s.maxTradesPerSession)
        && r.value.count == count + (if |r.value.book.trades| == |b.trades| + 1 && r.value.book.trades[|b.trades|].tradeDirection == Short then 1 else 0)
        && (r.value.done <==> WinsOn(r.value.book.trades, key) > 0)
        && Shorts(r.value.book.trades) == Shorts(b.trades) + (r.value.count - count)
  {
    ManageStepSound(b, s, c);
    var b1 := ManageStep(b, s, c).value;
    ShortsSameDirections(b.trades, b1.trades);
    if WinsOn(b1.trades, key) == 0 {
      EnterStepCounts(b1, s, key, count, c, newGuid);
    }
  }

  /** The entry half, after a management step that left no win on the session: at most one new
      trade, only below the maximum, no win, and the counter and the short count advance together. */
  lemma EnterStepCounts(b: Book, s: Settings, key: int, count: nat, c: Candle, newGuid: nat -> Guid)
    requires WinsOn(b.trades, key) == 0
    ensures var r := EnterStep(b, s, count, c, newGuid);
      r.Success? ==>
        && |b.trades| <= |r.value.book.trades| <= |b.trades| + 1
        && (|r.value.book.trades| == |b.trades| + 1 ==> count < s.maxTradesPerSession)
        && r.value.count == count + (if |r.value.book.trades| == |b.trades| + 1 && r.value.book.trades[|b.trades|].tradeDirection == Short then 1 else 0)
        && !r.value.done && WinsOn(r.value.book.trades, key) == 0
        && Shorts(r.value.book.trades) == Shorts(b.trades) + (r.value.count - count)
  {
    EnterStepShape(b, s, count, c, newGuid);
    var r := EnterStep(b, s, count, c, newGuid);
    if r.Success? {
      WinsAfterEntry(b, r.value.book, key);
      var ts := r.value.book.trades;
      if |ts| == |b.trades| + 1 {
        assert ts == b.trades + [ts[|b.trades|]];
        ShortsAppend(b.trades, ts[|b.trades|]);
      } else {
        assert ts == b.trades;
      }
    }
  }

  /** Entering adds no win: the trades found are left as they are and a new one is pending, so
      a session with no win yet still has none. */
  lemma WinsAfterEntry(b: Book, r: Book, key: int)
    requires AppendsAtMostOnePending(b, r)
    requires WinsOn(b.trades, key) == 0
    ensures WinsOn(r.trades, key) == 0
  {
    WinsOnPositive(b.trades, key);
    WinsOnPositive(r.trades, key);
    forall i | 0 <= i < |r.trades|
      ensures !WonOn(r.trades[i], key)
    {
      if i < |b.trades| {
        assert r.trades[i] == b.trades[i];
      }
    }
  }

  // ---------------------------------------------------------------------------------------------
  // Counting shorts

  /** The number of short trades. */
  function Shorts(trades: seq<Trade>): nat
    decreases |trades|
  {
    if |trades| == 0 then 0
    else Shorts(trades[..|trades| - 1]) + (if trades[|trades| - 1].tradeDirection == Short then 1 else 0)
  }

  lemma ShortsAppend(trades: seq<Trade>, t: Trade)
    ensures Shorts(trades + [t]) == Shorts(trades) + (if t.tradeDirection == Short then 1 else 0)
  {
    assert (trades + [t])[..|trades|] == trades;
  }

  lemma {:induction false} ShortsSameDirections(a: seq<Trade>, b: seq<Trade>)
    requires |a| == |b|
    requires forall i :: 0 <= i < |a| ==> b[i].tradeDirection == a[i].tradeDirection
    ensures Shorts(a) == Shorts(b)
    decreases |a|
  {
    if |a| > 0 {
      ShortsSameDirections(a[..|a| - 1], b[..|b| - 1]);
    }
  }

  // ---------------------------------------------------------------------------------------------
  // One session

  /** The first `k` candles of session `key`, with the counter starting at zero: each candle is
      a CandleStep until one leaves the session after a win, after which the rest are skipped. */
  function Session(b: Book, s: Settings, key: int, cs: seq<Candle>, newGuid: nat -> Guid, k: nat): (r: Result<Progress>)
    requires k <= |cs|
    decreases k
  {
    if k == 0 then Success(Progress(b, 0, false))
    else
      var p :- Session(b, s, key, cs, newGuid, k - 1);
      if p.done then Success(p) else CandleStep(p.book, s, key, p.count, cs[k - 1], newGuid)
  }

  /** Once the session has been left after a win, or has failed, the remaining candles change
      nothing. */
  lemma {:induction false} SessionSettled(b: Book, s: Settings, key: int, cs: seq<Candle>, newGuid: nat -> Guid, k: nat, n: nat)
    requires k <= n <= |cs|
    requires Session(b, s, key, cs, newGuid, k).Failure? || Session(b, s, key, cs, newGuid, k).value.done
    ensures Session(b, s, key, cs, newGuid, n) == Session(b, s, key, cs, newGuid, k)
    decreases n
  {
    if n > k {
      SessionSettled(b, s, key, cs, newGuid, k, n - 1);
      var p := Session(b, s, key, cs, newGuid, n - 1);
      if p.Success? {
        assert p.value.done;
      }
    }
  }

  /** A session that has ended, or whose candles are all played, has reached its outcome. */
  lemma SessionEnds(b: Book, s: Settings, key: int, cs: seq<Candle>, newGuid: nat -> Guid, k: nat, outcome: Result<Progress>)
    requires k <= |cs| && Session(b, s, key, cs, newGuid, k) == outcome
    requires k == |cs| || outcome.Failure? || outcome.value.done
    ensures Session(b, s, key, cs, newGuid, |cs|) == outcome
  {
    if k < |cs| {
      SessionSettled(b, s, key, cs, newGuid, k, |cs|);
    }
  }

  /** What holds after `k` candles of session `key` that started from `b`: `Sound` and
      `Conserves`; the counter equals the number of shorts submitted, never exceeds the session
      maximum (when it is positive at all) nor the candles seen; at most one trade per candle;
      and the session is left exactly when a trade dated on it has been won. */
  predicate SessionInvariant(b: Book, s: Settings, key: int, p: Progress, k: nat) {
    && Sound(p.book) && Conserves(b, p.book)
    && Shorts(p.book.trades) == Shorts(b.trades) + p.count
    && p.count <= k
    && (p.count == 0 || p.count <= s.maxTradesPerSession)
    && |p.book.trades| <= |b.trades| + k
    && (k > 0 ==> (p.done <==> WinsOn(p.book.trades, key) > 0))
  }

  lemma SessionStepSound(b: Book, s: Settings, key: int, p: Progress, c: Candle, newGuid: nat -> Guid, k: nat)
    requires k > 0 && SessionInvariant(b, s, key, p, k - 1) && !p.done
    ensures var r := CandleStep(p.book, s, key, p.count, c, newGuid);
      r.Success? ==> SessionInvariant(b, s, key, r.value, k)
  {
    CandleStepSound(p.book, s, key, p.count, c, newGuid);
    CandleStepShape(p.book, s, key, p.count, c, newGuid);
    var r := CandleStep(p.book, s, key, p.count, c, newGuid);
    if r.Success? {
      ConservesTransitive(b, p.book, r.value.book);
    }
  }

  /** Every prefix of a session keeps the session invariant. */
  lemma {:induction false} SessionSound(b: Book, s: Settings, key: int, cs: seq<Candle>, newGuid: nat -> Guid, k: nat)
    requires Sound(b) && k <= |cs|
    ensures var r := Session(b, s, key, cs, newGuid, k);
      r.Success? ==> SessionInvariant(b, s, key, r.value, k)
    decreases k
  {
    if k > 0 {
      SessionSound(b, s, key, cs, newGuid, k - 1);
      var p := Session(b, s, key, cs, newGuid, k - 1);
      if p.Success? && !p.value.done {
        SessionStepSound(b, s, key, p.value, cs[k - 1], newGuid, k);
      }
    }
  }

  /** The number of shorts a whole session submits is at most its MaxTradesPerSession (none when
      that is not positive); longs are not counted. */
  lemma SessionShortsBounded(b: Book, s: Settings, key: int, cs: seq<Candle>, newGuid: nat -> Guid)
    requires Sound(b)
    ensures var r := Session(b, s, key, cs, newGuid, |cs|);
      r.Success? ==> Shorts(r.value.book.trades) - Shorts(b.trades) <= if s.maxTradesPerSession > 0 then s.maxTradesPerSession else 0
  {
    SessionSound(b, s, key, cs, newGuid, |cs|);
  }

  // ---------------------------------------------------------------------------------------------
  // Every session

  /** The candles of session `key`; every key of a table SplitCandlesIntoSessions builds has an
      entry, so the empty default is never used there. */
  function SessionCandles(t: SessionTable, key: int): seq<Candle> {
    if key in t.sessions then t.sessions[key] else []
  }

  /** The first `m` sessions of the table, in its key order, each replayed in full. */
  function Sessions(b: Book, s: Settings, t: SessionTable, newGuid: nat -> Guid, m: nat): (r: Result<Book>)
    requires m <= |t.keys|
    decreases m
  {
    if m == 0 then Success(b)
    else
      var b1 :- Sessions(b, s, t, newGuid, m - 1);
      var cs := SessionCandles(t, t.keys[m - 1]);
      var p :- Session(b1, s, t.keys[m - 1], cs, newGuid, |cs|);
      Success(p.book)
  }

  /** A failure ends the replay: the later sessions are not played. */
  lemma {:induction false} SessionsFailurePersists(b: Book, s: Settings, t: SessionTable, newGuid: nat -> Guid, m: nat, n: nat)
    requires m <= n <= |t.keys| && Sessions(b, s, t, newGuid, m).Failure?
    ensures Sessions(b, s, t, newGuid, n) == Sessions(b, s, t, newGuid, m)
    decreases n
  {
    if n > m {
      SessionsFailurePersists(b, s, t, newGuid, m, n - 1);
    }
  }

  /** The whole replay keeps at most one position open, a stop on every trade, both conservation
      laws (balance minus the running totals, balance minus the trades' P/L), the events already
      published and every closed trade. */
  lemma {:induction false} SessionsSound(b: Book, s: Settings, t: SessionTable, newGuid: nat -> Guid, m: nat)
    requires Sound(b) && m <= |t.keys|
    ensures var r := Sessions(b, s, t, newGuid, m);
      r.Success? ==> Sound(r.value) && Conserves(b, r.value)
    decreases m
  {
    if m > 0 {
      SessionsSound(b, s, t, newGuid, m - 1);
      var b1 := Sessions(b, s, t, newGuid, m - 1);
      if b1.Success? {
        var cs := SessionCandles(t, t.keys[m - 1]);
        SessionSound(b1.value, s, t.keys[m - 1], cs, newGuid, |cs|);
        var p := Session(b1.value, s, t.keys[m - 1], cs, newGuid, |cs|);
        if p.Success? {
          ConservesTransitive(b, b1.value, p.value.book);
        }
      }
    }
  }

  // ---------------------------------------------------------------------------------------------
  // Summary statistics

  /** The figures the engine prints after a replay. */
  datatype Summary = Summary(gain: real, gainPercent: real, totalTrades: nat, wins: nat, losses: nat, winRate: real)

  /** The summary: gain on the account, that gain as a percentage of the initial balance (which
      divides by zero when that balance is zero), wins, losses and the win rate over all trades
      (which divides by zero when there are none). */
  function Summarize(b: Book, initialAccountBalance: real): (r: Result<Summary>)
    ensures r.Failure? <==> initialAccountBalance == 0.0 || |b.trades| == 0
    ensures r.Failure? ==> r.error == DivideByZero
    ensures r.Success? ==>
      && r.value.gain == b.accountBalance - initialAccountBalance
      && r.value.totalTrades == |b.trades|
      && r.value.wins == CountOutcome(b.trades, Win) && r.value.losses == CountOutcome(b.trades, Loss)
      && r.value.wins + r.value.losses <= r.value.totalTrades
      && 0.0 <= r.value.winRate <= 100.0
  {
    if initialAccountBalance == 0.0 then Failure(DivideByZero)
    else
      var gain := b.accountBalance - initialAccountBalance;
      var gainPercent := gain / initialAccountBalance * 100.0;
      var losses := CountOutcome(b.trades, Loss);
      var wins := CountOutcome(b.trades, Win);
      var totalTrades := |b.trades|;
      WinsPlusLosses(b.trades);
      if totalTrades == 0 then Failure(DivideByZero)
      else
        var winRate := wins as real / totalTrades as real * 100.0;
        PercentBounds(wins as real, totalTrades as real);
        Success(Summary(gain, gainPercent, totalTrades, wins, losses, winRate))
  }

  /** The two percentages of a summary: the gain is `gainPercent` per cent of the initial
      balance, and the wins are `winRate` per cent of the trades. */
  lemma SummarizePercentages(b: Book, initialAccountBalance: real)
    ensures var r := Summarize(b, initialAccountBalance);
      r.Success? ==>
        && r.value.gainPercent * initialAccountBalance == r.value.gain * 100.0
        && r.value.winRate * r.value.totalTrades as real == r.value.wins as real * 100.0
  {
    var r := Summarize(b, initialAccountBalance);
    if r.Success? {
      PercentOf(r.value.gain, initialAccountBalance, r.value.gainPercent);
      PercentOf(r.value.wins as real, r.value.totalTrades as real, r.value.winRate);
    }
  }

  lemma PercentOf(part: real, whole: real, percent: real)
    requires whole != 0.0 && percent == part / whole * 100.0
    ensures percent * whole == part * 100.0
  {
  }

  lemma PercentBounds(part: real, whole: real)
    requires 0.0 <= part <= whole && whole > 0.0
    ensures 0.0 <= part / whole * 100.0 <= 100.0
  {
    assert part / whole <= 1.0;
  }
}
