# Athena backtester core, modelled in Dafny

This project models the core of an intraday futures backtester written in C#. It covers four parts.

- **The candle pipeline.** CSV rows are parsed into 1-minute candles. Those are rolled up into
  N-minute bars, and the bars are split into per-date sessions.
- **The EMA indicator** and the three entry policies. Each policy compares a candle's move away
  from the 20-period EMA with a threshold. The two-step policy also arms a flag per direction and
  fires once the close has come back past the 10-period EMA.
- **The `Strategy` state machine.** It covers stop and target fills, P/L booking through
  `UpdateAccountBalances`, trailing stops, entering and leaving the market, and the published
  events.
- **The engine's replay loop.** For every configuration and strategy, every session is replayed
  candle by candle: first manage the open position, leave the session after a win, then try a
  long entry, then a short one.

The model follows the C# code, with one correction. The engine's trades carry a profit target
for all of their contracts, where the code leaves the target's `Contracts` at zero (see
"## Findings"). Prices and balances are exact `real`s, and `Math.Round(x, 2)` is
half-to-even rounding to two places (`Common.Round2`). A .NET exception becomes a `Fault` value
in a `Result`.

Some things the code reaches for are not modelled directly. They are passed in as parameters:
- `DateTime.Parse` and `Convert.ToDecimal`, as `parseDate`/`parseDecimal`;
- `Guid.NewGuid`, as a generator `newGuid`, indexed `3n`, `3n+1`, `3n+2` for the trade, its stop
  and its target, where `n` is the trade's position in the list;
- the CSV file, as its lines.

A weekday is derived from a day number, and the session key (`ToShortDateString`) is the day
number.

Layout:
- `common.dfy`: results, faults, timestamps and rounding.
- `candles.dfy`: row splitting, bars and the session table.
- `candle_processor.dfy`, `candle_parser.dfy`: the two candle helpers.
- `ema.dfy`: the EMA.
- `price_extreme.dfy`, `legacy_price_extreme.dfy`, `enter_after.dfy`: the entry policies.
- `trading.dfy`: the data holders.
- `position.dfy`: position management as functions on a `Book`, the fields trading changes.
- `strategy.dfy`: the `Strategy` class.
- `replay.dfy`: the replay as functions.
- `engine.dfy`: the `StrategyEngine` class.

Each class method changes its fields in place. Its contract ties the new state to the functional
model, and the lemmas state what that model promises.

The main invariants:
- at most one trade is pending, and one is pending exactly while the strategy is in the market
  (`Position.Valid`);
- balance minus TotalProfit minus TotalLosses never changes (`Position.Drift`);
- balance minus the trades' booked P/L never changes (`Position.Ledger`).

The replay keeps all three across every session (`EngineReplay.SessionsSound`).

Some behaviours of the code differ from what its own names and comments suggest. The model
follows the code in each case but the last, which it corrects:
- `ConvertCandleTimeframe` groups the whole candle list before `SplitCandlesIntoSessions` runs
  (Domain/Strategy/Strategy.cs:224-236), so a bar can hold candles of two dates.
- The trading-window filter is inclusive at both ends. Its end is the end hour with the minutes
  dropped (`new TimeSpan(TradingWindowEndTime.Hour, 0, 0)`, Strategy.cs:228-234).
- The flag reset of EnterAfterPriceExtremeAndEmaCloseStrategy.cs:112-119 is commented as
  happening "when a new session starts". StrategyEngine.cs never calls `ResetSessionSettings`,
  so the flags carry over from one session to the next.
- `StopTradingAfterWinning` and the two `AllowedOrderEntryWindow*` times are loaded
  (Strategy.cs:254, 260-261) but never read by the engine.
- The engine leaves a session after any win dated on it, whatever that setting says
  (StrategyEngine.cs:122-123). It accepts a new entry at any time of the window.
- Only the short path increments `sessionTradeCount` (StrategyEngine.cs:192). Both entry
  predicates are asked on every candle, the short one after a long entry was taken.
- `Run` reloads configuration into the same strategy objects (StrategyEngine.cs:55-64). The
  EMA dictionary keeps its keys, so the second configuration raises a duplicate-key error
  (`StrategyEngine.StrategyEngine.Run`).
- The engine's profit target never sets `Contracts` (StrategyEngine.cs:143-149, 180-186). The
  replay gives it the trade's contracts, so target fills close trades as Wins and the win-break
  can fire. The code as written is `EngineReplay.NewTradeAsWritten`; see "## Findings".

## Model

| member | source | states |
|---|---|---|
| Common.Round2 | Domain/Indicators/Ema.cs:40 | the result has two decimal places and lies within half a hundredth of the input; at an exact midpoint it is the even hundredth, so the result is fully determined |
| Common.Round2OfCents | Domain/Indicators/Ema.cs:40 | a value that already has two decimals is left unchanged by rounding |
| Trading.NewTimeOnly | Domain/Strategy/Strategy.cs:258-261 | a TimeOnly is built exactly when hour is 0..23 and minute 0..59; otherwise ArgumentOutOfRange |
| Candles.Split | Domain/Data/CandleDataProcessor.cs:33 | String.Split yields at least one piece |
| Candles.SplitJoin | Domain/Data/CandleDataProcessor.cs:33 | joining the pieces gives back the row, and no piece holds the separator |
| Candles.ParseRow | Domain/Data/CandleDataProcessor.cs:33-42 | a parsed row has at least six fields, with its date from field 0 and its close from field 4; any failure is a format, index or other conversion error |
| Candles.ParseRowExactly | Domain/Data/CandleDataProcessor.cs:33-42 | a row parses exactly when it has at least six comma-separated fields, field 0 is a date and fields 1-5 are decimals; the candle is then (date, open, high, low, close, volume) from fields 0-5; a date that does not parse raises its own error first |
| Candles.BlankRowFails | Domain/Helpers/CandleDataParser.cs:26-35 | a blank row fails with FormatException when DateTime.Parse rejects the empty string |
| Candles.MaxHigh | Domain/Data/CandleDataProcessor.cs:86 | the group's High is an upper bound of every High and is one of them |
| Candles.MinLow | Domain/Data/CandleDataProcessor.cs:87 | the group's Low is a lower bound of every Low and is one of them |
| Candles.Bar | Domain/Data/CandleDataProcessor.cs:82-90 | a bar has the first Open, the last Close, the first timestamp, the summed Volume, and the max High and min Low of its group |
| Candles.BarCountIsCeiling | Domain/Data/CandleDataProcessor.cs:78-94 | the bar count is ceil(n/tf): zero for no candles, otherwise the last group starts before the end and the groups reach it |
| Candles.Window | Domain/Data/CandleDataProcessor.cs:80 | each group Skip(k*tf).Take(tf) is non-empty and holds at most tf candles, so a partial last group is kept |
| Candles.WindowsCover | Domain/Data/CandleDataProcessor.cs:72-97 | the groups laid end to end are exactly the input prefix they cover, so grouping runs over the whole list |
| Candles.BarsConserveVolume | Domain/Data/CandleDataProcessor.cs:84 | the bars' volumes add up to the input candles' volume |
| Candles.FirstSeenKeysDistinct | Domain/Data/CandleDataProcessor.cs:104-123 | the session keys are distinct |
| Candles.FirstSeenKeysCover | Domain/Data/CandleDataProcessor.cs:104-123 | a date is a session key exactly when some candle carries it |
| Candles.OnDateMembers | Domain/Data/CandleDataProcessor.cs:110-118 | a session holds only input candles of its own date |
| Candles.SessionsPreserveCount | Domain/Data/CandleDataProcessor.cs:104-123 | the sessions together hold every candle exactly once |
| CandleDataProcessor.ConvertRawDataToCandleSticks | Domain/Data/CandleDataProcessor.cs:20-64 | the loop returns the row-by-row conversion: blank rows skipped, Sunday candles dropped, a FormatException fatal, any other row error skipped |
| CandleDataProcessor.KeptRowsAppend | Domain/Data/CandleDataProcessor.cs:24-49 | converting two blocks of rows gives the first block's candles followed by the second's, and aborts exactly when one does |
| CandleDataProcessor.KeptRowsFailureIsFormat | Domain/Data/CandleDataProcessor.cs:51-55 | the only error that escapes the parse is FormatException |
| CandleDataProcessor.AbortsIffFormatError | Domain/Data/CandleDataProcessor.cs:51-59 | the parse aborts exactly when some non-blank row raises FormatException |
| CandleDataProcessor.KeptRowsShape | Domain/Data/CandleDataProcessor.cs:24-49 | at most one candle per non-blank row; no candle is dated Sunday; each candle is what some non-blank row parses to |
| CandleDataProcessor.ConvertCandleTimeframe | Domain/Data/CandleDataProcessor.cs:72-97 | it fails with InvalidOperation exactly on empty input or tf <= 0; otherwise it returns ceil(n/tf) bars, bar k built from group k |
| CandleDataProcessor.SplitCandlesIntoSessions | Domain/Data/CandleDataProcessor.cs:104-123 | keys are the distinct dates in first-seen order, and each session holds its date's candles in input order |
| CandleDataParser.ConvertRawDataToCandleSticks | Domain/Helpers/CandleDataParser.cs:19-42 | it succeeds exactly when every row parses, with one candle per row in order; otherwise the error is that of the first failing row |
| CandleDataParser.ConvertCandleTimeframe | Domain/Helpers/CandleDataParser.cs:50-75 | same contract as CandleDataProcessor's: InvalidOperation on empty input or tf <= 0, otherwise ceil(n/tf) bars |
| CandleDataParser.SplitCandlesIntoSessions | Domain/Helpers/CandleDataParser.cs:77-96 | date-keyed sessions in first-seen order, each in input order |
| Ema.Calculate | Domain/Indicators/Ema.cs:22-45 | DivideByZero exactly when the period is -1; otherwise one value per candle at its timestamp, holding the unrounded recurrence r_i = m*close_i + (1-m)*r_{i-1} rounded to two places, with m = 2/(period+1) |
| Ema.MultiplierInUnit | Domain/Indicators/Ema.cs:26 | for a period of at least one, the factor lies in (0, 1] |
| Ema.ConstantSeries | Domain/Indicators/Ema.cs:32-34 | a constant close series c keeps the accumulator at c |
| Ema.ConstantSeriesRounded | Domain/Indicators/Ema.cs:32-40 | a constant close series c yields round(c, 2) at every position, for every period |
| Ema.RawWithinBounds | Domain/Indicators/Ema.cs:34 | with a factor in [0, 1], the accumulator stays within any bounds of the closes seen |
| Ema.RawWithinPrefixRange | Domain/Indicators/Ema.cs:26-34 | for a period >= 1, each accumulator value lies between the min and the max close of its prefix |
| Ema.MinClose | Domain/Indicators/Ema.cs:34 | the smallest close of a prefix: attained, and a lower bound |
| Ema.MaxClose | Domain/Indicators/Ema.cs:34 | the largest close of a prefix: attained, and an upper bound |
| Ema.SeriesCoversCandles | Domain/Indicators/Ema.cs:30-42 | the computed series has a value at the timestamp of every candle |
| Ema.FindEma | Application/Strategies/PriceExtremeStrategy.cs:43 | Where(...).FirstOrDefault(): None exactly when no value carries the timestamp, otherwise the first one that does |
| PriceExtremeStrategy.CalculateEmaPriceChange | Application/Strategies/PriceExtremeStrategy.cs:100-107 | DivideByZero exactly for a zero EMA; otherwise round((High-ema)/ema*100, 2) when Close > ema, else the same with Low |
| PriceExtremeStrategy.PriceChangeSign | Application/Strategies/PriceExtremeStrategy.cs:100-107 | for a well-formed candle and a positive EMA, the change is >= 0 above the EMA and <= 0 at or below it |
| PriceExtremeStrategy.Ema20At | Application/Strategies/PriceExtremeStrategy.cs:43 | KeyNotFound exactly when no 20-period series is loaded; otherwise the first value stamped like the candle |
| PriceExtremeStrategy.LongEntryCondition | Application/Strategies/PriceExtremeStrategy.cs:38-58 | in the market the answer is false |
| PriceExtremeStrategy.ShortEntryCondition | Application/Strategies/PriceExtremeStrategy.cs:65-86 | in the market the answer is false |
| PriceExtremeStrategy.LongEntryExactly | Application/Strategies/PriceExtremeStrategy.cs:38-58 | long is true exactly when flat, a 20-EMA value exists at the timestamp, and the change is <= -0.25 |
| PriceExtremeStrategy.ShortEntryExactly | Application/Strategies/PriceExtremeStrategy.cs:65-86 | short is true exactly when flat, a 20-EMA value exists, and the change is >= 0.25 |
| PriceExtremeStrategy.MissingEmaNoEntry | Application/Strategies/PriceExtremeStrategy.cs:43-74 | with no 20-EMA value at the timestamp, both predicates are false |
| PriceExtremeStrategy.EntriesExclusive | Application/Strategies/PriceExtremeStrategy.cs:51-79 | long and short never both hold for one candle and state |
| LegacyPriceExtremeStrategy.LongEntryCondition | Application/PriceExtremeStrategy.cs:53-73 | in the market the answer is false |
| LegacyPriceExtremeStrategy.ShortEntryCondition | Application/PriceExtremeStrategy.cs:80-101 | in the market the answer is false |
| LegacyPriceExtremeStrategy.LongEntryExactly | Application/PriceExtremeStrategy.cs:55-69 | long is true exactly when flat, a 20-EMA value exists, and the change is <= -0.24 |
| LegacyPriceExtremeStrategy.ShortEntryExactly | Application/PriceExtremeStrategy.cs:83-97 | short is true exactly when flat, a 20-EMA value exists, and the change is >= 0.24 |
| LegacyPriceExtremeStrategy.EntriesExclusive | Application/PriceExtremeStrategy.cs:66-94 | long and short are mutually exclusive on one candle |
| LegacyPriceExtremeStrategy.LegacyThresholdIsLooser | Application/PriceExtremeStrategy.cs:66-94 | every candle that fires the 0.25 policy also fires the 0.24 one, in both directions |
| EnterAfterPriceExtremeAndEmaCloseStrategy.Lookups | Application/Strategies/EnterAfterPriceExtremeAndEmaCloseStrategy.cs:50-51 | KeyNotFound exactly when key 20 or key 10 is missing; otherwise the first value of each series stamped like the candle |
| EnterAfterPriceExtremeAndEmaCloseStrategy.LongEntryCondition | Application/Strategies/EnterAfterPriceExtremeAndEmaCloseStrategy.cs:45-74 | in the market: false, flag unchanged; a firing call disarms the flag |
| EnterAfterPriceExtremeAndEmaCloseStrategy.ShortEntryCondition | Application/Strategies/EnterAfterPriceExtremeAndEmaCloseStrategy.cs:81-110 | in the market: false, flag unchanged; a firing call disarms the flag |
| EnterAfterPriceExtremeAndEmaCloseStrategy.LongArming | Application/Strategies/EnterAfterPriceExtremeAndEmaCloseStrategy.cs:50-70 | a missing 20-EMA value changes nothing; otherwise the flag ends armed exactly when it was armed or the change is <= -0.25, and the call did not fire |
| EnterAfterPriceExtremeAndEmaCloseStrategy.LongFiresExactly | Application/Strategies/EnterAfterPriceExtremeAndEmaCloseStrategy.cs:58-70 | long fires exactly when armed (before or by this candle) and Close - EMA10 >= 5 |
| EnterAfterPriceExtremeAndEmaCloseStrategy.ShortArming | Application/Strategies/EnterAfterPriceExtremeAndEmaCloseStrategy.cs:87-106 | a missing 20-EMA value changes nothing; otherwise the flag ends armed exactly when it was armed or the change is >= 0.25, and the call did not fire |
| EnterAfterPriceExtremeAndEmaCloseStrategy.ShortFiresExactly | Application/Strategies/EnterAfterPriceExtremeAndEmaCloseStrategy.cs:95-106 | short fires exactly when armed and EMA10 - Close >= 5 |
| EnterAfterPriceExtremeAndEmaCloseStrategy.MissingEma10Raises | Application/Strategies/EnterAfterPriceExtremeAndEmaCloseStrategy.cs:53-100 | with the 20-EMA value found, the change computed and no 10-EMA value: the long side always raises NullReference (its 10-EMA read at line 63 is unconditional); the short side raises exactly when its flag ends armed (the `&&` at line 100 skips the read otherwise), and otherwise answers false with the flag down |
| EnterAfterPriceExtremeAndEmaCloseStrategy.EntriesExclusive | Application/Strategies/EnterAfterPriceExtremeAndEmaCloseStrategy.cs:45-110 | on one candle with the same series, long and short never both fire |
| Position.UpdateAccountBalances | Domain/Strategy/Strategy.cs:432-440 | the balance moves by exactly x, TotalProfit by max(x,0) and TotalLosses by min(x,0), so balance minus both totals is unchanged |
| Position.ResetSessionSettings | Application/Strategies/EnterAfterPriceExtremeAndEmaCloseStrategy.cs:112-119 | the two-step policy clears both flags; the base leaves everything as it is |
| Position.OnTradeClosed | Domain/Strategy/Strategy.cs:493-505 | the strategy leaves the market and the outcome becomes Win exactly when the trade's profit is positive; TradeClosed is published; nothing else on the trade changes |
| Position.OnTradeClosedKeeps | Domain/Strategy/Strategy.cs:493-505 | closing a trade that is no longer pending, or that made money, keeps both conservation laws and the frame |
| Position.ExecuteTrade | Domain/Strategy/Strategy.cs:467-491 | exactly one trade is appended, the strategy enters the market, and TradeCreated is published |
| Position.ExecuteTradeBalances | Domain/Strategy/Strategy.cs:467-474 | executing a trade leaves balance minus the running totals unchanged |
| Position.ExecuteTradeValid | Domain/Strategy/Strategy.cs:467-491 | executing a pending trade while flat keeps the one-open-position invariant |
| Position.StopLossAmount | Domain/Strategy/Strategy.cs:373-376 | the loss is zero when the stop is at the entry, otherwise -abs(stop-entry)*PricePerTick*4*contracts; never positive |
| Position.ProcessStopLossHit | Domain/Strategy/Strategy.cs:371-388 | the stop is stamped with the candle time; the outcome becomes Breakeven or Loss; the loss is added to the trade's profit and the balance; StopLossHit is published |
| Position.ProcessStopLossHitKeeps | Domain/Strategy/Strategy.cs:371-388 | a stop fill touches only its own trade and keeps both conservation laws |
| Position.CheckForStopLoss | Domain/Strategy/Strategy.cs:305-315 | long fires iff Low or Close <= stop, short (351-361) iff High or Close >= stop, never without a stop; a fill leaves the market |
| Position.CheckForStopLossKeeps | Domain/Strategy/Strategy.cs:305-361 | the stop check keeps the frame, both conservation laws and status/pending consistency |
| Position.TargetProfit | Domain/Strategy/Strategy.cs:399 | the profit of a target fill is abs(target - entry) * PricePerTick * 4 * target.Contracts, and never negative for non-negative tick value and contracts |
| Position.TrailStop | Domain/Strategy/Strategy.cs:411-422 | the stop moves to the entry under breakeven trailing; otherwise by InitialStopLoss/2 (up for long, down for short) under half-stop trailing; otherwise unchanged; moving a missing stop is NullReference |
| Position.FillTarget | Domain/Strategy/Strategy.cs:399-409 | the fill lowers contracts by exactly the target's, adds its profit to the trade and the balance, and stamps the target |
| Position.ProcessProfitTargetHit | Domain/Strategy/Strategy.cs:396-426 | it fails with NullReference exactly when trailing is on and the trade has no stop |
| Position.ProcessProfitTargetHitSpec | Domain/Strategy/Strategy.cs:396-426 | on success: contracts lowered by the target's, profit booked on the trade and the balance, the target stamped, the stop trailed, ProfitTargetHit published, nothing else changed |
| Position.ProcessProfitTargetHitKeeps | Domain/Strategy/Strategy.cs:396-426 | a target fill touches only its own trade and keeps both conservation laws |
| Position.CloseIfFlat | Domain/Strategy/Strategy.cs:294-301 | with no contracts left the trade is marked Win and closed; otherwise nothing changes |
| Position.CloseIfFlatKeeps | Domain/Strategy/Strategy.cs:294-301 | closing a flat trade keeps the invariants |
| Position.TargetStep | Domain/Strategy/Strategy.cs:282-302 | a target with a closing date is skipped; a failure is NullReference, only with trailing and no stop |
| Position.TargetFill | Domain/Strategy/Strategy.cs:286-291 | long fills iff High or Close >= price, short (329) iff Low or Close <= price; a hit runs ProcessProfitTargetHit, otherwise nothing changes |
| Position.TargetStepKeeps | Domain/Strategy/Strategy.cs:282-302 | one pass of the target loop keeps the invariants |
| Position.CheckForProfitTarget | Domain/Strategy/Strategy.cs:280-303 | the target loop fails only with NullReference and keeps the trade and target counts |
| Position.CheckForProfitTargetKeeps | Domain/Strategy/Strategy.cs:280-303 | the whole target loop keeps the invariants |
| Position.CheckForProfitTargetSucceeds | Domain/Strategy/Strategy.cs:280-303 | the target loop cannot fail while the trade has a stop |
| Position.TargetFailurePersists | Domain/Strategy/Strategy.cs:282-290 | once a pass has raised, the loop has raised |
| Position.CheckPosition | Domain/Strategy/Strategy.cs:266-278 | the stop check, then the target check; the only failure is NullReference |
| Position.CheckPositionKeeps | Domain/Strategy/Strategy.cs:266-278 | managing a position keeps the invariants, and cannot fail while the trade has a stop |
| Position.PendingIndex | Domain/Strategy/Strategy.cs:452 | None exactly when no trade is pending; otherwise the first pending trade |
| Position.CheckOpenPositionKeeps | Domain/Strategy/Strategy.cs:449-465 | with no pending trade nothing changes; otherwise only the first pending trade is touched, and both conservation laws and the one-open-position invariant hold |
| Position.ValidAfterKeeps | Domain/Strategy/Strategy.cs:449-465 | a step that touches only the pending trade keeps the one-open-position invariant |
| Position.LongEntry | Domain/Strategy/Strategy.cs:533 | the strategy's own long predicate: in the market false with nothing changed; a true answer only when flat; only the long flag may change |
| Position.ShortEntry | Domain/Strategy/Strategy.cs:526 | the strategy's own short predicate: in the market false with nothing changed; a true answer only when flat; only the short flag may change |
| Strategies.WithinWindow | Domain/Strategy/Strategy.cs:234 | exactly the candles whose time of day lies in [start, end], both ends included, and no more candles than the input |
| Strategies.WithinWindowAppend | Domain/Strategy/Strategy.cs:232-236 | the filter distributes over concatenation, so it keeps the input order and repeated candles |
| Strategies.WithinWindowSingle | Domain/Strategy/Strategy.cs:234 | a single candle is kept exactly when its time of day is in the window |
| Strategies.Strategy.constructor | Domain/Strategy/Strategy.cs:201-205 | a new strategy is out of the market, with no trades, no events and no EMA series |
| Strategies.Strategy.LoadConfiguration | Domain/Strategy/Strategy.cs:241-264 | the settings are copied; the four window times are set two hours after the configured ones; ArgumentOutOfRange exactly when one of them is not a valid time |
| Strategies.Strategy.CopyAccountSettings | Domain/Strategy/Strategy.cs:243-247 | id, balances, initial stop and contracts are copied from the configuration |
| Strategies.Strategy.CopyDescriptiveSettings | Domain/Strategy/Strategy.cs:248-252 | config, tick value, name, description and session limit are copied |
| Strategies.Strategy.CopyTradingFlags | Domain/Strategy/Strategy.cs:253-256 | timeframe and the three trading flags are copied |
| Strategies.Strategy.SetWindowTimes | Domain/Strategy/Strategy.cs:258-261 | each window time is the configured one plus two hours, built in source order; ArgumentOutOfRange exactly when one is out of range |
| Strategies.Strategy.ParseCandleData | Domain/Strategy/Strategy.cs:220-239 | the bars are the whole-list rollup; the sessions split the bars inside [start, endHour:00], and every session candle lies in the window and on its key's date |
| Strategies.Strategy.LoadStrategySpecificSettings | Application/Strategies/EnterAfterPriceExtremeAndEmaCloseStrategy.cs:124-131 | the 10- and 20-period EMA series of the candles are added; DuplicateKey exactly when either key is already present |
| Strategies.Strategy.UpdateAccountBalances | Domain/Strategy/Strategy.cs:432-440 | the fields change as Position.UpdateAccountBalances says |
| Strategies.Strategy.ResetSessionSettings | Application/Strategies/EnterAfterPriceExtremeAndEmaCloseStrategy.cs:112-119 | the flags change as Position.ResetSessionSettings says |
| Strategies.Strategy.OnTradeCreated | Domain/Strategy/Strategy.cs:485-491 | the strategy enters the market and TradeCreated is published |
| Strategies.Strategy.ExecuteTrade | Domain/Strategy/Strategy.cs:467-474 | the state changes as Position.ExecuteTrade says |
| Strategies.Strategy.OnTradeClosed | Domain/Strategy/Strategy.cs:493-505 | the state changes as Position.OnTradeClosed says |
| Strategies.Strategy.ProcessStopLossHit | Domain/Strategy/Strategy.cs:371-388 | the state changes as Position.ProcessStopLossHit says |
| Strategies.Strategy.ProcessProfitTargetHit | Domain/Strategy/Strategy.cs:396-426 | it fails with NullReference exactly when Position.ProcessProfitTargetHit does; on success the new state is that function's result |
| Strategies.Strategy.FillProfitTarget | Domain/Strategy/Strategy.cs:398-409 | the state changes as Position.FillTarget says, and the method returns the profit and the stamped target |
| Strategies.Strategy.TrailStopLoss | Domain/Strategy/Strategy.cs:411-422 | the stop is replaced by Position.TrailStop's, or the method fails with NullReference exactly when it does |
| Strategies.Strategy.CheckForStopLoss | Domain/Strategy/Strategy.cs:305-315 | the state changes as Position.CheckForStopLoss says, for long and short (351-361) |
| Strategies.Strategy.CheckForProfitTarget | Domain/Strategy/Strategy.cs:280-303 | the foreach loop over the open targets fails with NullReference exactly when Position.CheckForProfitTarget does; on success the new state is that function's result (short at 322-344) |
| Strategies.Strategy.TargetPass | Domain/Strategy/Strategy.cs:282-302 | one loop pass matches Position.TargetStep |
| Strategies.Strategy.FillIfHit | Domain/Strategy/Strategy.cs:286-291 | matches Position.TargetFill |
| Strategies.Strategy.CloseIfFlat | Domain/Strategy/Strategy.cs:293-301 | matches Position.CloseIfFlat |
| Strategies.Strategy.CheckPosition | Domain/Strategy/Strategy.cs:266-278 | matches Position.CheckPosition |
| Strategies.Strategy.CheckOpenPosition | Domain/Strategy/Strategy.cs:449-465 | matches Position.CheckOpenPosition |
| Strategies.Strategy.LongEntryCondition | Application/Strategies/EnterAfterPriceExtremeAndEmaCloseStrategy.cs:45-74 | the answer, the fault and the new long flag are Position.LongEntry's |
| Strategies.Strategy.ShortEntryCondition | Application/Strategies/EnterAfterPriceExtremeAndEmaCloseStrategy.cs:81-110 | the answer, the fault and the new short flag are Position.ShortEntry's |
| EngineReplay.NewTrade | Domain/Strategy/StrategyEngine.cs:128-150 | a pending trade at the close for the strategy's contracts, with a working stop and one working target for all of the trade's contracts (the corrected order; see Findings) |
| EngineReplay.NewTradeAsWritten | Domain/Strategy/StrategyEngine.cs:128-150 | the trade as the engine builds it: NewTrade with the target's Contracts left at zero |
| EngineReplay.AsWrittenTargetFillKeepsTradeOpen | Domain/Strategy/Strategy.cs:280-303 | as written, a target fill of an engine trade with positive contracts books nothing: the trade stays Pending with zero profit and all its contracts, balance and status unchanged |
| EngineReplay.TargetFillClosesTrade | Domain/Strategy/Strategy.cs:280-303 | with the corrected target, a fill closes the engine trade as a Win out of the market, with 10 * PricePerTick * 4 per contract booked on the trade and the balance |
| EngineReplay.NewTradeRiskReward | Domain/Strategy/StrategyEngine.cs:136-149 | the stop is 30 points against the entry and the target 10 points for it (long: close-30/close+10; short the other way); a stop fill loses 30*PricePerTick*4 per contract and a target fill gains 10*PricePerTick*4 |
| EngineReplay.NewTradeIdsDistinct | Domain/Strategy/StrategyEngine.cs:130-145 | with an injective generator, trades, stops and targets all get distinct ids |
| EngineReplay.WinsOn | Domain/Strategy/StrategyEngine.cs:122 | the count of wins dated on the session never exceeds the trades |
| EngineReplay.WinsOnPositive | Domain/Strategy/StrategyEngine.cs:122-123 | the break test succeeds exactly when some trade initiated on the session date is a Win |
| EngineReplay.CountOutcome | Domain/Strategy/StrategyEngine.cs:212-213 | the count of an outcome never exceeds the trades |
| EngineReplay.WinsPlusLosses | Domain/Strategy/StrategyEngine.cs:212-214 | wins plus losses never exceed the total trades |
| EngineReplay.ManageStepSound | Domain/Strategy/StrategyEngine.cs:116-119 | managing while in the market never fails when every trade has a stop, and keeps the invariants |
| EngineReplay.ExecuteNewTradeSound | Domain/Strategy/StrategyEngine.cs:128-150 | submitting an engine trade while flat keeps the invariants |
| EngineReplay.TryEntrySound | Domain/Strategy/StrategyEngine.cs:126-150 | one entry attempt keeps the invariants |
| EngineReplay.TryEntryShape | Domain/Strategy/StrategyEngine.cs:126-150 | in the market nothing changes; a trade is submitted only when flat and counter < MaxTradesPerSession, and then it is exactly NewTrade, the corrected trade whose target carries all its contracts; otherwise the trades are unchanged |
| EngineReplay.EnterStepSound | Domain/Strategy/StrategyEngine.cs:126-204 | the entry half keeps the invariants and never ends the session |
| EngineReplay.EnterStepShape | Domain/Strategy/StrategyEngine.cs:126-204 | long before short, at most one trade per candle, only below the cap; the counter rises exactly when a short was submitted |
| EngineReplay.EnterStepCounts | Domain/Strategy/StrategyEngine.cs:126-192 | after a step with no win, entering adds none, and the counter and the short count advance together |
| EngineReplay.WinsAfterEntry | Domain/Strategy/StrategyEngine.cs:122-150 | entering adds no win to the session |
| EngineReplay.CandleStepSound | Domain/Strategy/StrategyEngine.cs:113-205 | one candle keeps the invariants |
| EngineReplay.CandleStepShape | Domain/Strategy/StrategyEngine.cs:113-205 | management runs before entries; at most one trade per candle, only below the cap; the counter rises exactly on a short; the session ends exactly when a trade dated on it has won |
| EngineReplay.SessionSettled | Domain/Strategy/StrategyEngine.cs:122-123 | after the break (or a fault), the remaining candles change nothing |
| EngineReplay.SessionEnds | Domain/Strategy/StrategyEngine.cs:113-123 | a session that has ended, or has run out of candles, has reached its final outcome |
| EngineReplay.SessionSound | Domain/Strategy/StrategyEngine.cs:108-205 | over every prefix of a session: the invariants hold, the counter (restarted at 0) equals the shorts submitted and stays within the cap, and the session is left exactly after a win dated on it |
| EngineReplay.SessionShortsBounded | Domain/Strategy/StrategyEngine.cs:110-192 | a session submits at most MaxTradesPerSession shorts; longs are not counted |
| EngineReplay.SessionsFailurePersists | Domain/Strategy/StrategyEngine.cs:108-206 | an exception ends the replay; later sessions are not played |
| EngineReplay.SessionsSound | Domain/Strategy/StrategyEngine.cs:108-206 | the whole replay keeps one-open-position, a stop on every trade, both conservation laws, the events published and every closed trade |
| EngineReplay.Summarize | Domain/Strategy/StrategyEngine.cs:211-215 | DivideByZero exactly when the initial balance is zero or there are no trades; otherwise gain = balance - initial, total/wins/losses counted, 0 <= win rate <= 100 |
| EngineReplay.SummarizePercentages | Domain/Strategy/StrategyEngine.cs:211-215 | the gain percentage times the initial balance is 100 times the gain, and the win rate times the trades is 100 times the wins |
| StrategyEngine.StrategyEngine.constructor | Domain/Strategy/StrategyEngine.cs:24-31 | the engine keeps the configurations it is given |
| StrategyEngine.StrategyEngine.Run | Domain/Strategy/StrategyEngine.cs:49-76 | configs in order, strategies in list order, each after its config is loaded; one report per strategy under the first config; two or more configs with any strategy fail |
| StrategyEngine.StrategyEngine.RunOne | Domain/Strategy/StrategyEngine.cs:58-69 | a strategy already holding EMA series fails; a report carries the config's name and starting balance |
| StrategyEngine.StrategyEngine.Prepare | Domain/Strategy/StrategyEngine.cs:61-64 | load, parse, then add the EMA series; a strategy already holding them fails |
| StrategyEngine.StrategyEngine.LoadData | Domain/Strategy/StrategyEngine.cs:61-63 | on success, the strategy carries the config's name and starting balance |
| StrategyEngine.StrategyEngine.StartLookingForTradeOpportunities | Domain/Strategy/StrategyEngine.cs:100-218 | the strategy's state becomes EngineReplay.Sessions over the table; the result is that replay's fault or its Summarize |
| StrategyEngine.StrategyEngine.PlaySessions | Domain/Strategy/StrategyEngine.cs:108-206 | the foreach over sessions matches EngineReplay.Sessions |
| StrategyEngine.StrategyEngine.PlaySession | Domain/Strategy/StrategyEngine.cs:108-205 | the candle loop, with the counter restarted at 0 and the break, matches EngineReplay.Session |
| StrategyEngine.StrategyEngine.ProcessCandle | Domain/Strategy/StrategyEngine.cs:113-204 | one loop body matches EngineReplay.CandleStep |
| StrategyEngine.StrategyEngine.Manage | Domain/Strategy/StrategyEngine.cs:116-119 | CheckOpenPosition runs only while in the market, matching EngineReplay.ManageStep |
| StrategyEngine.StrategyEngine.Enter | Domain/Strategy/StrategyEngine.cs:126-160 | an entry attempt matches EngineReplay.TryEntry, submitting the corrected NewTrade |

## Left out

- File, JSON and console I/O are not modelled: `File.ReadLines`, `LoadStrategyConfigs` and every
  `Console.WriteLine`. This includes the display of the win rate and the `Strategy_TradeClosed`
  handler, which only prints, so subscribing and unsubscribing it is not modelled either.
  Application/Data, both ConsoleLogger.cs files and Program.cs are not part of this model.
- Multicast .NET events are an appended event log. Each entry carries the values the handlers
  see when the event is raised.
- `DateTime.Parse`, `Convert.ToDecimal`, `Guid.NewGuid` and `DateTime.Now` are parameters.
  `ToShortDateString` is the day number, which assumes the culture's date format is one-to-one.
- Decimal's 28-digit precision and its overflow are not modelled. Arithmetic is exact, so a
  quotient such as `2/21` is not rounded.
- The overflow of `int` counters is not modelled.
- SimulatedTradeManager.cs and ITradeManager.cs are not part of this model. Their operations
  only throw `NotImplementedException` or wrap the clock and id generator.
- The `Strategy(StrategyConfig)` constructors are not modelled. The engine uses the
  parameterless constructor and `LoadConfiguration`.
- The `ProfitTargets` copied from the configuration are not modelled. The engine builds its own
  trades, and `TrailStopTrigger` is never read.
- `StrategyStatistics.WinRate`, `WinningTrades` and `LosingTrades` are never updated by the code
  and are left at zero.
- The engine is an earlier iteration of the code. It calls `ParseCandleData` on raw rows and
  `LoadCustomStrategyStuff`. The model runs the current signatures instead:
  `CandleDataProcessor.ConvertRawDataToCandleSticks`, then `ParseCandleData`, then
  `LoadStrategySpecificSettings`.
- The engine's single `ProfitTarget` becomes the trade's one profit target.
- EngineReplay.TryEntry and StrategyEngine.StrategyEngine.Enter: they submit the corrected
  `NewTrade`, whose target carries all of the trade's contracts. The code as written leaves the
  target's `Contracts` at zero (StrategyEngine.cs:143-149, 180-186). So the replay's target
  fills, its wins and its win-break are those of the intended engine; as written none of them
  happen (`EngineReplay.AsWrittenTargetFillKeepsTradeOpen`).
- EngineReplay.TryEntryShape: it states that the submitted trade is the corrected `NewTrade`,
  not the as-written `NewTradeAsWritten`, for the same reason.
- Timestamps have whole-second resolution. `DateTime(date, secondOfDay)` does not keep .NET's
  100 ns ticks, and `secondOfDay` is not bounded by `SecondsPerDay`. A `parseDate` that drops
  fractions would therefore keep a candle stamped 17:00:00.5, which the inclusive window end at
  Strategy.cs:234 rejects. The `TimeOfDay ==` match of `Ema.FindEma` compares whole seconds
  for the same reason.
- `new Ema(10).Calculate(Candles)` at EnterAfterPriceExtremeAndEmaCloseStrategy.cs:126-130 is
  taken as `Ema.Calculate(candles, 10)`. Ema.cs:22 has neither a period constructor nor a
  one-argument `Calculate`, so these lines are an earlier iteration of the code, and the model
  reads them as the two-argument method with the period the constructor names.
- The state a strategy is left in after an exception is not specified. A method returns the
  fault, and its final state is stated only on success.
- CandleDataProcessor.ConvertRawDataToCandleSticks: candles dated Sunday are dropped by a
  day-number rule (`(date + 1) % 7 == 0`). The model does not go through
  `DayOfWeek.ToString().ToLower()`.
- StrategyEngine.StrategyEngine.RunOne, Prepare and LoadData: they state the duplicate-key
  failure, the presence of the EMA series and the copied name and balance. They do not restate
  the whole new state field by field. That state is given by the contracts of the Strategy
  methods they call.
- StrategyEngine.StrategyEngine.Run: it states the reports and the failure on a second
  configuration. It does not state each strategy's final trading state, which
  StartLookingForTradeOpportunities gives.
- Position.CheckForProfitTarget and Position.TargetStep: their own contracts state only the
  failure cases and the counts. What they do to the state is stated by the lemmas beside them
  (TargetStepKeeps, CheckForProfitTargetKeeps, TargetFill, CloseIfFlat) and by the Strategy
  methods that match them.
- ProcessStopLossHit and ProcessProfitTargetHit dereference the stop, so a trade without a stop
  cannot reach a stop fill. Every trade the engine submits carries a stop.
- `StopTradingAfterWinning` and the allowed order-entry window are loaded but never read by the
  engine. The model keeps them as fields only.

## Findings

| source | as written | input that shows it | evidently intended | confidence | as-written member | corrected member |
|---|---|---|---|---|---|---|
| Domain/Strategy/StrategyEngine.cs:143-149 | the engine's profit-target order never sets `Contracts`, so it stays 0. A fill books no profit and never brings the trade's contracts to 0. A stop fill never books a profit (Position.StopLossAmount), so a trade with positive contracts never becomes a Win and the win-break at line 122 never fires | a long entered at close 100 with `Contracts = 1`, then a candle with High 110: the target is stamped, profit 0, the trade stays Pending with 1 contract | the target carries the trade's contracts (`Order.Contracts` is "Number of contracts this order will execute"; Strategy.cs:294-301 closes the trade once they are used up), so the fill books 10 points per contract and closes a Win | medium, not executed | EngineReplay.NewTradeAsWritten, EngineReplay.AsWrittenTargetFillKeepsTradeOpen | EngineReplay.NewTrade, EngineReplay.TargetFillClosesTrade |
