# ETH perpetual-futures backtest: a Dafny model

This project models the single-position backtest engine of the ETH/USDT
perpetual-futures strategy in `AutoTrading/Data/binance_eth_futures_backtest.py`
and the shared decision functions of `AutoTrading/trading_strategy.py`.

The strategy trades one position at a time with 3x leverage from an initial
capital of 30 USDT. A bar opens a position when the previous bar shows a
fresh EMA(20)/EMA(50) cross. The cross must come with an RSI filter, +DI/-DI
agreement and a trend (ADX and volume ratio). The fill is at the current bar's
open, with slippage. The position is sized by trend strength: 24 % of cash
for a strong trend, 13 % for a weak one, never more than 29 %. Each position
carries ATR-based levels: a stop-loss at 0.72 ATR, a partial take-profit at
8 ATR (half the quantity, once) and a take-profit at 16 ATR. Exits pay a
0.04 % taker fee, 0.05 % slippage and 0.01 % funding per completed 8-hour
period; a short receives funding instead of paying it. Every bar after the
first appends one mark-to-market point to the equity curve. The run ends
with a summary: win/loss statistics and the maximum drawdown.

Prices and amounts are Dafny `real`s (exact arithmetic). Every indicator and
price cell of a bar is an `Option<real>`; `None` stands for NaN or a
non-finite value. Timestamps are real numbers of hours.

Modules:

- `Wrappers` (`wrappers.dfy`): `Option`.
- `TradingStrategy` (`trading_strategy.dfy`): the constants, the bar row and
  the pure decision functions: trend classification, sizing, entry signal and
  stop/take-profit levels. The backtest file carries copies of the first
  three that are identical except that sizing reads the engine's cash. The
  model has one definition of each, and the engine passes its cash as the
  available capital.
- `Engine` (`engine.dfy`): the engine as a state machine over a value
  `Ledger`. It holds slippage, fee, funding and gross P&L, the exit rule,
  the entry and exit transitions and one iteration of the bar loop
  (`StepBar`). `Replay` folds `StepBar` over the bars. The module also
  defines the accounting and lifecycle invariant `Consistent` and proves
  that every transition keeps it.
- `Statistics` (`statistics.dfy`): the end-of-run summary and the maximum
  drawdown, with a running-peak method proved against its specification.
- `Backtest` (`backtest.dfy`): class `BinanceEthFuturesBacktest` with the
  engine's six fields. Its methods change the fields in place. Each method
  is proved to perform the `Engine` transition on `State()`, the fields read
  as one `Ledger`.

Where the descriptions of the system and the code disagree, the model follows
the code:

- A short's exit asks for slippage with the label `"buy"`. Slippage raises
  the price only for `"long"`, so a short is also filled below its trigger
  price (`Engine.ShortExitFilledBelowTrigger`).
- The full exit after a partial one charges funding on the whole
  `capital_used`, not on the remaining half.
- The `entry_fee` field of a trade record is `capital_used * 0.0004` (half that
  for the partial slice). This
  is not the fee that was charged, which is `fill * quantity * 0.0004`
  (`Engine.Settle`, `Engine.EnterPosition`).
- A trade's `net_pnl` does not include the entry fee. The reported
  `total_return` is the change in cash, so it does include it
  (`Statistics.ReturnIsNetOfEntryFees`).
- Without closed trades the summary reports no return, even when entry fees
  have already reduced the cash.
- The loop drops only rows missing EMA fast/slow, RSI, ATR or the volume
  ratio. ADX may be missing; the trend is then NONE.
- The equity curve has one point per bar after the first, so `n - 1` points
  for `n` kept bars.

## Model

| member | source | states |
|---|---|---|
| TradingStrategy.GetTrendStrength | AutoTrading/trading_strategy.py:122-142 | NONE with ratio 0.0 when ADX or the volume ratio is missing; otherwise the ratio is returned; STRONG exactly when ADX >= 30 and ratio >= 1.50; WEAK exactly when ADX >= 23 and ratio >= 1.12 and not STRONG (the backtest file's copy, lines 171-199, is the same function) |
| TradingStrategy.TrendPresentIff | AutoTrading/trading_strategy.py:130-142 | the classification is not NONE exactly when ADX >= 23 and ratio >= 1.12 are both present, so the early "ratio below 1.12" return adds no case; a present trend has ratio >= 1.12 |
| TradingStrategy.CalculatePositionSize | AutoTrading/trading_strategy.py:144-161 | (0, 0) for NONE; capital used is available x 0.24 (STRONG) or x 0.13 (WEAK), at most available x 0.29; quantity x price = capital used x 3; positive quantity for positive capital and price (the backtest file's copy, lines 201-225, passes the engine's cash as the available capital) |
| TradingStrategy.PositionSizeExample | AutoTrading/trading_strategy.py:149-161 | 30 USDT, STRONG, price 2000 gives quantity 0.0108 and capital used 7.2 |
| TradingStrategy.CheckEntrySignal | AutoTrading/trading_strategy.py:163-209 | "long" exactly when a trend is present, the previous bar has fast <= slow, this bar fast > slow, RSI >= 54, close > fast EMA and +DI > -DI, all defined; "short" exactly for the mirror image with RSI <= 46; never both; no entry without a trend (the backtest file's copy, lines 227-279, is the same function) |
| TradingStrategy.EntrySignalExample | AutoTrading/trading_strategy.py:196-200 | ADX 35 with ratio 1.6 is STRONG, and a cross up with RSI 60 and +DI 25 > -DI 15 gives "long" |
| TradingStrategy.CalculateStopLossTakeProfit | AutoTrading/trading_strategy.py:211-225 | for ATR > 0: a long has stop < entry < partial < take; a short has take < partial < entry < stop |
| TradingStrategy.LevelsMirror | AutoTrading/Data/binance_eth_futures_backtest.py:313-320 | short levels are the long levels reflected about the entry; distances are 0.72, 8 and 16 ATR |
| TradingStrategy.LevelsExample | AutoTrading/trading_strategy.py:216-225 | entry 2000 with ATR 20 (long) gives stop 1985.6, take 2320, partial 2160 |
| Engine.ApplySlippage | AutoTrading/Data/binance_eth_futures_backtest.py:281-286 | the price moves by exactly 0.05 %; for a positive price it rises exactly when the label is "long" and falls for every other label |
| Engine.ShortExitFilledBelowTrigger | AutoTrading/Data/binance_eth_futures_backtest.py:416-419 | both exit labels ("sell" for a long, "buy" for a short) fill below the trigger; a long entry fills above, a short entry below |
| Engine.CalculateFee | AutoTrading/Data/binance_eth_futures_backtest.py:288-290 | fee x 2500 = price x quantity (0.04 %), between 0 and the notional for a non-negative notional |
| Engine.FundingPeriods | AutoTrading/Data/binance_eth_futures_backtest.py:445 | the number of completed 8-hour periods, truncated toward zero |
| Engine.FundingCost | AutoTrading/Data/binance_eth_futures_backtest.py:442-448 | zero for holdings under 8 hours; after 8 hours a long pays (positive) and a short receives (negative) |
| Engine.FundingPerPeriod | AutoTrading/Data/binance_eth_futures_backtest.py:445-448 | each further completed 8-hour period adds capital used x 0.0001 to a long's funding; with the zero charge under 8 hours and the short mirror this fixes the amount |
| Engine.FundingMirror | AutoTrading/Data/binance_eth_futures_backtest.py:446-448 | a short's funding is the negation of a long's |
| Engine.GrossPnl | AutoTrading/Data/binance_eth_futures_backtest.py:433-437 | for a positive quantity the P&L is positive exactly when a long exits above or a short below the entry, and zero exactly when the fill equals the entry |
| Engine.CheckExit | AutoTrading/Data/binance_eth_futures_backtest.py:360-400 | no exit without a position or with high/low/close missing; STOP_LOSS exactly when the stop is crossed; PARTIAL_TAKE_PROFIT exactly when the stop is not crossed and the untaken partial level is; TAKE_PROFIT exactly when neither is and the target is; the price is the crossed level; only partial exits are flagged partial |
| Engine.StopLossWins | AutoTrading/Data/binance_eth_futures_backtest.py:375-381 | a bar crossing both stop and target exits at the stop |
| Engine.PartialOnlyOnce | AutoTrading/Data/binance_eth_futures_backtest.py:383-390 | once the partial is taken, no exit is partial again |
| Engine.StopLossExample | AutoTrading/Data/binance_eth_futures_backtest.py:376-378 | a long at 2000 with ATR 20 and a bar with low 1980 stops out at 1985.6 |
| Engine.EnterPosition | AutoTrading/Data/binance_eth_futures_backtest.py:292-358 | unchanged state when the size is not positive or ATR is missing or not positive; otherwise one position at the slipped price, opened at the bar's time, with the quantity and capital used that sizing gives for this bar's trend and the cash before entry, this bar's trend and volume ratio, the stop, target and partial levels at this bar's ATR from the fill, remaining = quantity, partial not taken, levels in order, cash lower by exactly fill x quantity x 0.0004, one ENTRY event appended that records the position's side, fill, quantity, trend, volume ratio, capital used, stop and target, the fee (that drop), the new cash and the bar's RSI, ADX and EMAs |
| Engine.SliceCapital | AutoTrading/Data/binance_eth_futures_backtest.py:422-431 | the capital behind the closed slice is the whole capital used or half of it, and (for positive capital used) less than the whole exactly when the exit takes the first partial |
| Engine.ReturnPct | AutoTrading/Data/binance_eth_futures_backtest.py:468 | for positive capital used: return x capital used = net x 100, positive exactly when the net P&L is |
| Engine.Settle | AutoTrading/Data/binance_eth_futures_backtest.py:408-490 | the exit arithmetic: fill = slipped trigger ("sell" for a long, "buy" for a short); net = gross - exit fee - funding; exit fee = fill x quantity x 0.0004; funding, the recorded entry fee (slice capital x 0.0004) and the return in percent of the slice capital are taken on the slice capital (half the capital used for a first partial, all of it otherwise); entry time, trend and volume ratio are the position's; capital_after = capital_before + net with capital_before the cash before; the event repeats the trade's figures; a first partial closes quantity x 0.5 and leaves remaining = quantity - exited with the partial taken; any other exit closes the remaining quantity, funds the whole capital used and leaves nothing open |
| Engine.ExitPosition | AutoTrading/Data/binance_eth_futures_backtest.py:402-490 | no-op without a position; otherwise one trade and one event appended; net = gross - exit fee - funding; the trade carries the position's entry time, trend and volume ratio, the recorded entry fee slice capital x 0.0004 and the return in percent of the slice capital; cash rises by net; capital_before + net = capital_after; funding total rises by the funding; a first partial closes quantity x 0.5, keeps the position with remaining = quantity - exited and partial taken, and pays funding on half the capital used; any other exit closes the remaining quantity and clears the position |
| Engine.PartialThenCloseConserves | AutoTrading/Data/binance_eth_futures_backtest.py:422-431 | a partial exit followed by a full exit closes the position, and the two trades' quantities add up to the original quantity |
| Engine.InitialConsistent | AutoTrading/Data/binance_eth_futures_backtest.py:91-97 | the initial state (30 USDT, no position, empty logs) satisfies the invariant: cash = 30 - entry fees + the trades' net P&L, funding total = the trades' funding, every trade balances, the open position is well formed, the event log is a sequence of entry, at most one partial exit, exit, and the last event records the current cash |
| Engine.LifecycleCounts | AutoTrading/Data/binance_eth_futures_backtest.py:324-358 | in a well-ordered event log the entries equal the closes plus the open position, and there is at most one partial exit per entry |
| Engine.EntryKeepsConsistent | AutoTrading/Data/binance_eth_futures_backtest.py:292-358 | an entry from a flat, consistent state keeps the invariant |
| Engine.ExitKeepsConsistent | AutoTrading/Data/binance_eth_futures_backtest.py:402-490 | an exit taken on the exit rule's signal keeps the invariant |
| Engine.DropIncomplete | AutoTrading/Data/binance_eth_futures_backtest.py:514-515 | keeps exactly the bars whose EMA fast/slow, RSI, ATR and volume ratio are defined |
| Engine.DropIncompleteKeepsOrder | AutoTrading/Data/binance_eth_futures_backtest.py:514-515 | the rows kept from a concatenation are the rows kept from each part, in order, so row order is preserved |
| Engine.DropIncompleteSnoc | AutoTrading/Data/binance_eth_futures_backtest.py:514-515 | one more row at the end is kept at the end exactly when it is complete |
| Engine.CompleteKeptWhole | AutoTrading/Data/binance_eth_futures_backtest.py:514-515 | a frame of complete rows is kept unchanged |
| Engine.EntryDecisionAt | AutoTrading/Data/binance_eth_futures_backtest.py:533-535 | the decision at bar i is "long" exactly when bar i-1 shows the long setup against bar i-2 (bar i-1 itself when i = 1), "short" exactly for the short setup, and never an entry without a trend on bar i-1 |
| Engine.Equity | AutoTrading/Data/binance_eth_futures_backtest.py:548-558 | the cash when flat; with a position left open, above the cash exactly when it is in profit at the close and equal to it exactly when the close is the entry price |
| Engine.EntryDecisionIsCausal | AutoTrading/Data/binance_eth_futures_backtest.py:531-535 | the entry decision at bar i depends only on bars before i |
| Engine.StepBar | AutoTrading/Data/binance_eth_futures_backtest.py:524-560 | one iteration appends exactly one equity point, the equity of the state after trading at this bar's close, and leaves the earlier ones |
| Engine.StepOn | AutoTrading/Data/binance_eth_futures_backtest.py:530-560 | the loop body for a given bar and entry decision appends exactly one equity point: cash plus the unrealised P&L of what remains open, at the bar's close |
| Engine.Act | AutoTrading/Data/binance_eth_futures_backtest.py:530-545 | the trading half of the loop body never touches the equity curve; when flat, no signal or a refused entry leaves the state alone and an accepted signal opens a position of the signalled side at this bar's slipped open with one event and no trade; when holding, no exit signal leaves the state alone and an exit signal appends one trade with the signal's reason and clears the position exactly when the exit is not partial |
| Engine.StepBarRules | AutoTrading/Data/binance_eth_futures_backtest.py:530-545 | apart from the equity point, a flat bar with an entry decision performs exactly the entry at this bar's open, and a held bar with an exit signal performs exactly that exit and appends one trade; when flat, no trade closes, no signal means no change, and a new position has the signalled side filled at this bar's slipped open; when holding, no entry happens, and no exit signal means no change |
| Engine.Replay | AutoTrading/Data/binance_eth_futures_backtest.py:524-560 | the loop over bars 1..k-1 as a fold of one iteration; the equity curve grows by k - 1 points |
| Engine.StepKeepsConsistent | AutoTrading/Data/binance_eth_futures_backtest.py:524-560 | one iteration keeps the invariant |
| Engine.ReplayEquityLength | AutoTrading/Data/binance_eth_futures_backtest.py:524-560 | after bars 1..k-1 the curve has grown by k - 1 points and its old points are unchanged |
| Engine.ReplayKeepsConsistent | AutoTrading/Data/binance_eth_futures_backtest.py:524-560 | the whole loop keeps the invariant |
| Engine.ReplayIsCausal | AutoTrading/Data/binance_eth_futures_backtest.py:524-560 | no look-ahead: the state after bar k-1 is the same for any two bar sequences that agree up to k-1 |
| Engine.StepIsCausal | AutoTrading/Data/binance_eth_futures_backtest.py:530-535 | one iteration at bar i gives the same state for any two bar sequences that agree on bars 0..i |
| Statistics.Winners | AutoTrading/Data/binance_eth_futures_backtest.py:592 | exactly the trades with net P&L > 0 |
| Statistics.Losers | AutoTrading/Data/binance_eth_futures_backtest.py:593 | exactly the trades with net P&L <= 0 |
| Statistics.WithTrend | AutoTrading/Data/binance_eth_futures_backtest.py:599-600 | exactly the trades opened under the given trend |
| Statistics.WithTrendMultiplicity | AutoTrading/Data/binance_eth_futures_backtest.py:599-600 | the trend selection holds each trade of that trend as many times as the log does, and no trade of another trend |
| Statistics.CountReason | AutoTrading/Data/binance_eth_futures_backtest.py:611-612 | at most the number of trades, zero exactly when no trade has the reason and the total exactly when every trade has it |
| Statistics.CountReasonAppend | AutoTrading/Data/binance_eth_futures_backtest.py:611-612 | logging one more trade raises the count of its own reason by one and leaves the other counts |
| Statistics.ReasonPartition | AutoTrading/Data/binance_eth_futures_backtest.py:611-612 | the stop-loss, partial and take-profit counts add up to the number of trades |
| Statistics.TrendCountPartition | AutoTrading/Data/binance_eth_futures_backtest.py:599-600 | the three trend selections' counts add up to the number of trades |
| Statistics.TrendSumPartition | AutoTrading/Data/binance_eth_futures_backtest.py:599-600 | the three trend selections' net sums add up to the log's net sum |
| Statistics.NoTrendSelectsNothing | AutoTrading/Data/binance_eth_futures_backtest.py:599-600 | a log without no-trend trades has an empty no-trend selection |
| Statistics.StrongAndWeakCoverRun | AutoTrading/Data/binance_eth_futures_backtest.py:599-600 | in a consistent run every trade was opened under a strong or weak trend, so the strong and weak counts and P&L add up to the whole log |
| Statistics.MaxNet | AutoTrading/Data/binance_eth_futures_backtest.py:607 | bounds every trade's net P&L from above and is attained by one |
| Statistics.MinNet | AutoTrading/Data/binance_eth_futures_backtest.py:608 | bounds every trade's net P&L from below and is attained by one |
| Statistics.WinLossPartition | AutoTrading/Data/binance_eth_futures_backtest.py:592-593 | winners and losers split the log: their counts and their net sums add up to the whole |
| Statistics.LoserSumNonPositive | AutoTrading/Data/binance_eth_futures_backtest.py:593 | the losers' net sum is not positive |
| Statistics.WinnerSumPositive | AutoTrading/Data/binance_eth_futures_backtest.py:592 | the winners' net sum is positive when there are winners and zero otherwise |
| Statistics.Percent | AutoTrading/Data/binance_eth_futures_backtest.py:618 | percent x whole = part x 100, so the share lies between 0 and 100 |
| Statistics.MeanNet | AutoTrading/Data/binance_eth_futures_backtest.py:603-604 | mean x count = net sum, with the sign of the sum |
| Statistics.AverageWin | AutoTrading/Data/binance_eth_futures_backtest.py:603 | the winners' mean, positive when there are winners, zero otherwise |
| Statistics.AverageLoss | AutoTrading/Data/binance_eth_futures_backtest.py:625 | the losers' (signed) mean, never positive, zero without losers |
| Statistics.GainLossRatio | AutoTrading/Data/binance_eth_futures_backtest.py:623 | for a negative loss sum: ratio x abs(loss) = gain, non-negative, positive exactly when the gain is |
| Statistics.ProfitFactor | AutoTrading/Data/binance_eth_futures_backtest.py:623 | non-negative; positive exactly when the losers lost money and there are winners, so zero unless the loss sum is negative |
| Statistics.RiskReward | AutoTrading/Data/binance_eth_futures_backtest.py:604-605 | non-negative; times the absolute average loss it gives the average win; zero when the average loss is zero |
| Statistics.Summarize | AutoTrading/Data/binance_eth_futures_backtest.py:567-590 | the no-trades summary exactly when the log is empty; cash, drawdown and funding total are reported as given; otherwise the statistics of the trade log |
| Statistics.TradeSummary | AutoTrading/Data/binance_eth_futures_backtest.py:591-640 | cash, drawdown and funding total as given; the trade count; winners and losers counted by their selections, adding up to the total; win rate = winners in percent of the trades; return = cash - 30 and return % x 30 = return x 100; profit factor, average win, average loss and risk/reward as defined above; max win the winners' maximum and max loss the losers' minimum (0 without them); stop-loss and take-profit counts and their rates in percent; strong and weak trade counts and net P&L from the trend selections |
| Statistics.ExtremesBoundTrades | AutoTrading/Data/binance_eth_futures_backtest.py:607-608 | every winner lies in (0, max win] and every loser in [max loss, 0] |
| Statistics.ReturnIsNetOfEntryFees | AutoTrading/Data/binance_eth_futures_backtest.py:594-596 | in a consistent run the reported return is the trades' net P&L minus the entry fees, and the funding total is the trades' funding |
| Statistics.PeakIsRunningMax | AutoTrading/Data/binance_eth_futures_backtest.py:648 | the running peak is at least every earlier point and equals one of them |
| Statistics.DrawdownRatio | AutoTrading/Data/binance_eth_futures_backtest.py:649 | ratio x peak = point - peak; not positive under a positive peak; zero at the first point |
| Statistics.WorstRatioBounds | AutoTrading/Data/binance_eth_futures_backtest.py:649-650 | the minimum ratio is not positive, at most every ratio, and attained |
| Statistics.ZeroPeakIff | AutoTrading/Data/binance_eth_futures_backtest.py:648-649 | the zero-peak flag is set exactly when some running peak is zero |
| Statistics.MaxDrawdownDefined | AutoTrading/Data/binance_eth_futures_backtest.py:642-652 | zero for an empty curve; undefined (NaN or infinite in the source) exactly when some running peak is zero |
| Statistics.MaxDrawdownIsWorstFall | AutoTrading/Data/binance_eth_futures_backtest.py:642-652 | otherwise non-negative, at least (peak - point) / peak x 100 at every point, and equal to that at one point |
| Statistics.MaxDrawdownOf | AutoTrading/Data/binance_eth_futures_backtest.py:642-652 | the drawdown specification: zero for an empty curve, never negative when defined |
| Statistics.CalculateMaxDrawdown | AutoTrading/Data/binance_eth_futures_backtest.py:642-652 | the running-peak loop computes the drawdown of its specification |
| Backtest.BinanceEthFuturesBacktest.constructor | AutoTrading/Data/binance_eth_futures_backtest.py:91-97 | 30 USDT cash, no position, empty logs, zero funding; the invariant holds |
| Backtest.BinanceEthFuturesBacktest.EnterPosition | AutoTrading/Data/binance_eth_futures_backtest.py:292-358 | the fields become the entry transition of their old value; the invariant is kept from a flat state |
| Backtest.BinanceEthFuturesBacktest.ExitPosition | AutoTrading/Data/binance_eth_futures_backtest.py:402-490 | the fields become the exit transition of their old value |
| Backtest.BinanceEthFuturesBacktest.GenerateResults | AutoTrading/Data/binance_eth_futures_backtest.py:567-640 | the summary of the current logs with the drawdown of the equity curve; no-trades exactly for an empty log; the final capital is the cash |
| Backtest.BinanceEthFuturesBacktest.TradeBar | AutoTrading/Data/binance_eth_futures_backtest.py:530-545 | the fields become the trading half of one iteration: entry on the signal of the previous bars when flat, the exit rule when holding |
| Backtest.BinanceEthFuturesBacktest.MarkToMarket | AutoTrading/Data/binance_eth_futures_backtest.py:548-558 | equity is the cash when flat; with an open position it is above the cash exactly when the position is in profit at the close |
| Backtest.BinanceEthFuturesBacktest.StepBar | AutoTrading/Data/binance_eth_futures_backtest.py:524-560 | the fields become one loop iteration of their old value |
| Backtest.BinanceEthFuturesBacktest.RunBacktest | AutoTrading/Data/binance_eth_futures_backtest.py:492-565 | after dropping incomplete bars: unchanged state when none are left, otherwise the fold of the iteration over bars 1..n-1; the curve grows by n - 1 points (0 for no bars); the invariant is kept; the result is the summary of the final state |

## Left out

- Indicator computation (`calculate_indicators`, `_calculate_adx` in both files) is not modelled. It is floating-point work on pandas rolling and exponential means. Bars arrive with their indicator columns filled in.
- `load_data` (CSV reading, resampling), `save_results`, `main` and all printing: file I/O and reporting.
- The live trading bot, the exchange client, `config.py`, `main.py` and `analyze_trades.py` are not part of this model.
- Floating-point rounding is not modelled: all arithmetic is exact over the reals.
- Timestamps: the event and trade timestamps (`row.name`, exit time) are not recorded. A bar's time is a real number of hours, and holding time is the difference. The `pd.Timestamp.now()` fallback for a row without a timestamp is not modelled.
- Engine.EnterPosition: requires a non-zero entry price when the row shows a trend, the only case where sizing divides by it (`TradingStrategy.CalculatePositionSize` has the same requirement). In floating point a zero open gives an infinite quantity and then a NaN fee and NaN cash, without raising. Exact real arithmetic has no such values, so that case is not modelled.
- Backtest.BinanceEthFuturesBacktest.RunBacktest: requires every bar to have a defined open and close, and a non-zero open on bars that show a trend. The loader drops rows with missing prices, and the model does not follow a NaN or infinite value through the arithmetic.
- Backtest.BinanceEthFuturesBacktest.RunBacktest: the model takes the bars with indicators computed; the recomputation at the start of `run_backtest` is the indicator computation above.
- The `Position` object is changed in place in the source (`remaining_quantity`, `partial_taken`). The model replaces the field's value instead. Only the engine holds a reference to the position, so no aliasing is lost.
- Statistics.Summarize: the summary is a datatype, not a dictionary. The no-trades result keeps only final capital, drawdown and funding total; all its other entries are zero in the source.
- Statistics.MaxDrawdownOf: `None` stands for the NaN or infinite value the source reports when a running peak is zero.
- Statistics.ProfitFactor: the identity "profit factor x abs(loss sum) = win sum" is proved for `GainLossRatio`, which computes it, and is not restated for `ProfitFactor` itself.
