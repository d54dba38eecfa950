/**
 * The backtest object: cash, the open position, the trade and event logs, the
 * equity curve and the funding total, updated in place by entries, exits and
 * the bar loop. Each method performs the transition that module Engine
 * defines on the value `State()`, so the invariants proved there carry over.
 */
module Backtest {
  import opened Wrappers
  import opened TradingStrategy
  import opened Engine
  import opened Statistics

  class BinanceEthFuturesBacktest {
    var capital: real
    var position: Option<Position>
    var trades: seq<Trade>
    var events: seq<Event>
    var equityCurve: seq<real>
    var totalFundingCost: real

    /** The object's fields as one ledger value. */
    function State(): Ledger
      reads this
    {
      Ledger(capital, position, trades, events, equityCurve, totalFundingCost)
    }

    /** A fresh backtest: the initial capital in cash, no position and empty logs. */
    constructor()
      ensures State() == InitialLedger()
      ensures Consistent(State())
    {
      capital := InitialCapital;
      position := None;
      trades := [];
      events := [];
      equityCurve := [];
      totalFundingCost := 0.0;
      InitialConsistent();
    }

    /**
     * Opens a position at the slipped `entryPrice` when the row shows a trend and
     * an ATR, charging the entry fee to cash and logging the entry.
     */
    method EnterPosition(row: Bar, direction: Side, entryPrice: real)
      requires Sizable(row, entryPrice)
      modifies this
      ensures State() == Engine.EnterPosition(old(State()), row, direction, entryPrice)
      ensures old(Consistent(State())) && old(position.None?) ==> Consistent(State())
    {
      ghost var before := State();
      if before.position.None? && Consistent(before) {
        EntryKeepsConsistent(before, row, direction, entryPrice);
      }
      var reading := GetTrendStrength(row);
      var size := CalculatePositionSize(entryPrice, reading.strength, capital);
      if size.quantity <= 0.0 {
        return;
      }
      var fill := ApplySlippage(entryPrice, SideName(direction));
      var fee := CalculateFee(fill, size.quantity);
      if row.atr.None? || row.atr.value <= 0.0 {
        return;
      }
      var levels := CalculateStopLossTakeProfit(fill, row.atr.value, direction);
      position := Some(Position(direction, fill, row.time, size.quantity, size.quantity,
                                levels.stopLoss, levels.takeProfit, Some(levels.partialTakeProfit), false,
                                reading.strength, reading.volumeRatio, size.capitalUsed));
      capital := capital - fee;
      events := events + [EntryEvent(direction, fill, size.quantity, reading.strength, reading.volumeRatio,
                                     size.capitalUsed, levels.stopLoss, levels.takeProfit, fee, capital,
                                     row.rsi, row.adx, row.emaFast, row.emaSlow)];
    }

    /**
     * Closes the partial slice or the rest of the position at the slipped
     * `exitPrice`, settling gross P&L, exit fee and funding into cash and logging
     * the trade and the exit.
     */
    method ExitPosition(row: Bar, exitPrice: real, reason: ExitReason, isPartial: bool)
      modifies this
      ensures State() == Engine.ExitPosition(old(State()), row, exitPrice, reason, isPartial)
    {
      if position.None? {
        return;
      }
      var settlement := Settle(position.value, capital, row, exitPrice, reason, isPartial);
      position := settlement.rest;
      capital := capital + settlement.trade.netPnl;
      totalFundingCost := totalFundingCost + settlement.trade.fundingCost;
      trades := trades + [settlement.trade];
      events := events + [settlement.event];
    }

    /** The end-of-run summary of the current state. */
    method GenerateResults() returns (r: Results)
      ensures r == Summarize(trades, capital, totalFundingCost, MaxDrawdownOf(equityCurve))
      ensures r.NoTrades? <==> trades == []
      ensures r.finalCapital == capital
    {
      var drawdown := CalculateMaxDrawdown(equityCurve);
      r := Summarize(trades, capital, totalFundingCost, drawdown);
    }

    /**
     * The trading half of one loop iteration: when flat, enter on the signal of
     * bar i-1 (against bar i-2) at bar i's open; when holding, check bar i for an
     * exit.
     */
    method TradeBar(bars: seq<Bar>, i: nat)
      requires 1 <= i < |bars| && Priced(bars[i])
      modifies this
      ensures State() == Act(old(State()), bars[i], EntryDecisionAt(bars, i))
    {
      var row := bars[i];
      var prevRow := bars[i - 1];
      if position.None? {
        var signal := CheckEntrySignal(prevRow, if i >= 2 then bars[i - 2] else prevRow);
        assert signal == EntryDecisionAt(bars, i);
        if signal.Enter? {
          EnterPosition(row, signal.side, row.open.value);
        }
      } else {
        var exit := CheckExit(position, row);
        if exit.ExitAt? {
          ExitPosition(row, exit.price, exit.reason, exit.partial);
        }
      }
    }

    /** Cash plus the open position's unrealised P&L at price `close`. */
    method MarkToMarket(close: real) returns (equity: real)
      ensures equity == Equity(State(), close)
      ensures position.None? ==> equity == capital
      ensures position.Some? && position.value.remainingQuantity > 0.0 ==>
                (equity > capital <==> (position.value.side == Long && close > position.value.entryPrice)
                                       || (position.value.side == Short && close < position.value.entryPrice))
    {
      if position.Some? {
        var p := position.value;
        var unrealized := if p.side == Long then (close - p.entryPrice) * p.remainingQuantity
                          else (p.entryPrice - close) * p.remainingQuantity;
        assert unrealized == GrossPnl(p.side, p.entryPrice, close, p.remainingQuantity);
        equity := capital + unrealized;
      } else {
        equity := capital;
      }
    }

    /** One iteration of the bar loop: trade on bar i, then record one equity point at its close. */
    method StepBar(bars: seq<Bar>, i: nat)
      requires 1 <= i < |bars| && Priced(bars[i])
      modifies this
      ensures State() == Engine.StepBar(old(State()), bars, i)
    {
      TradeBar(bars, i);
      var equity := MarkToMarket(bars[i].close.value);
      equityCurve := equityCurve + [equity];
    }

    /**
     * The bar loop over the rows whose required indicators are defined; every
     * bar after the first is one `StepBar`. Ends with the summary.
     */
    method RunBacktest(df: seq<Bar>) returns (results: Results)
      requires AllPriced(df)
      modifies this
      ensures var bars := DropIncomplete(df);
        && AllPriced(bars)
        && State() == (if |bars| == 0 then old(State()) else Replay(old(State()), bars, |bars|))
        && |equityCurve| == |old(equityCurve)| + (if |bars| == 0 then 0 else |bars| - 1)
      ensures old(Consistent(State())) ==> Consistent(State())
      ensures results == Summarize(trades, capital, totalFundingCost, MaxDrawdownOf(equityCurve))
    {
      var bars := DropIncomplete(df);
      assert AllPriced(bars);
      if |bars| == 0 {
        results := GenerateResults();
        return;
      }
      ghost var start := State();
      var i := 1;
      while i < |bars|
        invariant 1 <= i <= |bars|
        invariant State() == Replay(start, bars, i)
      {
        assert bars[i] in bars;
        StepBar(bars, i);
        i := i + 1;
      }
      ReplayEquityLength(start, bars, |bars|);
      if Consistent(start) {
        ReplayKeepsConsistent(start, bars, |bars|);
      }
      results := GenerateResults();
    }
  }
}
