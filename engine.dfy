/**
 * The single-position backtest engine as a state machine over values: the
 * execution model (slippage, fee, funding), the exit rule, entry and exit
 * transitions, one bar of the replay loop, and the invariants they keep.
 * The class in module Backtest performs these transitions in place.
 */
module Engine {
  import opened Wrappers
  import opened TradingStrategy

  const InitialCapital: real := 30.0
  const SlippageRate: real := 0.0005
  const FundingRate: real := 0.0001

  datatype ExitReason = StopLoss | PartialTakeProfit | TakeProfit

  /** The open position. `partialTakeProfit` is optional in the record; entries always set it. */
  datatype Position = Position(
    side: Side, entryPrice: real, entryTime: real,
    quantity: real, remainingQuantity: real,
    stopLoss: real, takeProfit: real, partialTakeProfit: Option<real>, partialTaken: bool,
    trendStrength: Trend, volumeRatio: real, capitalUsed: real)

  /** A closed slice of a position, as appended to the trade log. */
  datatype Trade = Trade(
    entryTime: real, side: Side, entryPrice: real, exitPrice: real, quantity: real,
    grossPnl: real, entryFee: real, exitFee: real, fundingCost: real, netPnl: real,
    returnPct: real, trendStrength: Trend, volumeRatioEntry: real, exitReason: ExitReason,
    holdingHours: real, capitalBefore: real, capitalAfter: real)

  /** The event log: one record per entry, partial exit or exit. */
  datatype Event =
    | EntryEvent(
        side: Side, price: real, quantity: real, trendStrength: Trend, volumeRatio: real,
        capitalUsed: real, stopLoss: real, takeProfit: real, fee: real, capitalAfter: real,
        rsi: Option<real>, adx: Option<real>, emaFast: Option<real>, emaSlow: Option<real>)
    | ExitEvent(
        partial: bool, side: Side, price: real, exitReason: ExitReason,
        grossPnl: real, netPnl: real, fundingCost: real, capitalAfter: real)

  /** The whole state of one backtest run. */
  datatype Ledger = Ledger(
    capital: real, position: Option<Position>, trades: seq<Trade>, events: seq<Event>,
    equityCurve: seq<real>, totalFundingCost: real)

  /** `NoExit` is the source's `(False, 0.0, "", False)`. */
  datatype ExitSignal = NoExit | ExitAt(price: real, reason: ExitReason, partial: bool)

  function InitialLedger(): Ledger
  {
    Ledger(InitialCapital, None, [], [], [], 0.0)
  }

  // ---------------------------------------------------------------------------
  // Execution model

  /**
   * Slippage keyed on the side label: only "long" raises the price; every other
   * label ("short", "sell", "buy") lowers it.
   */
  function ApplySlippage(price: real, side: string): (r: real)
    ensures r == price + price * SlippageRate || r == price - price * SlippageRate
    ensures price > 0.0 ==> (r > price <==> side == "long")
    ensures price > 0.0 && side != "long" ==> r < price
  {
    if side == "long" then price * (1.0 + SlippageRate) else price * (1.0 - SlippageRate)
  }

  /** The exit of a short passes "buy", so it too is filled below its trigger price. */
  lemma ShortExitFilledBelowTrigger(trigger: real)
    requires trigger > 0.0
    ensures ApplySlippage(trigger, "buy") < trigger
    ensures ApplySlippage(trigger, "sell") < trigger
    ensures ApplySlippage(trigger, SideName(Long)) > trigger
    ensures ApplySlippage(trigger, SideName(Short)) < trigger
  {
  }

  /** Taker fee on the notional. */
  function CalculateFee(price: real, quantity: real): (r: real)
    ensures price * quantity >= 0.0 ==> 0.0 <= r <= price * quantity
    ensures r * 2500.0 == price * quantity
  {
    price * quantity * FeeRate
  }

  /** `int(hours / 8)`: truncation toward zero. */
  function FundingPeriods(hours: real): (n: int)
    ensures hours >= 0.0 ==> n >= 0 && (n as real) * 8.0 <= hours < (n as real + 1.0) * 8.0
    ensures hours < 0.0 ==> n <= 0 && hours <= (n as real) * 8.0
  {
    var q := hours / 8.0;
    if q >= 0.0 then q.Floor else -((-q).Floor)
  }

  /** Funding paid over the holding time; a short receives what a long would pay. */
  function FundingCost(side: Side, capitalUsed: real, hours: real): (c: real)
    ensures 0.0 <= hours < 8.0 ==> c == 0.0
    ensures capitalUsed > 0.0 && hours >= 8.0 ==> (side == Long ==> c > 0.0) && (side == Short ==> c < 0.0)
  {
    var periods := FundingPeriods(hours) as real;
    assert 0.0 <= hours < 8.0 ==> periods == 0.0;
    assert capitalUsed > 0.0 && hours >= 8.0 ==> periods >= 1.0 && capitalUsed * FundingRate * periods > 0.0;
    var paid := capitalUsed * FundingRate * periods;
    if side == Short then -paid else paid
  }

  /** Each further completed 8-hour period adds 0.01 % of the capital used to a long's funding. */
  lemma FundingPerPeriod(capitalUsed: real, hours: real)
    requires hours >= 0.0
    ensures FundingCost(Long, capitalUsed, hours + 8.0) == FundingCost(Long, capitalUsed, hours) + capitalUsed * FundingRate
  {
    assert FundingPeriods(hours + 8.0) == FundingPeriods(hours) + 1;
  }

  lemma FundingMirror(capitalUsed: real, hours: real)
    ensures FundingCost(Short, capitalUsed, hours) == -FundingCost(Long, capitalUsed, hours)
  {
  }

  /** Gross profit of closing `quantity` bought (or sold, for a short) at `entry` at price `fill`. */
  function GrossPnl(side: Side, entry: real, fill: real, quantity: real): (g: real)
    ensures quantity > 0.0 ==> (g > 0.0 <==> (side == Long && fill > entry) || (side == Short && fill < entry))
    ensures quantity > 0.0 ==> (g == 0.0 <==> fill == entry)
  {
    assert quantity > 0.0 && fill > entry ==> (fill - entry) * quantity > 0.0 && (entry - fill) * quantity < 0.0;
    assert quantity > 0.0 && fill < entry ==> (fill - entry) * quantity < 0.0 && (entry - fill) * quantity > 0.0;
    assert fill == entry ==> (fill - entry) * quantity == 0.0 && (entry - fill) * quantity == 0.0;
    match side
    case Long => (fill - entry) * quantity
    case Short => (entry - fill) * quantity
  }

  // ---------------------------------------------------------------------------
  // Exit rule

  predicate PricesKnown(row: Bar)
  {
    row.high.Some? && row.low.Some? && row.close.Some?
  }

  predicate StopHit(p: Position, row: Bar)
    requires PricesKnown(row)
  {
    if p.side == Long then row.low.value <= p.stopLoss else row.high.value >= p.stopLoss
  }

  predicate PartialHit(p: Position, row: Bar)
    requires PricesKnown(row)
  {
    && !p.partialTaken && p.partialTakeProfit.Some?
    && if p.side == Long then row.high.value >= p.partialTakeProfit.value
       else row.low.value <= p.partialTakeProfit.value
  }

  predicate TargetHit(p: Position, row: Bar)
    requires PricesKnown(row)
  {
    if p.side == Long then row.high.value >= p.takeProfit else row.low.value <= p.takeProfit
  }

  /**
   * The exit rule: stop-loss first, then the one-shot partial take-profit, then
   * the full take-profit; the reported price is the level that was crossed.
   */
  function CheckExit(position: Option<Position>, row: Bar): (r: ExitSignal)
    ensures position.None? || !PricesKnown(row) ==> r == NoExit
    ensures r.ExitAt? ==> position.Some? && PricesKnown(row)
    ensures r.ExitAt? && r.reason == StopLoss <==>
              position.Some? && PricesKnown(row) && StopHit(position.value, row)
    ensures r.ExitAt? && r.reason == PartialTakeProfit <==>
              && position.Some? && PricesKnown(row)
              && !StopHit(position.value, row) && PartialHit(position.value, row)
    ensures r.ExitAt? && r.reason == TakeProfit <==>
              && position.Some? && PricesKnown(row)
              && !StopHit(position.value, row) && !PartialHit(position.value, row)
              && TargetHit(position.value, row)
    ensures r.ExitAt? ==> (r.partial <==> r.reason == PartialTakeProfit)
    ensures r.ExitAt? && r.partial ==>
              !position.value.partialTaken && r.price == position.value.partialTakeProfit.value
    ensures r.ExitAt? && r.reason == StopLoss ==> r.price == position.value.stopLoss
    ensures r.ExitAt? && r.reason == TakeProfit ==> r.price == position.value.takeProfit
  {
    if position.None? || !PricesKnown(row) then NoExit
    else
      var p := position.value;
      var high, low := row.high.value, row.low.value;
      if p.side == Long && low <= p.stopLoss then ExitAt(p.stopLoss, StopLoss, false)
      else if p.side == Short && high >= p.stopLoss then ExitAt(p.stopLoss, StopLoss, false)
      else if !p.partialTaken && p.partialTakeProfit.Some? && p.side == Long && high >= p.partialTakeProfit.value then
        ExitAt(p.partialTakeProfit.value, PartialTakeProfit, true)
      else if !p.partialTaken && p.partialTakeProfit.Some? && p.side == Short && low <= p.partialTakeProfit.value then
        ExitAt(p.partialTakeProfit.value, PartialTakeProfit, true)
      else if p.side == Long && high >= p.takeProfit then ExitAt(p.takeProfit, TakeProfit, false)
      else if p.side == Short && low <= p.takeProfit then ExitAt(p.takeProfit, TakeProfit, false)
      else NoExit
  }

  /** A bar that crosses both the stop and the target exits at the stop. */
  lemma StopLossWins(p: Position, row: Bar)
    requires PricesKnown(row) && StopHit(p, row) && TargetHit(p, row)
    ensures CheckExit(Some(p), row) == ExitAt(p.stopLoss, StopLoss, false)
  {
  }

  /** Once the partial has been taken the rule never reports a partial exit again. */
  lemma PartialOnlyOnce(p: Position, row: Bar)
    requires p.partialTaken
    ensures CheckExit(Some(p), row).ExitAt? ==> !CheckExit(Some(p), row).partial
  {
  }

  /** The worked scenario: a long filled at 2000 with ATR 20, then a bar with low 1980. */
  lemma StopLossExample(p: Position, row: Bar)
    requires var lv := CalculateStopLossTakeProfit(2000.0, 20.0, Long);
      p.side == Long && p.entryPrice == 2000.0 && p.stopLoss == lv.stopLoss
      && p.takeProfit == lv.takeProfit && p.partialTakeProfit == Some(lv.partialTakeProfit)
    requires row.low == Some(1980.0) && row.high == Some(2010.0) && row.close == Some(1990.0)
    ensures CheckExit(Some(p), row) == ExitAt(1985.6, StopLoss, false)
  {
    LevelsExample();
  }

  // ---------------------------------------------------------------------------
  // Entry and exit transitions

  /** The sizer divides by the price only when the row shows a trend. */
  predicate Sizable(row: Bar, entryPrice: real)
  {
    GetTrendStrength(row).strength != NoTrend ==> entryPrice != 0.0
  }

  /** Sizing and ATR both let the entry through. */
  predicate EntryAccepted(s: Ledger, row: Bar, entryPrice: real)
    requires Sizable(row, entryPrice)
  {
    && CalculatePositionSize(entryPrice, GetTrendStrength(row).strength, s.capital).quantity > 0.0
    && row.atr.Some? && row.atr.value > 0.0
  }

  /** The shape every open position has: its quantities and its levels in order. */
  predicate PositionOk(p: Position)
  {
    && p.quantity > 0.0
    && p.remainingQuantity == (if p.partialTaken then p.quantity - p.quantity * PartialTakeProfitRatio else p.quantity)
    && p.partialTakeProfit.Some?
    && p.trendStrength != NoTrend
    && (p.side == Long ==> p.stopLoss < p.entryPrice < p.partialTakeProfit.value < p.takeProfit)
    && (p.side == Short ==> p.takeProfit < p.partialTakeProfit.value < p.entryPrice < p.stopLoss)
  }

  /** Opens a position at the slipped `entryPrice`, charging the entry fee to cash. */
  function EnterPosition(s: Ledger, row: Bar, direction: Side, entryPrice: real): (r: Ledger)
    requires Sizable(row, entryPrice)
    ensures !EntryAccepted(s, row, entryPrice) ==> r == s
    ensures EntryAccepted(s, row, entryPrice) ==>
              && r.position.Some?
              && var p := r.position.value;
              && PositionOk(p)
              && p.side == direction && p.entryTime == row.time
              && p.remainingQuantity == p.quantity && !p.partialTaken
              && p.entryPrice == ApplySlippage(entryPrice, SideName(direction))
              && var reading := GetTrendStrength(row);
              && var size := CalculatePositionSize(entryPrice, reading.strength, s.capital);
              && p.quantity == size.quantity && p.capitalUsed == size.capitalUsed
              && p.trendStrength == reading.strength && p.volumeRatio == reading.volumeRatio
              && var lv := CalculateStopLossTakeProfit(p.entryPrice, row.atr.value, direction);
              && p.stopLoss == lv.stopLoss && p.takeProfit == lv.takeProfit
              && p.partialTakeProfit == Some(lv.partialTakeProfit)
              && r.capital == s.capital - p.entryPrice * p.quantity * FeeRate
              && |r.events| == |s.events| + 1 && r.events[..|s.events|] == s.events
              && r.events[|s.events|]
                 == EntryEvent(direction, p.entryPrice, p.quantity, p.trendStrength, p.volumeRatio,
                               p.capitalUsed, p.stopLoss, p.takeProfit, s.capital - r.capital, r.capital,
                               row.rsi, row.adx, row.emaFast, row.emaSlow)
              && r.trades == s.trades && r.equityCurve == s.equityCurve
              && r.totalFundingCost == s.totalFundingCost
  {
    var reading := GetTrendStrength(row);
    var size := CalculatePositionSize(entryPrice, reading.strength, s.capital);
    if size.quantity <= 0.0 then s
    else
      var fill := ApplySlippage(entryPrice, SideName(direction));
      var fee := CalculateFee(fill, size.quantity);
      if row.atr.None? || row.atr.value <= 0.0 then s
      else
        var lv := CalculateStopLossTakeProfit(fill, row.atr.value, direction);
        var p := Position(direction, fill, row.time, size.quantity, size.quantity,
                          lv.stopLoss, lv.takeProfit, Some(lv.partialTakeProfit), false,
                          reading.strength, reading.volumeRatio, size.capitalUsed);
        var capital := s.capital - fee;
        var e := EntryEvent(direction, fill, size.quantity, reading.strength, reading.volumeRatio,
                            size.capitalUsed, lv.stopLoss, lv.takeProfit, fee, capital,
                            row.rsi, row.adx, row.emaFast, row.emaSlow);
        s.(position := Some(p), capital := capital, events := s.events + [e])
  }

  /** Whether an exit request takes the partial slice (otherwise it closes the position). */
  predicate TakesPartial(p: Position, isPartial: bool)
  {
    isPartial && !p.partialTaken
  }

  /** A trade's net P&L in percent of the capital it used (zero for no capital). */
  function ReturnPct(net: real, capitalUsed: real): (r: real)
    ensures capitalUsed > 0.0 ==> r * capitalUsed == net * 100.0
    ensures capitalUsed > 0.0 ==> (r > 0.0 <==> net > 0.0)
  {
    if capitalUsed > 0.0 then net / capitalUsed * 100.0 else 0.0
  }

  /** The capital behind the slice an exit closes: half of it for the partial, all of it otherwise. */
  function SliceCapital(p: Position, isPartial: bool): (c: real)
    ensures p.capitalUsed >= 0.0 ==> 0.0 <= c <= p.capitalUsed
    ensures c == p.capitalUsed || c == p.capitalUsed * PartialTakeProfitRatio
    ensures p.capitalUsed > 0.0 ==> (c < p.capitalUsed <==> TakesPartial(p, isPartial))
  {
    if TakesPartial(p, isPartial) then p.capitalUsed * PartialTakeProfitRatio else p.capitalUsed
  }

  /** What closing (part of) a position produces: the trade record, the exit event and what stays open. */
  datatype Settlement = Settlement(trade: Trade, event: Event, rest: Option<Position>)

  /**
   * The arithmetic of an exit from position `p` with `capital` in cash: the
   * partial slice (half of the original quantity, the first time a partial is
   * asked for) or everything that remains, at the slipped `exitPrice`.
   */
  function Settle(p: Position, capital: real, row: Bar, exitPrice: real, reason: ExitReason, isPartial: bool): (x: Settlement)
    ensures x.trade.netPnl == x.trade.grossPnl - x.trade.exitFee - x.trade.fundingCost
    ensures x.trade.grossPnl == GrossPnl(p.side, p.entryPrice, x.trade.exitPrice, x.trade.quantity)
    ensures x.trade.exitPrice == ApplySlippage(exitPrice, if p.side == Long then "sell" else "buy")
    ensures x.trade.exitFee == x.trade.exitPrice * x.trade.quantity * FeeRate
    ensures x.trade.holdingHours == row.time - p.entryTime
    ensures x.trade.exitReason == reason && x.trade.side == p.side && x.trade.entryPrice == p.entryPrice
    ensures x.trade.capitalBefore == capital && x.trade.capitalAfter == capital + x.trade.netPnl
    ensures x.trade.entryTime == p.entryTime && x.trade.trendStrength == p.trendStrength
    ensures x.trade.volumeRatioEntry == p.volumeRatio
    ensures x.trade.entryFee == SliceCapital(p, isPartial) * FeeRate
    ensures x.trade.returnPct == ReturnPct(x.trade.netPnl, SliceCapital(p, isPartial))
    ensures x.trade.fundingCost == FundingCost(p.side, SliceCapital(p, isPartial), x.trade.holdingHours)
    ensures x.event == ExitEvent(isPartial, p.side, x.trade.exitPrice, reason, x.trade.grossPnl,
                                 x.trade.netPnl, x.trade.fundingCost, x.trade.capitalAfter)
    ensures TakesPartial(p, isPartial) ==>
              && x.trade.quantity == p.quantity * PartialTakeProfitRatio
              && x.rest == Some(p.(remainingQuantity := p.quantity - x.trade.quantity, partialTaken := true))
    ensures !TakesPartial(p, isPartial) ==>
              && x.trade.quantity == p.remainingQuantity
              && x.rest.None?
  {
    var fill := ApplySlippage(exitPrice, if p.side == Long then "sell" else "buy");
    var partial := TakesPartial(p, isPartial);
    var exitQuantity := if partial then p.quantity * PartialTakeProfitRatio else p.remainingQuantity;
    var sliceCapital := SliceCapital(p, isPartial);
    var rest :=
      if partial then Some(p.(remainingQuantity := p.quantity - exitQuantity, partialTaken := true))
      else None;
    var gross := GrossPnl(p.side, p.entryPrice, fill, exitQuantity);
    var exitFee := CalculateFee(fill, exitQuantity);
    var hours := row.time - p.entryTime;
    var funding := FundingCost(p.side, sliceCapital, hours);
    var net := gross - exitFee - funding;
    var after := capital + net;
    var returnPct := ReturnPct(net, sliceCapital);
    var t := Trade(p.entryTime, p.side, p.entryPrice, fill, exitQuantity, gross,
                   sliceCapital * FeeRate, exitFee, funding, net, returnPct,
                   p.trendStrength, p.volumeRatio, reason, hours, after - net, after);
    Settlement(t, ExitEvent(isPartial, p.side, fill, reason, gross, net, funding, after), rest)
  }

  /**
   * Closes the partial slice or the rest of the open position, settling gross
   * P&L, exit fee and funding into cash and logging the trade and the exit.
   */
  function ExitPosition(s: Ledger, row: Bar, exitPrice: real, reason: ExitReason, isPartial: bool): (r: Ledger)
    ensures s.position.None? ==> r == s
    ensures s.position.Some? ==>
              && var p := s.position.value;
              && |r.trades| == |s.trades| + 1 && r.trades[..|s.trades|] == s.trades
              && var t := r.trades[|s.trades|];
              && t.netPnl == t.grossPnl - t.exitFee - t.fundingCost
              && t.grossPnl == GrossPnl(p.side, p.entryPrice, t.exitPrice, t.quantity)
              && t.exitPrice == ApplySlippage(exitPrice, if p.side == Long then "sell" else "buy")
              && t.exitFee == t.exitPrice * t.quantity * FeeRate
              && t.holdingHours == row.time - p.entryTime
              && t.exitReason == reason && t.side == p.side && t.entryPrice == p.entryPrice
              && t.entryTime == p.entryTime && t.trendStrength == p.trendStrength
              && t.volumeRatioEntry == p.volumeRatio
              && t.entryFee == SliceCapital(p, isPartial) * FeeRate
              && t.returnPct == ReturnPct(t.netPnl, SliceCapital(p, isPartial))
              && t.fundingCost == FundingCost(p.side, SliceCapital(p, isPartial), t.holdingHours)
              && r.capital == s.capital + t.netPnl
              && t.capitalBefore == s.capital && t.capitalAfter == r.capital
              && r.totalFundingCost == s.totalFundingCost + t.fundingCost
              && |r.events| == |s.events| + 1 && r.events[..|s.events|] == s.events
              && r.events[|s.events|] == ExitEvent(isPartial, p.side, t.exitPrice, reason, t.grossPnl,
                                                   t.netPnl, t.fundingCost, r.capital)
              && r.equityCurve == s.equityCurve
              && (TakesPartial(p, isPartial) ==>
                    && t.quantity == p.quantity * PartialTakeProfitRatio
                    && r.position == Some(p.(remainingQuantity := p.quantity - t.quantity, partialTaken := true))
                    && t.quantity + r.position.value.remainingQuantity == p.quantity)
              && (!TakesPartial(p, isPartial) ==>
                    && t.quantity == p.remainingQuantity
                    && r.position.None?)
  {
    if s.position.None? then s
    else
      var x := Settle(s.position.value, s.capital, row, exitPrice, reason, isPartial);
      s.(position := x.rest, capital := s.capital + x.trade.netPnl,
         totalFundingCost := s.totalFundingCost + x.trade.fundingCost,
         trades := s.trades + [x.trade], events := s.events + [x.event])
  }

  /** A partial exit followed by a full exit closes exactly the original quantity. */
  lemma PartialThenCloseConserves(s: Ledger, row1: Bar, price1: real, row2: Bar, price2: real, reason: ExitReason)
    requires s.position.Some? && !s.position.value.partialTaken
    ensures var s1 := ExitPosition(s, row1, price1, PartialTakeProfit, true);
      var s2 := ExitPosition(s1, row2, price2, reason, false);
      && s2.position.None?
      && |s2.trades| == |s.trades| + 2
      && s2.trades[|s.trades|].quantity + s2.trades[|s.trades| + 1].quantity == s.position.value.quantity
  {
    var s1 := ExitPosition(s, row1, price1, PartialTakeProfit, true);
    var s2 := ExitPosition(s1, row2, price2, reason, false);
    assert s2.trades[..|s1.trades|] == s1.trades;
    assert s2.trades[|s.trades|] == s1.trades[|s.trades|];
  }

  // ---------------------------------------------------------------------------
  // Invariants

  function EntryFees(events: seq<Event>): real
  {
    if events == [] then 0.0
    else
      var last := events[|events| - 1];
      EntryFees(events[..|events| - 1]) + (if last.EntryEvent? then last.fee else 0.0)
  }

  function NetSum(trades: seq<Trade>): real
  {
    if trades == [] then 0.0 else NetSum(trades[..|trades| - 1]) + trades[|trades| - 1].netPnl
  }

  function FundingSum(trades: seq<Trade>): real
  {
    if trades == [] then 0.0 else FundingSum(trades[..|trades| - 1]) + trades[|trades| - 1].fundingCost
  }

  /** Lifecycle of the single position, read off the event log. */
  datatype Phase = Flat | Holding(partialTaken: bool)

  function Advance(ph: Phase, e: Event): Option<Phase>
  {
    match e
    case EntryEvent(_, _, _, _, _, _, _, _, _, _, _, _, _, _) =>
      if ph == Flat then Some(Holding(false)) else None
    case ExitEvent(partial, _, _, _, _, _, _, _) =>
      if ph.Flat? then None
      else if !partial then Some(Flat)
      else if !ph.partialTaken then Some(Holding(true))
      else None
  }

  /**
   * `Some(phase)` when the log reads (entry, at most one partial exit, exit)*,
   * possibly ending inside an open position; `None` for any other order.
   */
  function Lifecycle(events: seq<Event>): Option<Phase>
  {
    if events == [] then Some(Flat)
    else
      match Lifecycle(events[..|events| - 1])
      case None => None
      case Some(ph) => Advance(ph, events[|events| - 1])
  }

  function PhaseOf(position: Option<Position>): Phase
  {
    if position.None? then Flat else Holding(position.value.partialTaken)
  }

  /** The invariant of a run started from `InitialLedger()`. */
  predicate Consistent(s: Ledger)
  {
    && s.capital == InitialCapital - EntryFees(s.events) + NetSum(s.trades)
    && s.totalFundingCost == FundingSum(s.trades)
    && (forall t :: t in s.trades ==> t.capitalBefore + t.netPnl == t.capitalAfter && t.trendStrength != NoTrend)
    && (s.position.Some? ==> PositionOk(s.position.value))
    && Lifecycle(s.events) == Some(PhaseOf(s.position))
    && (s.events != [] ==> s.events[|s.events| - 1].capitalAfter == s.capital)
  }

  lemma InitialConsistent()
    ensures Consistent(InitialLedger())
  {
  }

  function CountEntries(events: seq<Event>): nat
  {
    if events == [] then 0
    else CountEntries(events[..|events| - 1]) + (if events[|events| - 1].EntryEvent? then 1 else 0)
  }

  function CountCloses(events: seq<Event>): nat
  {
    if events == [] then 0
    else
      var last := events[|events| - 1];
      CountCloses(events[..|events| - 1]) + (if last.ExitEvent? && !last.partial then 1 else 0)
  }

  function CountPartials(events: seq<Event>): nat
  {
    if events == [] then 0
    else
      var last := events[|events| - 1];
      CountPartials(events[..|events| - 1]) + (if last.ExitEvent? && last.partial then 1 else 0)
  }

  /**
   * A well-ordered log has one entry per close, plus one for the open position,
   * and at most one partial exit per entry.
   */
  lemma {:induction false} LifecycleCounts(events: seq<Event>)
    requires Lifecycle(events).Some?
    ensures var ph := Lifecycle(events).value;
      && CountEntries(events) == CountCloses(events) + (if ph.Holding? then 1 else 0)
      && CountPartials(events) + (if ph == Holding(false) then 1 else 0) <= CountEntries(events)
  {
    if events != [] {
      LifecycleCounts(events[..|events| - 1]);
    }
  }

  lemma EntryKeepsConsistent(s: Ledger, row: Bar, direction: Side, entryPrice: real)
    requires Sizable(row, entryPrice)
    requires Consistent(s) && s.position.None?
    ensures Consistent(EnterPosition(s, row, direction, entryPrice))
  {
    var r := EnterPosition(s, row, direction, entryPrice);
    if EntryAccepted(s, row, entryPrice) {
      assert r.events[..|r.events| - 1] == s.events;
    }
  }

  lemma ExitKeepsConsistent(s: Ledger, row: Bar)
    requires Consistent(s) && CheckExit(s.position, row).ExitAt?
    ensures var sig := CheckExit(s.position, row);
      Consistent(ExitPosition(s, row, sig.price, sig.reason, sig.partial))
  {
    var sig := CheckExit(s.position, row);
    var r := ExitPosition(s, row, sig.price, sig.reason, sig.partial);
    assert r.events[..|r.events| - 1] == s.events;
    assert r.trades[..|r.trades| - 1] == s.trades;
    forall t | t in r.trades
      ensures t.capitalBefore + t.netPnl == t.capitalAfter && t.trendStrength != NoTrend
    {
      if t !in s.trades {
        assert t == r.trades[|s.trades|];
      }
    }
  }

  // ---------------------------------------------------------------------------
  // The bar loop

  /** The rows the loop keeps: the five required indicator columns are defined (ADX is optional). */
  predicate Complete(b: Bar)
  {
    b.emaFast.Some? && b.emaSlow.Some? && b.rsi.Some? && b.atr.Some? && b.volumeRatio.Some?
  }

  function DropIncomplete(bars: seq<Bar>): (r: seq<Bar>)
    ensures |r| <= |bars|
    ensures forall b :: b in r ==> b in bars && Complete(b)
    ensures forall b :: b in bars && Complete(b) ==> b in r
  {
    if bars == [] then []
    else
      var last := bars[|bars| - 1];
      var kept := DropIncomplete(bars[..|bars| - 1]);
      assert bars == bars[..|bars| - 1] + [last];
      if Complete(last) then kept + [last] else kept
  }

  /**
   * Dropping keeps the row order: the kept rows of a concatenation are the kept
   * rows of each part, in order.
   */
  lemma {:induction false} DropIncompleteKeepsOrder(a: seq<Bar>, b: seq<Bar>)
    ensures DropIncomplete(a + b) == DropIncomplete(a) + DropIncomplete(b)
    decreases |b|
  {
    if b == [] {
      assert a + b == a;
    } else {
      var init, last := b[..|b| - 1], b[|b| - 1];
      assert a + b == (a + init) + [last];
      assert b == init + [last];
      DropIncompleteSnoc(a + init, last);
      DropIncompleteSnoc(init, last);
      DropIncompleteKeepsOrder(a, init);
    }
  }

  lemma DropIncompleteSnoc(bars: seq<Bar>, last: Bar)
    ensures DropIncomplete(bars + [last]) == DropIncomplete(bars) + (if Complete(last) then [last] else [])
  {
    assert (bars + [last])[..|bars|] == bars;
  }

  /** A frame whose rows are all complete is kept whole. */
  lemma {:induction false} CompleteKeptWhole(a: seq<Bar>)
    requires forall k :: 0 <= k < |a| ==> Complete(a[k])
    ensures DropIncomplete(a) == a
  {
    if a != [] {
      var init, last := a[..|a| - 1], a[|a| - 1];
      assert forall k :: 0 <= k < |init| ==> init[k] == a[k];
      CompleteKeptWhole(init);
      assert Complete(last);
      assert a == init + [last];
      DropIncompleteSnoc(init, last);
    }
  }

  /**
   * The loader only yields bars with finite prices; the sizer divides by the
   * open when the bar shows a trend.
   */
  predicate Priced(b: Bar)
  {
    b.open.Some? && Sizable(b, b.open.value) && b.close.Some?
  }

  /** Mark-to-market equity at `close`: cash plus the open position's unrealised P&L. */
  function Equity(s: Ledger, close: real): (e: real)
    ensures s.position.None? ==> e == s.capital
    ensures s.position.Some? && s.position.value.remainingQuantity > 0.0 ==>
              && (e > s.capital <==> (s.position.value.side == Long && close > s.position.value.entryPrice)
                                     || (s.position.value.side == Short && close < s.position.value.entryPrice))
              && (e == s.capital <==> close == s.position.value.entryPrice)
  {
    if s.position.None? then s.capital
    else
      var p := s.position.value;
      s.capital + GrossPnl(p.side, p.entryPrice, close, p.remainingQuantity)
  }

  /** The entry decision at bar `i`: the signal of bar i-1 against bar i-2 (i-1 twice when i = 1). */
  function EntryDecisionAt(bars: seq<Bar>, i: nat): (r: EntrySignal)
    requires 1 <= i < |bars|
    ensures r == Enter(Long) <==> LongSetup(bars[i - 1], if i >= 2 then bars[i - 2] else bars[i - 1])
    ensures r == Enter(Short) <==> ShortSetup(bars[i - 1], if i >= 2 then bars[i - 2] else bars[i - 1])
    ensures r != NoEntry ==> TrendPresent(bars[i - 1])
  {
    CheckEntrySignal(bars[i - 1], if i >= 2 then bars[i - 2] else bars[i - 1])
  }

  /** The decision at bar `i` reads only bars strictly before `i`. */
  lemma {:induction false} EntryDecisionIsCausal(bars: seq<Bar>, other: seq<Bar>, i: nat)
    requires 1 <= i < |bars| && 1 <= i < |other|
    requires bars[..i] == other[..i]
    ensures EntryDecisionAt(bars, i) == EntryDecisionAt(other, i)
  {
    assert bars[i - 1] == bars[..i][i - 1] == other[..i][i - 1] == other[i - 1];
    if i >= 2 {
      assert bars[i - 2] == bars[..i][i - 2] == other[..i][i - 2] == other[i - 2];
    }
  }

  /**
   * One iteration of the loop: look for an entry when flat (filled at this bar's
   * open), otherwise look for an exit on this bar; then record one equity point.
   */
  function StepBar(s: Ledger, bars: seq<Bar>, i: nat): (r: Ledger)
    requires 1 <= i < |bars| && Priced(bars[i])
    ensures |r.equityCurve| == |s.equityCurve| + 1
    ensures r.equityCurve[..|s.equityCurve|] == s.equityCurve
    ensures r.equityCurve[|s.equityCurve|] == Equity(r.(equityCurve := s.equityCurve), bars[i].close.value)
  {
    StepOn(s, bars[i], EntryDecisionAt(bars, i))
  }

  /** The loop body given the bar and the entry decision already taken from the bars before it. */
  function StepOn(s: Ledger, row: Bar, decision: EntrySignal): (r: Ledger)
    requires Priced(row)
    ensures |r.equityCurve| == |s.equityCurve| + 1
    ensures r.equityCurve[..|s.equityCurve|] == s.equityCurve
    ensures r.equityCurve[|s.equityCurve|] == Equity(r.(equityCurve := s.equityCurve), row.close.value)
  {
    var traded := Act(s, row, decision);
    traded.(equityCurve := traded.equityCurve + [Equity(traded, row.close.value)])
  }

  /** The trading half of the loop body: an entry when flat, an exit check when holding. */
  function Act(s: Ledger, row: Bar, decision: EntrySignal): (r: Ledger)
    requires Priced(row)
    ensures r.equityCurve == s.equityCurve
    ensures s.position.None? && (decision == NoEntry || !EntryAccepted(s, row, row.open.value)) ==> r == s
    ensures s.position.None? && decision.Enter? && EntryAccepted(s, row, row.open.value) ==>
              && r.position.Some? && r.position.value.side == decision.side
              && r.position.value.entryPrice == ApplySlippage(row.open.value, SideName(decision.side))
              && r.trades == s.trades && |r.events| == |s.events| + 1
    ensures s.position.Some? && CheckExit(s.position, row) == NoExit ==> r == s
    ensures s.position.Some? && CheckExit(s.position, row).ExitAt? ==>
              && |r.trades| == |s.trades| + 1 && r.trades[..|s.trades|] == s.trades
              && r.trades[|s.trades|].exitReason == CheckExit(s.position, row).reason
              && (r.position.None? <==> !CheckExit(s.position, row).partial)
  {
    if s.position.None? then
      match decision
      case NoEntry => s
      case Enter(direction) => EnterPosition(s, row, direction, row.open.value)
    else
      match CheckExit(s.position, row)
      case NoExit => s
      case ExitAt(price, reason, partial) => ExitPosition(s, row, price, reason, partial)
  }

  /**
   * Loop rules: a flat bar never closes a trade and enters exactly on the
   * decision from the bars before it, at this bar's open; an open bar never
   * opens one and exits exactly on the exit rule's signal for this bar.
   */
  lemma StepBarRules(s: Ledger, bars: seq<Bar>, i: nat)
    requires 1 <= i < |bars| && Priced(bars[i])
    ensures var r := StepBar(s, bars, i);
      && (s.position.None? && EntryDecisionAt(bars, i).Enter? ==>
            r.(equityCurve := s.equityCurve)
            == EnterPosition(s, bars[i], EntryDecisionAt(bars, i).side, bars[i].open.value))
      && (s.position.Some? && CheckExit(s.position, bars[i]).ExitAt? ==>
            var sig := CheckExit(s.position, bars[i]);
            && |r.trades| == |s.trades| + 1
            && r.(equityCurve := s.equityCurve) == ExitPosition(s, bars[i], sig.price, sig.reason, sig.partial))
      && (s.position.None? ==>
            && r.trades == s.trades
            && (EntryDecisionAt(bars, i) == NoEntry ==> r.events == s.events && r.position.None?)
            && (r.position.Some? ==> EntryDecisionAt(bars, i) == Enter(r.position.value.side)
                                     && r.position.value.entryPrice
                                        == ApplySlippage(bars[i].open.value, SideName(r.position.value.side))))
      && (s.position.Some? ==>
            && CountEntries(r.events) == CountEntries(s.events)
            && (CheckExit(s.position, bars[i]) == NoExit ==> r.trades == s.trades && r.position == s.position))
  {
    var row := bars[i];
    if s.position.Some? {
      var sig := CheckExit(s.position, row);
      if sig.ExitAt? {
        var t := ExitPosition(s, row, sig.price, sig.reason, sig.partial);
        assert t.events[..|t.events| - 1] == s.events;
      }
    }
  }

  lemma StepKeepsConsistent(s: Ledger, bars: seq<Bar>, i: nat)
    requires 1 <= i < |bars| && Priced(bars[i]) && Consistent(s)
    ensures Consistent(StepBar(s, bars, i))
  {
    var row := bars[i];
    if s.position.None? {
      match EntryDecisionAt(bars, i)
      case NoEntry =>
      case Enter(direction) => EntryKeepsConsistent(s, row, direction, row.open.value);
    } else {
      if CheckExit(s.position, row).ExitAt? {
        ExitKeepsConsistent(s, row);
      }
    }
  }

  predicate AllPriced(bars: seq<Bar>)
  {
    forall b :: b in bars ==> Priced(b)
  }

  /** The state after the loop has run over bars 1 .. k-1. */
  function Replay(s: Ledger, bars: seq<Bar>, k: nat): (r: Ledger)
    requires 1 <= k <= |bars| && AllPriced(bars)
    ensures |r.equityCurve| == |s.equityCurve| + k - 1
    decreases k
  {
    if k == 1 then s else StepBar(Replay(s, bars, k - 1), bars, k - 1)
  }

  /** One equity point per iteration. */
  lemma {:induction false} ReplayEquityLength(s: Ledger, bars: seq<Bar>, k: nat)
    requires 1 <= k <= |bars| && AllPriced(bars)
    ensures |Replay(s, bars, k).equityCurve| == |s.equityCurve| + k - 1
    ensures Replay(s, bars, k).equityCurve[..|s.equityCurve|] == s.equityCurve
    decreases k
  {
    if k > 1 {
      ReplayEquityLength(s, bars, k - 1);
      var prev := Replay(s, bars, k - 1);
      assert bars[k - 1] in bars;
      var next := StepBar(prev, bars, k - 1);
      assert Replay(s, bars, k) == next;
      assert next.equityCurve[..|s.equityCurve|] == prev.equityCurve[..|prev.equityCurve|][..|s.equityCurve|];
    }
  }

  lemma {:induction false} ReplayKeepsConsistent(s: Ledger, bars: seq<Bar>, k: nat)
    requires 1 <= k <= |bars| && AllPriced(bars) && Consistent(s)
    ensures Consistent(Replay(s, bars, k))
    decreases k
  {
    if k > 1 {
      ReplayKeepsConsistent(s, bars, k - 1);
      var prev := Replay(s, bars, k - 1);
      assert bars[k - 1] in bars;
      StepKeepsConsistent(prev, bars, k - 1);
      assert Replay(s, bars, k) == StepBar(prev, bars, k - 1);
    }
  }

  /** No look-ahead: the state after bars 1 .. k-1 is fixed by bars 0 .. k-1 alone. */
  lemma {:induction false} ReplayIsCausal(s: Ledger, bars: seq<Bar>, other: seq<Bar>, k: nat)
    requires 1 <= k <= |bars| && 1 <= k <= |other| && AllPriced(bars) && AllPriced(other)
    requires bars[..k] == other[..k]
    ensures Replay(s, bars, k) == Replay(s, other, k)
    decreases k
  {
    if k > 1 {
      assert bars[..k - 1] == bars[..k][..k - 1] == other[..k][..k - 1] == other[..k - 1];
      ReplayIsCausal(s, bars, other, k - 1);
      assert bars[k - 1] in bars && other[k - 1] in other;
      StepIsCausal(Replay(s, bars, k - 1), bars, other, k - 1);
    }
  }

  /** One iteration at bar i reads only bars 0 .. i. */
  lemma StepIsCausal(t: Ledger, bars: seq<Bar>, other: seq<Bar>, i: nat)
    requires 1 <= i < |bars| && 1 <= i < |other| && Priced(bars[i]) && Priced(other[i])
    requires bars[..i + 1] == other[..i + 1]
    ensures StepBar(t, bars, i) == StepBar(t, other, i)
  {
    assert bars[..i] == bars[..i + 1][..i] == other[..i + 1][..i] == other[..i];
    EntryDecisionIsCausal(bars, other, i);
    assert bars[i] == bars[..i + 1][i] == other[..i + 1][i] == other[i];
  }
}
