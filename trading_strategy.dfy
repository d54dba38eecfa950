/**
 * The shared decision functions of the strategy: trend classification, position
 * sizing, the EMA-cross entry signal and the stop / take-profit levels. The
 * backtest engine repeats the first three word for word (its sizing reads the
 * engine's cash capital as the available capital) and inlines the fourth.
 */
module TradingStrategy {
  import opened Wrappers

  const Leverage: real := 3.0
  const FeeRate: real := 0.0004

  const AdxStrongThreshold: real := 30.0
  const AdxWeakThreshold: real := 23.0
  const VolumeStrongMult: real := 1.50
  const VolumeMinThreshold: real := 1.12

  const StrongTrendPositionRatio: real := 0.24
  const WeakTrendPositionRatio: real := 0.13
  const MaxPositionRatio: real := 0.29

  const RsiLongMin: real := 54.0
  const RsiShortMax: real := 46.0

  const StopLossAtrMult: real := 0.72
  const TakeProfitAtrMult: real := 16.0
  const PartialTakeProfitAtrMult: real := 8.0
  const PartialTakeProfitRatio: real := 0.5

  /** One row of the indicator frame. `time` is the bar's timestamp in hours. */
  datatype Bar = Bar(
    time: real,
    open: Option<real>, high: Option<real>, low: Option<real>, close: Option<real>,
    emaFast: Option<real>, emaSlow: Option<real>, rsi: Option<real>, atr: Option<real>,
    adx: Option<real>, plusDi: Option<real>, minusDi: Option<real>, volumeRatio: Option<real>)

  datatype Trend = Strong | Weak | NoTrend

  datatype Side = Long | Short

  /** The pair (trend strength, volume ratio) the classifier returns. */
  datatype TrendReading = TrendReading(strength: Trend, volumeRatio: real)

  /** The pair (quantity, capital used) the sizer returns. */
  datatype Sizing = Sizing(quantity: real, capitalUsed: real)

  /** `NoEntry` is the source's `(False, "")`, `Enter(side)` its `(True, "long" | "short")`. */
  datatype EntrySignal = NoEntry | Enter(side: Side)

  datatype Levels = Levels(stopLoss: real, takeProfit: real, partialTakeProfit: real)

  function SideName(side: Side): string
  {
    if side == Long then "long" else "short"
  }

  function Min(a: real, b: real): real
  {
    if a <= b then a else b
  }

  /** Trend classification from ADX and the volume ratio. */
  function GetTrendStrength(row: Bar): (r: TrendReading)
    ensures row.adx.None? || row.volumeRatio.None? ==> r == TrendReading(NoTrend, 0.0)
    ensures row.adx.Some? && row.volumeRatio.Some? ==> r.volumeRatio == row.volumeRatio.value
    ensures r.strength == Strong <==>
              && row.adx.Some? && row.volumeRatio.Some?
              && row.adx.value >= AdxStrongThreshold && row.volumeRatio.value >= VolumeStrongMult
    ensures r.strength == Weak <==>
              && row.adx.Some? && row.volumeRatio.Some?
              && row.adx.value >= AdxWeakThreshold && row.volumeRatio.value >= VolumeMinThreshold
              && !(row.adx.value >= AdxStrongThreshold && row.volumeRatio.value >= VolumeStrongMult)
  {
    if row.adx.None? || row.volumeRatio.None? then TrendReading(NoTrend, 0.0)
    else
      var adx, ratio := row.adx.value, row.volumeRatio.value;
      if ratio < VolumeMinThreshold then TrendReading(NoTrend, ratio)
      else if adx >= AdxStrongThreshold && ratio >= VolumeStrongMult then TrendReading(Strong, ratio)
      else if adx >= AdxWeakThreshold && ratio >= VolumeMinThreshold then TrendReading(Weak, ratio)
      else TrendReading(NoTrend, ratio)
  }

  /** A trend is present when ADX reaches the weak threshold and volume the minimum ratio. */
  predicate TrendPresent(row: Bar)
  {
    && row.adx.Some? && row.volumeRatio.Some?
    && row.adx.value >= AdxWeakThreshold && row.volumeRatio.value >= VolumeMinThreshold
  }

  /** The early "ratio below minimum" return is subsumed: NONE exactly when no trend is present. */
  lemma TrendPresentIff(row: Bar)
    ensures GetTrendStrength(row).strength != NoTrend <==> TrendPresent(row)
    ensures TrendPresent(row) ==> GetTrendStrength(row).volumeRatio >= VolumeMinThreshold
  {
  }

  /**
   * Position sizing: a fixed share of the available capital per trend strength,
   * capped, then levered.
   */
  function CalculatePositionSize(price: real, strength: Trend, available: real): (r: Sizing)
    requires strength != NoTrend ==> price != 0.0
    ensures strength == NoTrend ==> r == Sizing(0.0, 0.0)
    ensures strength == Strong ==> r.capitalUsed == available * StrongTrendPositionRatio
    ensures strength == Weak ==> r.capitalUsed == available * WeakTrendPositionRatio
    ensures strength != NoTrend ==> r.quantity * price == r.capitalUsed * Leverage
    ensures available >= 0.0 ==> 0.0 <= r.capitalUsed <= available * MaxPositionRatio
    ensures available > 0.0 && price > 0.0 && strength != NoTrend ==> r.quantity > 0.0
  {
    if strength == NoTrend then Sizing(0.0, 0.0)
    else
      var ratio := if strength == Strong then StrongTrendPositionRatio else WeakTrendPositionRatio;
      var capped := Min(ratio, MaxPositionRatio);
      var amount := available * capped;
      var leveraged := amount * Leverage;
      Sizing(leveraged / price, amount)
  }

  lemma PositionSizeExample()
    ensures CalculatePositionSize(2000.0, Strong, 30.0) == Sizing(0.0108, 7.2)
  {
  }

  /** The long entry setup, stated condition by condition on the signal bar and its predecessor. */
  predicate LongSetup(row: Bar, prev: Bar)
  {
    && TrendPresent(row)
    && row.emaFast.Some? && row.emaSlow.Some? && prev.emaFast.Some? && prev.emaSlow.Some?
    && row.rsi.Some? && row.plusDi.Some? && row.minusDi.Some? && row.close.Some?
    && prev.emaFast.value <= prev.emaSlow.value
    && row.emaFast.value > row.emaSlow.value
    && row.rsi.value >= RsiLongMin
    && row.close.value > row.emaFast.value
    && row.plusDi.value > row.minusDi.value
  }

  /** The mirror image of `LongSetup`. */
  predicate ShortSetup(row: Bar, prev: Bar)
  {
    && TrendPresent(row)
    && row.emaFast.Some? && row.emaSlow.Some? && prev.emaFast.Some? && prev.emaSlow.Some?
    && row.rsi.Some? && row.plusDi.Some? && row.minusDi.Some? && row.close.Some?
    && prev.emaFast.value >= prev.emaSlow.value
    && row.emaFast.value < row.emaSlow.value
    && row.rsi.value <= RsiShortMax
    && row.close.value < row.emaFast.value
    && row.minusDi.value > row.plusDi.value
  }

  /** The EMA-cross entry signal of `row` against the bar before it. */
  function CheckEntrySignal(row: Bar, prev: Bar): (r: EntrySignal)
    ensures r == Enter(Long) <==> LongSetup(row, prev)
    ensures r == Enter(Short) <==> ShortSetup(row, prev)
    ensures !(LongSetup(row, prev) && ShortSetup(row, prev))
    ensures !TrendPresent(row) ==> r == NoEntry
  {
    TrendPresentIff(row);
    var reading := GetTrendStrength(row);
    if reading.strength == NoTrend then NoEntry
    else if reading.volumeRatio < VolumeMinThreshold then NoEntry
    else if row.emaFast.None? || row.emaSlow.None? || prev.emaFast.None? || prev.emaSlow.None? then NoEntry
    else if row.rsi.None? then NoEntry
    else if row.plusDi.None? || row.minusDi.None? then NoEntry
    else
      var fast, slow := row.emaFast.value, row.emaSlow.value;
      var prevFast, prevSlow := prev.emaFast.value, prev.emaSlow.value;
      var rsi, plusDi, minusDi := row.rsi.value, row.plusDi.value, row.minusDi.value;
      // a NaN close compares false both ways
      var crossUp := prevFast <= prevSlow && fast > slow;
      var priceAbove := row.close.Some? && row.close.value > fast;
      if crossUp && rsi >= RsiLongMin && priceAbove && plusDi > minusDi then Enter(Long)
      else
        var crossDown := prevFast >= prevSlow && fast < slow;
        var priceBelow := row.close.Some? && row.close.value < fast;
        if crossDown && rsi <= RsiShortMax && priceBelow && minusDi > plusDi then Enter(Short)
        else NoEntry
  }

  /** The worked scenario: ADX 35, volume ratio 1.6, a cross up, RSI 60 and +DI above -DI. */
  lemma EntrySignalExample(row: Bar, prev: Bar)
    requires row.adx == Some(35.0) && row.volumeRatio == Some(1.6)
    requires prev.emaFast == Some(99.0) && prev.emaSlow == Some(100.0)
    requires row.emaFast == Some(101.0) && row.emaSlow == Some(100.0) && row.close == Some(102.0)
    requires row.rsi == Some(60.0) && row.plusDi == Some(25.0) && row.minusDi == Some(15.0)
    ensures GetTrendStrength(row).strength == Strong
    ensures CheckEntrySignal(row, prev) == Enter(Long)
  {
  }

  /** Stop-loss, take-profit and partial take-profit levels at ATR multiples from the entry. */
  function CalculateStopLossTakeProfit(entry: real, atr: real, side: Side): (r: Levels)
    ensures atr > 0.0 && side == Long ==> r.stopLoss < entry < r.partialTakeProfit < r.takeProfit
    ensures atr > 0.0 && side == Short ==> r.takeProfit < r.partialTakeProfit < entry < r.stopLoss
  {
    if side == Long then
      Levels(entry - atr * StopLossAtrMult, entry + atr * TakeProfitAtrMult, entry + atr * PartialTakeProfitAtrMult)
    else
      Levels(entry + atr * StopLossAtrMult, entry - atr * TakeProfitAtrMult, entry - atr * PartialTakeProfitAtrMult)
  }

  /** Short levels are the long levels reflected about the entry price. */
  lemma LevelsMirror(entry: real, atr: real)
    ensures var l, s := CalculateStopLossTakeProfit(entry, atr, Long), CalculateStopLossTakeProfit(entry, atr, Short);
      && l.stopLoss + s.stopLoss == 2.0 * entry
      && l.takeProfit + s.takeProfit == 2.0 * entry
      && l.partialTakeProfit + s.partialTakeProfit == 2.0 * entry
      && entry - l.stopLoss == atr * StopLossAtrMult
      && l.partialTakeProfit - entry == atr * PartialTakeProfitAtrMult
      && l.takeProfit - entry == atr * TakeProfitAtrMult
  {
  }

  lemma LevelsExample()
    ensures CalculateStopLossTakeProfit(2000.0, 20.0, Long) == Levels(1985.6, 2320.0, 2160.0)
  {
  }
}
