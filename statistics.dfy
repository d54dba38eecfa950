/**
 * The end-of-run summary: win/loss statistics over the trade log and the
 * maximum drawdown of the equity curve under a running peak.
 */
module Statistics {
  import opened Wrappers
  import opened TradingStrategy
  import opened Engine

  /**
   * `NoTrades` is the summary of a run without closed trades: its counts,
   * rates, returns, profit factor and averages are all zero.
   */
  datatype Results =
    | NoTrades(finalCapital: real, maxDrawdown: Option<real>, totalFundingCost: real)
    | TradeStats(
        totalTrades: nat, winningTrades: nat, losingTrades: nat, winRate: real,
        totalReturn: real, totalReturnPct: real, finalCapital: real, maxDrawdown: Option<real>,
        profitFactor: real, avgWin: real, avgLoss: real, riskRewardRatio: real,
        maxWin: real, maxLoss: real,
        stopLossTrades: nat, takeProfitTrades: nat, stopLossRate: real, takeProfitRate: real,
        strongTrendTrades: nat, strongTrendPnl: real, weakTrendTrades: nat, weakTrendPnl: real,
        totalFundingCost: real)

  function Abs(x: real): real
  {
    if x < 0.0 then -x else x
  }

  function Max(a: real, b: real): real
  {
    if a >= b then a else b
  }

  // ---------------------------------------------------------------------------
  // Selections of the trade log

  /** Trades with a positive net P&L, in log order. */
  function Winners(ts: seq<Trade>): (r: seq<Trade>)
    ensures |r| <= |ts|
    ensures forall t :: t in r ==> t in ts && t.netPnl > 0.0
    ensures forall t :: t in ts && t.netPnl > 0.0 ==> t in r
  {
    if ts == [] then []
    else
      var last := ts[|ts| - 1];
      assert ts == ts[..|ts| - 1] + [last];
      Winners(ts[..|ts| - 1]) + (if last.netPnl > 0.0 then [last] else [])
  }

  /** Trades with a net P&L of zero or less, in log order. */
  function Losers(ts: seq<Trade>): (r: seq<Trade>)
    ensures |r| <= |ts|
    ensures forall t :: t in r ==> t in ts && t.netPnl <= 0.0
    ensures forall t :: t in ts && t.netPnl <= 0.0 ==> t in r
  {
    if ts == [] then []
    else
      var last := ts[|ts| - 1];
      assert ts == ts[..|ts| - 1] + [last];
      Losers(ts[..|ts| - 1]) + (if last.netPnl <= 0.0 then [last] else [])
  }

  /** Trades opened under the given trend strength, in log order. */
  function WithTrend(ts: seq<Trade>, trend: Trend): (r: seq<Trade>)
    ensures |r| <= |ts|
    ensures forall t :: t in r ==> t in ts && t.trendStrength == trend
    ensures forall t :: t in ts && t.trendStrength == trend ==> t in r
  {
    if ts == [] then []
    else
      var last := ts[|ts| - 1];
      assert ts == ts[..|ts| - 1] + [last];
      WithTrend(ts[..|ts| - 1], trend) + (if last.trendStrength == trend then [last] else [])
  }

  /** The selection keeps each trade of the trend as often as it occurs in the log, and no other. */
  lemma {:induction false} WithTrendMultiplicity(ts: seq<Trade>, trend: Trend)
    ensures forall t :: multiset(WithTrend(ts, trend))[t] == (if t.trendStrength == trend then multiset(ts)[t] else 0)
  {
    if ts != [] {
      var init, last := ts[..|ts| - 1], ts[|ts| - 1];
      WithTrendMultiplicity(init, trend);
      assert ts == init + [last];
      assert multiset(ts) == multiset(init) + multiset{last};
    }
  }

  /** The number of trades closed for `reason`. */
  function CountReason(ts: seq<Trade>, reason: ExitReason): (n: nat)
    ensures n <= |ts|
    ensures n == 0 <==> forall t :: t in ts ==> t.exitReason != reason
    ensures n == |ts| <==> forall t :: t in ts ==> t.exitReason == reason
  {
    if ts == [] then 0
    else
      var last := ts[|ts| - 1];
      assert ts == ts[..|ts| - 1] + [last];
      CountReason(ts[..|ts| - 1], reason) + (if last.exitReason == reason then 1 else 0)
  }

  /** Logging one more trade raises the count of its reason by one and leaves the others. */
  lemma CountReasonAppend(ts: seq<Trade>, t: Trade, reason: ExitReason)
    ensures CountReason(ts + [t], reason) == CountReason(ts, reason) + (if t.exitReason == reason then 1 else 0)
  {
    assert (ts + [t])[..|ts|] == ts;
  }

  /** Every trade is counted under exactly one of the three reasons. */
  lemma {:induction false} ReasonPartition(ts: seq<Trade>)
    ensures CountReason(ts, StopLoss) + CountReason(ts, PartialTakeProfit) + CountReason(ts, TakeProfit) == |ts|
  {
    if ts != [] {
      ReasonPartition(ts[..|ts| - 1]);
    }
  }

  /** The largest net P&L of a non-empty log. */
  function MaxNet(ts: seq<Trade>): (m: real)
    requires ts != []
    ensures forall t :: t in ts ==> t.netPnl <= m
    ensures exists t :: t in ts && t.netPnl == m
  {
    var last := ts[|ts| - 1];
    assert ts == ts[..|ts| - 1] + [last];
    if |ts| == 1 then last.netPnl else Max(MaxNet(ts[..|ts| - 1]), last.netPnl)
  }

  /** The smallest net P&L of a non-empty log. */
  function MinNet(ts: seq<Trade>): (m: real)
    requires ts != []
    ensures forall t :: t in ts ==> m <= t.netPnl
    ensures exists t :: t in ts && t.netPnl == m
  {
    var last := ts[|ts| - 1];
    assert ts == ts[..|ts| - 1] + [last];
    if |ts| == 1 then last.netPnl else Min(MinNet(ts[..|ts| - 1]), last.netPnl)
  }

  lemma {:induction false} NetSumAppend(ts: seq<Trade>, extra: seq<Trade>)
    requires |extra| <= 1
    ensures NetSum(ts + extra) == NetSum(ts) + NetSum(extra)
  {
    if extra != [] {
      var all := ts + extra;
      assert all[..|all| - 1] == ts;
      assert all[|all| - 1] == extra[0];
      assert NetSum(all) == NetSum(ts) + extra[0].netPnl;
      assert extra[..0] == [];
      assert NetSum(extra) == NetSum(extra[..0]) + extra[0].netPnl;
    } else {
      assert ts + extra == ts;
    }
  }

  /** Winners and losers split the log: counts and net sums add up. */
  lemma {:induction false} WinLossPartition(ts: seq<Trade>)
    ensures |Winners(ts)| + |Losers(ts)| == |ts|
    ensures NetSum(Winners(ts)) + NetSum(Losers(ts)) == NetSum(ts)
  {
    if ts != [] {
      var init, last := ts[..|ts| - 1], ts[|ts| - 1];
      WinLossPartition(init);
      NetSumAppend(Winners(init), if last.netPnl > 0.0 then [last] else []);
      NetSumAppend(Losers(init), if last.netPnl <= 0.0 then [last] else []);
    }
  }

  lemma {:induction false} LoserSumNonPositive(ts: seq<Trade>)
    ensures NetSum(Losers(ts)) <= 0.0
  {
    if ts != [] {
      var init, last := ts[..|ts| - 1], ts[|ts| - 1];
      LoserSumNonPositive(init);
      NetSumAppend(Losers(init), if last.netPnl <= 0.0 then [last] else []);
    }
  }

  lemma {:induction false} WinnerSumPositive(ts: seq<Trade>)
    ensures Winners(ts) != [] ==> NetSum(Winners(ts)) > 0.0
    ensures Winners(ts) == [] ==> NetSum(Winners(ts)) == 0.0
  {
    if ts != [] {
      var init, last := ts[..|ts| - 1], ts[|ts| - 1];
      WinnerSumPositive(init);
      NetSumAppend(Winners(init), if last.netPnl > 0.0 then [last] else []);
    }
  }

  // ---------------------------------------------------------------------------
  // The summary

  /** The trend selections split the log: their counts add up ... */
  lemma {:induction false} TrendCountPartition(ts: seq<Trade>)
    ensures |WithTrend(ts, Strong)| + |WithTrend(ts, Weak)| + |WithTrend(ts, NoTrend)| == |ts|
  {
    if ts != [] {
      TrendCountPartition(ts[..|ts| - 1]);
    }
  }

  /** ... and so do their net sums. */
  lemma {:induction false} TrendSumPartition(ts: seq<Trade>)
    ensures NetSum(WithTrend(ts, Strong)) + NetSum(WithTrend(ts, Weak)) + NetSum(WithTrend(ts, NoTrend)) == NetSum(ts)
  {
    if ts != [] {
      var init, last := ts[..|ts| - 1], ts[|ts| - 1];
      TrendSumPartition(init);
      NetSumAppend(WithTrend(init, Strong), if last.trendStrength == Strong then [last] else []);
      NetSumAppend(WithTrend(init, Weak), if last.trendStrength == Weak then [last] else []);
      NetSumAppend(WithTrend(init, NoTrend), if last.trendStrength == NoTrend then [last] else []);
    }
  }

  /**
   * Every trade of a run is opened under a strong or a weak trend, so the two
   * per-trend figures of the summary cover the whole log.
   */
  lemma StrongAndWeakCoverRun(s: Ledger)
    requires Consistent(s)
    ensures |WithTrend(s.trades, Strong)| + |WithTrend(s.trades, Weak)| == |s.trades|
    ensures NetSum(WithTrend(s.trades, Strong)) + NetSum(WithTrend(s.trades, Weak)) == NetSum(s.trades)
  {
    TrendCountPartition(s.trades);
    TrendSumPartition(s.trades);
    NoTrendSelectsNothing(s.trades);
  }

  lemma {:induction false} NoTrendSelectsNothing(ts: seq<Trade>)
    requires forall t :: t in ts ==> t.trendStrength != NoTrend
    ensures WithTrend(ts, NoTrend) == []
  {
    if ts != [] {
      assert ts[|ts| - 1] in ts;
      NoTrendSelectsNothing(ts[..|ts| - 1]);
    }
  }

  /** Sign facts about a quotient. */
  lemma QuotientSign(a: real, b: real)
    requires b != 0.0
    ensures a / b * b == a
    ensures b > 0.0 && a > 0.0 ==> a / b > 0.0
    ensures b > 0.0 && a <= 0.0 ==> a / b <= 0.0
    ensures a / b == 0.0 <==> a == 0.0
  {
  }

  /** `part` out of `whole`, in percent. */
  function Percent(part: nat, whole: nat): (r: real)
    requires 0 < whole && part <= whole
    ensures 0.0 <= r <= 100.0
    ensures r * (whole as real) == (part as real) * 100.0
  {
    QuotientSign(part as real, whole as real);
    assert (part as real) / (whole as real) <= 1.0;
    (part as real) / (whole as real) * 100.0
  }

  /** Mean net P&L of a non-empty log. */
  function MeanNet(ts: seq<Trade>): (r: real)
    requires ts != []
    ensures r * (|ts| as real) == NetSum(ts)
    ensures NetSum(ts) > 0.0 ==> r > 0.0
    ensures NetSum(ts) <= 0.0 ==> r <= 0.0
  {
    QuotientSign(NetSum(ts), |ts| as real);
    NetSum(ts) / (|ts| as real)
  }

  /** Mean net P&L of the winners, zero when there are none. */
  function AverageWin(trades: seq<Trade>): (r: real)
    ensures r >= 0.0
    ensures Winners(trades) != [] ==> r > 0.0 && r == MeanNet(Winners(trades))
    ensures Winners(trades) == [] ==> r == 0.0
  {
    var wins := Winners(trades);
    WinnerSumPositive(trades);
    if wins != [] then MeanNet(wins) else 0.0
  }

  /** Mean net P&L of the losers (a loss is negative), zero when there are none. */
  function AverageLoss(trades: seq<Trade>): (r: real)
    ensures r <= 0.0
    ensures Losers(trades) != [] ==> r == MeanNet(Losers(trades))
    ensures Losers(trades) == [] ==> r == 0.0
  {
    var losses := Losers(trades);
    LoserSumNonPositive(trades);
    if losses != [] then MeanNet(losses) else 0.0
  }

  /** `|gains / losses|` for a non-negative gain and a negative loss. */
  function GainLossRatio(gains: real, losses: real): (r: real)
    requires gains >= 0.0 && losses < 0.0
    ensures r >= 0.0 && r * -losses == gains
    ensures r > 0.0 <==> gains > 0.0
  {
    QuotientSign(gains, -losses);
    assert gains / losses == -(gains / -losses);
    Abs(gains / losses)
  }

  /** `|gross wins / gross losses|`, or zero unless the losers lost money in total. */
  function ProfitFactor(trades: seq<Trade>): (r: real)
    ensures r >= 0.0
    ensures r > 0.0 <==> NetSum(Losers(trades)) < 0.0 && Winners(trades) != []
  {
    var wins, losses := Winners(trades), Losers(trades);
    WinnerSumPositive(trades);
    if losses != [] && NetSum(losses) < 0.0 then GainLossRatio(NetSum(wins), NetSum(losses))
    else 0.0
  }

  /** Average win over the absolute average loss, zero without losses. */
  function RiskReward(trades: seq<Trade>): (r: real)
    ensures r >= 0.0
    ensures AverageLoss(trades) < 0.0 ==> r * -AverageLoss(trades) == AverageWin(trades)
    ensures AverageLoss(trades) == 0.0 ==> r == 0.0
  {
    var avgLoss := Abs(AverageLoss(trades));
    if avgLoss > 0.0 then
      QuotientSign(AverageWin(trades), avgLoss);
      AverageWin(trades) / avgLoss
    else 0.0
  }

  /** The summary of a run from its trade log, final cash, funding total and drawdown. */
  function Summarize(trades: seq<Trade>, capital: real, totalFundingCost: real, maxDrawdown: Option<real>): (r: Results)
    ensures r.NoTrades? <==> trades == []
    ensures r.finalCapital == capital && r.maxDrawdown == maxDrawdown && r.totalFundingCost == totalFundingCost
    ensures trades != [] ==> r == TradeSummary(trades, capital, totalFundingCost, maxDrawdown)
  {
    if trades == [] then NoTrades(capital, maxDrawdown, totalFundingCost)
    else TradeSummary(trades, capital, totalFundingCost, maxDrawdown)
  }

  /** The statistics of a non-empty trade log. */
  function TradeSummary(trades: seq<Trade>, capital: real, totalFundingCost: real, maxDrawdown: Option<real>): (r: Results)
    requires trades != []
    ensures r.TradeStats?
    ensures r.finalCapital == capital && r.maxDrawdown == maxDrawdown && r.totalFundingCost == totalFundingCost
    ensures r.totalTrades == |trades|
    ensures r.winningTrades == |Winners(trades)| && r.losingTrades == |Losers(trades)|
    ensures r.winningTrades + r.losingTrades == r.totalTrades
    ensures r.winRate == Percent(r.winningTrades, r.totalTrades) && 0.0 <= r.winRate <= 100.0
    ensures r.totalReturn == capital - InitialCapital
    ensures r.totalReturnPct * InitialCapital == r.totalReturn * 100.0
    ensures r.profitFactor == ProfitFactor(trades)
    ensures r.avgWin == AverageWin(trades) && r.avgLoss == AverageLoss(trades)
    ensures r.riskRewardRatio == RiskReward(trades)
    ensures r.maxWin == (if Winners(trades) != [] then MaxNet(Winners(trades)) else 0.0)
    ensures r.maxLoss == (if Losers(trades) != [] then MinNet(Losers(trades)) else 0.0)
    ensures r.stopLossTrades == CountReason(trades, StopLoss)
    ensures r.takeProfitTrades == CountReason(trades, TakeProfit)
    ensures r.stopLossRate == Percent(r.stopLossTrades, r.totalTrades)
    ensures r.takeProfitRate == Percent(r.takeProfitTrades, r.totalTrades)
    ensures r.strongTrendTrades == |WithTrend(trades, Strong)|
    ensures r.strongTrendPnl == NetSum(WithTrend(trades, Strong))
    ensures r.weakTrendTrades == |WithTrend(trades, Weak)|
    ensures r.weakTrendPnl == NetSum(WithTrend(trades, Weak))
  {
    var wins, losses := Winners(trades), Losers(trades);
    WinLossPartition(trades);
    var totalReturn := capital - InitialCapital;
    var stopLosses, takeProfits := CountReason(trades, StopLoss), CountReason(trades, TakeProfit);
    var strong, weak := WithTrend(trades, Strong), WithTrend(trades, Weak);
    TradeStats(
      |trades|, |wins|, |losses|, Percent(|wins|, |trades|),
      totalReturn, ReturnPct(totalReturn, InitialCapital), capital, maxDrawdown,
      ProfitFactor(trades), AverageWin(trades), AverageLoss(trades), RiskReward(trades),
      if |wins| > 0 then MaxNet(wins) else 0.0,
      if |losses| > 0 then MinNet(losses) else 0.0,
      stopLosses, takeProfits, Percent(stopLosses, |trades|), Percent(takeProfits, |trades|),
      |strong|, if |strong| > 0 then NetSum(strong) else 0.0,
      |weak|, if |weak| > 0 then NetSum(weak) else 0.0,
      totalFundingCost)
  }

  /** The largest win and the largest loss bound every winner and every loser. */
  lemma ExtremesBoundTrades(trades: seq<Trade>, capital: real, totalFundingCost: real, maxDrawdown: Option<real>)
    requires trades != []
    ensures var r := Summarize(trades, capital, totalFundingCost, maxDrawdown);
      && (forall t :: t in trades && t.netPnl > 0.0 ==> 0.0 < t.netPnl <= r.maxWin)
      && (forall t :: t in trades && t.netPnl <= 0.0 ==> r.maxLoss <= t.netPnl <= 0.0)
      && r.maxWin >= 0.0 && r.maxLoss <= 0.0
  {
    var wins, losses := Winners(trades), Losers(trades);
    if wins != [] {
      assert wins[0] in wins;
    }
    if losses != [] {
      assert losses[0] in losses;
    }
  }

  /**
   * In a run started from the initial state, the reported return is the net P&L
   * of the closed trades less the entry fees charged.
   */
  lemma ReturnIsNetOfEntryFees(s: Ledger, maxDrawdown: Option<real>)
    requires Consistent(s) && s.trades != []
    ensures Summarize(s.trades, s.capital, s.totalFundingCost, maxDrawdown).totalReturn
            == NetSum(s.trades) - EntryFees(s.events)
    ensures Summarize(s.trades, s.capital, s.totalFundingCost, maxDrawdown).totalFundingCost
            == FundingSum(s.trades)
  {
  }

  // ---------------------------------------------------------------------------
  // Maximum drawdown

  /** The running maximum of the equity curve up to and including point `i`. */
  function RunningPeak(curve: seq<real>, i: nat): real
    requires i < |curve|
  {
    if i == 0 then curve[0] else Max(RunningPeak(curve, i - 1), curve[i])
  }

  /** Point `j` of the curve lies at or below the running peak at point `i`. */
  predicate BelowPeak(curve: seq<real>, j: int, i: nat)
    requires i < |curve|
  {
    0 <= j < |curve| && curve[j] <= RunningPeak(curve, i)
  }

  /** Point `j` of the curve is the running peak at point `i`. */
  predicate AtPeak(curve: seq<real>, j: int, i: nat)
    requires i < |curve|
  {
    0 <= j < |curve| && curve[j] == RunningPeak(curve, i)
  }

  /** The peak is the largest equity seen so far. */
  lemma {:induction false} PeakIsRunningMax(curve: seq<real>, i: nat)
    requires i < |curve|
    ensures forall j :: 0 <= j <= i ==> BelowPeak(curve, j, i)
    ensures exists j :: 0 <= j <= i && AtPeak(curve, j, i)
  {
    if i == 0 {
      assert AtPeak(curve, 0, 0);
    } else {
      PeakIsRunningMax(curve, i - 1);
      forall j | 0 <= j <= i
        ensures BelowPeak(curve, j, i)
      {
        if j < i {
          assert BelowPeak(curve, j, i - 1);
        }
      }
      if curve[i] < RunningPeak(curve, i - 1) {
        var j :| 0 <= j <= i - 1 && AtPeak(curve, j, i - 1);
        assert AtPeak(curve, j, i);
      } else {
        assert AtPeak(curve, i, i);
      }
    }
  }

  /**
   * `(equity - peak) / peak` at point `i`, the fall below the running peak as a
   * (non-positive, for a positive peak) fraction of it; zero where the peak is zero
   * (that case is reported apart).
   */
  function DrawdownRatio(curve: seq<real>, i: int): (r: real)
    requires 0 <= i < |curve|
    ensures RunningPeak(curve, i) != 0.0 ==> r * RunningPeak(curve, i) == curve[i] - RunningPeak(curve, i)
    ensures RunningPeak(curve, i) > 0.0 ==> r <= 0.0
    ensures i == 0 ==> r == 0.0
  {
    var peak := RunningPeak(curve, i);
    if peak == 0.0 then 0.0
    else
      PeakIsRunningMax(curve, i);
      assert BelowPeak(curve, i, i);
      QuotientSign(curve[i] - peak, peak);
      (curve[i] - peak) / peak
  }

  /** The smallest ratio among the first `k` points (zero for none). */
  function WorstRatio(curve: seq<real>, k: nat): real
    requires k <= |curve|
  {
    if k == 0 then 0.0 else Min(WorstRatio(curve, k - 1), DrawdownRatio(curve, k - 1))
  }

  /** Some running peak among the first `k` points is zero. */
  function HasZeroPeak(curve: seq<real>, k: nat): bool
    requires k <= |curve|
  {
    k > 0 && (HasZeroPeak(curve, k - 1) || RunningPeak(curve, k - 1) == 0.0)
  }

  predicate ZeroPeakAt(curve: seq<real>, i: int)
  {
    0 <= i < |curve| && RunningPeak(curve, i) == 0.0
  }

  /**
   * The maximum drawdown in percent, `|min((equity - peak) / peak)| * 100`; `None`
   * when some running peak is zero, where the division yields NaN or infinity.
   */
  function MaxDrawdownOf(curve: seq<real>): (r: Option<real>)
    ensures |curve| == 0 ==> r == Some(0.0)
    ensures r.Some? ==> r.value >= 0.0
  {
    if |curve| == 0 then Some(0.0)
    else if HasZeroPeak(curve, |curve|) then None
    else Some(Abs(WorstRatio(curve, |curve|)) * 100.0)
  }

  lemma {:induction false} WorstRatioBounds(curve: seq<real>, k: nat)
    requires k <= |curve|
    ensures WorstRatio(curve, k) <= 0.0
    ensures forall i :: 0 <= i < k ==> WorstRatio(curve, k) <= DrawdownRatio(curve, i)
    ensures k > 0 ==> exists i :: 0 <= i < k && WorstRatio(curve, k) == DrawdownRatio(curve, i)
  {
    if k > 0 {
      WorstRatioBounds(curve, k - 1);
      if k == 1 {
        assert WorstRatio(curve, k) == DrawdownRatio(curve, 0);
      } else if DrawdownRatio(curve, k - 1) < WorstRatio(curve, k - 1) {
        assert WorstRatio(curve, k) == DrawdownRatio(curve, k - 1);
      } else {
        var i :| 0 <= i < k - 1 && WorstRatio(curve, k - 1) == DrawdownRatio(curve, i);
        assert WorstRatio(curve, k) == DrawdownRatio(curve, i);
      }
    }
  }

  lemma {:induction false} ZeroPeakIff(curve: seq<real>, k: nat)
    requires k <= |curve|
    ensures HasZeroPeak(curve, k) <==> exists i :: 0 <= i < k && ZeroPeakAt(curve, i)
  {
    if k > 0 {
      ZeroPeakIff(curve, k - 1);
      if RunningPeak(curve, k - 1) == 0.0 {
        assert ZeroPeakAt(curve, k - 1);
      }
    }
  }

  /**
   * The drawdown is zero for an empty curve and undefined exactly when a running
   * peak is zero.
   */
  lemma MaxDrawdownDefined(curve: seq<real>)
    ensures |curve| == 0 ==> MaxDrawdownOf(curve) == Some(0.0)
    ensures MaxDrawdownOf(curve).None? <==> exists i :: 0 <= i < |curve| && ZeroPeakAt(curve, i)
  {
    ZeroPeakIff(curve, |curve|);
  }

  /**
   * Otherwise it is non-negative, at least every point's fall below its running
   * peak (in percent of the peak), and equal to one of them.
   */
  lemma MaxDrawdownIsWorstFall(curve: seq<real>)
    requires MaxDrawdownOf(curve).Some? && |curve| > 0
    ensures MaxDrawdownOf(curve).value >= 0.0
    ensures forall i :: 0 <= i < |curve| ==> MaxDrawdownOf(curve).value >= -DrawdownRatio(curve, i) * 100.0
    ensures exists i :: 0 <= i < |curve| && MaxDrawdownOf(curve).value == -DrawdownRatio(curve, i) * 100.0
  {
    WorstRatioBounds(curve, |curve|);
    assert MaxDrawdownOf(curve).value == -WorstRatio(curve, |curve|) * 100.0;
  }

  /** The source's running-peak computation of the maximum drawdown. */
  method CalculateMaxDrawdown(curve: seq<real>) returns (dd: Option<real>)
    ensures dd == MaxDrawdownOf(curve)
  {
    if |curve| == 0 {
      return Some(0.0);
    }
    var peak := curve[0];
    var worst := 0.0;
    var zeroPeak := false;
    var i := 0;
    while i < |curve|
      invariant 0 <= i <= |curve|
      invariant peak == RunningPeak(curve, if i == 0 then 0 else i - 1)
      invariant worst == WorstRatio(curve, i) && worst <= 0.0
      invariant zeroPeak == HasZeroPeak(curve, i)
    {
      if curve[i] > peak {
        peak := curve[i];
      }
      if peak == 0.0 {
        zeroPeak := true;
      } else {
        var ratio := (curve[i] - peak) / peak;
        if ratio < worst {
          worst := ratio;
        }
      }
      i := i + 1;
    }
    if zeroPeak {
      dd := None;
    } else {
      dd := Some(Abs(worst) * 100.0);
    }
  }
}
