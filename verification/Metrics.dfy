/** Metrics over the simulated trades. */
module Metrics {
  import opened Wrappers
  import opened Rounding
  import opened Backtest

  datatype ProfitFactor = Finite(value: real) | Infinite

  datatype Report = Report(
    totalTrades: nat, wins: nat, losses: nat, winRate: real,
    totalPnlUsd: real, totalPnlPct: real, profitFactor: ProfitFactor,
    maxDrawdownPct: real, avgWinPct: real, avgLossPct: real,
    totalCommissionsUsd: Option<real>)

  function Wins(trades: seq<SimTrade>): seq<SimTrade> {
    if trades == [] then []
    else
      var n := |trades| - 1;
      Wins(trades[..n]) + if trades[n].pnlUsd > 0.0 then [trades[n]] else []
  }

  function Losses(trades: seq<SimTrade>): seq<SimTrade> {
    if trades == [] then []
    else
      var n := |trades| - 1;
      Losses(trades[..n]) + if trades[n].pnlUsd <= 0.0 then [trades[n]] else []
  }

  function SumUsd(trades: seq<SimTrade>): real {
    if trades == [] then 0.0 else SumUsd(trades[..|trades| - 1]) + trades[|trades| - 1].pnlUsd
  }

  function SumPct(trades: seq<SimTrade>): real {
    if trades == [] then 0.0 else SumPct(trades[..|trades| - 1]) + trades[|trades| - 1].pnlPct
  }

  function SumCommissions(trades: seq<SimTrade>): real {
    if trades == [] then 0.0 else SumCommissions(trades[..|trades| - 1]) + trades[|trades| - 1].commissionUsd
  }

  function Abs(x: real): real { if x >= 0.0 then x else -x }

  /** Realised profit after the first `k` trades, from zero. */
  function Equity(trades: seq<SimTrade>, k: nat): real
    requires k <= |trades|
  {
    SumUsd(trades[..k])
  }

  function Drop(trades: seq<SimTrade>, capital: real, i: nat, j: nat): real
    requires i <= j <= |trades| && capital != 0.0
  {
    (Equity(trades, i) - Equity(trades, j)) / capital * 100.0
  }

  /** The largest fall of equity from any earlier point, the start included, as a percentage of
      the capital. */
  ghost predicate IsMaxDrawdown(trades: seq<SimTrade>, capital: real, dd: real)
    requires capital != 0.0
  {
    && (forall i, j :: 0 <= i <= j <= |trades| ==> Drop(trades, capital, i, j) <= dd)
    && (exists i, j :: 0 <= i <= j <= |trades| && Drop(trades, capital, i, j) == dd)
  }

  lemma DropMonotone(capital: real, a: real, b: real)
    requires capital > 0.0 && a <= b
    ensures a / capital * 100.0 <= b / capital * 100.0
  {
  }

  lemma DropsBelow(trades: seq<SimTrade>, capital: real, j: nat, peak: real, dd: real)
    requires capital > 0.0 && j <= |trades|
    requires forall i :: 0 <= i <= j ==> Equity(trades, i) <= peak
    requires dd == (peak - Equity(trades, j)) / capital * 100.0
    ensures forall i: nat {:trigger Equity(trades, i)} :: i <= j ==> Drop(trades, capital, i, j) <= dd
  {
    forall i: nat {:trigger Equity(trades, i)} | i <= j ensures Drop(trades, capital, i, j) <= dd {
      DropMonotone(capital, Equity(trades, i) - Equity(trades, j), peak - Equity(trades, j));
    }
  }

  /** The one-pass loop finds the pairwise maximum. */
  method MaxDrawdown(trades: seq<SimTrade>, capital: real) returns (maxDd: real)
    ensures capital > 0.0 ==> IsMaxDrawdown(trades, capital, maxDd)
    ensures capital <= 0.0 ==> maxDd == 0.0
  {
    var running, peak := 0.0, 0.0;
    maxDd := 0.0;
    assert trades[..0] == [];
    ghost var top, from, to := 0, 0, 0;
    for n := 0 to |trades|
      invariant running == Equity(trades, n)
      invariant 0 <= top <= n && peak == Equity(trades, top)
      invariant forall i :: 0 <= i <= n ==> Equity(trades, i) <= peak
      invariant capital <= 0.0 ==> maxDd == 0.0
      invariant capital > 0.0 ==> 0 <= from <= to <= n && Drop(trades, capital, from, to) == maxDd
      invariant capital > 0.0 ==> forall i, j :: 0 <= i <= j <= n ==> Drop(trades, capital, i, j) <= maxDd
    {
      running := running + trades[n].pnlUsd;
      assert trades[..n + 1][..n] == trades[..n];
      if running > peak {
        peak, top := running, n + 1;
      }
      var dd := if capital > 0.0 then (peak - running) / capital * 100.0 else 0.0;
      if capital > 0.0 {
        assert dd == Drop(trades, capital, top, n + 1);
        DropsBelow(trades, capital, n + 1, peak, dd);
      }
      if dd > maxDd {
        maxDd, from, to := dd, top, n + 1;
      }
    }
  }

  function Percent(a: real, b: real): real
    requires b != 0.0
  {
    a / b * 100.0
  }

  function ProfitFactorOf(grossWins: real, grossLosses: real): ProfitFactor {
    if grossLosses > 0.0 then Finite(Round2(grossWins / grossLosses)) else Infinite
  }

  function Average(trades: seq<SimTrade>): real {
    if trades == [] then 0.0 else SumPct(trades) / |trades| as real * 100.0
  }

  /** `calculate_metrics`. */
  method CalculateMetrics(trades: seq<SimTrade>, capital: real) returns (r: Report)
    requires trades != [] ==> capital != 0.0
    ensures r.totalTrades == |trades| && r.wins == |Wins(trades)| && r.losses == |Losses(trades)|
    ensures r.wins + r.losses == r.totalTrades
    ensures r.totalPnlUsd == Round2(SumUsd(trades))
    ensures trades == [] ==> r == Report(0, 0, 0, 0.0, 0.0, 0.0, Finite(0.0), 0.0, 0.0, 0.0, None)
    ensures trades != [] ==>
      && r.totalPnlPct == Round2(Percent(SumUsd(trades), capital))
      && r.winRate == Round2(Percent(r.wins as real, r.totalTrades as real))
      && r.profitFactor == ProfitFactorOf(SumUsd(Wins(trades)), -SumUsd(Losses(trades)))
      && r.totalCommissionsUsd == Some(Round2(SumCommissions(trades)))
      && r.avgWinPct == Round2(Average(Wins(trades))) && r.avgLossPct == Round2(Average(Losses(trades)))
    ensures capital > 0.0 ==> exists dd :: IsMaxDrawdown(trades, capital, dd) && r.maxDrawdownPct == Round2(dd)
    ensures capital <= 0.0 ==> r.maxDrawdownPct == 0.0
  {
    WinsAndLossesPartition(trades);
    Round2Laws(0.0, 0.0);
    if trades == [] {
      if capital > 0.0 {
        NoTradesNoDrawdown(capital);
      }
      return Report(0, 0, 0, 0.0, 0.0, 0.0, Finite(0.0), 0.0, 0.0, 0.0, None);
    }
    var wins, losses := Wins(trades), Losses(trades);
    var totalPnl, grossWins, grossLosses := SumUsd(trades), SumUsd(wins), Abs(SumUsd(losses));
    var maxDd := MaxDrawdown(trades, capital);
    r := Report(|trades|, |wins|, |losses|,
                Round2(Percent(|wins| as real, |trades| as real)),
                Round2(totalPnl), Round2(Percent(totalPnl, capital)),
                ProfitFactorOf(grossWins, grossLosses),
                Round2(maxDd), Round2(Average(wins)), Round2(Average(losses)), Some(Round2(SumCommissions(trades))));
  }

  /** What makes the three sums sums: they are additive, and of one trade its own figure. */
  lemma {:induction false} SumsAddUp(a: seq<SimTrade>, b: seq<SimTrade>, t: SimTrade)
    ensures SumUsd(a + b) == SumUsd(a) + SumUsd(b) && SumUsd([t]) == t.pnlUsd
    ensures SumPct(a + b) == SumPct(a) + SumPct(b) && SumPct([t]) == t.pnlPct
    ensures SumCommissions(a + b) == SumCommissions(a) + SumCommissions(b) && SumCommissions([t]) == t.commissionUsd
  {
    if b == [] {
      assert a + b == a;
    } else {
      var n := |b| - 1;
      SumsAddUp(a, b[..n], t);
      assert (a + b)[..|a + b| - 1] == a + b[..n];
    }
    assert [t][..0] == [];
  }

  /** What the figures of the report mean: a ratio times its base is the amount in percent, an
      average times its number of trades the sum in percent, and the profit factor the wins per
      dollar lost, without bound when nothing was lost. */
  lemma FiguresMean(trades: seq<SimTrade>, capital: real, amount: real, wins: real, losses: real)
    returns (factor: real)
    requires capital != 0.0
    ensures Percent(amount, capital) * capital == 100.0 * amount
    ensures Average(trades) * |trades| as real == 100.0 * SumPct(trades)
    ensures losses > 0.0 ==> ProfitFactorOf(wins, losses) == Finite(Round2(factor)) && factor * losses == wins
    ensures losses <= 0.0 ==> ProfitFactorOf(wins, losses) == Infinite
  {
    assert amount / capital * capital == amount;
    if trades != [] {
      var n, sum := |trades| as real, SumPct(trades);
      assert sum / n * n == sum;
    }
    factor := if losses > 0.0 then wins / losses else 0.0;
  }

  /** And a drawdown: the money lost from one point to the other, in percent of the capital. */
  lemma DropMeans(trades: seq<SimTrade>, capital: real, i: nat, j: nat)
    requires i <= j <= |trades| && capital != 0.0
    ensures Drop(trades, capital, i, j) * capital == 100.0 * (SumUsd(trades[..i]) - SumUsd(trades[..j]))
  {
    var fall := Equity(trades, i) - Equity(trades, j);
    assert fall / capital * capital == fall;
  }

  lemma NoTradesNoDrawdown(capital: real)
    requires capital != 0.0
    ensures IsMaxDrawdown([], capital, 0.0)
  {
    assert Drop([], capital, 0, 0) == 0.0;
  }

  lemma {:induction false} WinsAndLossesPartition(trades: seq<SimTrade>)
    ensures |Wins(trades)| + |Losses(trades)| == |trades|
    ensures SumUsd(trades) == SumUsd(Wins(trades)) + SumUsd(Losses(trades))
    ensures SumUsd(Wins(trades)) >= 0.0 >= SumUsd(Losses(trades))
  {
    if trades != [] {
      var n := |trades| - 1;
      WinsAndLossesPartition(trades[..n]);
      var w, l := Wins(trades[..n]), Losses(trades[..n]);
      assert (w + [trades[n]])[..|w|] == w && (l + [trades[n]])[..|l|] == l;
      assert w + [] == w && l + [] == l;
    }
  }

  /** No trade is lost or counted twice. */
  lemma {:induction false} WinsAndLossesAreAllTrades(trades: seq<SimTrade>)
    ensures multiset(Wins(trades)) + multiset(Losses(trades)) == multiset(trades)
  {
    if trades != [] {
      var n := |trades| - 1;
      WinsAndLossesAreAllTrades(trades[..n]);
      assert trades == trades[..n] + [trades[n]];
    }
  }

  ghost predicate Booked(trades: seq<SimTrade>) {
    forall i :: 0 <= i < |trades| ==> OnCents(trades[i].pnlUsd)
  }

  lemma CentsAdd(a: real, b: real)
    requires OnCents(a) && OnCents(b)
    ensures OnCents(a + b)
  {
    var m, n := (a * 100.0).Floor, (b * 100.0).Floor;
    assert (a + b) * 100.0 == (m + n) as real;
  }

  lemma {:induction false} SumOnCents(trades: seq<SimTrade>)
    requires Booked(trades)
    ensures OnCents(SumUsd(trades))
  {
    if trades != [] {
      var n := |trades| - 1;
      SumOnCents(trades[..n]);
      CentsAdd(SumUsd(trades[..n]), trades[n].pnlUsd);
    }
  }

  lemma {:induction false} SimulatedTradesAreBooked(p: Params, f: Indicator, bars: seq<Bar>, k: nat)
    requires p.slPct > 0.0 && GoodBars(bars) && k <= |bars|
    ensures Booked(Walk(p, f, bars, k).trades)
  {
    if k > 0 {
      SimulatedTradesAreBooked(p, f, bars, k - 1);
      var sim := Walk(p, f, bars, k - 1);
      if sim.pos.In? {
        var exit := ExitAt(p, sim.pos, bars[k - 1].close, k == |bars|);
        if exit.Some? {
          Round2Laws(NetPnl(p, sim.pos, exit.value.1), 0.0);
        }
      }
    }
  }

  /** The books of a whole backtest balance to the cent: the reported total is the unrounded sum
      of the reported trades, which is gross wins less gross losses, and the stop-loss trades
      are all among the losses. */
  lemma BacktestBalances(p: Params, f: Indicator, bars: seq<Bar>)
    requires p.slPct > 0.0 && p.slippage >= 0.0 && GoodBars(bars)
    ensures var trades := Simulated(p, f, bars);
      && Round2(SumUsd(trades)) == SumUsd(trades) == SumUsd(Wins(trades)) - Abs(SumUsd(Losses(trades)))
      && forall i :: 0 <= i < |trades| && trades[i].reason.StopLoss? ==> trades[i] in Losses(trades)
  {
    var trades := Simulated(p, f, bars);
    SimulatedTradesAreBooked(p, f, bars, |bars|);
    SumOnCents(trades);
    Round2Laws(SumUsd(trades), 0.0);
    WinsAndLossesPartition(trades);
    StopLossTradesLose(p, f, bars, |bars|);
    LossesAreListed(trades);
  }

  lemma {:induction false} LossesAreListed(trades: seq<SimTrade>)
    ensures forall i :: 0 <= i < |trades| && trades[i].pnlUsd <= 0.0 ==> trades[i] in Losses(trades)
  {
    if trades != [] {
      LossesAreListed(trades[..|trades| - 1]);
    }
  }
}
