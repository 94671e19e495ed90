/** The backtest engine: signals over bars, the entry and exit state machine, and its metrics. */
module Backtest {
  import opened Wrappers
  import opened Rounding

  const MAX_RISK_PCT := 0.02
  const MIN_RISK_USD := 1.0
  const MAX_POSITION_USD := 500.0
  const WARMUP_BARS := 14

  datatype Bar = Bar(close: real, volume: real)

  datatype Signal = Strong | Medium | Weak

  datatype ExitReason = StopLoss | TakeProfit | EndOfData

  datatype Params = Params(slPct: real, tpPct: real, capital: real, commission: real, slippage: real)

  datatype SimTrade = SimTrade(
    entryPrice: real, exitPrice: real, entryIdx: nat, exitIdx: nat,
    pnlPct: real, pnlUsd: real, grossPnlUsd: real, commissionUsd: real,
    reason: ExitReason, units: real)

  datatype Position = Flat | In(entryPrice: real, units: real, entryIdx: nat, stop: real, take: real)

  datatype Sim = Sim(pos: Position, trades: seq<SimTrade>)

  /** The indicators and their classification, seen as one function of the bars so far; `None`
      when no indicators could be computed. */
  type Indicator = seq<Bar> -> Option<Signal>

  function Max(a: real, b: real): real { if a >= b then a else b }

  function Min(a: real, b: real): real { if a <= b then a else b }

  ghost predicate GoodBars(bars: seq<Bar>) {
    forall i :: 0 <= i < |bars| ==> bars[i].close > 0.0
  }

  // ---- Signals ----

  function SignalAt(f: Indicator, bars: seq<Bar>, i: nat): Signal
    requires i < |bars|
  {
    if i < WARMUP_BARS then Weak
    else match f(bars[..i + 1])
      case Some(signal) => signal
      case None => Weak
  }

  method ApplySignals(f: Indicator, bars: seq<Bar>) returns (signals: seq<Signal>)
    ensures |signals| == |bars|
    ensures forall i :: 0 <= i < |bars| ==> signals[i] == SignalAt(f, bars, i)
    ensures forall i :: 0 <= i < |bars| && i < 14 ==> signals[i] == Weak
    ensures forall i :: 14 <= i < |bars| && f(bars[..i + 1]).Some? ==> Some(signals[i]) == f(bars[..i + 1])
    ensures forall i :: 14 <= i < |bars| && f(bars[..i + 1]).None? ==> signals[i] == Weak
  {
    signals := [];
    for i := 0 to |bars|
      invariant |signals| == i
      invariant forall k :: 0 <= k < i ==> signals[k] == SignalAt(f, bars, k)
    {
      if i < WARMUP_BARS {
        signals := signals + [Weak];
      } else {
        var indicators := f(bars[..i + 1]);
        match indicators
        case Some(signal) => signals := signals + [signal];
        case None => signals := signals + [Weak];
      }
    }
  }

  // ---- One bar ----

  function PositionUsd(p: Params): real
    requires p.slPct > 0.0
  {
    Min(Max(p.capital * MAX_RISK_PCT, MIN_RISK_USD) / p.slPct, MAX_POSITION_USD)
  }

  function Shift(price: real, pct: real): real { price * (1.0 + pct) }

  predicate TooSmall(units: real, price: real) { units * price < 1.0 }

  function Enter(p: Params, i: nat, price: real): Position
    requires p.slPct > 0.0 && price > 0.0
  {
    var units := PositionUsd(p) / price;
    if TooSmall(units, price) then Flat
    else In(Shift(price, p.slippage), units, i, Round4(Shift(price, -p.slPct)), Round4(Shift(price, p.tpPct)))
  }

  /** The exit rule on a bar; `last` is whether it is the final bar of the run. */
  function ExitAt(p: Params, pos: Position, price: real, last: bool): Option<(ExitReason, real)>
    requires pos.In?
  {
    if price <= pos.stop then Some((StopLoss, Shift(price, -p.slippage * 1.5)))
    else if price >= pos.take then Some((TakeProfit, Shift(price, -p.slippage)))
    else if last then Some((EndOfData, Shift(price, -p.slippage)))
    else None
  }

  function Commission(p: Params, units: real): real {
    2.0 * Max(p.commission, 0.005 * units)
  }

  function GrossPnl(pos: Position, exitPrice: real): real
    requires pos.In?
  {
    (exitPrice - pos.entryPrice) * pos.units
  }

  function NetPnl(p: Params, pos: Position, exitPrice: real): real
    requires pos.In?
  {
    GrossPnl(pos, exitPrice) - Commission(p, pos.units)
  }

  /** The figures of a trade before rounding; `share` is the net profit over the money put in. */
  datatype Figures = Figures(
    entry: real, exit: real, units: real, gross: real, commission: real, net: real, share: real)

  function FiguresOf(p: Params, pos: Position, exitPrice: real): Figures
    requires pos.In?
  {
    var net, value := NetPnl(p, pos, exitPrice), pos.entryPrice * pos.units;
    Figures(pos.entryPrice, exitPrice, pos.units, GrossPnl(pos, exitPrice), Commission(p, pos.units), net,
            if value > 0.0 then net / value else 0.0)
  }

  function Record(p: Params, pos: Position, i: nat, reason: ExitReason, exitPrice: real): SimTrade
    requires pos.In?
  {
    var x := FiguresOf(p, pos, exitPrice);
    SimTrade(Round4(x.entry), Round4(x.exit), pos.entryIdx, i,
             Round4(x.share), Round2(x.net), Round2(x.gross), Round2(x.commission), reason, Round4(x.units))
  }

  function Step(p: Params, sim: Sim, i: nat, price: real, signal: Signal, last: bool): Sim
    requires p.slPct > 0.0 && price > 0.0
  {
    match sim.pos
    case Flat => if signal.Weak? then sim else sim.(pos := Enter(p, i, price))
    case In(_, _, _, _, _) =>
      match ExitAt(p, sim.pos, price, last)
      case Some((reason, exitPrice)) => Sim(Flat, sim.trades + [Record(p, sim.pos, i, reason, exitPrice)])
      case None => sim
  }

  /** The simulation after the first `k` bars of a run over all of `bars`. */
  function Walk(p: Params, f: Indicator, bars: seq<Bar>, k: nat): Sim
    requires p.slPct > 0.0 && GoodBars(bars) && k <= |bars|
  {
    if k == 0 then Sim(Flat, [])
    else Step(p, Walk(p, f, bars, k - 1), k - 1, bars[k - 1].close, SignalAt(f, bars, k - 1), k == |bars|)
  }

  function Simulated(p: Params, f: Indicator, bars: seq<Bar>): seq<SimTrade>
    requires p.slPct > 0.0 && GoodBars(bars)
  {
    Walk(p, f, bars, |bars|).trades
  }

  /** `simulate_trades`: the loop over the rows with the entry state in local variables. */
  method SimulateTrades(p: Params, ghost f: Indicator, bars: seq<Bar>, signals: seq<Signal>)
    returns (trades: seq<SimTrade>)
    requires p.slPct > 0.0 && GoodBars(bars)
    requires |signals| == |bars| && forall i :: 0 <= i < |bars| ==> signals[i] == SignalAt(f, bars, i)
    ensures trades == Simulated(p, f, bars)
  {
    trades := [];
    var inTrade, entryPrice, units, entryIdx, stop, take := false, 0.0, 0.0, 0, 0.0, 0.0;
    for i := 0 to |bars|
      invariant Walk(p, f, bars, i)
             == Sim(if inTrade then In(entryPrice, units, entryIdx, stop, take) else Flat, trades)
    {
      var price := bars[i].close;
      if !inTrade && !signals[i].Weak? {
        var maxRisk := Max(p.capital * MAX_RISK_PCT, MIN_RISK_USD);
        var maxPosUsd := Min(maxRisk / p.slPct, MAX_POSITION_USD);
        var size := maxPosUsd / price;
        assert size == PositionUsd(p) / price;
        if TooSmall(size, price) {
          continue;
        }
        inTrade, entryPrice, units, entryIdx := true, Shift(price, p.slippage), size, i;
        stop, take := Round4(Shift(price, -p.slPct)), Round4(Shift(price, p.tpPct));
        continue;
      }
      if inTrade {
        var pos := In(entryPrice, units, entryIdx, stop, take);
        var exit := ExitAt(p, pos, price, i == |bars| - 1);
        if exit.Some? {
          trades := trades + [Record(p, pos, i, exit.value.0, exit.value.1)];
          inTrade := false;
        }
      }
    }
  }

  // ---- No look-ahead ----

  /** Bars not yet reached have no influence. */
  lemma {:induction false} WalkIgnoresTheFuture(p: Params, f: Indicator, bars: seq<Bar>, m: nat, k: nat)
    requires p.slPct > 0.0 && GoodBars(bars) && k < m <= |bars|
    ensures Walk(p, f, bars[..m], k) == Walk(p, f, bars, k)
  {
    if k > 0 {
      WalkIgnoresTheFuture(p, f, bars, m, k - 1);
      assert bars[..m][..k] == bars[..k];
    }
  }

  lemma {:induction false} TradesOnlyGrow(p: Params, f: Indicator, bars: seq<Bar>, k: nat, l: nat)
    requires p.slPct > 0.0 && GoodBars(bars) && k <= l <= |bars|
    ensures Walk(p, f, bars, k).trades <= Walk(p, f, bars, l).trades
    ensures forall i :: |Walk(p, f, bars, k).trades| <= i < |Walk(p, f, bars, l).trades| ==>
              Walk(p, f, bars, l).trades[i].exitIdx >= k
    decreases l - k
  {
    if k < l {
      TradesOnlyGrow(p, f, bars, k, l - 1);
    }
  }

  function WithoutEndOfData(trades: seq<SimTrade>): seq<SimTrade> {
    if trades != [] && trades[|trades| - 1].reason.EndOfData? then trades[..|trades| - 1] else trades
  }

  /** What is simulated on a prefix, apart from a forced exit on its last bar, is exactly what
      the whole run has closed by then: later bars never change an earlier trade. */
  lemma NoLookAhead(p: Params, f: Indicator, bars: seq<Bar>, m: nat)
    requires p.slPct > 0.0 && GoodBars(bars) && m < |bars|
    ensures var seen, all := WithoutEndOfData(Simulated(p, f, bars[..m])), Simulated(p, f, bars);
      && seen <= all
      && (forall i :: 0 <= i < |seen| ==> all[i].exitIdx < m)
      && (forall i :: |seen| <= i < |all| ==> all[i].exitIdx >= m)
  {
    if m > 0 {
      PrefixClosesTheSame(p, f, bars, m);
    }
    TradesAreChained(p, f, bars, m);
    TradesOnlyGrow(p, f, bars, m, |bars|);
  }

  lemma PrefixClosesTheSame(p: Params, f: Indicator, bars: seq<Bar>, m: nat)
    requires p.slPct > 0.0 && GoodBars(bars) && 0 < m < |bars|
    ensures WithoutEndOfData(Simulated(p, f, bars[..m])) == Walk(p, f, bars, m).trades
  {
    LastStepOfPrefix(p, f, bars, m);
    NoEarlyEndOfData(p, f, bars, m - 1);
    ForcedOrNot(p, Walk(p, f, bars, m - 1), m - 1, bars[m - 1].close, SignalAt(f, bars, m - 1),
                Simulated(p, f, bars[..m]), Walk(p, f, bars, m).trades);
  }

  lemma ForcedOrNot(p: Params, before: Sim, i: nat, price: real, signal: Signal,
                    forced: seq<SimTrade>, free: seq<SimTrade>)
    requires p.slPct > 0.0 && price > 0.0
    requires forall t :: 0 <= t < |before.trades| ==> !before.trades[t].reason.EndOfData?
    requires forced == Step(p, before, i, price, signal, true).trades
    requires free == Step(p, before, i, price, signal, false).trades
    ensures WithoutEndOfData(forced) == free
  {
    LastBarOnlyAddsEndOfData(p, before, i, price, signal);
  }

  lemma LastStepOfPrefix(p: Params, f: Indicator, bars: seq<Bar>, m: nat)
    requires p.slPct > 0.0 && GoodBars(bars) && 0 < m < |bars|
    ensures Simulated(p, f, bars[..m])
         == Step(p, Walk(p, f, bars, m - 1), m - 1, bars[m - 1].close, SignalAt(f, bars, m - 1), true).trades
    ensures Walk(p, f, bars, m).trades
         == Step(p, Walk(p, f, bars, m - 1), m - 1, bars[m - 1].close, SignalAt(f, bars, m - 1), false).trades
  {
    WalkIgnoresTheFuture(p, f, bars, m, m - 1);
    assert bars[..m][..m] == bars[..m];
    assert bars[..m][m - 1] == bars[m - 1];
  }

  /** Being the last bar only turns holding on into a forced exit. */
  lemma LastBarOnlyAddsEndOfData(p: Params, sim: Sim, i: nat, price: real, signal: Signal)
    requires p.slPct > 0.0 && price > 0.0
    requires forall t :: 0 <= t < |sim.trades| ==> !sim.trades[t].reason.EndOfData?
    ensures WithoutEndOfData(Step(p, sim, i, price, signal, true).trades)
         == Step(p, sim, i, price, signal, false).trades
  {
    if sim.pos.In? && ExitAt(p, sim.pos, price, true).Some? {
      var t := Record(p, sim.pos, i, ExitAt(p, sim.pos, price, true).value.0, ExitAt(p, sim.pos, price, true).value.1);
      assert (sim.trades + [t])[..|sim.trades|] == sim.trades;
    }
  }

  lemma {:induction false} NoEarlyEndOfData(p: Params, f: Indicator, bars: seq<Bar>, k: nat)
    requires p.slPct > 0.0 && GoodBars(bars) && k < |bars|
    ensures forall i :: 0 <= i < |Walk(p, f, bars, k).trades| ==> !Walk(p, f, bars, k).trades[i].reason.EndOfData?
  {
    if k > 0 {
      NoEarlyEndOfData(p, f, bars, k - 1);
    }
  }

  // ---- The shape of the trade list ----

  ghost predicate Chained(trades: seq<SimTrade>, k: nat) {
    && (forall i :: 0 <= i < |trades| ==> trades[i].entryIdx < trades[i].exitIdx < k)
    && (forall i, j :: 0 <= i < j < |trades| ==> trades[i].exitIdx < trades[j].entryIdx)
  }

  /** Trades never overlap: entry < exit < next entry, all within the bars walked. */
  lemma {:induction false} TradesAreChained(p: Params, f: Indicator, bars: seq<Bar>, k: nat)
    requires p.slPct > 0.0 && GoodBars(bars) && k <= |bars|
    ensures var sim := Walk(p, f, bars, k);
      && Chained(sim.trades, k)
      && (sim.pos.In? ==> sim.pos.entryIdx < k)
      && (sim.pos.In? ==> forall i :: 0 <= i < |sim.trades| ==> sim.trades[i].exitIdx < sim.pos.entryIdx)
  {
    if k > 0 {
      TradesAreChained(p, f, bars, k - 1);
    }
  }

  // ---- Stop-loss trades lose ----

  /** The position's stop is above its entry price by at most half a stop-rounding unit. */
  ghost predicate Sane(pos: Position) {
    pos.In? ==> pos.units > 0.0 && pos.stop <= pos.entryPrice + 0.00005
  }

  lemma EnterIsSane(p: Params, i: nat, price: real)
    requires p.slPct > 0.0 && p.slippage >= 0.0 && price > 0.0
    ensures Sane(Enter(p, i, price))
  {
    var usd := PositionUsd(p);
    assert usd > 0.0 by {
      assert Max(p.capital * MAX_RISK_PCT, MIN_RISK_USD) / p.slPct > 0.0;
    }
    assert usd / price > 0.0;
    ShiftDirection(price, -p.slPct);
    ShiftDirection(price, p.slippage);
    Round4Laws(Shift(price, -p.slPct), 0.0);
  }

  lemma ShiftDirection(price: real, pct: real)
    requires price > 0.0
    ensures pct <= 0.0 ==> Shift(price, pct) <= price
    ensures pct >= 0.0 ==> Shift(price, pct) >= price
  {
    assert Shift(price, pct) == price + price * pct;
    if pct <= 0.0 {
      assert price * -pct >= 0.0;
    }
  }

  lemma Scale(a: real, b: real, units: real)
    requires a <= b && units > 0.0
    ensures a * units <= b * units
  {
  }

  lemma StopExitLoses(p: Params, pos: Position, i: nat, price: real)
    requires p.slippage >= 0.0 && price > 0.0 && pos.In? && Sane(pos) && price <= pos.stop
    ensures Record(p, pos, i, StopLoss, Shift(price, -p.slippage * 1.5)).pnlUsd <= 0.0
  {
    var exit := Shift(price, -p.slippage * 1.5);
    ShiftDirection(price, -p.slippage * 1.5);
    Scale(exit - pos.entryPrice, 0.00005, pos.units);
    LossIsBooked(NetPnl(p, pos, exit));
  }

  lemma LossIsBooked(net: real)
    requires net <= 0.0
    ensures Round2(net) <= 0.0
  {
    Round2Laws(net, 0.0);
    Round2Laws(0.0, 0.0);
  }

  ghost predicate StopsLose(sim: Sim) {
    && Sane(sim.pos)
    && forall i :: 0 <= i < |sim.trades| && sim.trades[i].reason.StopLoss? ==> sim.trades[i].pnlUsd <= 0.0
  }

  lemma StepKeepsStopsLosing(p: Params, sim: Sim, i: nat, price: real, signal: Signal, last: bool)
    requires p.slPct > 0.0 && p.slippage >= 0.0 && price > 0.0 && StopsLose(sim)
    ensures StopsLose(Step(p, sim, i, price, signal, last))
  {
    match sim.pos
    case Flat => EnterIsSane(p, i, price);
    case In(_, _, _, _, _) =>
      match ExitAt(p, sim.pos, price, last)
      case None =>
      case Some((reason, exitPrice)) =>
        if reason.StopLoss? {
          StopExitLoses(p, sim.pos, i, price);
        }
        AppendKeepsStopsLosing(sim, Record(p, sim.pos, i, reason, exitPrice));
  }

  lemma AppendKeepsStopsLosing(sim: Sim, t: SimTrade)
    requires StopsLose(sim) && (t.reason.StopLoss? ==> t.pnlUsd <= 0.0)
    ensures StopsLose(Sim(Flat, sim.trades + [t]))
  {
  }

  /** Whatever the prices, sizes, commissions and non-negative slippage, a STOP_LOSS trade is
      booked at no profit: the minimum commission outweighs the worst rounding of the stop. */
  lemma {:induction false} StopLossTradesLose(p: Params, f: Indicator, bars: seq<Bar>, k: nat)
    requires p.slPct > 0.0 && p.slippage >= 0.0 && GoodBars(bars) && k <= |bars|
    ensures StopsLose(Walk(p, f, bars, k))
  {
    if k > 0 {
      StopLossTradesLose(p, f, bars, k - 1);
      StepKeepsStopsLosing(p, Walk(p, f, bars, k - 1), k - 1, bars[k - 1].close, SignalAt(f, bars, k - 1), k == |bars|);
    }
  }
}
