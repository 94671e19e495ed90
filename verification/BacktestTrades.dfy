/** What the trades of a backtest are, read off the bars: when each is entered and left, at which
    prices, and that no entry is missed. */
module BacktestTrades {
  import opened Wrappers
  import opened Rounding
  import opened Backtest

  /** The money put into a position: 2% of the capital at risk, at least a dollar, over the stop
      distance, and at most 500. */
  function Budget(p: Params): real
    requires p.slPct > 0.0
  {
    Min(Max(p.capital * 0.02, 1.0) / p.slPct, 500.0)
  }

  function Below(price: real, pct: real): real { price * (1.0 - pct) }

  function Above(price: real, pct: real): real { price * (1.0 + pct) }

  function StopLevel(p: Params, entryClose: real): real {
    Round4(Below(entryClose, p.slPct))
  }

  function TakeLevel(p: Params, entryClose: real): real {
    Round4(Above(entryClose, p.tpPct))
  }

  /** Every close after bar `i` and before bar `k` is strictly between the levels of bar `i`. */
  ghost predicate Between(p: Params, bars: seq<Bar>, i: nat, k: nat)
    requires i < |bars| && k <= |bars|
  {
    forall j :: i < j < k ==> StopLevel(p, bars[i].close) < bars[j].close < TakeLevel(p, bars[i].close)
  }

  /** Which level the close of the exit bar has reached, the stop before the target. */
  function ReasonOf(p: Params, entryClose: real, close: real): ExitReason {
    if close <= StopLevel(p, entryClose) then StopLoss
    else if close >= TakeLevel(p, entryClose) then TakeProfit
    else EndOfData
  }

  /** A position entered on a signal is held strictly between its levels, and left on the first
      bar that reaches one of them, or on the last bar. */
  ghost predicate FollowsTheRules(p: Params, f: Indicator, bars: seq<Bar>, t: SimTrade) {
    && t.entryIdx < t.exitIdx < |bars|
    && !SignalAt(f, bars, t.entryIdx).Weak?
    && Between(p, bars, t.entryIdx, t.exitIdx)
    && t.reason == ReasonOf(p, bars[t.entryIdx].close, bars[t.exitIdx].close)
    && (t.reason.EndOfData? ==> t.exitIdx == |bars| - 1)
  }

  /** The position as it was entered on bar `i`. */
  function EnteredAt(p: Params, bars: seq<Bar>, i: nat): Position
    requires p.slPct > 0.0 && GoodBars(bars) && i < |bars|
  {
    Enter(p, i, bars[i].close)
  }

  /** How a trade was recorded: the entered position and the price its reason sells at. */
  ghost predicate Recorded(p: Params, bars: seq<Bar>, t: SimTrade)
    requires p.slPct > 0.0 && GoodBars(bars)
  {
    && t.entryIdx < |bars| && t.exitIdx < |bars|
    && EnteredAt(p, bars, t.entryIdx).In?
    && t == Record(p, EnteredAt(p, bars, t.entryIdx), t.exitIdx, t.reason,
                   Shift(bars[t.exitIdx].close, if t.reason.StopLoss? then -p.slippage * 1.5 else -p.slippage))
  }

  ghost predicate Held(p: Params, f: Indicator, bars: seq<Bar>, pos: Position, k: nat)
    requires p.slPct > 0.0 && GoodBars(bars) && k <= |bars|
  {
    pos.In? ==>
      && pos.entryIdx < k
      && pos == EnteredAt(p, bars, pos.entryIdx)
      && !SignalAt(f, bars, pos.entryIdx).Weak?
      && Between(p, bars, pos.entryIdx, k)
  }

  lemma EnteredLevels(p: Params, bars: seq<Bar>, i: nat)
    requires p.slPct > 0.0 && GoodBars(bars) && i < |bars|
    ensures var pos := EnteredAt(p, bars, i);
      && (pos.In? <==> Budget(p) >= 1.0)
      && (pos.In? ==> pos.entryIdx == i
                      && pos.stop == StopLevel(p, bars[i].close) && pos.take == TakeLevel(p, bars[i].close))
  {
    var price := bars[i].close;
    Spent(PositionUsd(p), price, PositionUsd(p) / price);
    SizeTest(PositionUsd(p) / price, price, PositionUsd(p));
    LevelsAre(p, price);
  }

  lemma Spent(usd: real, price: real, units: real)
    requires price > 0.0 && units == usd / price
    ensures units * price == usd
  {
  }

  lemma SizeTest(units: real, price: real, spent: real)
    requires units * price == spent
    ensures TooSmall(units, price) <==> spent < 1.0
  {
  }

  lemma LevelsAre(p: Params, price: real)
    ensures Round4(Shift(price, -p.slPct)) == StopLevel(p, price)
    ensures Round4(Shift(price, p.tpPct)) == TakeLevel(p, price)
  {
    SameRound(Shift(price, -p.slPct), Below(price, p.slPct));
    SameRound(Shift(price, p.tpPct), Above(price, p.tpPct));
  }

  lemma SameRound(x: real, y: real)
    requires x == y
    ensures Round4(x) == Round4(y)
  {
  }

  lemma ExitFollows(p: Params, f: Indicator, bars: seq<Bar>, pos: Position, k: nat)
    requires p.slPct > 0.0 && GoodBars(bars) && k < |bars| && pos.In? && Held(p, f, bars, pos, k)
    ensures var exit := ExitAt(p, pos, bars[k].close, k + 1 == |bars|);
      if exit.None? then Held(p, f, bars, pos, k + 1)
      else
        var t := Record(p, pos, k, exit.value.0, exit.value.1);
        FollowsTheRules(p, f, bars, t) && Recorded(p, bars, t)
  {
    EnteredLevels(p, bars, pos.entryIdx);
  }

  ghost predicate AllGood(p: Params, f: Indicator, bars: seq<Bar>, trades: seq<SimTrade>)
    requires p.slPct > 0.0 && GoodBars(bars)
  {
    forall i :: 0 <= i < |trades| ==> FollowsTheRules(p, f, bars, trades[i]) && Recorded(p, bars, trades[i])
  }

  lemma StepFollows(p: Params, f: Indicator, bars: seq<Bar>, sim: Sim, k: nat)
    requires p.slPct > 0.0 && GoodBars(bars) && k < |bars|
    requires Held(p, f, bars, sim.pos, k) && AllGood(p, f, bars, sim.trades)
    ensures var next := Step(p, sim, k, bars[k].close, SignalAt(f, bars, k), k + 1 == |bars|);
      Held(p, f, bars, next.pos, k + 1) && AllGood(p, f, bars, next.trades)
  {
    if sim.pos.In? {
      ExitFollows(p, f, bars, sim.pos, k);
    } else {
      EnteredLevels(p, bars, k);
    }
  }

  lemma {:induction false} WalkFollows(p: Params, f: Indicator, bars: seq<Bar>, k: nat)
    requires p.slPct > 0.0 && GoodBars(bars) && k <= |bars|
    ensures Held(p, f, bars, Walk(p, f, bars, k).pos, k) && AllGood(p, f, bars, Walk(p, f, bars, k).trades)
  {
    if k > 0 {
      WalkFollows(p, f, bars, k - 1);
      StepFollows(p, f, bars, Walk(p, f, bars, k - 1), k - 1);
    }
  }

  /** While a position is held no close has reached one of its levels. */
  lemma HeldInsideItsLevels(p: Params, f: Indicator, bars: seq<Bar>, k: nat)
    requires p.slPct > 0.0 && GoodBars(bars) && k <= |bars| && Walk(p, f, bars, k).pos.In?
    ensures var pos := Walk(p, f, bars, k).pos;
      && pos.entryIdx < k
      && pos.stop == StopLevel(p, bars[pos.entryIdx].close) && pos.take == TakeLevel(p, bars[pos.entryIdx].close)
      && Between(p, bars, pos.entryIdx, k)
  {
    WalkFollows(p, f, bars, k);
    EnteredLevels(p, bars, Walk(p, f, bars, k).pos.entryIdx);
  }

  /** Every trade of a backtest follows the rules. */
  lemma TradesFollowTheRules(p: Params, f: Indicator, bars: seq<Bar>, i: nat)
    requires p.slPct > 0.0 && GoodBars(bars) && i < |Simulated(p, f, bars)|
    ensures FollowsTheRules(p, f, bars, Simulated(p, f, bars)[i])
  {
    WalkFollows(p, f, bars, |bars|);
  }

  /** The figures of a trade before rounding, from the prices after slippage and the size. */
  ghost predicate AddUp(p: Params, x: Figures) {
    && x.gross == (x.exit - x.entry) * x.units
    && x.commission == 2.0 * Max(p.commission, 0.005 * x.units)
    && x.net == x.gross - x.commission
    && x.share == if x.entry * x.units > 0.0 then x.net / (x.entry * x.units) else 0.0
  }

  ghost predicate Booked(t: SimTrade, x: Figures) {
    && t.entryPrice == Round4(x.entry) && t.exitPrice == Round4(x.exit) && t.units == Round4(x.units)
    && t.grossPnlUsd == Round2(x.gross) && t.commissionUsd == Round2(x.commission)
    && t.pnlUsd == Round2(x.net) && t.pnlPct == Round4(x.share)
  }

  lemma EnteredFigures(p: Params, bars: seq<Bar>, i: nat)
    requires p.slPct > 0.0 && GoodBars(bars) && i < |bars| && EnteredAt(p, bars, i).In?
    ensures EnteredAt(p, bars, i).entryPrice == bars[i].close * (1.0 + p.slippage)
    ensures EnteredAt(p, bars, i).units == Budget(p) / bars[i].close
  {
  }

  /** Its prices are the closes after slippage, half as much again on a stop, and its size the
      budget at the entry close. */
  ghost predicate PricedFrom(p: Params, bars: seq<Bar>, t: SimTrade, x: Figures)
    requires p.slPct > 0.0 && GoodBars(bars)
  {
    && t.entryIdx < |bars| && t.exitIdx < |bars|
    && x.entry == Above(bars[t.entryIdx].close, p.slippage)
    && x.exit == Below(bars[t.exitIdx].close, if t.reason.StopLoss? then 1.5 * p.slippage else p.slippage)
    && x.units == Budget(p) / bars[t.entryIdx].close
  }

  /** Every trade books what its closes, slippage and commission make of the budget. */
  lemma TradesAreBooked(p: Params, f: Indicator, bars: seq<Bar>, i: nat) returns (x: Figures)
    requires p.slPct > 0.0 && GoodBars(bars) && i < |Simulated(p, f, bars)|
    ensures PricedFrom(p, bars, Simulated(p, f, bars)[i], x)
    ensures AddUp(p, x) && Booked(Simulated(p, f, bars)[i], x)
  {
    WalkFollows(p, f, bars, |bars|);
    x := RecordFigures(p, bars, Simulated(p, f, bars)[i]);
  }

  lemma RecordFigures(p: Params, bars: seq<Bar>, t: SimTrade) returns (x: Figures)
    requires p.slPct > 0.0 && GoodBars(bars) && Recorded(p, bars, t)
    ensures PricedFrom(p, bars, t, x) && AddUp(p, x) && Booked(t, x)
  {
    var pos, close := EnteredAt(p, bars, t.entryIdx), bars[t.exitIdx].close;
    var pct := if t.reason.StopLoss? then -p.slippage * 1.5 else -p.slippage;
    x := FiguresOf(p, pos, Shift(close, pct));
    FiguresAddUp(p, pos, Shift(close, pct));
    RecordBooks(p, pos, t.exitIdx, t.reason, Shift(close, pct));
    RecordIsPriced(p, bars, t, pct, x);
  }

  lemma FiguresAddUp(p: Params, pos: Position, exit: real)
    requires pos.In?
    ensures AddUp(p, FiguresOf(p, pos, exit))
  {
  }

  lemma RecordBooks(p: Params, pos: Position, i: nat, reason: ExitReason, exit: real)
    requires pos.In?
    ensures Booked(Record(p, pos, i, reason, exit), FiguresOf(p, pos, exit))
  {
  }

  lemma RecordIsPriced(p: Params, bars: seq<Bar>, t: SimTrade, pct: real, x: Figures)
    requires p.slPct > 0.0 && GoodBars(bars) && t.entryIdx < |bars| && t.exitIdx < |bars|
    requires pct == if t.reason.StopLoss? then -p.slippage * 1.5 else -p.slippage
    requires EnteredAt(p, bars, t.entryIdx).In? && x.exit == Shift(bars[t.exitIdx].close, pct)
    requires x.entry == EnteredAt(p, bars, t.entryIdx).entryPrice && x.units == EnteredAt(p, bars, t.entryIdx).units
    ensures PricedFrom(p, bars, t, x)
  {
    EnteredFigures(p, bars, t.entryIdx);
    ShiftIs(bars[t.exitIdx].close, pct, if t.reason.StopLoss? then 1.5 * p.slippage else p.slippage);
  }

  lemma ShiftIs(price: real, pct: real, loss: real)
    requires pct == -loss
    ensures Shift(price, pct) == price * (1.0 - loss)
  {
  }

  // ---- No entry is missed ----

  ghost predicate Covers(trades: seq<SimTrade>, pos: Position, k: nat) {
    || (exists i :: 0 <= i < |trades| && trades[i].entryIdx <= k <= trades[i].exitIdx)
    || (pos.In? && pos.entryIdx <= k)
  }

  lemma StepCovers(p: Params, sim: Sim, i: nat, price: real, signal: Signal, last: bool, k: nat)
    requires p.slPct > 0.0 && price > 0.0 && k <= i
    requires (sim.pos.In? ==> sim.pos.entryIdx < i) && (k < i ==> Covers(sim.trades, sim.pos, k))
    requires k == i ==> !signal.Weak? && Enter(p, i, price).In?
    ensures var next := Step(p, sim, i, price, signal, last);
      Covers(next.trades, next.pos, k)
  {
    var next := Step(p, sim, i, price, signal, last);
    if next.trades != sim.trades {
      var n := |sim.trades|;
      assert next.trades[n].exitIdx == i && next.trades[n].entryIdx == sim.pos.entryIdx;
      if j :| 0 <= j < n && sim.trades[j].entryIdx <= k <= sim.trades[j].exitIdx {
        assert next.trades[j] == sim.trades[j];
      }
    }
  }

  /** With a budget of a dollar or more, every signal that is not WEAK falls into a trade, or into
      the position still open after the bars walked; with less there are no trades at all. */
  lemma {:induction false} NoEntryIsMissed(p: Params, f: Indicator, bars: seq<Bar>, n: nat, k: nat)
    requires p.slPct > 0.0 && GoodBars(bars) && k < n <= |bars| && !SignalAt(f, bars, k).Weak?
    ensures if Budget(p) >= 1.0 then Covers(Walk(p, f, bars, n).trades, Walk(p, f, bars, n).pos, k)
            else Walk(p, f, bars, n) == Sim(Flat, [])
  {
    if Budget(p) >= 1.0 {
      if k < n - 1 {
        NoEntryIsMissed(p, f, bars, n - 1, k);
      }
      TradesAreChained(p, f, bars, n - 1);
      EnteredLevels(p, bars, n - 1);
      StepCovers(p, Walk(p, f, bars, n - 1), n - 1, bars[n - 1].close, SignalAt(f, bars, n - 1), n == |bars|, k);
    } else {
      NothingEntered(p, f, bars, n);
    }
  }

  lemma {:induction false} NothingEntered(p: Params, f: Indicator, bars: seq<Bar>, n: nat)
    requires p.slPct > 0.0 && GoodBars(bars) && n <= |bars| && Budget(p) < 1.0
    ensures Walk(p, f, bars, n) == Sim(Flat, [])
  {
    if n > 0 {
      NothingEntered(p, f, bars, n - 1);
      EnteredLevels(p, bars, n - 1);
    }
  }

  /** On the last bar a position can only just have been entered. */
  lemma OpenAtTheEndIsNew(p: Params, f: Indicator, bars: seq<Bar>)
    requires p.slPct > 0.0 && GoodBars(bars) && Walk(p, f, bars, |bars|).pos.In?
    ensures Walk(p, f, bars, |bars|).pos.entryIdx == |bars| - 1
  {
    var n := |bars| - 1;
    TradesAreChained(p, f, bars, |bars|);
  }
}
