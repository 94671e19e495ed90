/** Whole lives of a position: what any sequence of ticks does to its stop and its quantity. */
module PositionRuns {
  import opened Wrappers
  import opened Rounding
  import opened Trades
  import opened TrailingStop
  import opened PartialExit
  import opened PositionManager
  import Reconciler

  ghost predicate SameTerms(a: TradeRow, b: TradeRow) {
    && a.id == b.id && a.symbol == b.symbol && a.action == b.action && a.quantity == b.quantity
    && a.entry == b.entry && a.slPct == b.slPct && a.takeProfit == b.takeProfit && a.strength == b.strength
  }

  lemma StepKeepsTerms(v: Variant, row: TradeRow, t: Tick)
    requires row.entry != 0.0
    ensures SameTerms(StepRow(v, row, t), row)
  {
  }

  function RunRow(v: Variant, row: TradeRow, ticks: seq<Tick>): (r: TradeRow)
    requires row.entry != 0.0
    ensures SameTerms(r, row)
  {
    if ticks == [] then row
    else
      var n := |ticks| - 1;
      var before := RunRow(v, row, ticks[..n]);
      StepKeepsTerms(v, before, ticks[n]);
      StepRow(v, before, ticks[n])
  }

  function Quantities(orders: seq<Order>): seq<real> {
    seq(|orders|, i requires 0 <= i < |orders| => orders[i].quantity)
  }

  /** The quantities of the orders a run lets through, in order. */
  function RunQuantities(v: Variant, row: TradeRow, ticks: seq<Tick>): seq<real>
    requires row.entry != 0.0
  {
    if ticks == [] then []
    else
      var n := |ticks| - 1;
      RunQuantities(v, row, ticks[..n]) + Quantities(StepOrders(v, RunRow(v, row, ticks[..n]), ticks[n]))
  }

  function Sum(xs: seq<real>): real {
    if xs == [] then 0.0 else Sum(xs[..|xs| - 1]) + xs[|xs| - 1]
  }

  lemma {:induction false} SumAppend(xs: seq<real>, ys: seq<real>)
    ensures Sum(xs + ys) == Sum(xs) + Sum(ys)
    decreases |ys|
  {
    if ys == [] {
      assert xs + ys == xs;
    } else {
      var n := |ys| - 1;
      assert (xs + ys)[..|xs + ys| - 1] == xs + ys[..n];
      SumAppend(xs, ys[..n]);
    }
  }

  // ---------------------------------------------------------------------------------------
  // Quantity
  // ---------------------------------------------------------------------------------------

  /** The tick executes a PARTIAL_FULL exit through the branch that leaves the row OPEN. */
  predicate ExitsEverythingButStaysOpen(v: Variant, row: TradeRow, t: Tick)
    requires row.entry != 0.0
  {
    && row.status.Open? && t.price.Some?
    && PartialGoesThrough(row, t.price.value, t)
    && CheckExit(row, t.price.value).closeAll
    && !v.fullExitCloses
  }

  /** The shares such exits leave on the books although they have been sold. */
  function PhantomQuantity(v: Variant, row: TradeRow, ticks: seq<Tick>): real
    requires row.entry != 0.0
  {
    if ticks == [] then 0.0
    else
      var n := |ticks| - 1;
      PhantomQuantity(v, row, ticks[..n])
      + if ExitsEverythingButStaysOpen(v, RunRow(v, row, ticks[..n]), ticks[n]) then row.quantity else 0.0
  }

  ghost predicate NoPhantoms(v: Variant, row: TradeRow, ticks: seq<Tick>)
    requires row.entry != 0.0
  {
    forall i :: 0 <= i < |ticks| ==> !ExitsEverythingButStaysOpen(v, RunRow(v, row, ticks[..i]), ticks[i])
  }

  function OrderSum(orders: seq<Order>): real {
    Sum(Quantities(orders))
  }

  lemma OrderSumAppend(a: seq<Order>, b: seq<Order>)
    ensures OrderSum(a + b) == OrderSum(a) + OrderSum(b)
  {
    assert Quantities(a + b) == Quantities(a) + Quantities(b);
    SumAppend(Quantities(a), Quantities(b));
  }

  lemma OrderSumOne(o: Order)
    ensures OrderSum([o]) == o.quantity && OrderSum([]) == 0.0
  {
    var one := [o.quantity];
    assert Quantities([o]) == one && Quantities([]) == [];
    assert one[..0] == [] && Sum(one) == Sum(one[..0]) + one[0];
  }

  lemma PartialConserves(v: Variant, row: TradeRow, price: real, t: Tick)
    requires row.entry != 0.0 && row.status.Open? && t.price == Some(price)
    ensures OrderSum(PartialOrders(row, price, t)) + Held(PartialEffect(v, row, price, t))
         == Held(row) + if ExitsEverythingButStaysOpen(v, row, t) then row.quantity else 0.0
  {
    OrderSumOne(Order(row.id, CheckExit(row, price).exitQuantity));
    if CheckExit(row, price).shouldExit && !CheckExit(row, price).closeAll {
      HalfExitSplit(row, price);
    }
  }

  lemma ExitConserves(row: TradeRow, price: real, t: Tick)
    requires row.entry != 0.0 && row.status.Open?
    ensures OrderSum(ExitOrders(row, price, t)) + Held(ExitEffect(row, price, t)) == Held(row)
  {
    OrderSumOne(Order(row.id, QtyOf(row)));
  }

  lemma StopKeepsHeld(row: TradeRow, price: real)
    requires row.entry != 0.0
    ensures Held(StopEffect(row, price)) == Held(row)
    ensures StopEffect(row, price).entry == row.entry && StopEffect(row, price).status == row.status
  {
  }

  lemma StepConserves(v: Variant, row: TradeRow, t: Tick)
    requires row.entry != 0.0
    ensures OrderSum(StepOrders(v, row, t)) + Held(StepRow(v, row, t))
         == Held(row) + if ExitsEverythingButStaysOpen(v, row, t) then row.quantity else 0.0
  {
    OrderSumOne(Order(0, 0.0));
    if row.status.Open? && t.price.Some? {
      var price := t.price.value;
      PartialConserves(v, row, price, t);
      if CheckExit(row, price).closeAll {
        assert PartialOrders(row, price, t) + [] == PartialOrders(row, price, t);
      } else {
        var mid := PartialEffect(v, row, price, t);
        StopKeepsHeld(mid, price);
        ExitConserves(StopEffect(mid, price), price, t);
        OrderSumAppend(PartialOrders(row, price, t), ExitOrders(StopEffect(mid, price), price, t));
      }
    }
  }

  /** Sold plus held is what was opened, plus one whole position for every exit of everything
      that left its row OPEN. */
  lemma {:induction false} QuantityLedger(v: Variant, row: TradeRow, ticks: seq<Tick>)
    requires row.entry != 0.0
    ensures Sum(RunQuantities(v, row, ticks)) + Held(RunRow(v, row, ticks))
         == Held(row) + PhantomQuantity(v, row, ticks)
  {
    if ticks != [] {
      var n := |ticks| - 1;
      QuantityLedger(v, row, ticks[..n]);
      var before := RunRow(v, row, ticks[..n]);
      StepConserves(v, before, ticks[n]);
      SumAppend(RunQuantities(v, row, ticks[..n]), Quantities(StepOrders(v, before, ticks[n])));
    }
  }

  lemma NoPhantomsNext(v: Variant, row: TradeRow, ticks: seq<Tick>)
    requires row.entry != 0.0 && ticks != []
    ensures var n := |ticks| - 1;
      var last := ExitsEverythingButStaysOpen(v, RunRow(v, row, ticks[..n]), ticks[n]);
      NoPhantoms(v, row, ticks) <==> (NoPhantoms(v, row, ticks[..n]) && !last)
  {
    var n := |ticks| - 1;
    assert forall i :: 0 <= i < n ==> ticks[..n][..i] == ticks[..i] && ticks[..n][i] == ticks[i];
  }

  lemma {:induction false} PhantomsCount(v: Variant, row: TradeRow, ticks: seq<Tick>)
    requires row.entry != 0.0 && row.quantity > 0.0
    ensures PhantomQuantity(v, row, ticks) >= 0.0
    ensures PhantomQuantity(v, row, ticks) == 0.0 <==> NoPhantoms(v, row, ticks)
  {
    if ticks != [] {
      PhantomsCount(v, row, ticks[..|ticks| - 1]);
      NoPhantomsNext(v, row, ticks);
    }
  }

  /** Quantity is conserved on exactly the runs without an exit of everything that leaves its
      row OPEN. The intended variant has no such exits. */
  lemma {:induction false} QuantityConservedIff(v: Variant, row: TradeRow, ticks: seq<Tick>)
    requires row.entry != 0.0 && row.quantity > 0.0
    ensures NoPhantoms(v, row, ticks) <==>
            Sum(RunQuantities(v, row, ticks)) + Held(RunRow(v, row, ticks)) == Held(row)
    ensures v.fullExitCloses ==> NoPhantoms(v, row, ticks)
  {
    QuantityLedger(v, row, ticks);
    PhantomsCount(v, row, ticks);
  }

  function Repeated(x: real, n: nat): (xs: seq<real>)
    ensures |xs| == n && forall i :: 0 <= i < n ==> xs[i] == x
  {
    if n == 0 then [] else Repeated(x, n - 1) + [x]
  }

  lemma {:induction false} StaysSmall(row: TradeRow, ticks: seq<Tick>)
    requires SmallPosition(row, row) && AllWinning(row, ticks)
    ensures SmallPosition(row, RunRow(AS_WRITTEN, row, ticks))
  {
    if ticks != [] {
      var n := |ticks| - 1;
      WinningPrefix(row, ticks);
      StaysSmall(row, ticks[..n]);
      AsWrittenFullTick(row, RunRow(AS_WRITTEN, row, ticks[..n]), ticks[n]);
    }
  }

  /** As written, a position under two shares is sold again on every tick at or beyond the
      trigger whose order goes through, and stays OPEN throughout: n such ticks sell it n times. */
  lemma {:induction false} AsWrittenSellsRepeatedly(row: TradeRow, ticks: seq<Tick>)
    requires SmallPosition(row, row) && AllWinning(row, ticks)
    ensures RunQuantities(AS_WRITTEN, row, ticks) == Repeated(row.quantity, |ticks|)
    ensures SmallPosition(row, RunRow(AS_WRITTEN, row, ticks))
  {
    StaysSmall(row, ticks);
    if ticks != [] {
      var n := |ticks| - 1;
      WinningPrefix(row, ticks);
      AsWrittenSellsRepeatedly(row, ticks[..n]);
      AsWrittenFullTick(row, RunRow(AS_WRITTEN, row, ticks[..n]), ticks[n]);
    }
  }

  /** Every tick is at or beyond the trigger with its order going through. */
  ghost predicate AllWinning(row: TradeRow, ticks: seq<Tick>)
    requires row.entry != 0.0
  {
    forall i :: 0 <= i < |ticks| ==> WinningTick(row, ticks[i])
  }

  lemma WinningPrefix(row: TradeRow, ticks: seq<Tick>)
    requires row.entry != 0.0 && AllWinning(row, ticks) && ticks != []
    ensures AllWinning(row, ticks[..|ticks| - 1]) && WinningTick(row, ticks[|ticks| - 1])
  {
  }

  /** An OPEN position under two shares on the terms of `row`. */
  ghost predicate SmallPosition(row: TradeRow, r: TradeRow) {
    && row.entry != 0.0 && SameTerms(r, row)
    && r.status.Open? && !r.partialDone
    && 0.0 < QtyOf(r) == row.quantity < 2.0
  }

  ghost predicate WinningTick(row: TradeRow, t: Tick)
    requires row.entry != 0.0
  {
    t.price.Some? && t.partial.Sent? && Triggered(row, t.price.value)
  }

  lemma AsWrittenFullTick(row: TradeRow, r: TradeRow, t: Tick)
    requires SmallPosition(row, r) && WinningTick(row, t)
    ensures Quantities(StepOrders(AS_WRITTEN, r, t)) == [row.quantity]
    ensures SmallPosition(row, StepRow(AS_WRITTEN, r, t))
  {
    assert CheckExit(r, t.price.value).closeAll;
  }

  /** The only order histories of the intended variant: nothing, half, everything, or half and
      then the rest; a half leaves at least one share. */
  ghost predicate OrderShape(row: TradeRow, r: TradeRow, sold: seq<real>) {
    var q := QtyOf(row);
    var half := Round4(q * FIRST_EXIT_PCT);
    if r.status.Open? then
      if r.partialDone then sold == [half] && QtyOf(r) == q - half && q - half >= MIN_REMAINING_SHARES
      else sold == [] && QtyOf(r) == q
    else
      sold == [q] || (sold == [half, q - half] && q - half >= MIN_REMAINING_SHARES)
  }

  lemma {:induction false} AtMostOneHalfExit(row: TradeRow, ticks: seq<Tick>)
    requires row.entry != 0.0 && row.status.Open? && !row.partialDone
    ensures OrderShape(row, RunRow(INTENDED, row, ticks), RunQuantities(INTENDED, row, ticks))
  {
    if ticks != [] {
      var n := |ticks| - 1;
      AtMostOneHalfExit(row, ticks[..n]);
      StepShape(row, RunRow(INTENDED, row, ticks[..n]), RunQuantities(INTENDED, row, ticks[..n]), ticks[n]);
    }
  }

  lemma StepShape(row: TradeRow, r: TradeRow, sold: seq<real>, t: Tick)
    requires row.entry != 0.0 && SameTerms(r, row) && OrderShape(row, r, sold)
    ensures OrderShape(row, StepRow(INTENDED, r, t), sold + Quantities(StepOrders(INTENDED, r, t)))
  {
    var next := Quantities(StepOrders(INTENDED, r, t));
    if r.status.Closed? || t.price.None? {
      assert sold + next == sold;
    } else {
      var price := t.price.value;
      var plan := CheckExit(r, price);
      if plan.shouldExit && !plan.closeAll {
        HalfExitSplit(r, price);
      }
    }
  }

  // ---------------------------------------------------------------------------------------
  // The stop
  // ---------------------------------------------------------------------------------------

  /** What the best price seen while OPEN entitles the position to once the half exit is part
      of the rules: the breakeven level is reached at the trigger, not only beyond it. */
  function EarnedWithPartial(row: TradeRow, best: real): Option<real>
    requires row.entry != 0.0
  {
    if Triggered(row, best) && Earned(row.action, row.entry, row.slPct, best).None? then
      Some(BreakevenPrice(row.action, row.entry))
    else Earned(row.action, row.entry, row.slPct, best)
  }

  function LifeStop(row: TradeRow, best: Option<real>): real
    requires row.entry != 0.0
  {
    if best.None? then row.stop else Ratchet(row.action, row.stop, EarnedWithPartial(row, best.value))
  }

  function MergeBest(action: Action, best: Option<real>, price: real): Option<real> {
    Some(if best.None? then price else BestOf(action, best.value, price))
  }

  /** The best price among the ticks the position was OPEN for. */
  function BestWhileOpen(v: Variant, row: TradeRow, ticks: seq<Tick>): Option<real>
    requires row.entry != 0.0
  {
    if ticks == [] then None
    else
      var n := |ticks| - 1;
      var best := BestWhileOpen(v, row, ticks[..n]);
      if RunRow(v, row, ticks[..n]).status.Closed? || ticks[n].price.None? then best
      else MergeBest(row.action, best, ticks[n].price.value)
  }

  /** A freshly opened position: its stop is on the cent grid and no better than breakeven. */
  ghost predicate Fresh(row: TradeRow) {
    && row.entry > 0.0 && row.slPct >= 0.0
    && row.status.Open? && !row.partialDone
    && OnCents(row.stop)
    && !Better(row.action, row.stop, BreakevenStop(row))
  }

  ghost predicate GoodTick(row: TradeRow, t: Tick) {
    && t.partial.Sent?
    && (row.action.Sell? && t.price.Some? ==> t.price.value >= 0.0)
  }

  /** The invariant of a life: the stop is the entitlement of the best price so far, and the
      half exit has happened exactly when that price reached the trigger. */
  ghost predicate OnTrack(row: TradeRow, r: TradeRow, best: Option<real>)
    requires row.entry != 0.0
  {
    && SameTerms(r, row)
    && OnCents(r.stop)
    && (r.status.Open? || r.exitReason != Some("PARTIAL_FULL") ==> r.stop == LifeStop(row, best))
    && (r.status.Open? ==> (r.partialDone <==> best.Some? && Triggered(row, best.value)))
  }

  lemma TriggeredMonotone(row: TradeRow, a: real, b: real)
    requires row.entry > 0.0 && !Better(row.action, a, b) && Triggered(row, a)
    ensures Triggered(row, b)
  {
    PnlMonotone(row.action, row.entry, a, b);
  }

  lemma EarnedNeedsTrigger(row: TradeRow, price: real)
    requires row.entry > 0.0 && row.slPct >= 0.0
    ensures Earned(row.action, row.entry, row.slPct, price).Some? ==> Triggered(row, price)
    ensures EarnedWithPartial(row, price).Some? <==> Triggered(row, price)
    ensures Triggered(row, price) ==>
      !Better(row.action, BreakevenPrice(row.action, row.entry), EarnedWithPartial(row, price).value)
  {
  }

  lemma EarnedWithPartialMonotone(row: TradeRow, a: real, b: real)
    requires row.entry > 0.0 && row.slPct >= 0.0 && !Better(row.action, a, b) && Triggered(row, a)
    ensures Triggered(row, b)
    ensures !Better(row.action, EarnedWithPartial(row, a).value, EarnedWithPartial(row, b).value)
  {
    TriggeredMonotone(row, a, b);
    EarnedMonotone(row.action, row.entry, row.slPct, a, b);
    EarnedNeedsTrigger(row, a);
    EarnedNeedsTrigger(row, b);
  }

  /** The tick that executes the half exit: the unconditional jump to breakeven is no retreat. */
  lemma TriggerTick(row: TradeRow, best: Option<real>, price: real)
    requires Fresh(row) && Triggered(row, price)
    requires best.Some? ==> !Triggered(row, best.value)
    ensures LifeStop(row, best) == row.stop
    ensures Ratchet(row.action, BreakevenStop(row), Earned(row.action, row.entry, row.slPct, price))
         == LifeStop(row, MergeBest(row.action, best, price))
  {
    if best.Some? {
      EarnedNeedsTrigger(row, best.value);
      if !Better(row.action, price, best.value) {
        TriggeredMonotone(row, price, best.value);
      }
    }
    EarnedNeedsTrigger(row, price);
    RoundedBest(row.action, BreakevenPrice(row.action, row.entry), EarnedWithPartial(row, price).value);
  }

  /** A tick after the half exit. */
  lemma LaterTick(row: TradeRow, best: real, price: real)
    requires Fresh(row) && Triggered(row, best)
    ensures Ratchet(row.action, LifeStop(row, Some(best)), Earned(row.action, row.entry, row.slPct, price))
         == LifeStop(row, MergeBest(row.action, Some(best), price))
    ensures Triggered(row, BestOf(row.action, best, price))
  {
    EarnedNeedsTrigger(row, best);
    EarnedNeedsTrigger(row, price);
    if Better(row.action, price, best) {
      EarnedWithPartialMonotone(row, best, price);
      RoundedBest(row.action, EarnedWithPartial(row, best).value, EarnedWithPartial(row, price).value);
      RoundedBest(row.action, BreakevenPrice(row.action, row.entry), EarnedWithPartial(row, best).value);
    } else if Triggered(row, price) {
      EarnedWithPartialMonotone(row, price, best);
      RoundedBest(row.action, EarnedWithPartial(row, price).value, EarnedWithPartial(row, best).value);
    }
  }

  /** A tick that stays under the trigger before any half exit. */
  lemma QuietTick(row: TradeRow, best: Option<real>, price: real)
    requires Fresh(row) && !Triggered(row, price)
    requires best.Some? ==> !Triggered(row, best.value)
    ensures Earned(row.action, row.entry, row.slPct, price).None?
    ensures LifeStop(row, best) == row.stop == LifeStop(row, MergeBest(row.action, best, price))
    ensures !Triggered(row, MergeBest(row.action, best, price).value)
  {
    EarnedNeedsTrigger(row, price);
    if best.Some? {
      EarnedNeedsTrigger(row, best.value);
    }
  }

  // ---- Main results about the stop ----

  lemma IntendedTick(row: TradeRow, r: TradeRow, best: Option<real>, t: Tick)
    requires Fresh(row) && GoodTick(row, t) && OnTrack(row, r, best) && r.status.Open?
    requires t.price.Some?
    ensures OnTrack(row, StepRow(INTENDED, r, t), MergeBest(row.action, best, t.price.value))
    ensures !Better(row.action, r.stop, StepRow(INTENDED, r, t).stop)
  {
    StepSummary(INTENDED, r, t);
    StaysOnTrack(row, r, best, StepRow(INTENDED, r, t), t);
  }

  lemma StaysOnTrack(row: TradeRow, r: TradeRow, best: Option<real>, next: TradeRow, t: Tick)
    requires Fresh(row) && GoodTick(row, t) && OnTrack(row, r, best) && r.status.Open?
    requires t.price.Some? && StepFacts(INTENDED, r, next, t)
    ensures OnTrack(row, next, MergeBest(row.action, best, t.price.value))
    ensures !Better(row.action, r.stop, next.stop)
  {
    var price := t.price.value;
    if CheckExit(r, price).closeAll {
    } else if CheckExit(r, price).shouldExit {
      TriggerStaysOnTrack(row, r, best, next, t);
    } else {
      NoExitStaysOnTrack(row, r, best, next, t);
    }
  }

  lemma TriggerStaysOnTrack(row: TradeRow, r: TradeRow, best: Option<real>, next: TradeRow, t: Tick)
    requires Fresh(row) && GoodTick(row, t) && OnTrack(row, r, best) && r.status.Open?
    requires t.price.Some? && StepFacts(INTENDED, r, next, t)
    requires CheckExit(r, t.price.value).shouldExit && !CheckExit(r, t.price.value).closeAll
    ensures OnTrack(row, next, MergeBest(row.action, best, t.price.value))
    ensures !Better(row.action, r.stop, next.stop)
  {
    var price := t.price.value;
    TriggerTick(row, best, price);
    assert next.stop == LifeStop(row, MergeBest(row.action, best, price));
    assert Triggered(row, MergeBest(row.action, best, price).value) by {
      if best.Some? && !Better(row.action, price, best.value) {
        TriggeredMonotone(row, price, best.value);
      }
    }
  }

  lemma NoExitStaysOnTrack(row: TradeRow, r: TradeRow, best: Option<real>, next: TradeRow, t: Tick)
    requires Fresh(row) && OnTrack(row, r, best) && r.status.Open?
    requires t.price.Some? && StepFacts(INTENDED, r, next, t)
    requires !CheckExit(r, t.price.value).shouldExit
    ensures OnTrack(row, next, MergeBest(row.action, best, t.price.value))
    ensures !Better(row.action, r.stop, next.stop)
  {
    var price := t.price.value;
    if r.partialDone {
      LaterTick(row, best.value, price);
    } else {
      QuietTick(row, best, price);
    }
  }

  ghost predicate StepFacts(v: Variant, r: TradeRow, next: TradeRow, t: Tick)
    requires r.entry != 0.0 && t.price.Some?
  {
    var price := t.price.value;
    var through := PartialGoesThrough(r, price, t);
    && SameTerms(next, r) && OnCents(next.stop)
    && (if CheckExit(r, price).closeAll then
          if through && v.fullExitCloses then
            next.stop == r.stop && next.status.Closed? && next.exitReason == Some("PARTIAL_FULL")
          else if through then next.stop == BreakevenStop(r) && next.status.Open?
          else next == r
        else
          && next.stop == Ratchet(r.action, if through then BreakevenStop(r) else r.stop,
                                  Earned(r.action, r.entry, r.slPct, price))
          && next.partialDone == (r.partialDone || (through && v.flagStored))
          && (next.status.Closed? ==> next.exitReason != Some("PARTIAL_FULL")))
  }

  /** What one tick does to the stop, the flag and the status of an OPEN row. */
  lemma StepSummary(v: Variant, r: TradeRow, t: Tick)
    requires r.entry > 0.0 && r.slPct >= 0.0 && OnCents(r.stop) && r.status.Open?
    requires t.price.Some? && (r.action.Sell? ==> t.price.value >= 0.0)
    ensures StepFacts(v, r, StepRow(v, r, t), t)
  {
    var price := t.price.value;
    StepKeepsTerms(v, r, t);
    Round2Laws(BreakevenPrice(r.action, r.entry), 0.0);
    if !CheckExit(r, price).closeAll {
      var mid := PartialEffect(v, r, price, t);
      TickRatchets(r.action, r.entry, r.slPct, mid.stop, price);
      ExitKeepsStop(StopEffect(mid, price), price, t);
    }
  }

  lemma ExitKeepsStop(row: TradeRow, price: real, t: Tick)
    requires row.entry != 0.0
    ensures var r := ExitEffect(row, price, t);
      r.stop == row.stop && r.partialDone == row.partialDone &&
      (r == row || (r.status.Closed? && r.exitReason != Some("PARTIAL_FULL")))
  {
    var reason := ExitReason(row, price);
    assert reason.Some? ==> reason.value[0] != "PARTIAL_FULL"[0];
  }

  /** For every life of a position whose half exit is let through, the stop is the running
      best-price entitlement, although the jump to breakeven ignores the stop it replaces. */
  lemma {:induction false} LifeStopIsHighWater(row: TradeRow, ticks: seq<Tick>)
    requires Fresh(row) && forall i :: 0 <= i < |ticks| ==> GoodTick(row, ticks[i])
    ensures OnTrack(row, RunRow(INTENDED, row, ticks), BestWhileOpen(INTENDED, row, ticks))
  {
    if ticks != [] {
      var n := |ticks| - 1;
      LifeStopIsHighWater(row, ticks[..n]);
      var before := RunRow(INTENDED, row, ticks[..n]);
      if before.status.Open? && ticks[n].price.Some? {
        IntendedTick(row, before, BestWhileOpen(INTENDED, row, ticks[..n]), ticks[n]);
      }
    }
  }

  lemma {:induction false} LifeStopNeverRetreats(row: TradeRow, ticks: seq<Tick>, more: seq<Tick>)
    requires Fresh(row) && forall i :: 0 <= i < |ticks + more| ==> GoodTick(row, (ticks + more)[i])
    ensures !Better(row.action, RunRow(INTENDED, row, ticks).stop, RunRow(INTENDED, row, ticks + more).stop)
    decreases |more|
  {
    if more == [] {
      assert ticks + more == ticks;
    } else {
      var n := |more| - 1;
      var all := ticks + more;
      assert all[..|all| - 1] == ticks + more[..n] && all[|all| - 1] == more[n];
      assert forall i :: 0 <= i < |ticks + more[..n]| ==> (ticks + more[..n])[i] == all[i];
      LifeStopNeverRetreats(row, ticks, more[..n]);
      LifeStopIsHighWater(row, ticks + more[..n]);
      var before := RunRow(INTENDED, row, ticks + more[..n]);
      if before.status.Open? && more[n].price.Some? {
        IntendedTick(row, before, BestWhileOpen(INTENDED, row, ticks + more[..n]), more[n]);
      }
    }
  }

  // ---- When the stop does retreat ----

  /** The stop an executed partial exit leaves behind at this price. */
  function StopAfterPartial(row: TradeRow, price: real): real
    requires row.entry != 0.0
  {
    if CheckExit(row, price).closeAll then BreakevenStop(row)
    else Ratchet(row.action, BreakevenStop(row), Earned(row.action, row.entry, row.slPct, price))
  }

  /** In either variant a tick moves the stop against the position exactly when it executes a
      partial exit that keeps the row OPEN while the stop stands beyond what that leaves. */
  lemma StepRetreatsIff(v: Variant, row: TradeRow, t: Tick)
    requires row.entry > 0.0 && row.slPct >= 0.0 && OnCents(row.stop)
    requires row.status.Open? && t.price.Some? && (row.action.Sell? ==> t.price.value >= 0.0)
    ensures Better(row.action, row.stop, StepRow(v, row, t).stop) <==>
      && PartialGoesThrough(row, t.price.value, t)
      && !(CheckExit(row, t.price.value).closeAll && v.fullExitCloses)
      && Better(row.action, row.stop, StopAfterPartial(row, t.price.value))
  {
    StepSummary(v, row, t);
  }

  /** A stop that starts better than breakeven does retreat: the hypothesis of the results
      above is needed for every such position of two shares or more. */
  lemma LossSideIsNeeded(row: TradeRow, t: Tick)
    requires row.entry > 0.0 && row.slPct >= 0.0 && row.status.Open? && !row.partialDone && OnCents(row.stop)
    requires QtyOf(row) >= 2.0
    requires Better(row.action, row.stop, BreakevenStop(row))
    requires t.partial.Sent?
    requires t.price == Some(TriggerPrice(row)) && (row.action.Sell? ==> TriggerPrice(row) >= 0.0)
    ensures Better(row.action, row.stop, StepRow(INTENDED, row, t).stop)
  {
    TriggerPriceIsExact(row);
    StepRetreatsIff(INTENDED, row, t);
  }

  function TriggerPrice(row: TradeRow): real {
    if row.action.Buy? then row.entry + 1.5 * row.slPct * row.entry else row.entry - 1.5 * row.slPct * row.entry
  }

  lemma TriggerPriceIsExact(row: TradeRow)
    requires row.entry > 0.0
    ensures PnlPct(row.action, row.entry, TriggerPrice(row)) == 1.5 * row.slPct
  {
    assert 1.5 * row.slPct * row.entry / row.entry == 1.5 * row.slPct;
  }

  /** Every stop the order use case sets when opening a position is on the loss side. */
  lemma PlacedStopIsLossSide(row: TradeRow)
    requires row.entry > 0.0 && row.slPct >= 0.0 && row.status.Open? && !row.partialDone
    requires row.stop == if row.action.Buy? then Round2(row.entry * (1.0 - row.slPct))
                         else Round2(row.entry * (1.0 + row.slPct))
    ensures Fresh(row)
  {
    assert row.entry * row.slPct >= 0.0;
    var raw := if row.action.Buy? then row.entry * (1.0 - row.slPct) else row.entry * (1.0 + row.slPct);
    assert raw == if row.action.Buy? then row.entry - row.entry * row.slPct else row.entry + row.entry * row.slPct;
    Levels(row.action, row.entry, row.entry);
    Round2Laws(raw, raw);
    RoundedBest(row.action, raw, BreakevenPrice(row.action, row.entry));
  }

  // ---- What survives a tick ----

  predicate TakesMediumProfit(row: TradeRow, price: real)
    requires row.entry != 0.0
  {
    row.action.Buy? && row.strength == "MEDIUM" && PnlPct(row.action, row.entry, price) >= 0.01
  }

  predicate InsideItsLevels(row: TradeRow, stop: real, price: real)
    requires row.entry != 0.0
  {
    Better(row.action, price, stop) && Better(row.action, row.takeProfit, price) && !TakesMediumProfit(row, price)
  }

  /** When close orders go through, a row stays OPEN exactly while the price is strictly inside
      its stop, as this very tick leaves it, and its target; the stop takes precedence. A tick
      that plans an exit of everything skips all that: the row survives it at any price unless
      the exit goes through and closes it, and a refused one leaves even the stop as it was. */
  lemma SurvivorsAreInsideTheirStops(v: Variant, row: TradeRow, t: Tick)
    requires row.entry != 0.0 && row.status.Open? && t.price.Some? && t.close.Sent?
    ensures var r, price := StepRow(v, row, t), t.price.value;
      var all := CheckExit(row, price).closeAll;
      && (r.status.Open? <==> if all then !(v.fullExitCloses && t.partial.Sent?)
                              else InsideItsLevels(row, r.stop, price))
      && (r.status.Closed? && all ==> r.exitReason == Some("PARTIAL_FULL"))
      && (r.status.Closed? && !all ==> (r.exitReason == Some("STOP_LOSS") <==> !Better(row.action, price, r.stop)))
      && (all && t.partial.Refused? ==> r == row)
  {
    var price := t.price.value;
    if !CheckExit(row, price).closeAll {
      SurvivesTheExitTest(v, row, t);
    }
  }

  lemma SurvivesTheExitTest(v: Variant, row: TradeRow, t: Tick)
    requires row.entry != 0.0 && row.status.Open? && t.price.Some? && t.close.Sent?
    requires !CheckExit(row, t.price.value).closeAll
    ensures var r, price := StepRow(v, row, t), t.price.value;
      && (r.status.Open? <==> InsideItsLevels(row, r.stop, price))
      && (r.status.Closed? ==> (r.exitReason == Some("STOP_LOSS") <==> !Better(row.action, price, r.stop)))
  {
    var price := t.price.value;
    var ready := StopEffect(PartialEffect(v, row, price, t), price);
    assert SameTerms(ready, row) && ready.status.Open?;
    ReasonsDiffer();
    assert StepRow(v, row, t) == ExitEffect(ready, price, t);
  }

  lemma ReasonsDiffer()
    ensures "STOP_LOSS" != "TAKE_PROFIT" && "STOP_LOSS" != "MIN_PROFIT_MEDIUM"
  {
    assert "STOP_LOSS"[0] != "TAKE_PROFIT"[0] && "STOP_LOSS"[0] != "MIN_PROFIT_MEDIUM"[0];
  }

  /** The shares a full close of this tick sells: all, or what a half exit just left. */
  function SharesLeft(row: TradeRow, price: real, t: Tick): real
    requires row.entry != 0.0
  {
    if PartialGoesThrough(row, price, t) then QtyOf(row) - Round4(QtyOf(row) / 2.0) else QtyOf(row)
  }

  /** Which level a closing price has reached, the stop before the target. */
  function ReasonAt(action: Action, stop: real, target: real, price: real): string {
    if (if action.Buy? then price <= stop else price >= stop) then "STOP_LOSS"
    else if (if action.Buy? then price >= target else price <= target) then "TAKE_PROFIT"
    else "MIN_PROFIT_MEDIUM"
  }

  /** What a closed row records: the fill, or the tick price when there is none, the reason and
      the time. */
  lemma CloseIsBooked(v: Variant, row: TradeRow, t: Tick)
    requires row.entry > 0.0 && row.status.Open? && t.price.Some?
    requires StepRow(v, row, t).status.Closed?
    ensures var outcome := if CheckExit(row, t.price.value).closeAll then t.partial else t.close;
      outcome.Sent? && StepRow(v, row, t).exitPrice == Some(if outcome.fill != 0.0 then outcome.fill else t.price.value)
    ensures StepRow(v, row, t).closedAt == Some(t.now)
    ensures var r, price := StepRow(v, row, t), t.price.value;
      r.exitReason == Some(if CheckExit(row, price).closeAll then "PARTIAL_FULL"
                           else ReasonAt(row.action, r.stop, row.takeProfit, price))
  {
    var price := t.price.value;
    if !CheckExit(row, price).closeAll {
      SharesAfterPartial(v, row, price, t);
      ExitIsBooked(StopEffect(PartialEffect(v, row, price, t), price), price, t);
    }
  }

  /** And the profit at the tick price on the shares that were sold; by `ProfitIsGain` that is the
      gain per share times the shares. */
  lemma CloseProfit(v: Variant, row: TradeRow, t: Tick) returns (shares: real)
    requires row.entry > 0.0 && row.status.Open? && t.price.Some?
    requires StepRow(v, row, t).status.Closed?
    ensures StepRow(v, row, t).pnlUsd == Some(Round2(ProfitUsd(row.action, row.entry, t.price.value, shares)))
    ensures shares == if CheckExit(row, t.price.value).closeAll then QtyOf(row) else SharesLeft(row, t.price.value, t)
  {
    var price := t.price.value;
    if CheckExit(row, price).closeAll {
      PlanByGain(row, price);
      shares := CheckExit(row, price).exitQuantity;
    } else {
      var ready := StopEffect(PartialEffect(v, row, price, t), price);
      shares := QtyOf(ready);
      SharesAfterPartial(v, row, price, t);
      ExitIsBooked(ready, price, t);
    }
  }

  lemma SharesAfterPartial(v: Variant, row: TradeRow, price: real, t: Tick)
    requires row.entry > 0.0 && row.status.Open? && !CheckExit(row, price).closeAll
    ensures var mid := PartialEffect(v, row, price, t);
      var ready := StopEffect(mid, price);
      SameTerms(ready, row) && ready.status.Open? && QtyOf(ready) == SharesLeft(row, price, t)
  {
    PlanByGain(row, price);
    if PartialGoesThrough(row, price, t) {
      HalfExitSplit(row, price);
    }
  }

  lemma ExitIsBooked(row: TradeRow, price: real, t: Tick)
    requires row.entry != 0.0 && row.status.Open? && ExitEffect(row, price, t).status.Closed?
    ensures var r := ExitEffect(row, price, t);
      && t.close.Sent? && r.exitPrice == Some(if t.close.fill != 0.0 then t.close.fill else price)
      && r.closedAt == Some(t.now) && r.stop == row.stop
      && r.pnlUsd == Some(Round2(ProfitUsd(row.action, row.entry, price, QtyOf(row))))
      && r.exitReason == Some(ReasonAt(row.action, row.stop, row.takeProfit, price))
  {
  }

  // ---- Positions adopted by the reconciler ----

  lemma ReconciledLongIsFresh(h: Reconciler.Holding)
    requires h.quantity > 0.0 && h.avgCost > 0.0
    ensures Fresh(Reconciler.NewRow(h))
  {
    Levels(Buy, h.avgCost, h.avgCost);
    Round2Laws(h.avgCost * 0.97, h.avgCost * 0.97);
    RoundedBest(Buy, h.avgCost * 0.97, BreakevenPrice(Buy, h.avgCost));
  }

  /** An adopted position meets the hypotheses above exactly when it is long, or when its cost
      is so low that the stop and the breakeven level round to the same cent. */
  lemma ReconciledIsFreshIff(h: Reconciler.Holding)
    requires h.quantity != 0.0 && h.avgCost > 0.0
    ensures Fresh(Reconciler.NewRow(h))
       <==> h.quantity > 0.0 || Round2(h.avgCost * 0.97) >= Round2(h.avgCost * 0.997)
  {
    if h.quantity > 0.0 {
      ReconciledLongIsFresh(h);
    } else {
      Levels(Sell, h.avgCost, h.avgCost);
      Round2Laws(h.avgCost * 0.97, h.avgCost * 0.97);
      assert BreakevenPrice(Sell, h.avgCost) == h.avgCost * 0.997;
    }
  }

  /** From a cost of 38 cents on every adopted short has its stop on the profit side. */
  lemma DearShortsAreNotFresh(h: Reconciler.Holding)
    requires h.quantity < 0.0 && h.avgCost >= 0.38
    ensures !Fresh(Reconciler.NewRow(h))
  {
    ReconciledIsFreshIff(h);
    var low, high := h.avgCost * 0.97, h.avgCost * 0.997;
    Round2Laws(low, low);
    Round2Laws(high, high);
    assert high - low == h.avgCost * 0.027;
    assert Round2(high) - Round2(low) >= high - low - 0.01 > 0.0;
  }

  /** Whatever its first price, an adopted short does not survive its first tick: its target
      lies above its stop. It closes as STOP_LOSS exactly when the price has reached the stop,
      which short of the half-exit trigger is the one it was given, and as TAKE_PROFIT otherwise.
      Only the exit of everything at the trigger can leave it OPEN. */
  lemma ReconciledShortStopsOut(v: Variant, h: Reconciler.Holding, t: Tick)
    requires h.quantity < 0.0 && h.avgCost > 0.0
    requires t.price.Some? && t.price.value >= 0.0 && t.close.Sent?
    ensures var row, price := Reconciler.NewRow(h), t.price.value;
      var r := StepRow(v, row, t);
      && (r.status.Closed? <==> !CheckExit(row, price).closeAll || (v.fullExitCloses && t.partial.Sent?))
      && (!CheckExit(row, price).closeAll ==>
            r.exitReason == Some(if price >= r.stop then "STOP_LOSS" else "TAKE_PROFIT"))
      && (!Triggered(row, price) ==> r.stop == Round2(h.avgCost * 0.97))
  {
    var row, price := Reconciler.NewRow(h), t.price.value;
    Round2Laws(h.avgCost * 0.97, h.avgCost * 0.97);
    StepSummary(v, row, t);
    if !CheckExit(row, price).closeAll {
      TargetAboveStop(h, row, StepRow(v, row, t).stop, price);
      ShortMustExit(row, PartialEffect(v, row, price, t), price, t);
      if !Triggered(row, price) {
        EarnedNeedsTrigger(row, price);
      }
    }
  }

  /** No rule lifts the stop of an adopted short above its target. */
  lemma TargetAboveStop(h: Reconciler.Holding, row: TradeRow, stop: real, price: real)
    requires h.quantity < 0.0 && h.avgCost > 0.0 && row == Reconciler.NewRow(h)
    requires stop == Ratchet(Sell, row.stop, Earned(Sell, row.entry, row.slPct, price))
          || stop == Ratchet(Sell, BreakevenStop(row), Earned(Sell, row.entry, row.slPct, price))
    ensures stop <= row.takeProfit
  {
    Round2Laws(h.avgCost * 0.97, h.avgCost * 1.06);
    Levels(Sell, h.avgCost, price);
    Round2Laws(BreakevenPrice(Sell, h.avgCost), h.avgCost * 1.06);
  }

  lemma ShortMustExit(row: TradeRow, mid: TradeRow, price: real, t: Tick)
    requires row.entry != 0.0 && row.action.Sell? && SameTerms(mid, row) && mid.status.Open? && t.close.Sent?
    requires StopEffect(mid, price).stop <= row.takeProfit
    ensures var r := ExitEffect(StopEffect(mid, price), price, t);
      r.status.Closed? && r.exitReason == Some(if price >= r.stop then "STOP_LOSS" else "TAKE_PROFIT")
  {
  }

  // ---- Passes of the monitor are runs of every row ----

  function Passes(v: Variant, rows: seq<TradeRow>, feeds: seq<nat -> Tick>): (after: seq<TradeRow>)
    requires forall r :: r in rows ==> r.entry != 0.0
    ensures |after| == |rows|
    ensures forall r :: r in after ==> r.entry != 0.0
  {
    if feeds == [] then rows
    else
      var before := Passes(v, rows, feeds[..|feeds| - 1]);
      StepAllKeepsEntries(v, before, feeds[|feeds| - 1]);
      StepAll(v, before, feeds[|feeds| - 1])
  }

  lemma StepAllKeepsEntries(v: Variant, rows: seq<TradeRow>, feed: nat -> Tick)
    requires forall r :: r in rows ==> r.entry != 0.0
    ensures forall r :: r in StepAll(v, rows, feed) ==> r.entry != 0.0
  {
    forall i | 0 <= i < |rows| ensures StepAll(v, rows, feed)[i].entry != 0.0 {
      StepKeepsTerms(v, rows[i], feed(rows[i].id));
    }
  }

  function TicksOf(feeds: seq<nat -> Tick>, id: nat): seq<Tick> {
    seq(|feeds|, i requires 0 <= i < |feeds| => feeds[i](id))
  }

  /** What `CheckPositions` does over any number of passes is, row by row, a run. */
  lemma {:induction false} PassesAreRuns(v: Variant, rows: seq<TradeRow>, feeds: seq<nat -> Tick>, i: nat)
    requires i < |rows| && forall r :: r in rows ==> r.entry != 0.0
    ensures Passes(v, rows, feeds)[i] == RunRow(v, rows[i], TicksOf(feeds, rows[i].id))
  {
    assert rows[i] in rows;
    if feeds != [] {
      var n := |feeds| - 1;
      PassesAreRuns(v, rows, feeds[..n], i);
      assert TicksOf(feeds, rows[i].id)[..n] == TicksOf(feeds[..n], rows[i].id);
    }
  }

  // ---- The order log over passes ----

  /** What `CheckPositions` appends to the order log over any number of passes. */
  function PassOrders(v: Variant, rows: seq<TradeRow>, feeds: seq<nat -> Tick>): seq<Order>
    requires forall r :: r in rows ==> r.entry != 0.0
  {
    if feeds == [] then []
    else
      var n := |feeds| - 1;
      var before := Passes(v, rows, feeds[..n]);
      PassOrders(v, rows, feeds[..n]) + OrdersOf(v, OpenTrades(before), feeds[n])
  }

  function OrdersFor(orders: seq<Order>, id: nat): seq<Order> {
    if orders == [] then []
    else
      var n := |orders| - 1;
      OrdersFor(orders[..n], id) + if orders[n].tradeId == id then [orders[n]] else []
  }

  lemma {:induction false} OrdersForAppend(a: seq<Order>, b: seq<Order>, id: nat)
    ensures OrdersFor(a + b, id) == OrdersFor(a, id) + OrdersFor(b, id)
    decreases |b|
  {
    if b == [] {
      assert a + b == a;
    } else {
      var n := |b| - 1;
      assert (a + b)[..|a + b| - 1] == a + b[..n];
      OrdersForAppend(a, b[..n], id);
    }
  }

  lemma {:induction false} OrdersForUniform(orders: seq<Order>, own: nat, id: nat)
    requires forall i :: 0 <= i < |orders| ==> orders[i].tradeId == own
    ensures OrdersFor(orders, id) == if own == id then orders else []
  {
    if orders != [] {
      var n := |orders| - 1;
      OrdersForUniform(orders[..n], own, id);
      assert orders == orders[..n] + [orders[n]];
    }
  }

  lemma StepOrdersAreOwn(v: Variant, row: TradeRow, t: Tick)
    requires row.entry != 0.0
    ensures forall i :: 0 <= i < |StepOrders(v, row, t)| ==> StepOrders(v, row, t)[i].tradeId == row.id
  {
  }

  /** Of the orders of one pass, those of a trade are its own step's. */
  lemma {:induction false} OrdersOfTrade(v: Variant, trades: seq<TradeRow>, feed: nat -> Tick, id: nat, k: nat)
    requires DistinctIds(trades) && forall t :: t in trades ==> t.entry != 0.0
    requires k < |trades| && trades[k].id == id
    ensures OrdersFor(OrdersOf(v, trades, feed), id) == StepOrders(v, trades[k], feed(id))
  {
    var n := |trades| - 1;
    OrdersOfLast(v, trades, feed, id);
    if k == n {
      OrdersOfOthers(v, trades[..n], feed, id);
    } else {
      assert trades[..n][k] == trades[k];
      OrdersOfTrade(v, trades[..n], feed, id, k);
    }
  }

  lemma {:induction false} OrdersOfOthers(v: Variant, trades: seq<TradeRow>, feed: nat -> Tick, id: nat)
    requires forall t :: t in trades ==> t.entry != 0.0
    requires forall i :: 0 <= i < |trades| ==> trades[i].id != id
    ensures OrdersFor(OrdersOf(v, trades, feed), id) == []
  {
    if trades != [] {
      OrdersOfOthers(v, trades[..|trades| - 1], feed, id);
      OrdersOfLast(v, trades, feed, id);
    }
  }

  lemma OrdersOfLast(v: Variant, trades: seq<TradeRow>, feed: nat -> Tick, id: nat)
    requires trades != [] && forall t :: t in trades ==> t.entry != 0.0
    ensures var n := |trades| - 1;
      var before := OrdersFor(OrdersOf(v, trades[..n], feed), id);
      && (trades[n].id != id ==> OrdersFor(OrdersOf(v, trades, feed), id) == before)
      && (trades[n].id == id && before == [] ==>
            OrdersFor(OrdersOf(v, trades, feed), id) == StepOrders(v, trades[n], feed(id)))
  {
    var n := |trades| - 1;
    var before, last := OrdersOf(v, trades[..n], feed), StepOrders(v, trades[n], feed(trades[n].id));
    StepOrdersAreOwn(v, trades[n], feed(trades[n].id));
    LastOrders(before, last, trades[n].id, id);
  }

  lemma LastOrders(before: seq<Order>, last: seq<Order>, own: nat, id: nat)
    requires forall i :: 0 <= i < |last| ==> last[i].tradeId == own
    ensures own != id ==> OrdersFor(before + last, id) == OrdersFor(before, id)
    ensures own == id && OrdersFor(before, id) == [] ==> OrdersFor(before + last, id) == last
  {
    OrdersForAppend(before, last, id);
    OrdersForUniform(last, own, id);
    assert OrdersFor(before, id) + [] == OrdersFor(before, id) && [] + last == last;
  }

  /** Of the orders of a pass over a table, those of row `i` are its own step's. */
  lemma PassOrdersOfRow(v: Variant, rows: seq<TradeRow>, feed: nat -> Tick, i: nat)
    requires DistinctIds(rows) && i < |rows| && forall r :: r in rows ==> r.entry != 0.0
    ensures OrdersFor(OrdersOf(v, OpenTrades(rows), feed), rows[i].id) == StepOrders(v, rows[i], feed(rows[i].id))
  {
    var open := OpenTrades(rows);
    OpenTradesFacts(rows);
    if rows[i].status.Open? {
      var k :| 0 <= k < |open| && open[k] == rows[i];
      OrdersOfTrade(v, open, feed, rows[i].id, k);
    } else {
      forall k | 0 <= k < |open| ensures open[k].id != rows[i].id {
        assert open[k] in open;
        var j :| 0 <= j < |rows| && rows[j] == open[k];
      }
      OrdersOfOthers(v, open, feed, rows[i].id);
    }
  }

  lemma QuantitiesAppend(a: seq<Order>, b: seq<Order>)
    ensures Quantities(a + b) == Quantities(a) + Quantities(b)
  {
  }

  lemma {:induction false} PassesKeepIds(v: Variant, rows: seq<TradeRow>, feeds: seq<nat -> Tick>)
    requires DistinctIds(rows) && forall r :: r in rows ==> r.entry != 0.0
    ensures DistinctIds(Passes(v, rows, feeds))
    ensures forall i :: 0 <= i < |rows| ==> Passes(v, rows, feeds)[i].id == rows[i].id
  {
    forall i | 0 <= i < |rows| ensures Passes(v, rows, feeds)[i].id == rows[i].id {
      assert rows[i] in rows;
      PassesAreRuns(v, rows, feeds, i);
    }
  }

  /** The order log of any number of passes is, trade by trade, what its run sells. */
  lemma {:induction false} PassOrdersAreRuns(v: Variant, rows: seq<TradeRow>, feeds: seq<nat -> Tick>, i: nat)
    requires DistinctIds(rows) && i < |rows| && forall r :: r in rows ==> r.entry != 0.0
    ensures rows[i] in rows
    ensures Quantities(OrdersFor(PassOrders(v, rows, feeds), rows[i].id))
         == RunQuantities(v, rows[i], TicksOf(feeds, rows[i].id))
  {
    if feeds != [] {
      var n, id := |feeds| - 1, rows[i].id;
      var ticks := TicksOf(feeds, id);
      PassOrdersAreRuns(v, rows, feeds[..n], i);
      assert ticks[..n] == TicksOf(feeds[..n], id);
      PassOrdersNext(v, rows, feeds, i);
      PassesAreRuns(v, rows, feeds[..n], i);
      QuantitiesAppend(OrdersFor(PassOrders(v, rows, feeds[..n]), id),
                       StepOrders(v, RunRow(v, rows[i], ticks[..n]), ticks[n]));
    }
  }

  lemma PassOrdersNext(v: Variant, rows: seq<TradeRow>, feeds: seq<nat -> Tick>, i: nat)
    requires DistinctIds(rows) && i < |rows| && feeds != [] && forall r :: r in rows ==> r.entry != 0.0
    ensures var n, id := |feeds| - 1, rows[i].id;
      var before := Passes(v, rows, feeds[..n]);
      && before[i] in before
      && OrdersFor(PassOrders(v, rows, feeds), id)
         == OrdersFor(PassOrders(v, rows, feeds[..n]), id) + StepOrders(v, before[i], feeds[n](id))
  {
    var n, id := |feeds| - 1, rows[i].id;
    var before := Passes(v, rows, feeds[..n]);
    PassesKeepIds(v, rows, feeds[..n]);
    PassOrdersOfRow(v, before, feeds[n], i);
    OrdersForAppend(PassOrders(v, rows, feeds[..n]), OrdersOf(v, OpenTrades(before), feeds[n]), id);
  }

  /** The ledger of a trade over any number of passes, read off the table and the order log. */
  lemma {:induction false} PassesLedger(v: Variant, rows: seq<TradeRow>, feeds: seq<nat -> Tick>, i: nat)
    requires DistinctIds(rows) && i < |rows| && forall r :: r in rows ==> r.entry != 0.0
    ensures rows[i] in rows
    ensures OrderSum(OrdersFor(PassOrders(v, rows, feeds), rows[i].id)) + Held(Passes(v, rows, feeds)[i])
         == Held(rows[i]) + PhantomQuantity(v, rows[i], TicksOf(feeds, rows[i].id))
  {
    PassOrdersAreRuns(v, rows, feeds, i);
    PassesAreRuns(v, rows, feeds, i);
    QuantityLedger(v, rows[i], TicksOf(feeds, rows[i].id));
  }

  // ---- Concrete departures ----

  const EXAMPLE := TradeRow(1, "AAPL", Buy, 10.0, 100.0, 98.0, 150.0, 0.02, "STRONG", Open, None, None, None, None,
                            false, None)

  function At(price: real, partial: Outcome): Tick {
    Tick(Some(price), partial, Refused, 0)
  }

  /** As written the flag is lost, so a second half exit pulls a trailed stop back from 110.00. */
  lemma AsWrittenStopRetreats()
    ensures var ticks := [At(120.0, Sent(120.0)), At(113.0, Sent(113.0))];
      && RunRow(AS_WRITTEN, EXAMPLE, ticks[..1]).stop == 110.0
      && RunRow(AS_WRITTEN, EXAMPLE, ticks).stop == 106.5
  {
    var t1, t2 := At(120.0, Sent(120.0)), At(113.0, Sent(113.0));
    assert [t1, t2][..1] == [t1] && [t1][..0] == [];
    assert StepRow(AS_WRITTEN, EXAMPLE, t1).stop == 110.0;
  }

  const SMALL_EXAMPLE := EXAMPLE.(quantity := 1.0, takeProfit := 110.0)

  /** A single share at 120 with its target at 110: as written it is sold and its row stays OPEN;
      with the exit refused it is neither trailed, to 110.00, nor taken, in either variant. */
  lemma FullExitSkipsTheTarget(v: Variant)
    ensures StepRow(AS_WRITTEN, SMALL_EXAMPLE, Tick(Some(120.0), Sent(120.0), Sent(120.0), 0)).status.Open?
    ensures StepRow(v, SMALL_EXAMPLE, Tick(Some(120.0), Refused, Sent(120.0), 0)) == SMALL_EXAMPLE
    ensures GetCurrentStop(Buy, 100.0, 0.02, 98.0, 120.0) == 110.0
    ensures ExitReason(SMALL_EXAMPLE, 120.0) == Some("TAKE_PROFIT")
  {
    SurvivorsAreInsideTheirStops(AS_WRITTEN, SMALL_EXAMPLE, Tick(Some(120.0), Sent(120.0), Sent(120.0), 0));
    SurvivorsAreInsideTheirStops(v, SMALL_EXAMPLE, Tick(Some(120.0), Refused, Sent(120.0), 0));
  }

  /** Even with the flag stored, a refused half exit lets the stop trail first and drop later. */
  lemma RefusedPartialMakesStopRetreat()
    ensures Fresh(EXAMPLE)
    ensures var ticks := [At(120.0, Refused), At(113.0, Sent(113.0))];
      && RunRow(INTENDED, EXAMPLE, ticks[..1]).stop == 110.0
      && RunRow(INTENDED, EXAMPLE, ticks).stop == 106.5
  {
    var t1, t2 := At(120.0, Refused), At(113.0, Sent(113.0));
    assert [t1, t2][..1] == [t1] && [t1][..0] == [];
    assert StepRow(INTENDED, EXAMPLE, t1).stop == 110.0;
  }
}
