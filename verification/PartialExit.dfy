/** Scaling out: the half exit at 1.5 times the stop distance. */
module PartialExit {
  import opened Wrappers
  import opened Rounding
  import opened Trades
  import opened TrailingStop

  const FIRST_EXIT_MULTIPLIER := 1.5
  const FIRST_EXIT_PCT := 0.5
  const MIN_REMAINING_SHARES := 1.0

  datatype ExitPlan = ExitPlan(
    shouldExit: bool,
    exitQuantity: real,
    remainingQuantity: real,
    reason: Option<string>,
    closeAll: bool)

  predicate Triggered(row: TradeRow, price: real)
    requires row.entry != 0.0
  {
    PnlPct(row.action, row.entry, price) >= FIRST_EXIT_MULTIPLIER * row.slPct
  }

  function CheckExit(row: TradeRow, price: real): ExitPlan
    requires row.entry != 0.0
  {
    if row.partialDone || !Triggered(row, price) then
      ExitPlan(false, 0.0, QtyOf(row), None, false)
    else
      var total := QtyOf(row);
      var exitQty := total * FIRST_EXIT_PCT;
      var remaining := total - exitQty;
      if remaining < MIN_REMAINING_SHARES then
        ExitPlan(true, total, 0.0, Some("PARTIAL_FULL"), true)
      else
        ExitPlan(true, Round4(exitQty), Round4(remaining), Some("PARTIAL_50PCT"), false)
  }

  function BreakevenStop(row: TradeRow): real {
    Round2(BreakevenPrice(row.action, row.entry))
  }

  function AfterPartial(row: TradeRow, plan: ExitPlan): TradeRow {
    if !plan.shouldExit then row
    else
      var r := row.(partialDone := true, remaining := Some(plan.remainingQuantity));
      if plan.closeAll then r else r.(stop := BreakevenStop(r))
  }

  /** The in-memory trade: a loaded row together with the fields the rules assign. */
  class Trade {
    const loaded: TradeRow
    var stop: real
    var remaining: Option<real>
    var partialDone: bool

    constructor (row: TradeRow)
      ensures loaded == row && View() == row
    {
      loaded := row;
      stop, remaining, partialDone := row.stop, row.remaining, row.partialDone;
    }

    function View(): TradeRow
      reads this
    {
      loaded.(stop := stop, remaining := remaining, partialDone := partialDone)
    }

    /** `update_trade_after_partial`. */
    method UpdateAfterPartial(plan: ExitPlan)
      modifies this
      ensures View() == AfterPartial(old(View()), plan)
    {
      if !plan.shouldExit {
        return;
      }
      partialDone := true;
      remaining := Some(plan.remainingQuantity);
      if !plan.closeAll {
        stop := BreakevenStop(View());
      }
    }
  }

  /** The planned split: it never leaves a remainder under one share, and the two separately
      rounded halves miss the whole by at most one grid unit. */
  lemma HalfExitSplit(row: TradeRow, price: real)
    requires row.entry != 0.0
    requires CheckExit(row, price).shouldExit && !CheckExit(row, price).closeAll
    ensures var plan := CheckExit(row, price);
      && 0.0 < plan.exitQuantity
      && QtyOf(row) - plan.exitQuantity >= MIN_REMAINING_SHARES
      && -0.0001 <= plan.exitQuantity + plan.remainingQuantity - QtyOf(row) <= 0.0001
  {
    var half := QtyOf(row) * FIRST_EXIT_PCT;
    Round4Laws(half, half);
    Round4Laws(1.0, half);
    // below the first tie above one share the exit rounds down to exactly one share
    HalfEvenLaws(half * 10000.0, 10000.5);
  }

  /** The plan in money and shares: nothing below a gain of 1.5 stop distances, or once done;
      from there everything under two shares, else each half on its own grid. */
  lemma PlanByGain(row: TradeRow, price: real)
    requires row.entry > 0.0
    ensures var plan, q := CheckExit(row, price), QtyOf(row);
      && (plan.shouldExit <==> !row.partialDone && Gain(row.action, row.entry, price) >= 1.5 * (row.slPct * row.entry))
      && (plan.closeAll <==> plan.shouldExit && q < 2.0)
      && (plan.closeAll ==>
            plan.exitQuantity == q && plan.remainingQuantity == 0.0 && plan.reason == Some("PARTIAL_FULL"))
      && (plan.shouldExit && !plan.closeAll ==>
            plan.exitQuantity == plan.remainingQuantity == Round4(q / 2.0) && plan.reason == Some("PARTIAL_50PCT"))
      && (!plan.shouldExit ==> plan == ExitPlan(false, 0.0, q, None, false))
  {
    PnlIsGain(row.action, row.entry, price, 1.5, row.slPct);
    assert QtyOf(row) * FIRST_EXIT_PCT == QtyOf(row) / 2.0;
  }

  /** The breakeven stop: 0.3% beyond entry, on the cent grid. */
  lemma BreakevenInMoney(row: TradeRow)
    ensures BreakevenStop(row)
         == Round2(if row.action.Buy? then row.entry + 0.003 * row.entry else row.entry - 0.003 * row.entry)
  {
    assert row.entry * (1.0 + 0.003) == row.entry + 0.003 * row.entry;
    assert row.entry * (1.0 - 0.003) == row.entry - 0.003 * row.entry;
  }

  lemma HalfOf(units: int)
    ensures 2 * HalfEven(units as real / 2.0) == units <==> units % 2 == 0
  {
    if units % 2 == 0 {
      assert units as real / 2.0 == (units / 2) as real;
      HalfEvenLaws(units as real / 2.0, 0.0);
    }
  }

  /** For a quantity of `units` grid units the two halves add up exactly when `units` is even. */
  lemma HalvesAddUp(row: TradeRow, price: real, units: int)
    requires row.entry != 0.0 && QtyOf(row) * 10000.0 == units as real
    ensures var plan := CheckExit(row, price);
      plan.shouldExit && !plan.closeAll ==>
        (plan.exitQuantity + plan.remainingQuantity == QtyOf(row) <==> units % 2 == 0)
  {
    HalfOf(units);
    HalvesOf(QtyOf(row), units);
    var plan := CheckExit(row, price);
    assert plan.shouldExit && !plan.closeAll ==> plan.remainingQuantity == Round4(QtyOf(row) * FIRST_EXIT_PCT);
  }

  lemma HalvesOf(quantity: real, units: int)
    requires quantity * 10000.0 == units as real
    ensures 2.0 * Round4(quantity * FIRST_EXIT_PCT) == quantity <==> 2 * HalfEven(units as real / 2.0) == units
  {
    assert quantity * FIRST_EXIT_PCT * 10000.0 == units as real / 2.0;
  }
}
