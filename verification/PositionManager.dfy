/** One pass of the position monitor over the OPEN trades: partial exit, stop update, exit test. */
module PositionManager {
  import opened Wrappers
  import opened Rounding
  import opened Trades
  import opened TrailingStop
  import opened PartialExit

  const MIN_PROFIT_PCT_MEDIUM := 0.01

  /** How the code treats a partial exit. As written, the `partial_exit_done` flag never reaches
      the table, and a PARTIAL_FULL exit goes through the branch that keeps the row OPEN. The
      intended variant stores the flag and lets an exit of everything close the row. */
  datatype Variant = Variant(flagStored: bool, fullExitCloses: bool)

  const AS_WRITTEN := Variant(false, false)
  const INTENDED := Variant(true, true)

  /** What became of a close order: refused by the duplicate or pre-flight checks, or let
      through with a fill price (the tick price when sending failed, as the code assumes). */
  datatype Outcome = Refused | Sent(fill: real)

  /** One tick for one trade: the price, if it could be fetched, and the fate of the orders
      it may give rise to. */
  datatype Tick = Tick(price: Option<real>, partial: Outcome, close: Outcome, now: int)

  datatype Order = Order(tradeId: nat, quantity: real)

  function FillOr(o: Outcome, price: real): real
    requires o.Sent?
  {
    if o.fill != 0.0 then o.fill else price
  }

  function ExitReason(row: TradeRow, price: real): Option<string>
    requires row.entry != 0.0
  {
    match row.action
    case Buy =>
      if price <= row.stop then Some("STOP_LOSS")
      else if price >= row.takeProfit then Some("TAKE_PROFIT")
      else if row.strength == "MEDIUM" && PnlPct(row.action, row.entry, price) >= MIN_PROFIT_PCT_MEDIUM then
        Some("MIN_PROFIT_MEDIUM")
      else None
    case Sell =>
      if price >= row.stop then Some("STOP_LOSS")
      else if price <= row.takeProfit then Some("TAKE_PROFIT")
      else None
  }

  function ProfitUsd(action: Action, entry: real, price: real, quantity: real): real
    requires entry != 0.0
  {
    PnlPct(action, entry, price) * entry * quantity
  }

  function PnlUsd(row: TradeRow, price: real, quantity: real): real
    requires row.entry != 0.0
  {
    ProfitUsd(row.action, row.entry, price, quantity)
  }

  /** The profit of a close is the gain per share times the shares. */
  lemma ProfitIsGain(action: Action, entry: real, price: real, quantity: real)
    requires entry != 0.0
    ensures ProfitUsd(action, entry, price, quantity) == Gain(action, entry, price) * quantity
  {
    assert PnlPct(action, entry, price) * entry == Gain(action, entry, price);
  }

  predicate PartialGoesThrough(row: TradeRow, price: real, t: Tick)
    requires row.entry != 0.0
  {
    CheckExit(row, price).shouldExit && t.partial.Sent?
  }

  function PartialEffect(v: Variant, row: TradeRow, price: real, t: Tick): TradeRow
    requires row.entry != 0.0
  {
    var plan := CheckExit(row, price);
    if !PartialGoesThrough(row, price, t) then row
    else if plan.closeAll && v.fullExitCloses then
      CloseRow(row, FillOr(t.partial, price), "PARTIAL_FULL", Round2(PnlUsd(row, price, plan.exitQuantity)), t.now)
    else
      row.(remaining := Some(QtyOf(row) - plan.exitQuantity),
           stop := BreakevenStop(row),
           partialDone := v.flagStored || row.partialDone)
  }

  function StopEffect(row: TradeRow, price: real): TradeRow
    requires row.entry != 0.0
  {
    row.(stop := GetCurrentStop(row.action, row.entry, row.slPct, row.stop, price))
  }

  function ExitEffect(row: TradeRow, price: real, t: Tick): TradeRow
    requires row.entry != 0.0
  {
    match ExitReason(row, price)
    case Some(reason) =>
      if t.close.Sent? then
        CloseRow(row, FillOr(t.close, price), reason, Round2(PnlUsd(row, price, QtyOf(row))), t.now)
      else row
    case None => row
  }

  /** The row after one tick: nothing happens to a closed row or without a price. */
  function StepRow(v: Variant, row: TradeRow, t: Tick): TradeRow
    requires row.entry != 0.0
  {
    if row.status.Closed? || t.price.None? then row
    else
      var price := t.price.value;
      var afterPartial := PartialEffect(v, row, price, t);
      if CheckExit(row, price).closeAll then afterPartial
      else ExitEffect(StopEffect(afterPartial, price), price, t)
  }

  function PartialOrders(row: TradeRow, price: real, t: Tick): seq<Order>
    requires row.entry != 0.0
  {
    if PartialGoesThrough(row, price, t) then [Order(row.id, CheckExit(row, price).exitQuantity)] else []
  }

  function ExitOrders(row: TradeRow, price: real, t: Tick): seq<Order>
    requires row.entry != 0.0
  {
    if ExitReason(row, price).Some? && t.close.Sent? then [Order(row.id, QtyOf(row))] else []
  }

  /** The orders the tick sends to the broker for this row. */
  function StepOrders(v: Variant, row: TradeRow, t: Tick): seq<Order>
    requires row.entry != 0.0
  {
    if row.status.Closed? || t.price.None? then []
    else
      var price := t.price.value;
      PartialOrders(row, price, t)
      + if CheckExit(row, price).closeAll then []
        else ExitOrders(StopEffect(PartialEffect(v, row, price, t), price), price, t)
  }

  function OrdersOf(v: Variant, trades: seq<TradeRow>, feed: nat -> Tick): seq<Order>
    requires forall t :: t in trades ==> t.entry != 0.0
  {
    if trades == [] then []
    else
      var n := |trades| - 1;
      OrdersOf(v, trades[..n], feed) + StepOrders(v, trades[n], feed(trades[n].id))
  }

  /** The broker side of the monitor: orders in the sequence they were let through. */
  class Monitor {
    const variant: Variant
    const table: TradesTable
    var orders: seq<Order>

    constructor (variant: Variant, table: TradesTable)
      ensures this.variant == variant && this.table == table && orders == []
    {
      this.variant := variant;
      this.table := table;
      orders := [];
    }

    /** `_close_position`: nothing for a trade that is closed or missing by now; otherwise the
        order first, then the table row `k` of this trade. Returns whether the order went out. */
    method ClosePosition(trade: Trade, reason: string, price: real, pnlUsd: real, quantity: Option<real>,
                         outcome: Outcome, now: int, ghost k: nat) returns (done: bool)
      requires trade.View().entry != 0.0
      requires IsOpen(table.rows, trade.loaded.id) ==> IsRowOf(k, trade)
      modifies this`orders, table, trade
      ensures done == (IsOpen(old(table.rows), trade.loaded.id) && outcome.Sent?)
      ensures var qty := if quantity.Some? then quantity.value else QtyOf(old(trade.View()));
        orders == old(orders) + if done then [Order(trade.loaded.id, qty)] else []
      ensures !done ==> trade.View() == old(trade.View()) && table.rows == old(table.rows)
      ensures done && KeepsOpen(variant, reason) ==>
        var qty := if quantity.Some? then quantity.value else QtyOf(old(trade.View()));
        && trade.View() == old(trade.View()).(remaining := Some(QtyOf(old(trade.View())) - qty),
                                              stop := BreakevenStop(old(trade.View())),
                                              partialDone := true)
        && table.rows == old(table.rows)[k := old(table.rows)[k].(
             stop := trade.stop, remaining := trade.remaining,
             partialDone := variant.flagStored || old(table.rows)[k].partialDone)]
      ensures done && !KeepsOpen(variant, reason) ==>
          && trade.View() == old(trade.View())
          && table.rows == old(table.rows)[k :=
               CloseRow(old(table.rows)[k], FillOr(outcome, price), reason, Round2(pnlUsd), now)]
    {
      var qty := if quantity.Some? then quantity.value else QtyOf(trade.View());
      var open := table.IsTradeOpen(trade.loaded.id);
      if !open || outcome.Refused? {
        return false;
      }
      orders := orders + [Order(trade.loaded.id, qty)];
      if KeepsOpen(variant, reason) {
        trade.remaining := Some(QtyOf(trade.View()) - qty);
        trade.partialDone := true;
        trade.stop := BreakevenStop(trade.View());
        var flag := if variant.flagStored then Some(true) else None;
        UpdateAt(table.rows, trade.loaded.id, StatusUpdate(Some(trade.stop), trade.remaining, flag), k);
        table.UpdateTradeStatus(trade.loaded.id, Some(trade.stop), trade.remaining, flag);
      } else {
        UpdateAt(table.rows, trade.loaded.id,
                 r => CloseRow(r, FillOr(outcome, price), reason, Round2(pnlUsd), now), k);
        table.CloseTrade(trade.loaded.id, FillOr(outcome, price), reason, Round2(pnlUsd), now);
      }
      return true;
    }

    /** Row `k` is OPEN and is the one the in-memory trade was loaded from. */
    ghost predicate IsRowOf(k: nat, trade: Trade)
      reads this, table, trade
    {
      && DistinctIds(table.rows)
      && k < |table.rows|
      && table.rows[k].id == trade.loaded.id
      && table.rows[k].status.Open?
    }

    method TryPartialExit(trade: Trade, price: real, t: Tick, ghost k: nat) returns (closeAll: bool)
      requires IsRowOf(k, trade) && table.rows[k] == trade.View() && trade.View().entry != 0.0
      modifies this`orders, table, trade
      ensures closeAll == CheckExit(old(trade.View()), price).closeAll
      ensures table.rows == old(table.rows)[k := PartialEffect(variant, old(trade.View()), price, t)]
      ensures !closeAll ==>
        trade.View() == PartialEffect(variant, old(trade.View()), price, t).(partialDone := trade.partialDone)
      ensures orders == old(orders) + PartialOrders(old(trade.View()), price, t)
    {
      var plan := CheckExit(trade.View(), price);
      if plan.shouldExit {
        var _ := ClosePosition(trade, plan.reason.value, price, PnlUsd(trade.View(), price, plan.exitQuantity),
                               Some(plan.exitQuantity), t.partial, t.now, k);
      }
      return plan.closeAll;
    }

    method UpdateStop(trade: Trade, price: real, ghost k: nat)
      requires IsRowOf(k, trade) && trade.View().entry != 0.0
      requires trade.View() == table.rows[k].(partialDone := trade.partialDone)
      modifies table, trade
      ensures table.rows == old(table.rows)[k := StopEffect(old(table.rows)[k], price)]
      ensures trade.View() == StopEffect(old(trade.View()), price)
    {
      var update := UpdateStopLevels(trade.loaded.action, trade.loaded.entry, trade.loaded.slPct, trade.stop, price);
      if update.newStop.Some? {
        trade.stop := update.newStop.value;
        UpdateAt(table.rows, trade.loaded.id, StatusUpdate(Some(trade.stop), None, None), k);
        table.UpdateTradeStatus(trade.loaded.id, Some(trade.stop), None, None);
      }
    }

    method TryExit(trade: Trade, price: real, t: Tick, ghost k: nat)
      requires IsRowOf(k, trade) && trade.View().entry != 0.0
      requires trade.View() == table.rows[k].(partialDone := trade.partialDone)
      modifies this`orders, table, trade
      ensures table.rows == old(table.rows)[k := ExitEffect(old(table.rows)[k], price, t)]
      ensures orders == old(orders) + ExitOrders(old(table.rows)[k], price, t)
    {
      var exit := ExitReason(trade.View(), price);
      if exit.Some? {
        assert exit == ExitReason(table.rows[k], price);
        assert PnlUsd(trade.View(), price, QtyOf(trade.View())) == PnlUsd(table.rows[k], price, QtyOf(table.rows[k]));
        assert exit.value[0] != "PARTIAL"[0];
        var _ := ClosePosition(trade, exit.value, price, PnlUsd(trade.View(), price, QtyOf(trade.View())), None,
                               t.close, t.now, k);
      }
    }

    /** The loop body of `check_positions` for one loaded trade. */
    method CheckTrade(trade: Trade, t: Tick, ghost k: nat)
      requires IsRowOf(k, trade) && table.rows[k] == trade.View() && trade.View().entry != 0.0
      modifies this`orders, table, trade
      ensures table.rows == old(table.rows)[k := StepRow(variant, old(trade.View()), t)]
      ensures orders == old(orders) + StepOrders(variant, old(trade.View()), t)
    {
      if t.price.None? {
        return;
      }
      var price := t.price.value;
      var closeAll := TryPartialExit(trade, price, t, k);
      if !closeAll {
        UpdateStop(trade, price, k);
        TryExit(trade, price, t, k);
      }
    }

    method LoadAndCheck(row: TradeRow, t: Tick, ghost k: nat)
      requires DistinctIds(table.rows)
      requires k < |table.rows| && table.rows[k] == row && row.status.Open? && row.entry != 0.0
      modifies this`orders, table
      ensures table.rows == old(table.rows)[k := StepRow(variant, row, t)]
      ensures orders == old(orders) + StepOrders(variant, row, t)
    {
      var trade := new Trade(row);
      CheckTrade(trade, t, k);
    }

    /** One round of the loop: the rows of `trades[..n]` are done, row `k` is next. */
    method CheckNext(ghost before: seq<TradeRow>, trades: seq<TradeRow>, n: nat, feed: nat -> Tick, ghost k: nat)
      requires DistinctIds(before) && forall t :: t in before ==> t.entry != 0.0
      requires n < |trades| && k < |before| && before[k] == trades[n] && trades[n].status.Open?
      requires trades[n] !in trades[..n]
      requires table.rows == StepSome(variant, before, trades[..n], feed)
      modifies this`orders, table
      ensures table.rows == StepSome(variant, before, trades[..n + 1], feed)
      ensures orders == old(orders) + StepOrders(variant, trades[n], feed(trades[n].id))
    {
      assert trades[..n + 1] == trades[..n] + [trades[n]];
      StepNext(variant, before, trades[..n], feed, k);
      LoadAndCheck(trades[n], feed(trades[n].id), k);
    }

    /** `check_positions`: every OPEN row takes one step on its own tick, the rest stay put. */
    method CheckPositions(feed: nat -> Tick)
      requires DistinctIds(table.rows)
      requires forall t :: t in table.rows ==> t.entry != 0.0
      modifies this`orders, table
      ensures table.rows == StepAll(variant, old(table.rows), feed)
      ensures orders == old(orders) + OrdersOf(variant, OpenTrades(old(table.rows)), feed)
    {
      ghost var before := table.rows;
      var trades := table.GetOpenTrades();
      OpenTradesFacts(before);
      NothingStepped(variant, before, feed);
      assert trades[..0] == [];
      for n := 0 to |trades|
        invariant table.rows == StepSome(variant, before, trades[..n], feed)
        invariant orders == old(orders) + OrdersOf(variant, trades[..n], feed)
      {
        assert trades[n] in trades;
        ghost var k :| 0 <= k < |before| && before[k] == trades[n];
        assert trades[n] !in trades[..n];
        OrdersNext(variant, old(orders), trades, n, feed);
        CheckNext(before, trades, n, feed, k);
      }
      assert trades[..|trades|] == trades;
      AllOpenStepped(variant, before, feed);
    }
  }

  /** The table once the trades in `done` have had their tick. */
  ghost function StepSome(v: Variant, rows: seq<TradeRow>, done: seq<TradeRow>, feed: nat -> Tick): seq<TradeRow>
    requires forall t :: t in rows ==> t.entry != 0.0
  {
    seq(|rows|, i requires 0 <= i < |rows| =>
          if rows[i] in done then StepRow(v, rows[i], feed(rows[i].id)) else rows[i])
  }

  function StepAll(v: Variant, rows: seq<TradeRow>, feed: nat -> Tick): seq<TradeRow>
    requires forall t :: t in rows ==> t.entry != 0.0
  {
    seq(|rows|, i requires 0 <= i < |rows| => StepRow(v, rows[i], feed(rows[i].id)))
  }

  lemma StepKeepsId(v: Variant, row: TradeRow, t: Tick)
    requires row.entry != 0.0
    ensures StepRow(v, row, t).id == row.id
  {
  }

  lemma StepNext(v: Variant, rows: seq<TradeRow>, done: seq<TradeRow>, feed: nat -> Tick, k: nat)
    requires DistinctIds(rows) && k < |rows| && rows[k] !in done
    requires forall t :: t in rows ==> t.entry != 0.0
    ensures StepSome(v, rows, done, feed)[k] == rows[k]
    ensures DistinctIds(StepSome(v, rows, done, feed))
    ensures StepSome(v, rows, done + [rows[k]], feed)
         == StepSome(v, rows, done, feed)[k := StepRow(v, rows[k], feed(rows[k].id))]
  {
    forall i | 0 <= i < |rows| ensures StepSome(v, rows, done, feed)[i].id == rows[i].id {
      StepKeepsId(v, rows[i], feed(rows[i].id));
    }
    forall i | 0 <= i < |rows| && i != k ensures rows[i] in done + [rows[k]] <==> rows[i] in done {
      assert rows[i].id != rows[k].id;
    }
  }

  lemma OrdersNext(v: Variant, sent: seq<Order>, trades: seq<TradeRow>, n: nat, feed: nat -> Tick)
    requires n < |trades| && forall t :: t in trades ==> t.entry != 0.0
    ensures sent + OrdersOf(v, trades[..n + 1], feed)
         == sent + OrdersOf(v, trades[..n], feed) + StepOrders(v, trades[n], feed(trades[n].id))
  {
    assert trades[..n + 1][..n] == trades[..n];
  }

  lemma NothingStepped(v: Variant, rows: seq<TradeRow>, feed: nat -> Tick)
    requires forall t :: t in rows ==> t.entry != 0.0
    ensures StepSome(v, rows, [], feed) == rows
  {
  }

  lemma AllOpenStepped(v: Variant, rows: seq<TradeRow>, feed: nat -> Tick)
    requires forall t :: t in rows ==> t.entry != 0.0
    ensures StepSome(v, rows, OpenTrades(rows), feed) == StepAll(v, rows, feed)
  {
    OpenTradesFacts(rows);
    forall i | 0 <= i < |rows|
      ensures StepSome(v, rows, OpenTrades(rows), feed)[i] == StepAll(v, rows, feed)[i]
    {
      if rows[i].status.Closed? {
        assert StepRow(v, rows[i], feed(rows[i].id)) == rows[i];
      }
    }
  }

  /** `exit_reason.startswith("PARTIAL")`, except that the intended variant closes on a full exit. */
  predicate KeepsOpen(v: Variant, reason: string) {
    "PARTIAL" <= reason && !(v.fullExitCloses && reason == "PARTIAL_FULL")
  }
}
