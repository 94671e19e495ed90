/** The `trades` table: row layout and the statements the bot runs against it. */
module Trades {
  import opened Wrappers

  datatype Action = Buy | Sell

  datatype Status = Open | Closed

  datatype TradeRow = TradeRow(
    id: nat,
    symbol: string,
    action: Action,
    quantity: real,
    entry: real,
    stop: real,
    takeProfit: real,
    slPct: real,
    strength: string,
    status: Status,
    exitPrice: Option<real>,
    exitReason: Option<string>,
    pnlUsd: Option<real>,
    closedAt: Option<int>,
    partialDone: bool,
    remaining: Option<real>)

  /** `trade.remaining_quantity or trade.quantity`: an absent or zero remainder reads as the
      whole quantity. */
  function QtyOf(row: TradeRow): real {
    if row.remaining.Some? && row.remaining.value != 0.0 then row.remaining.value else row.quantity
  }

  /** The shares the row stands for: nothing once it is closed. */
  function Held(row: TradeRow): real {
    if row.status.Closed? then 0.0 else QtyOf(row)
  }

  function CloseRow(row: TradeRow, exitPrice: real, reason: string, pnlUsd: real, now: int): TradeRow {
    row.(status := Closed, exitPrice := Some(exitPrice), exitReason := Some(reason),
         pnlUsd := Some(pnlUsd), closedAt := Some(now))
  }

  ghost predicate DistinctIds(rows: seq<TradeRow>) {
    forall i, j :: 0 <= i < j < |rows| ==> rows[i].id != rows[j].id
  }

  /** The partial unique index `idx_open_symbol`: one OPEN row per symbol. */
  ghost predicate OneOpenPerSymbol(rows: seq<TradeRow>) {
    forall i, j :: 0 <= i < j < |rows| && rows[i].status.Open? && rows[j].status.Open?
      ==> rows[i].symbol != rows[j].symbol
  }

  ghost predicate IsOpen(rows: seq<TradeRow>, id: nat) {
    exists i :: 0 <= i < |rows| && rows[i].id == id && rows[i].status.Open?
  }

  function OpenTrades(rows: seq<TradeRow>): (open: seq<TradeRow>)
    ensures forall t :: t in open ==> t in rows && t.status.Open?
  {
    if rows == [] then []
    else (if rows[0].status.Open? then [rows[0]] else []) + OpenTrades(rows[1..])
  }

  function OpenSymbols(rows: seq<TradeRow>): set<string> {
    set i | 0 <= i < |rows| && rows[i].status.Open? :: rows[i].symbol
  }

  /** `UPDATE trades ... WHERE id=?`, with the assignment given as a function of the row. */
  function UpdateById(rows: seq<TradeRow>, id: nat, f: TradeRow -> TradeRow): (updated: seq<TradeRow>)
    ensures |updated| == |rows|
    ensures forall i :: 0 <= i < |rows| ==> updated[i] == if rows[i].id == id then f(rows[i]) else rows[i]
  {
    seq(|rows|, i requires 0 <= i < |rows| => if rows[i].id == id then f(rows[i]) else rows[i])
  }

  lemma UpdateAt(rows: seq<TradeRow>, id: nat, f: TradeRow -> TradeRow, k: nat)
    requires DistinctIds(rows) && k < |rows| && rows[k].id == id
    ensures UpdateById(rows, id, f) == rows[k := f(rows[k])]
  {
    assert forall i :: 0 <= i < |rows| && rows[i].id == id ==> i == k;
  }

  lemma {:induction false} OpenTradesFacts(rows: seq<TradeRow>)
    ensures forall i :: 0 <= i < |rows| && rows[i].status.Open? ==> rows[i] in OpenTrades(rows)
    ensures DistinctIds(rows) ==> DistinctIds(OpenTrades(rows))
  {
    if rows != [] {
      OpenTradesFacts(rows[1..]);
      forall i | 0 <= i < |rows| && rows[i].status.Open?
        ensures rows[i] in OpenTrades(rows)
      {
        if i > 0 {
          assert rows[1..][i - 1] == rows[i];
        }
      }
      if DistinctIds(rows) {
        assert DistinctIds(rows[1..]);
        forall t | t in OpenTrades(rows[1..])
          ensures t.id != rows[0].id
        {
          assert t in rows[1..];
        }
      }
    }
  }

  /** The shared table as the bot sees it through its connection. */
  class TradesTable {
    var rows: seq<TradeRow>

    ghost predicate Valid()
      reads this
    {
      DistinctIds(rows) && OneOpenPerSymbol(rows)
    }

    method GetOpenTrades() returns (open: seq<TradeRow>)
      ensures open == OpenTrades(rows)
    {
      open := [];
      for i := |rows| downto 0
        invariant open == OpenTrades(rows[i..])
      {
        assert rows[i..][1..] == rows[i + 1..];
        if rows[i].status.Open? {
          open := [rows[i]] + open;
        }
      }
      assert rows[0..] == rows;
    }

    method IsTradeOpen(id: nat) returns (open: bool)
      ensures open <==> IsOpen(rows, id)
    {
      for i := 0 to |rows|
        invariant forall k :: 0 <= k < i ==> !(rows[k].id == id && rows[k].status.Open?)
      {
        if rows[i].id == id && rows[i].status.Open? {
          return true;
        }
      }
      return false;
    }

    /** `flag` is the column the statement in the source does not write: callers that follow
        the source pass `None`. */
    method UpdateTradeStatus(id: nat, stop: Option<real>, remaining: Option<real>, flag: Option<bool>)
      modifies this
      ensures rows == UpdateById(old(rows), id, StatusUpdate(stop, remaining, flag))
    {
      rows := UpdateById(rows, id, StatusUpdate(stop, remaining, flag));
    }

    method CloseTrade(id: nat, exitPrice: real, reason: string, pnlUsd: real, now: int)
      modifies this
      ensures rows == UpdateById(old(rows), id, r => CloseRow(r, exitPrice, reason, pnlUsd, now))
    {
      rows := UpdateById(rows, id, r => CloseRow(r, exitPrice, reason, pnlUsd, now));
    }

    /** Fails, like the unique index, when the symbol already has an OPEN row. */
    method InsertTrade(row: TradeRow) returns (r: Result<nat, string>)
      requires Valid()
      modifies this
      ensures r.Err? <==> row.status.Open? && row.symbol in OpenSymbols(old(rows))
      ensures r.Err? ==> rows == old(rows)
      ensures r.Ok? ==> r.value == FreshId(old(rows)) && rows == old(rows) + [row.(id := r.value)]
      ensures Valid()
    {
      if row.status.Open? && row.symbol in OpenSymbols(rows) {
        return Err("UNIQUE constraint failed: trades.symbol");
      }
      var id := FreshId(rows);
      FreshIdIsFresh(rows);
      rows := rows + [row.(id := id)];
      return Ok(id);
    }
  }

  function StatusUpdate(stop: Option<real>, remaining: Option<real>, flag: Option<bool>): TradeRow -> TradeRow {
    (r: TradeRow) => r.(
      stop := if stop.Some? then stop.value else r.stop,
      remaining := if remaining.Some? then remaining else r.remaining,
      partialDone := if flag.Some? then flag.value else r.partialDone)
  }

  function FreshId(rows: seq<TradeRow>): nat {
    if rows == [] then 1
    else
      var rest := FreshId(rows[1..]);
      if rows[0].id >= rest then rows[0].id + 1 else rest
  }

  lemma {:induction false} FreshIdIsFresh(rows: seq<TradeRow>)
    ensures forall i :: 0 <= i < |rows| ==> rows[i].id < FreshId(rows)
  {
    if rows != [] {
      FreshIdIsFresh(rows[1..]);
      forall i | 0 <= i < |rows|
        ensures rows[i].id < FreshId(rows)
      {
        if i > 0 {
          assert rows[1..][i - 1] == rows[i];
        }
      }
    }
  }
}
