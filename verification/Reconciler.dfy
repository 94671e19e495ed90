/** Two-way reconciliation of the OPEN trades with the broker's portfolio. */
module Reconciler {
  import opened Wrappers
  import opened Rounding
  import opened Trades

  datatype Holding = Holding(symbol: string, quantity: real, avgCost: real)

  // ---- The portfolio as a dictionary ----

  function SymbolsOf(positions: seq<Holding>): set<string> {
    set i | 0 <= i < |positions| :: positions[i].symbol
  }

  ghost predicate DistinctSymbols(positions: seq<Holding>) {
    forall i, k :: 0 <= i < k < |positions| ==> positions[i].symbol != positions[k].symbol
  }

  /** One dictionary assignment: a new symbol goes to the end, a known one keeps its place. */
  function Put(positions: seq<Holding>, h: Holding): seq<Holding> {
    if positions == [] then [h]
    else if positions[0].symbol == h.symbol then [h] + positions[1..]
    else [positions[0]] + Put(positions[1..], h)
  }

  /** `{p["symbol"]: p for p in portfolio if abs(quantity) > 0}` in iteration order. */
  function Positions(portfolio: seq<Holding>): seq<Holding> {
    if portfolio == [] then []
    else
      var n := |portfolio| - 1;
      var before := Positions(portfolio[..n]);
      if portfolio[n].quantity != 0.0 then Put(before, portfolio[n]) else before
  }

  lemma {:induction false} PutFacts(positions: seq<Holding>, h: Holding)
    ensures SymbolsOf(Put(positions, h)) == SymbolsOf(positions) + {h.symbol}
    ensures DistinctSymbols(positions) ==> DistinctSymbols(Put(positions, h))
  {
    if positions == [] {
      assert SymbolsOf([h]) == {h.symbol} by { assert [h][0] == h; }
    } else if positions[0].symbol == h.symbol {
      SymbolsOfCons(positions[0], positions[1..]);
      SymbolsOfCons(h, positions[1..]);
      assert positions == [positions[0]] + positions[1..];
    } else {
      var rest := positions[1..];
      PutFacts(rest, h);
      SymbolsOfCons(positions[0], rest);
      SymbolsOfCons(positions[0], Put(rest, h));
      assert positions == [positions[0]] + rest;
      if DistinctSymbols(positions) {
        assert positions[0].symbol !in SymbolsOf(rest);
        DistinctCons(positions[0], Put(rest, h));
      }
    }
  }

  lemma SymbolsOfCons(h: Holding, rest: seq<Holding>)
    ensures SymbolsOf([h] + rest) == {h.symbol} + SymbolsOf(rest)
  {
    var all := [h] + rest;
    assert all[0] == h;
    assert forall i :: 0 <= i < |rest| ==> all[i + 1] == rest[i];
    assert forall i :: 0 < i < |all| ==> all[i] == rest[i - 1];
  }

  lemma DistinctCons(h: Holding, rest: seq<Holding>)
    requires DistinctSymbols(rest) && h.symbol !in SymbolsOf(rest)
    ensures DistinctSymbols([h] + rest)
  {
    var all := [h] + rest;
    assert forall i :: 0 < i < |all| ==> all[i] == rest[i - 1] && rest[i - 1].symbol in SymbolsOf(rest);
  }

  function NonZero(portfolio: seq<Holding>): set<string> {
    set i | 0 <= i < |portfolio| && portfolio[i].quantity != 0.0 :: portfolio[i].symbol
  }

  lemma NonZeroSnoc(portfolio: seq<Holding>, h: Holding)
    ensures NonZero(portfolio + [h]) == NonZero(portfolio) + if h.quantity != 0.0 then {h.symbol} else {}
  {
    var all := portfolio + [h];
    assert all[|portfolio|] == h;
    assert forall i :: 0 <= i < |portfolio| ==> all[i] == portfolio[i];
  }

  /** The dictionary holds exactly the symbols with a non-zero quantity somewhere in the list. */
  lemma {:induction false} PositionsFacts(portfolio: seq<Holding>)
    ensures DistinctSymbols(Positions(portfolio))
    ensures SymbolsOf(Positions(portfolio)) == NonZero(portfolio)
  {
    if portfolio == [] {
      assert SymbolsOf([]) == NonZero([]);
    } else {
      var n := |portfolio| - 1;
      PositionsFacts(portfolio[..n]);
      PutFacts(Positions(portfolio[..n]), portfolio[n]);
      NonZeroSnoc(portfolio[..n], portfolio[n]);
      assert portfolio == portfolio[..n] + [portfolio[n]];
    }
  }

  // ---- The specification ----

  predicate Orphaned(row: TradeRow, held: set<string>) {
    row.status.Open? && row.symbol !in held
  }

  function CloseOrphan(row: TradeRow, held: set<string>, now: int): TradeRow {
    if Orphaned(row, held) then CloseRow(row, row.entry, "RECONCILED_NOT_IN_IB", 0.0, now) else row
  }

  function CloseOrphans(rows: seq<TradeRow>, held: set<string>, now: int): seq<TradeRow> {
    seq(|rows|, i requires 0 <= i < |rows| => CloseOrphan(rows[i], held, now))
  }

  function NewRow(h: Holding): TradeRow {
    TradeRow(0, h.symbol, if h.quantity > 0.0 then Buy else Sell, if h.quantity < 0.0 then -h.quantity else h.quantity,
             h.avgCost, Round2(h.avgCost * 0.97), Round2(h.avgCost * 1.06), 0.03,
             "MANUAL_RECONCILED", Open, None, None, None, None, false, None)
  }

  /** The rows after inserting a trade for every position whose symbol was not OPEN before. */
  function Adopt(rows: seq<TradeRow>, positions: seq<Holding>, known: set<string>): seq<TradeRow> {
    if positions == [] then rows
    else
      var n := |positions| - 1;
      var before := Adopt(rows, positions[..n], known);
      if positions[n].symbol in known then before
      else before + [NewRow(positions[n]).(id := FreshId(before))]
  }

  function Adopted(positions: seq<Holding>, known: set<string>): nat {
    if positions == [] then 0
    else Adopted(positions[..|positions| - 1], known) + if positions[|positions| - 1].symbol in known then 0 else 1
  }

  function Orphans(trades: seq<TradeRow>, held: set<string>): nat {
    if trades == [] then 0
    else Orphans(trades[..|trades| - 1], held) + if trades[|trades| - 1].symbol in held then 0 else 1
  }

  function Reconciled(rows: seq<TradeRow>, portfolio: seq<Holding>, now: int): seq<TradeRow> {
    var positions := Positions(portfolio);
    Adopt(CloseOrphans(rows, SymbolsOf(positions), now), positions, OpenSymbols(rows))
  }

  // ---- The operation ----

  ghost function ClosedSome(rows: seq<TradeRow>, done: seq<TradeRow>, held: set<string>, now: int): seq<TradeRow> {
    seq(|rows|, i requires 0 <= i < |rows| => if rows[i] in done then CloseOrphan(rows[i], held, now) else rows[i])
  }

  method CloseAtEntry(table: TradesTable, row: TradeRow, now: int, ghost k: nat)
    requires DistinctIds(table.rows) && k < |table.rows| && table.rows[k] == row
    modifies table
    ensures table.rows == old(table.rows)[k := CloseRow(row, row.entry, "RECONCILED_NOT_IN_IB", 0.0, now)]
  {
    UpdateAt(table.rows, row.id, r => CloseRow(r, row.entry, "RECONCILED_NOT_IN_IB", 0.0, now), k);
    table.CloseTrade(row.id, row.entry, "RECONCILED_NOT_IN_IB", 0.0, now);
  }

  /** First loop: close the local trades whose symbol the broker no longer holds. */
  method CloseMissing(table: TradesTable, trades: seq<TradeRow>, held: set<string>, now: int) returns (closed: nat)
    requires table.Valid() && trades == OpenTrades(table.rows)
    modifies table
    ensures table.Valid()
    ensures table.rows == CloseOrphans(old(table.rows), held, now)
    ensures closed == Orphans(trades, held)
  {
    ghost var before := table.rows;
    closed := 0;
    OpenTradesFacts(before);
    assert ClosedSome(before, trades[..0], held, now) == before;
    for n := 0 to |trades|
      invariant table.rows == ClosedSome(before, trades[..n], held, now)
      invariant closed == Orphans(trades[..n], held)
    {
      ghost var k := CloseNext(before, trades, n, held, now);
      if trades[n].symbol !in held {
        CloseAtEntry(table, trades[n], now, k);
        closed := closed + 1;
      }
    }
    assert trades[..|trades|] == trades;
    AllClosed(before, held, now);
    OrphansClosedValid(before, held, now);
  }

  method InsertNew(table: TradesTable, h: Holding)
    requires table.Valid() && h.symbol !in OpenSymbols(table.rows)
    modifies table
    ensures table.Valid()
    ensures table.rows == old(table.rows) + [NewRow(h).(id := FreshId(old(table.rows)))]
    ensures OpenSymbols(table.rows) == OpenSymbols(old(table.rows)) + {h.symbol}
  {
    OpenSymbolsSnoc(table.rows, NewRow(h).(id := FreshId(table.rows)));
    var inserted := table.InsertTrade(NewRow(h));
    assert inserted.Ok?;
  }

  /** Second loop: a local trade for every position not among the symbols OPEN at the start. */
  method AdoptNew(table: TradesTable, positions: seq<Holding>, known: set<string>) returns (created: nat)
    requires table.Valid() && DistinctSymbols(positions)
    requires OpenSymbols(table.rows) == known * SymbolsOf(positions)
    modifies table
    ensures table.Valid()
    ensures table.rows == Adopt(old(table.rows), positions, known)
    ensures created == Adopted(positions, known)
  {
    ghost var before := table.rows;
    created := 0;
    for n := 0 to |positions|
      invariant table.Valid()
      invariant table.rows == Adopt(before, positions[..n], known)
      invariant created == Adopted(positions[..n], known)
      invariant OpenSymbols(table.rows) == known * SymbolsOf(positions) + (SymbolsOf(positions[..n]) - known)
    {
      assert positions[..n + 1][..n] == positions[..n];
      AdoptNext(table.rows, positions, n, known);
      if positions[n].symbol !in known {
        InsertNew(table, positions[n]);
        created := created + 1;
      }
    }
    assert positions[..|positions|] == positions;
  }

  /** `reconcile_positions`. A portfolio that cannot be fetched changes nothing; inserting never
      runs into the unique index. */
  method ReconcilePositions(table: TradesTable, portfolio: Option<seq<Holding>>, now: int)
    returns (closed: nat, created: nat)
    requires table.Valid()
    modifies table
    ensures table.Valid()
    ensures portfolio.None? ==> closed == created == 0 && table.rows == old(table.rows)
    ensures portfolio.Some? ==>
      && table.rows == Reconciled(old(table.rows), portfolio.value, now)
      && closed == Orphans(OpenTrades(old(table.rows)), SymbolsOf(Positions(portfolio.value)))
      && created == Adopted(Positions(portfolio.value), OpenSymbols(old(table.rows)))
  {
    var dbTrades := table.GetOpenTrades();
    if portfolio.None? {
      return 0, 0;
    }
    var positions := Positions(portfolio.value);
    var held, known := SymbolsOf(positions), OpenSymbols(table.rows);
    PositionsFacts(portfolio.value);
    OrphansClosedValid(table.rows, held, now);
    closed := CloseMissing(table, dbTrades, held, now);
    created := AdoptNew(table, positions, known);
  }

  lemma CloseNext(before: seq<TradeRow>, trades: seq<TradeRow>, n: nat, held: set<string>, now: int) returns (k: nat)
    requires DistinctIds(before) && trades == OpenTrades(before) && DistinctIds(trades) && n < |trades|
    ensures k < |before| && ClosedSome(before, trades[..n], held, now)[k] == trades[n]
    ensures DistinctIds(ClosedSome(before, trades[..n], held, now))
    ensures ClosedSome(before, trades[..n + 1], held, now)
         == ClosedSome(before, trades[..n], held, now)[k := CloseOrphan(trades[n], held, now)]
    ensures trades[..n + 1][..n] == trades[..n]
    ensures trades[n].status.Open?
  {
    assert trades[n] in trades;
    k :| 0 <= k < |before| && before[k] == trades[n];
    assert trades[n] !in trades[..n];
    assert trades[..n + 1] == trades[..n] + [trades[n]];
    CloseOneMore(before, trades[..n], k, held, now);
  }

  lemma CloseOneMore(before: seq<TradeRow>, done: seq<TradeRow>, k: nat, held: set<string>, now: int)
    requires DistinctIds(before) && k < |before| && before[k] !in done
    ensures DistinctIds(ClosedSome(before, done, held, now))
    ensures ClosedSome(before, done + [before[k]], held, now)
         == ClosedSome(before, done, held, now)[k := CloseOrphan(before[k], held, now)]
  {
    forall i | 0 <= i < |before| ensures ClosedSome(before, done, held, now)[i].id == before[i].id {
    }
    forall i | 0 <= i < |before| && i != k ensures before[i] in done + [before[k]] <==> before[i] in done {
      assert before[i].id != before[k].id;
    }
  }

  lemma AllClosed(before: seq<TradeRow>, held: set<string>, now: int)
    ensures ClosedSome(before, OpenTrades(before), held, now) == CloseOrphans(before, held, now)
  {
    OpenTradesFacts(before);
  }

  lemma OrphansClosedValid(before: seq<TradeRow>, held: set<string>, now: int)
    requires DistinctIds(before) && OneOpenPerSymbol(before)
    ensures DistinctIds(CloseOrphans(before, held, now)) && OneOpenPerSymbol(CloseOrphans(before, held, now))
    ensures OpenSymbols(CloseOrphans(before, held, now)) == OpenSymbols(before) * held
  {
    var after := CloseOrphans(before, held, now);
    assert forall i :: 0 <= i < |before| ==>
      after[i].id == before[i].id && after[i].symbol == before[i].symbol &&
      (after[i].status.Open? <==> before[i].status.Open? && before[i].symbol in held);
  }

  lemma AdoptNext(rows: seq<TradeRow>, positions: seq<Holding>, n: nat, known: set<string>)
    requires n < |positions| && DistinctSymbols(positions)
    requires OpenSymbols(rows) == known * SymbolsOf(positions) + (SymbolsOf(positions[..n]) - known)
    ensures SymbolsOf(positions[..n + 1]) == SymbolsOf(positions[..n]) + {positions[n].symbol}
    ensures positions[n].symbol !in known ==> positions[n].symbol !in OpenSymbols(rows)
  {
    assert positions[..n + 1] == positions[..n] + [positions[n]];
    assert forall i :: 0 <= i <= n ==> positions[..n + 1][i] == positions[i];
  }

  lemma OpenSymbolsSnoc(rows: seq<TradeRow>, row: TradeRow)
    requires row.status.Open?
    ensures OpenSymbols(rows + [row]) == OpenSymbols(rows) + {row.symbol}
  {
    var all := rows + [row];
    assert all[|rows|] == row;
    assert forall i :: 0 <= i < |rows| ==> all[i] == rows[i];
  }

  // ---- What reconciliation achieves ----

  /** `get_daily_pnl`: the sum over CLOSED rows since a moment, NULLs ignored. */
  function DailyPnl(rows: seq<TradeRow>, since: int): real {
    if rows == [] then 0.0
    else
      var n := |rows| - 1;
      DailyPnl(rows[..n], since)
      + if rows[n].status.Closed? && rows[n].closedAt.Some? && rows[n].closedAt.value >= since && rows[n].pnlUsd.Some?
        then rows[n].pnlUsd.value else 0.0
  }

  /** Adopting keeps the old rows in place and adds OPEN ones for exactly the unknown symbols. */
  lemma {:induction false} AdoptFacts(rows: seq<TradeRow>, positions: seq<Holding>, known: set<string>)
    requires DistinctIds(rows) && OneOpenPerSymbol(rows) && DistinctSymbols(positions)
    requires OpenSymbols(rows) <= known
    ensures var after := Adopt(rows, positions, known);
      && rows <= after && DistinctIds(after) && OneOpenPerSymbol(after)
      && OpenSymbols(after) == OpenSymbols(rows) + (SymbolsOf(positions) - known)
  {
    if positions != [] {
      var n := |positions| - 1;
      AdoptFacts(rows, positions[..n], known);
      SymbolsOfSnoc(positions, n);
      if positions[n].symbol !in known {
        AppendOpen(Adopt(rows, positions[..n], known), NewRow(positions[n]));
      }
    }
  }

  lemma SymbolsOfSnoc(positions: seq<Holding>, n: nat)
    requires DistinctSymbols(positions) && |positions| == n + 1
    ensures SymbolsOf(positions) == SymbolsOf(positions[..n]) + {positions[n].symbol}
    ensures positions[n].symbol !in SymbolsOf(positions[..n])
    ensures DistinctSymbols(positions[..n])
  {
    assert forall i :: 0 <= i < n ==> positions[..n][i] == positions[i];
  }

  lemma AppendOpen(rows: seq<TradeRow>, row: TradeRow)
    requires DistinctIds(rows) && OneOpenPerSymbol(rows) && row.status.Open? && row.symbol !in OpenSymbols(rows)
    ensures var after := rows + [row.(id := FreshId(rows))];
      DistinctIds(after) && OneOpenPerSymbol(after) && OpenSymbols(after) == OpenSymbols(rows) + {row.symbol}
  {
    FreshIdIsFresh(rows);
    OpenSymbolsSnoc(rows, row.(id := FreshId(rows)));
  }

  lemma {:induction false} AdoptingEarnsNothing(
      rows: seq<TradeRow>, positions: seq<Holding>, known: set<string>, since: int)
    ensures DailyPnl(Adopt(rows, positions, known), since) == DailyPnl(rows, since)
  {
    if positions != [] {
      var n := |positions| - 1;
      AdoptingEarnsNothing(rows, positions[..n], known, since);
      if positions[n].symbol !in known {
        var before := Adopt(rows, positions[..n], known);
        var row := NewRow(positions[n]).(id := FreshId(before));
        assert (before + [row])[..|before|] == before;
      }
    }
  }

  lemma {:induction false} ClosingOrphansEarnsNothing(rows: seq<TradeRow>, held: set<string>, now: int, since: int)
    ensures DailyPnl(CloseOrphans(rows, held, now), since) == DailyPnl(rows, since)
  {
    if rows != [] {
      var n := |rows| - 1;
      ClosingOrphansEarnsNothing(rows[..n], held, now, since);
      assert CloseOrphans(rows, held, now)[..n] == CloseOrphans(rows[..n], held, now);
    }
  }

  /** The realised profit since any moment stays what it was. */
  lemma {:induction false} ReconcilingEarnsNothing(
      rows: seq<TradeRow>, portfolio: seq<Holding>, now: int, since: int)
    ensures DailyPnl(Reconciled(rows, portfolio, now), since) == DailyPnl(rows, since)
  {
    var positions := Positions(portfolio);
    ClosingOrphansEarnsNothing(rows, SymbolsOf(positions), now, since);
    AdoptingEarnsNothing(CloseOrphans(rows, SymbolsOf(positions), now), positions, OpenSymbols(rows), since);
  }

  /** Afterwards the OPEN symbols are the broker's, one row each; every trade still held is
      untouched and every other one closed. */
  lemma {:induction false} ReconciledMatchesBroker(rows: seq<TradeRow>, portfolio: seq<Holding>, now: int)
    requires DistinctIds(rows) && OneOpenPerSymbol(rows)
    ensures var after, held := Reconciled(rows, portfolio, now), SymbolsOf(Positions(portfolio));
      && OpenSymbols(after) == held
      && DistinctIds(after) && OneOpenPerSymbol(after)
      && |rows| <= |after|
      && (forall i :: 0 <= i < |rows| && !Orphaned(rows[i], held) ==> after[i] == rows[i])
      && (forall i :: 0 <= i < |rows| && Orphaned(rows[i], held) ==>
            after[i] == CloseRow(rows[i], rows[i].entry, "RECONCILED_NOT_IN_IB", 0.0, now))
  {
    var positions := Positions(portfolio);
    PositionsFacts(portfolio);
    var closed := CloseOrphans(rows, SymbolsOf(positions), now);
    OrphansClosedValid(rows, SymbolsOf(positions), now);
    AdoptFacts(closed, positions, OpenSymbols(rows));
  }

  /** An adopted row carries the holding's shares at its average cost, with the levels of a long. */
  ghost predicate AdoptedFrom(row: TradeRow, h: Holding) {
    && row.symbol == h.symbol && row.entry == h.avgCost && row.status.Open?
    && (row.action.Buy? <==> h.quantity > 0.0)
    && row.quantity >= 0.0 && (row.quantity == h.quantity || row.quantity == -h.quantity)
    && row.stop == Round2(h.avgCost * 0.97) && row.takeProfit == Round2(h.avgCost * 1.06) && row.slPct == 0.03
    && row.remaining.None? && !row.partialDone && row.pnlUsd.None? && row.closedAt.None?
  }

  lemma NewRowAdopts(h: Holding, id: nat)
    ensures AdoptedFrom(NewRow(h).(id := id), h)
  {
  }

  /** The holdings whose symbol has no OPEN row yet. */
  function Unknown(positions: seq<Holding>, known: set<string>): (unknown: seq<Holding>)
    ensures forall h :: h in unknown <==> h in positions && h.symbol !in known
  {
    if positions == [] then []
    else
      var n := |positions| - 1;
      assert positions == positions[..n] + [positions[n]];
      Unknown(positions[..n], known) + if positions[n].symbol in known then [] else [positions[n]]
  }

  ghost predicate AllAdopted(rows: seq<TradeRow>, holdings: seq<Holding>) {
    |rows| == |holdings| && forall i :: 0 <= i < |rows| ==> AdoptedFrom(rows[i], holdings[i])
  }

  lemma AdoptedOneMore(rows: seq<TradeRow>, holdings: seq<Holding>, row: TradeRow, h: Holding)
    requires AllAdopted(rows, holdings) && AdoptedFrom(row, h)
    ensures AllAdopted(rows + [row], holdings + [h])
  {
  }

  lemma {:induction false} AdoptAdds(rows: seq<TradeRow>, positions: seq<Holding>, known: set<string>)
    returns (added: seq<TradeRow>)
    ensures Adopt(rows, positions, known) == rows + added
    ensures AllAdopted(added, Unknown(positions, known))
  {
    added := [];
    if positions != [] {
      var n := |positions| - 1;
      added := AdoptAdds(rows, positions[..n], known);
      if positions[n].symbol !in known {
        var row := NewRow(positions[n]).(id := FreshId(rows + added));
        NewRowAdopts(positions[n], row.id);
        AdoptedOneMore(added, Unknown(positions[..n], known), row, positions[n]);
        assert rows + (added + [row]) == rows + added + [row];
        added := added + [row];
      }
    }
  }

  /** The rows a reconciliation adds are, one for one and in this order, the broker's positions
      that had no OPEN row. */
  lemma {:induction false} ReconcilingAdoptsTheRest(rows: seq<TradeRow>, portfolio: seq<Holding>, now: int)
    ensures var after, unknown := Reconciled(rows, portfolio, now), Unknown(Positions(portfolio), OpenSymbols(rows));
      |rows| <= |after| && AllAdopted(after[|rows|..], unknown)
  {
    var positions := Positions(portfolio);
    var closed := CloseOrphans(rows, SymbolsOf(positions), now);
    var added := AdoptAdds(closed, positions, OpenSymbols(rows));
    assert (closed + added)[|rows|..] == added;
  }

  /** Of several entries for one symbol the last that is not zero counts. */
  ghost predicate LastOfSymbol(portfolio: seq<Holding>, h: Holding) {
    exists j :: 0 <= j < |portfolio| && portfolio[j] == h && h.quantity != 0.0
      && forall m :: j < m < |portfolio| && portfolio[m].symbol == h.symbol ==> portfolio[m].quantity == 0.0
  }

  lemma {:induction false} PutKeepsOthers(positions: seq<Holding>, h: Holding)
    requires DistinctSymbols(positions)
    ensures forall p :: p in Put(positions, h) ==> p == h || (p in positions && p.symbol != h.symbol)
  {
    if positions != [] && positions[0].symbol != h.symbol {
      PutKeepsOthers(positions[1..], h);
      assert forall p :: p in positions[1..] ==> p in positions;
    } else if positions != [] {
      forall p | p in positions[1..] ensures p in positions && p.symbol != h.symbol {
        var i :| 0 <= i < |positions[1..]| && positions[1..][i] == p;
        assert positions[i + 1] == p;
      }
    }
  }

  lemma LastStays(portfolio: seq<Holding>, last: Holding, h: Holding)
    requires LastOfSymbol(portfolio, h) && (last.symbol != h.symbol || last.quantity == 0.0)
    ensures LastOfSymbol(portfolio + [last], h)
  {
    var j :| 0 <= j < |portfolio| && portfolio[j] == h
             && forall m :: j < m < |portfolio| && portfolio[m].symbol == h.symbol ==> portfolio[m].quantity == 0.0;
    assert (portfolio + [last])[j] == h;
  }

  lemma {:induction false} PositionsAreLast(portfolio: seq<Holding>)
    ensures forall h :: h in Positions(portfolio) ==> LastOfSymbol(portfolio, h)
  {
    if portfolio != [] {
      var n := |portfolio| - 1;
      var before, last := Positions(portfolio[..n]), portfolio[n];
      PositionsAreLast(portfolio[..n]);
      PositionsFacts(portfolio[..n]);
      PutKeepsOthers(before, last);
      assert portfolio == portfolio[..n] + [last];
      forall h | h in Positions(portfolio) ensures LastOfSymbol(portfolio, h) {
        if h in before && (h.symbol != last.symbol || last.quantity == 0.0) {
          LastStays(portfolio[..n], last, h);
        } else {
          assert portfolio[n] == h && h.quantity != 0.0;
        }
      }
    }
  }

  /** A second pass over the same portfolio finds nothing to close, nothing to create and
      changes no row. */
  lemma {:induction false} ReconcilingTwiceIsReconcilingOnce(
      rows: seq<TradeRow>, portfolio: seq<Holding>, now: int, later: int)
    requires DistinctIds(rows) && OneOpenPerSymbol(rows)
    ensures var after := Reconciled(rows, portfolio, now);
      && Reconciled(after, portfolio, later) == after
      && Orphans(OpenTrades(after), SymbolsOf(Positions(portfolio))) == 0
      && Adopted(Positions(portfolio), OpenSymbols(after)) == 0
  {
    var after, positions := Reconciled(rows, portfolio, now), Positions(portfolio);
    ReconciledMatchesBroker(rows, portfolio, now);
    assert CloseOrphans(after, SymbolsOf(positions), later) == after by {
      assert forall i :: 0 <= i < |after| && after[i].status.Open? ==> after[i].symbol in OpenSymbols(after);
    }
    NothingToAdopt(after, positions, OpenSymbols(after));
    forall t | t in OpenTrades(after) ensures t.symbol in SymbolsOf(positions) {
      assert t in after;
    }
    NoOrphans(OpenTrades(after), SymbolsOf(positions));
  }

  lemma {:induction false} NothingToAdopt(rows: seq<TradeRow>, positions: seq<Holding>, known: set<string>)
    requires SymbolsOf(positions) <= known
    ensures Adopt(rows, positions, known) == rows && Adopted(positions, known) == 0
  {
    if positions != [] {
      var n := |positions| - 1;
      assert forall i :: 0 <= i < n ==> positions[..n][i] == positions[i];
      NothingToAdopt(rows, positions[..n], known);
    }
  }

  lemma {:induction false} NoOrphans(trades: seq<TradeRow>, held: set<string>)
    requires forall t :: t in trades ==> t.symbol in held
    ensures Orphans(trades, held) == 0
  {
    if trades != [] {
      NoOrphans(trades[..|trades| - 1], held);
    }
  }
}
