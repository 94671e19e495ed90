/** The stop over a whole life whose orders may be refused: a function of the prices seen and of
    the one tick whose half exit goes through, and exactly when it retreats. */
module PositionLives {
  import opened Wrappers
  import opened Rounding
  import opened Trades
  import opened TrailingStop
  import opened PartialExit
  import opened PositionManager
  import opened PositionRuns

  /** The best price that counts: since the opening, or since the half exit that went through. */
  datatype Track = BeforeHalf(best: Option<real>) | AfterHalf(since: real)

  function Advance(row: TradeRow, track: Track, t: Tick): Track
    requires row.entry != 0.0
  {
    if t.price.None? then track
    else
      var price := t.price.value;
      match track
      case AfterHalf(best) => AfterHalf(BestOf(row.action, best, price))
      case BeforeHalf(best) =>
        // a tick that plans an exit of everything skips the stop updater
        if CheckExit(row, price).closeAll then track
        else if PartialGoesThrough(row, price, t) then AfterHalf(price)
        else BeforeHalf(MergeBest(row.action, best, price))
  }

  function TrackOf(row: TradeRow, ticks: seq<Tick>): Track
    requires row.entry != 0.0
  {
    if ticks == [] then BeforeHalf(None)
    else Advance(row, TrackOf(row, ticks[..|ticks| - 1]), ticks[|ticks| - 1])
  }

  /** The running-maximum stop from the stop set at the opening, or from breakeven. */
  function TrackStop(row: TradeRow, track: Track): real
    requires row.entry != 0.0
  {
    match track
    case BeforeHalf(best) => HighWaterStop(row.action, row.entry, row.slPct, row.stop, best)
    case AfterHalf(best) => HighWaterStop(row.action, row.entry, row.slPct, BreakevenStop(row), Some(best))
  }

  ghost predicate Startable(row: TradeRow) {
    && row.entry > 0.0 && row.slPct >= 0.0
    && row.status.Open? && !row.partialDone
    && OnCents(row.stop)
  }

  ghost predicate Priced(row: TradeRow, ticks: seq<Tick>) {
    forall i :: 0 <= i < |ticks| && ticks[i].price.Some? && row.action.Sell? ==> ticks[i].price.value >= 0.0
  }

  ghost predicate Follows(row: TradeRow, r: TradeRow, track: Track)
    requires row.entry != 0.0
  {
    && SameTerms(r, row)
    && OnCents(r.stop)
    && r.stop == TrackStop(row, track)
    && (r.status.Open? ==> (r.partialDone <==> track.AfterHalf?))
    && (r.status.Open? && track.BeforeHalf? ==> QtyOf(r) == QtyOf(row))
  }

  /** What the row plans at a price is what the opening row would, until the half exit. */
  lemma SamePlan(row: TradeRow, r: TradeRow, track: Track, price: real)
    requires row.entry != 0.0 && !row.partialDone && r.status.Open? && Follows(row, r, track)
    ensures track.BeforeHalf? ==> CheckExit(r, price) == CheckExit(row, price)
    ensures track.AfterHalf? ==> !CheckExit(r, price).shouldExit && !CheckExit(r, price).closeAll
  {
  }

  lemma QuantityKept(r: TradeRow, t: Tick)
    requires r.entry != 0.0 && r.status.Open? && t.price.Some? && !PartialGoesThrough(r, t.price.value, t)
    ensures QtyOf(StepRow(INTENDED, r, t)) == QtyOf(r)
  {
  }

  lemma TickFollows(row: TradeRow, r: TradeRow, track: Track, t: Tick)
    requires Startable(row) && r.status.Open? && Follows(row, r, track)
    requires t.price.Some? && (row.action.Sell? ==> t.price.value >= 0.0)
    ensures Follows(row, StepRow(INTENDED, r, t), Advance(row, track, t))
  {
    var price := t.price.value;
    StepSummary(INTENDED, r, t);
    SamePlan(row, r, track, price);
    NextFollows(row, r, track, StepRow(INTENDED, r, t), t);
  }

  lemma NextFollows(row: TradeRow, r: TradeRow, track: Track, next: TradeRow, t: Tick)
    requires Startable(row) && r.status.Open? && Follows(row, r, track) && t.price.Some?
    requires StepFacts(INTENDED, r, next, t) && next == StepRow(INTENDED, r, t)
    requires track.BeforeHalf? ==> CheckExit(r, t.price.value) == CheckExit(row, t.price.value)
    requires track.AfterHalf? ==> !CheckExit(r, t.price.value).shouldExit && !CheckExit(r, t.price.value).closeAll
    ensures Follows(row, next, Advance(row, track, t))
  {
    var price := t.price.value;
    if !PartialGoesThrough(r, price, t) {
      QuantityKept(r, t);
      match track
      case BeforeHalf(None) =>
      case BeforeHalf(Some(best)) => RatchetMerges(row.action, row.entry, row.slPct, row.stop, best, price);
      case AfterHalf(best) => RatchetMerges(row.action, row.entry, row.slPct, BreakevenStop(row), best, price);
    }
  }

  lemma {:induction false} OpenBefore(row: TradeRow, ticks: seq<Tick>)
    requires row.entry != 0.0 && ticks != [] && RunRow(INTENDED, row, ticks).status.Open?
    ensures RunRow(INTENDED, row, ticks[..|ticks| - 1]).status.Open?
  {
    OpenBeforeStep(RunRow(INTENDED, row, ticks[..|ticks| - 1]), ticks[|ticks| - 1], RunRow(INTENDED, row, ticks));
  }

  lemma OpenBeforeStep(r: TradeRow, t: Tick, next: TradeRow)
    requires r.entry != 0.0 && next == StepRow(INTENDED, r, t) && next.status.Open?
    ensures r.status.Open?
  {
  }

  /** Whatever became of the orders: as long as the row was OPEN before the last tick, its stop
      is the running-maximum stop of the prices that count. */
  lemma {:induction false} LifeStopFollowsPrices(row: TradeRow, ticks: seq<Tick>)
    requires Startable(row) && Priced(row, ticks)
    requires ticks != [] ==> RunRow(INTENDED, row, ticks[..|ticks| - 1]).status.Open?
    ensures Follows(row, RunRow(INTENDED, row, ticks), TrackOf(row, ticks))
  {
    if ticks != [] {
      var n := |ticks| - 1;
      if n > 0 {
        OpenBefore(row, ticks[..n]);
      }
      LifeStopFollowsPrices(row, ticks[..n]);
      if ticks[n].price.Some? {
        TickFollows(row, RunRow(INTENDED, row, ticks[..n]), TrackOf(row, ticks[..n]), ticks[n]);
      }
    }
  }

  // ---- When a life retreats ----

  function StopAt(row: TradeRow, ticks: seq<Tick>, n: nat): real
    requires row.entry != 0.0 && n <= |ticks|
  {
    RunRow(INTENDED, row, ticks[..n]).stop
  }

  ghost predicate Retreats(row: TradeRow, ticks: seq<Tick>)
    requires row.entry != 0.0
  {
    exists i, j :: 0 <= i <= j <= |ticks| && Better(row.action, StopAt(row, ticks, i), StopAt(row, ticks, j))
  }

  /** The half exit goes through at tick `h` while the prices so far had earned a stop beyond
      what it leaves. */
  ghost predicate HalfExitTooLate(row: TradeRow, ticks: seq<Tick>, h: nat)
    requires row.entry != 0.0 && h < |ticks|
  {
    && RunRow(INTENDED, row, ticks[..h]).status.Open?
    && ticks[h].price.Some?
    && TrackOf(row, ticks[..h]).BeforeHalf?
    && PartialGoesThrough(row, ticks[h].price.value, ticks[h])
    && !CheckExit(row, ticks[h].price.value).closeAll
    && Better(row.action, TrackStop(row, TrackOf(row, ticks[..h])), StopAfterPartial(row, ticks[h].price.value))
  }

  lemma FollowsUpTo(row: TradeRow, ticks: seq<Tick>, n: nat)
    requires Startable(row) && Priced(row, ticks) && n <= |ticks|
    requires RunRow(INTENDED, row, ticks[..n]).status.Open?
    ensures Follows(row, RunRow(INTENDED, row, ticks[..n]), TrackOf(row, ticks[..n]))
  {
    if n > 0 {
      OpenBefore(row, ticks[..n]);
    }
    LifeStopFollowsPrices(row, ticks[..n]);
  }

  lemma RunNext(row: TradeRow, ticks: seq<Tick>, n: nat)
    requires row.entry != 0.0 && n < |ticks|
    ensures RunRow(INTENDED, row, ticks[..n + 1]) == StepRow(INTENDED, RunRow(INTENDED, row, ticks[..n]), ticks[n])
    ensures TrackOf(row, ticks[..n + 1]) == Advance(row, TrackOf(row, ticks[..n]), ticks[n])
  {
    assert ticks[..n + 1][..n] == ticks[..n];
  }

  lemma TickRetreatsIff(row: TradeRow, ticks: seq<Tick>, n: nat)
    requires Startable(row) && Priced(row, ticks) && n < |ticks|
    ensures Better(row.action, StopAt(row, ticks, n), StopAt(row, ticks, n + 1)) <==> HalfExitTooLate(row, ticks, n)
  {
    var r, t := RunRow(INTENDED, row, ticks[..n]), ticks[n];
    RunNext(row, ticks, n);
    if r.status.Open? && t.price.Some? {
      FollowsUpTo(row, ticks, n);
      SamePlan(row, r, TrackOf(row, ticks[..n]), t.price.value);
      RowRetreatsIff(row, r, TrackOf(row, ticks[..n]), t);
    }
  }

  lemma RowRetreatsIff(row: TradeRow, r: TradeRow, track: Track, t: Tick)
    requires Startable(row) && r.status.Open? && Follows(row, r, track)
    requires t.price.Some? && (row.action.Sell? ==> t.price.value >= 0.0)
    ensures Better(row.action, r.stop, StepRow(INTENDED, r, t).stop) <==>
      && track.BeforeHalf?
      && PartialGoesThrough(row, t.price.value, t)
      && !CheckExit(row, t.price.value).closeAll
      && Better(row.action, TrackStop(row, track), StopAfterPartial(row, t.price.value))
  {
    StepRetreatsIff(INTENDED, r, t);
    SamePlan(row, r, track, t.price.value);
  }

  lemma {:induction false} NoTickNoRetreat(row: TradeRow, ticks: seq<Tick>, i: nat, j: nat)
    requires Startable(row) && Priced(row, ticks) && i <= j <= |ticks|
    requires forall h :: 0 <= h < |ticks| ==> !HalfExitTooLate(row, ticks, h)
    ensures !Better(row.action, StopAt(row, ticks, i), StopAt(row, ticks, j))
    decreases j - i
  {
    if i < j {
      NoTickNoRetreat(row, ticks, i, j - 1);
      TickRetreatsIff(row, ticks, j - 1);
    }
  }

  /** A life's stop retreats if and only if its half exit goes through too late: at a price that
      leaves a worse stop than the earlier prices had earned. */
  lemma {:induction false} LifeRetreatsIff(row: TradeRow, ticks: seq<Tick>)
    requires Startable(row) && Priced(row, ticks)
    ensures Retreats(row, ticks) <==> exists h :: 0 <= h < |ticks| && HalfExitTooLate(row, ticks, h)
  {
    if h :| 0 <= h < |ticks| && HalfExitTooLate(row, ticks, h) {
      TickRetreatsIff(row, ticks, h);
      assert Better(row.action, StopAt(row, ticks, h), StopAt(row, ticks, h + 1));
    } else {
      forall i, j | 0 <= i <= j <= |ticks|
        ensures !Better(row.action, StopAt(row, ticks, i), StopAt(row, ticks, j))
      {
        NoTickNoRetreat(row, ticks, i, j);
      }
    }
  }

  lemma {:induction false} AfterHalfStays(row: TradeRow, ticks: seq<Tick>, n: nat)
    requires row.entry != 0.0 && n <= |ticks| && TrackOf(row, ticks[..n]).AfterHalf?
    ensures TrackOf(row, ticks).AfterHalf?
    decreases |ticks|
  {
    if n < |ticks| {
      var m := |ticks| - 1;
      assert ticks[..m][..n] == ticks[..n];
      AfterHalfStays(row, ticks[..m], n);
    } else {
      assert ticks[..n] == ticks;
    }
  }

  /** It does so on at most one tick. */
  lemma RetreatsOnce(row: TradeRow, ticks: seq<Tick>, h: nat, k: nat)
    requires row.entry != 0.0 && h < k < |ticks| && HalfExitTooLate(row, ticks, h)
    ensures !HalfExitTooLate(row, ticks, k)
  {
    RunNext(row, ticks, h);
    assert ticks[..k][..h + 1] == ticks[..h + 1];
    AfterHalfStays(row, ticks[..k], h + 1);
  }

  /** The best price before the half exit was seen on a tick whose half exit did not happen. */
  lemma {:induction false} BestWasSeen(row: TradeRow, ticks: seq<Tick>) returns (k: nat)
    requires row.entry != 0.0 && TrackOf(row, ticks).BeforeHalf? && TrackOf(row, ticks).best.Some?
    ensures k < |ticks| && ticks[k].price == Some(TrackOf(row, ticks).best.value)
    ensures !PartialGoesThrough(row, ticks[k].price.value, ticks[k])
  {
    var n := |ticks| - 1;
    if TrackOf(row, ticks[..n]) == TrackOf(row, ticks) {
      k := BestWasSeen(row, ticks[..n]);
      assert ticks[..n][k] == ticks[k];
    } else {
      k := n;
    }
  }

  /** A position whose stop starts on the loss side retreats only after a half exit was refused:
      the trigger had been reached on an earlier tick. */
  lemma FreshRetreatNeedsRefusal(row: TradeRow, ticks: seq<Tick>, h: nat) returns (k: nat)
    requires Fresh(row) && h < |ticks| && HalfExitTooLate(row, ticks, h)
    ensures k < h && ticks[k].price.Some? && Triggered(row, ticks[k].price.value) && ticks[k].partial.Refused?
  {
    var track, price := TrackOf(row, ticks[..h]), ticks[h].price.value;
    LeavesBreakeven(row, price);
    if track.best.Some? {
      EarnedNeedsTrigger(row, track.best.value);
      k := BestWasSeen(row, ticks[..h]);
      assert ticks[..h][k] == ticks[k];
    } else {
      assert false;
    }
  }

  lemma LeavesBreakeven(row: TradeRow, price: real)
    requires row.entry != 0.0
    ensures !Better(row.action, BreakevenStop(row), StopAfterPartial(row, price))
  {
  }
}
