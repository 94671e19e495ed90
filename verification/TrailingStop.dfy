/** The stop updater: breakeven and trailing rules for one price tick. */
module TrailingStop {
  import opened Wrappers
  import opened Rounding
  import opened Trades

  const BREAKEVEN_MULTIPLIER := 1.5
  const BREAKEVEN_BUFFER := 0.003
  const TRAILING_MULTIPLIER := 3.0
  const TRAILING_PCT := 0.5

  datatype Reason = Breakeven | Trailing

  datatype StopUpdate = StopUpdate(newStop: Option<real>, reason: Option<Reason>, shouldClose: bool)

  function PnlPct(action: Action, entry: real, price: real): real
    requires entry != 0.0
  {
    if action.Buy? then (price - entry) / entry else (entry - price) / entry
  }

  function BreakevenPrice(action: Action, entry: real): real {
    if action.Buy? then entry * (1.0 + BREAKEVEN_BUFFER) else entry * (1.0 - BREAKEVEN_BUFFER)
  }

  function TrailingPrice(action: Action, entry: real, price: real): real {
    if action.Buy? then entry + (price - entry) * TRAILING_PCT
    else entry - (entry - price) * TRAILING_PCT
  }

  /** A stop (or a price) that is strictly more favourable to the position. */
  predicate Better(action: Action, a: real, b: real) {
    if action.Buy? then a > b else a < b
  }

  function BestOf(action: Action, a: real, b: real): real {
    if Better(action, b, a) then b else a
  }

  /** The two rules in turn: each proposes its level only where that improves on the stop, and
      trailing also has to improve on a breakeven proposed just before. */
  function Pick(action: Action, stop: real, breakeven: real, trailing: real, armed: bool, trails: bool)
    : (Option<real>, Option<Reason>)
  {
    var first: Option<real> := if armed && Better(action, breakeven, stop) then Some(breakeven) else None;
    if trails && Better(action, trailing, stop) && (first.None? || Better(action, trailing, first.value)) then
      (Some(trailing), Some(Trailing))
    else if first.Some? then (first, Some(Breakeven))
    else (None, None)
  }

  function UpdateStopLevels(action: Action, entry: real, slPct: real, stop: real, price: real): StopUpdate
    requires entry != 0.0
  {
    var pnl := PnlPct(action, entry, price);
    var breakeven := BreakevenPrice(action, entry);
    var trailing := TrailingPrice(action, entry, price);
    var (newStop, reason) :=
      Pick(action, stop, breakeven, trailing, pnl > BREAKEVEN_MULTIPLIER * slPct, pnl > TRAILING_MULTIPLIER * slPct);
    var shouldClose := newStop.Some? &&
                       if action.Buy? then price <= newStop.value else price >= newStop.value;
    // a zero stop is falsy, so it is dropped along with an absent one
    StopUpdate(if newStop.Some? && newStop.value != 0.0 then Some(Round2(newStop.value)) else None,
               reason, shouldClose)
  }

  /** `get_current_sl`: the updated stop if there is one, else the stop as it stands. */
  function GetCurrentStop(action: Action, entry: real, slPct: real, stop: real, price: real): real
    requires entry != 0.0
  {
    var r := UpdateStopLevels(action, entry, slPct, stop, price);
    if r.newStop.Some? then r.newStop.value else stop
  }

  function StopAfter(action: Action, entry: real, slPct: real, stop: real, prices: seq<real>): real
    requires entry != 0.0
  {
    if prices == [] then stop
    else
      var n := |prices| - 1;
      GetCurrentStop(action, entry, slPct, StopAfter(action, entry, slPct, stop, prices[..n]), prices[n])
  }

  // ---- The specification: only the best price ever seen matters ----

  /** The highest price for a BUY, the lowest for a SELL. */
  function BestPrice(action: Action, prices: seq<real>): Option<real> {
    if prices == [] then None
    else
      var n := |prices| - 1;
      var before := BestPrice(action, prices[..n]);
      if before.None? then Some(prices[n]) else Some(BestOf(action, before.value, prices[n]))
  }

  /** What a best price of `best` entitles the position to, before rounding. */
  function Earned(action: Action, entry: real, slPct: real, best: real): Option<real>
    requires entry != 0.0
  {
    var pnl := PnlPct(action, entry, best);
    if pnl > TRAILING_MULTIPLIER * slPct then
      Some(BestOf(action, BreakevenPrice(action, entry), TrailingPrice(action, entry, best)))
    else if pnl > BREAKEVEN_MULTIPLIER * slPct then Some(BreakevenPrice(action, entry))
    else None
  }

  function Ratchet(action: Action, stop: real, earned: Option<real>): real {
    if earned.None? then stop else BestOf(action, stop, Round2(earned.value))
  }

  function HighWaterStop(action: Action, entry: real, slPct: real, stop: real, best: Option<real>): real
    requires entry != 0.0
  {
    if best.None? then stop else Ratchet(action, stop, Earned(action, entry, slPct, best.value))
  }

  /** What the updater relies on: a positive entry, a non-negative stop distance, and for a
      SELL non-negative prices (a stop of exactly zero would be dropped as falsy). */
  ghost predicate Tradable(action: Action, entry: real, slPct: real, prices: seq<real>) {
    && entry > 0.0
    && slPct >= 0.0
    && (action.Sell? ==> forall i :: 0 <= i < |prices| ==> prices[i] >= 0.0)
  }

  // ---- Supporting facts ----

  lemma PnlMonotone(action: Action, entry: real, a: real, b: real)
    requires entry > 0.0
    requires !Better(action, a, b)
    ensures PnlPct(action, entry, a) <= PnlPct(action, entry, b)
  {
    var x, y := PnlPct(action, entry, a), PnlPct(action, entry, b);
    assert x * entry == (if action.Buy? then a - entry else entry - a);
    assert y * entry == (if action.Buy? then b - entry else entry - b);
    if x > y {
      assert (x - y) * entry > 0.0;
    }
  }

  lemma PnlSign(action: Action, entry: real, price: real)
    requires entry > 0.0 && PnlPct(action, entry, price) > 0.0
    ensures Better(action, price, entry)
  {
    var x := PnlPct(action, entry, price);
    assert x * entry == (if action.Buy? then price - entry else entry - price);
    assert x * entry > 0.0;
  }

  lemma PickRatchets(action: Action, stop: real, breakeven: real, trailing: real, armed: bool, trails: bool)
    requires OnCents(stop) && (trails ==> armed)
    ensures (match Pick(action, stop, breakeven, trailing, armed, trails).0
             case Some(picked) => Round2(picked)
             case None => stop)
         == Ratchet(action, stop, if trails then Some(BestOf(action, breakeven, trailing))
                                  else if armed then Some(breakeven) else None)
  {
    Round2Laws(breakeven, stop);
    Round2Laws(stop, breakeven);
    Round2Laws(trailing, stop);
    Round2Laws(stop, trailing);
  }

  lemma Levels(action: Action, entry: real, price: real)
    requires entry > 0.0
    ensures BreakevenPrice(action, entry) == (if action.Buy? then entry + 0.003 * entry else entry - 0.003 * entry)
    ensures TrailingPrice(action, entry, price) == (entry + price) / 2.0
    ensures BreakevenPrice(action, entry) > 0.0
  {
  }

  /** One tick ratchets the stop to the rounded entitlement of that tick's price. */
  lemma TickRatchets(action: Action, entry: real, slPct: real, stop: real, price: real)
    requires entry > 0.0 && slPct >= 0.0 && (action.Sell? ==> price >= 0.0) && OnCents(stop)
    ensures GetCurrentStop(action, entry, slPct, stop, price)
         == Ratchet(action, stop, Earned(action, entry, slPct, price))
    ensures OnCents(GetCurrentStop(action, entry, slPct, stop, price))
  {
    var pnl := PnlPct(action, entry, price);
    var breakeven, trailing := BreakevenPrice(action, entry), TrailingPrice(action, entry, price);
    var armed, trails := pnl > BREAKEVEN_MULTIPLIER * slPct, pnl > TRAILING_MULTIPLIER * slPct;
    Levels(action, entry, price);
    if pnl > 0.0 {
      PnlSign(action, entry, price);
    }
    PickRatchets(action, stop, breakeven, trailing, armed, trails);
    Round2Laws(breakeven, trailing);
    Round2Laws(trailing, breakeven);
  }

  lemma EarnedMonotone(action: Action, entry: real, slPct: real, a: real, b: real)
    requires entry > 0.0 && slPct >= 0.0
    requires !Better(action, a, b)
    ensures Earned(action, entry, slPct, a).Some? ==>
              && Earned(action, entry, slPct, b).Some?
              && !Better(action, Earned(action, entry, slPct, a).value, Earned(action, entry, slPct, b).value)
  {
    PnlMonotone(action, entry, a, b);
  }

  lemma RoundedBest(action: Action, a: real, b: real)
    requires !Better(action, a, b)
    ensures !Better(action, Round2(a), Round2(b))
  {
    Round2Laws(a, b);
    Round2Laws(b, a);
  }

  /** Ratcheting by two prices is ratcheting by the better of them. */
  lemma RatchetMerges(action: Action, entry: real, slPct: real, stop: real, a: real, b: real)
    requires entry > 0.0 && slPct >= 0.0
    ensures Ratchet(action, Ratchet(action, stop, Earned(action, entry, slPct, a)), Earned(action, entry, slPct, b))
         == Ratchet(action, stop, Earned(action, entry, slPct, BestOf(action, a, b)))
  {
    if Better(action, b, a) {
      EarnedMonotone(action, entry, slPct, a, b);
      if Earned(action, entry, slPct, a).Some? {
        RoundedBest(action, Earned(action, entry, slPct, a).value, Earned(action, entry, slPct, b).value);
      }
    } else {
      EarnedMonotone(action, entry, slPct, b, a);
      if Earned(action, entry, slPct, b).Some? {
        RoundedBest(action, Earned(action, entry, slPct, b).value, Earned(action, entry, slPct, a).value);
      }
    }
  }

  // ---- Main results ----

  lemma {:induction false} StopStaysOnCents(action: Action, entry: real, slPct: real, stop: real, prices: seq<real>)
    requires Tradable(action, entry, slPct, prices) && OnCents(stop)
    ensures OnCents(StopAfter(action, entry, slPct, stop, prices))
  {
    if prices != [] {
      var n := |prices| - 1;
      StopStaysOnCents(action, entry, slPct, stop, prices[..n]);
      TickRatchets(action, entry, slPct, StopAfter(action, entry, slPct, stop, prices[..n]), prices[n]);
    }
  }

  /** The memoryless updater computes the running-maximum stop, for every run of ticks. */
  lemma {:induction false} MemorylessStopIsHighWater(
      action: Action, entry: real, slPct: real, stop: real, prices: seq<real>)
    requires Tradable(action, entry, slPct, prices) && OnCents(stop)
    ensures StopAfter(action, entry, slPct, stop, prices)
         == HighWaterStop(action, entry, slPct, stop, BestPrice(action, prices))
  {
    if prices != [] {
      var n := |prices| - 1;
      MemorylessStopIsHighWater(action, entry, slPct, stop, prices[..n]);
      StopStaysOnCents(action, entry, slPct, stop, prices[..n]);
      var before := StopAfter(action, entry, slPct, stop, prices[..n]);
      TickRatchets(action, entry, slPct, before, prices[n]);
      var best := BestPrice(action, prices[..n]);
      if best.Some? {
        RatchetMerges(action, entry, slPct, stop, best.value, prices[n]);
      }
    }
  }

  // ---- The rules in money ----

  /** What the position has gained per share at a price. */
  function Gain(action: Action, entry: real, price: real): real {
    match action case Buy => price - entry case Sell => entry - price
  }

  function Max(a: real, b: real): real { if a >= b then a else b }

  function Min(a: real, b: real): real { if a <= b then a else b }

  /** The level a price entitles to: none up to a gain of 1.5 stop distances, 0.3% beyond entry
      up to three, and the better of that and half the gain from there. */
  function LevelByGain(action: Action, entry: real, slPct: real, best: real): Option<real> {
    var gain, distance, half := Gain(action, entry, best), slPct * entry, (entry + best) / 2.0;
    var breakeven := if action.Buy? then entry + 0.003 * entry else entry - 0.003 * entry;
    if gain <= 1.5 * distance then None
    else if gain <= 3.0 * distance then Some(breakeven)
    else Some(if action.Buy? then Max(breakeven, half) else Min(breakeven, half))
  }

  /** The stop a best price of `best` stands for: its level on the cent grid, if that improves. */
  function StopByGain(action: Action, entry: real, slPct: real, stop: real, best: real): real {
    match LevelByGain(action, entry, slPct, best)
    case None => stop
    case Some(level) => if action.Buy? then Max(stop, Round2(level)) else Min(stop, Round2(level))
  }

  lemma PnlIsGain(action: Action, entry: real, price: real, factor: real, slPct: real)
    requires entry > 0.0
    ensures PnlPct(action, entry, price) * entry == Gain(action, entry, price)
    ensures PnlPct(action, entry, price) > factor * slPct <==> Gain(action, entry, price) > factor * (slPct * entry)
    ensures PnlPct(action, entry, price) >= factor * slPct <==> Gain(action, entry, price) >= factor * (slPct * entry)
  {
    var x, y := PnlPct(action, entry, price), factor * slPct;
    assert x * entry == Gain(action, entry, price);
    assert y * entry == factor * (slPct * entry);
    if x > y {
      assert (x - y) * entry > 0.0;
    } else if x < y {
      assert (y - x) * entry > 0.0;
    }
  }

  lemma EarnedByGain(action: Action, entry: real, slPct: real, best: real)
    requires entry > 0.0 && slPct >= 0.0
    ensures Earned(action, entry, slPct, best) == LevelByGain(action, entry, slPct, best)
  {
    PnlIsGain(action, entry, best, 1.5, slPct);
    PnlIsGain(action, entry, best, 3.0, slPct);
    Levels(action, entry, best);
    NonNegativeProduct(slPct, entry);
  }

  lemma NonNegativeProduct(a: real, b: real)
    requires a >= 0.0 && b >= 0.0
    ensures a * b >= 0.0
  {
  }

  lemma EntitlementByGain(action: Action, entry: real, slPct: real, stop: real, best: real)
    requires entry > 0.0 && slPct >= 0.0
    ensures Ratchet(action, stop, Earned(action, entry, slPct, best)) == StopByGain(action, entry, slPct, stop, best)
  {
    EarnedByGain(action, entry, slPct, best);
  }

  /** One tick: the new stop by the gain at its price. */
  lemma TickByGain(action: Action, entry: real, slPct: real, stop: real, price: real)
    requires entry > 0.0 && slPct >= 0.0 && (action.Sell? ==> price >= 0.0) && OnCents(stop)
    ensures GetCurrentStop(action, entry, slPct, stop, price) == StopByGain(action, entry, slPct, stop, price)
  {
    TickRatchets(action, entry, slPct, stop, price);
    EntitlementByGain(action, entry, slPct, stop, price);
  }

  /** The close hint by gain: a level is earned that improves on the stop, and the price is not
      beyond it. */
  lemma CloseHintByGain(action: Action, entry: real, slPct: real, stop: real, price: real)
    requires entry > 0.0 && slPct >= 0.0
    ensures var level := LevelByGain(action, entry, slPct, price);
      UpdateStopLevels(action, entry, slPct, stop, price).shouldClose <==>
        level.Some? && if action.Buy? then level.value > stop && price <= level.value
                       else level.value < stop && price >= level.value
  {
    PnlIsGain(action, entry, price, 1.5, slPct);
    PnlIsGain(action, entry, price, 3.0, slPct);
    Levels(action, entry, price);
    NonNegativeProduct(slPct, entry);
  }

  /** Any run of ticks: the stop is the one its highest price stands for, or for a SELL its
      lowest, whatever the rest. */
  lemma {:induction false} RunByGain(
      action: Action, entry: real, slPct: real, stop: real, prices: seq<real>, best: real)
    requires Tradable(action, entry, slPct, prices) && OnCents(stop)
    requires best in prices
    requires forall p :: p in prices ==> if action.Buy? then p <= best else p >= best
    ensures StopAfter(action, entry, slPct, stop, prices) == StopByGain(action, entry, slPct, stop, best)
  {
    BestPriceIsBest(action, prices);
    MemorylessStopIsHighWater(action, entry, slPct, stop, prices);
    EntitlementByGain(action, entry, slPct, stop, best);
  }

  /** Later ticks never take back what earlier ticks earned. */
  lemma {:induction false} StopNeverRetreats(
      action: Action, entry: real, slPct: real, stop: real, prices: seq<real>, more: seq<real>)
    requires Tradable(action, entry, slPct, prices + more) && OnCents(stop)
    ensures !Better(action, StopAfter(action, entry, slPct, stop, prices),
                            StopAfter(action, entry, slPct, stop, prices + more))
    decreases |more|
  {
    if more == [] {
      assert prices + more == prices;
    } else {
      var n := |more| - 1;
      var all := prices + more;
      assert all[|all| - 1] == more[n];
      assert forall i :: 0 <= i < |prices + more[..n]| ==> (prices + more[..n])[i] == all[i];
      assert all[..|all| - 1] == prices + more[..n];
      StopNeverRetreats(action, entry, slPct, stop, prices, more[..n]);
      StopStaysOnCents(action, entry, slPct, stop, prices + more[..n]);
      TickRatchets(action, entry, slPct, StopAfter(action, entry, slPct, stop, prices + more[..n]), more[n]);
    }
  }

  lemma {:induction false} BestPriceIsBest(action: Action, prices: seq<real>)
    ensures prices == [] <==> BestPrice(action, prices).None?
    ensures prices != [] ==> BestPrice(action, prices).value in prices
    ensures forall p :: p in prices ==> !Better(action, p, BestPrice(action, prices).value)
  {
    if prices != [] {
      var n := |prices| - 1;
      var best := BestPrice(action, prices).value;
      BestPriceIsBest(action, prices[..n]);
      assert prices == prices[..n] + [prices[n]];
      assert best == prices[n] || best in prices[..n];
      forall p | p in prices ensures !Better(action, p, best) {
        assert p in prices[..n] || p == prices[n];
      }
    }
  }

  /** Only which prices were seen matters, not their order or how often. */
  lemma TickOrderIsIrrelevant(
      action: Action, entry: real, slPct: real, stop: real, prices: seq<real>, others: seq<real>)
    requires Tradable(action, entry, slPct, prices) && OnCents(stop)
    requires forall p :: p in prices <==> p in others
    ensures StopAfter(action, entry, slPct, stop, prices) == StopAfter(action, entry, slPct, stop, others)
  {
    assert Tradable(action, entry, slPct, others) by {
      assert forall i :: 0 <= i < |others| ==> others[i] in others;
    }
    assert |prices| > 0 ==> prices[0] in prices;
    assert |others| > 0 ==> others[0] in others;
    BestPriceIsBest(action, prices);
    BestPriceIsBest(action, others);
    MemorylessStopIsHighWater(action, entry, slPct, stop, prices);
    MemorylessStopIsHighWater(action, entry, slPct, stop, others);
  }

  /** The close hint can only fire when the price is inside the breakeven buffer, which takes
      an original stop distance under two thirds of that buffer. */
  lemma CloseHintNeedsTightStop(action: Action, entry: real, slPct: real, stop: real, price: real)
    requires entry > 0.0 && slPct >= 0.0
    requires UpdateStopLevels(action, entry, slPct, stop, price).shouldClose
    ensures BREAKEVEN_MULTIPLIER * slPct < PnlPct(action, entry, price) <= BREAKEVEN_BUFFER
    ensures UpdateStopLevels(action, entry, slPct, stop, price).reason == Some(Breakeven)
  {
    PnlSign(action, entry, price);
    Levels(action, entry, price);
    PickedCloses(action, entry, stop, price,
                 PnlPct(action, entry, price) > BREAKEVEN_MULTIPLIER * slPct,
                 PnlPct(action, entry, price) > TRAILING_MULTIPLIER * slPct);
    if PnlPct(action, entry, price) > BREAKEVEN_BUFFER {
      PnlScales(action, entry, price, BREAKEVEN_BUFFER);
    }
  }

  lemma PnlScales(action: Action, entry: real, price: real, pct: real)
    requires entry > 0.0 && PnlPct(action, entry, price) > pct
    ensures if action.Buy? then price > entry + pct * entry else price < entry - pct * entry
  {
    var x := PnlPct(action, entry, price);
    assert x * entry == (if action.Buy? then price - entry else entry - price);
    assert (x - pct) * entry > 0.0;
  }

  lemma PickedCloses(action: Action, entry: real, stop: real, price: real, armed: bool, trails: bool)
    requires entry > 0.0 && Better(action, price, entry)
    ensures match Pick(action, stop, BreakevenPrice(action, entry), TrailingPrice(action, entry, price), armed, trails)
            case (Some(picked), reason) =>
              Better(action, price, picked) || (reason == Some(Breakeven) && picked == BreakevenPrice(action, entry))
            case (None, _) => true
  {
    Levels(action, entry, price);
  }
}
