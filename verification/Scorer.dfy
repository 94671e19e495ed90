/** The weighted 0-100 score and the attenuated learning of its per-symbol multipliers. */
module Scorer {
  import opened Wrappers
  import opened Rounding

  const LEARNING_RATE := 0.15
  const MIN_TRADE_COUNT := 5
  const MULT_MIN := 0.5
  const MULT_MAX := 1.5

  /** momentum, trend, volume, volatility, portfolio fit, sentiment, price change */
  const GLOBAL_WEIGHTS: seq<real> := [0.20, 0.15, 0.15, 0.10, 0.10, 0.10, 0.20]

  function Sum(xs: seq<real>): real {
    if xs == [] then 0.0 else xs[0] + Sum(xs[1..])
  }

  function Dot(xs: seq<real>, ys: seq<real>): real
    requires |xs| == |ys|
  {
    if xs == [] then 0.0 else xs[0] * ys[0] + Dot(xs[1..], ys[1..])
  }

  /** The weights times the multipliers, scaled to a total of one (of `1.0` if that is zero). */
  function Effective(weights: seq<real>, multipliers: seq<real>): (e: seq<real>)
    requires |weights| == |multipliers|
    ensures |e| == |weights|
  {
    seq(|weights|, i requires 0 <= i < |weights| => weights[i] * multipliers[i])
  }

  function Normalized(effective: seq<real>): (n: seq<real>)
    ensures |n| == |effective|
  {
    Scaled(effective, if Sum(effective) == 0.0 then 1.0 else Sum(effective))
  }

  function Clamp(x: real, lo: real, hi: real): real {
    if x < lo then lo else if x > hi then hi else x
  }

  /** The total before the clamp. */
  function RawTotal(weights: seq<real>, multipliers: seq<real>, dims: seq<real>): real
    requires |weights| == |multipliers| == |dims|
  {
    Dot(dims, Normalized(Effective(weights, multipliers))) * 100.0
  }

  function Total(weights: seq<real>, multipliers: seq<real>, dims: seq<real>): real
    requires |weights| == |multipliers| == |dims|
  {
    Clamp(RawTotal(weights, multipliers, dims), 0.0, 100.0)
  }

  datatype Recommendation = Rejected | Watchlist | Propose | Priority

  function Recommend(total: real): Recommendation {
    if total <= 35.0 then Rejected else if total <= 55.0 then Watchlist else if total <= 75.0 then Propose else Priority
  }

  function Rank(r: Recommendation): nat {
    match r case Rejected => 0 case Watchlist => 1 case Propose => 2 case Priority => 3
  }

  // ---- The dimensions ----

  datatype Features = Features(
    rsi14: Option<real>, macdCrossover: bool,
    sma20: Option<real>, sma50: Option<real>, sma200: Option<real>,
    rsVsSpy30d: Option<real>, bollingerPosition: Option<real>,
    volumeRatio20d: Option<real>, atrPct: Option<real>, priceChangePct: Option<real>)

  datatype News = News(positive: nat, negative: nat, items: nat)

  /** Absent and zero are both falsy. */
  predicate Truthy(x: Option<real>) { x.Some? && x.value != 0.0 }

  function Dimension(x: Option<real>, score: real -> real): real {
    if x.None? then 0.0 else score(x.value)
  }

  /** `min(1.0, score)`. */
  function AtMostOne(score: real): real { if score > 1.0 then 1.0 else score }

  function DimMomentum(f: Features): (score: real)
    ensures 0.0 <= score <= 1.0
  {
    var rsi := Dimension(f.rsi14, v =>
      if v < 25.0 || v > 75.0 then 0.5 else if v < 35.0 || v > 65.0 then 0.3
      else if v < 45.0 || v > 55.0 then 0.1 else 0.0);
    AtMostOne(rsi + (if f.macdCrossover then 0.4 else 0.0))
  }

  function DimTrend(f: Features): (score: real)
    ensures 0.0 <= score <= 1.0
  {
    var averages :=
      if Truthy(f.sma50) && Truthy(f.sma200) then
        var close := if Truthy(f.sma20) then f.sma20.value else f.sma50.value;
        (if close > f.sma50.value then 0.25 else 0.0) + (if f.sma50.value > f.sma200.value then 0.25 else 0.0)
      else 0.0;
    var strength := Dimension(f.rsVsSpy30d, v => if v > 0.05 then 0.3 else if v > 0.0 then 0.15 else 0.0);
    var band := Dimension(f.bollingerPosition, v => if v > 0.6 then 0.2 else if v > 0.4 then 0.1 else 0.0);
    AtMostOne(averages + strength + band)
  }

  function DimVolume(f: Features): (score: real)
    ensures 0.0 <= score <= 1.0
  {
    Dimension(f.volumeRatio20d, v =>
      if v >= 3.0 then 1.0 else if v >= 2.0 then 0.85 else if v >= 1.5 then 0.7
      else if v >= 1.0 then 0.5 else if v >= 0.7 then 0.3 else 0.1)
  }

  function DimVolatility(f: Features): (score: real)
    ensures 0.0 <= score <= 1.0
  {
    Dimension(f.atrPct, v =>
      if 1.0 <= v <= 2.5 then 1.0 else if 0.5 <= v < 1.0 then 0.6
      else if 2.5 < v <= 4.0 then 0.5 else if v > 4.0 then 0.2 else 0.3)
  }

  function DimPortfolioFit(positions: nat): (score: real)
    ensures 0.0 <= score <= 1.0
  {
    if positions == 0 then 1.0 else if positions == 1 then 0.7 else if positions == 2 then 0.4 else 0.0
  }

  function DimSentiment(n: News): (score: real)
    requires n.positive + n.negative <= n.items
    ensures 0.0 <= score <= 1.0
  {
    if n.items == 0 then 0.0
    else if n.positive > n.negative then
      ShareIsFraction(n.positive, n.items);
      0.6 + 0.4 * (n.positive as real / n.items as real)
    else if n.negative > n.positive then
      ShareIsFraction(n.negative, n.items);
      var s := 0.4 - 0.4 * (n.negative as real / n.items as real);
      if s < 0.0 then 0.0 else s
    else 0.5
  }

  function DimPriceChange(f: Features): (score: real)
    ensures 0.0 <= score <= 1.0
  {
    Dimension(f.priceChangePct, v =>
      if 1.0 <= v <= 4.0 then 0.9 else if 0.0 <= v < 1.0 then 0.6 else if 4.0 < v then 0.7
      else if -1.0 <= v < 0.0 then 0.4 else if -3.0 <= v < -1.0 then 0.2 else 0.1)
  }

  lemma ShareIsFraction(part: nat, whole: nat)
    requires part <= whole && whole > 0
    ensures 0.0 <= part as real / whole as real <= 1.0
  {
  }

  function Dims(f: Features, positions: nat, n: News): (dims: seq<real>)
    requires n.positive + n.negative <= n.items
    ensures |dims| == |GLOBAL_WEIGHTS|
  {
    [DimMomentum(f), DimTrend(f), DimVolume(f), DimVolatility(f), DimPortfolioFit(positions), DimSentiment(n),
     DimPriceChange(f)]
  }

  /** `compute_score`: the stored multipliers cover six dimensions, price change always has 1. */
  function ComputeScore(f: Features, positions: nat, n: News, stored: seq<real>): (total: real)
    requires n.positive + n.negative <= n.items && |stored| == 6
  {
    Round2(Total(GLOBAL_WEIGHTS, stored + [1.0], Dims(f, positions, n)))
  }

  // ---- A weighted average ----

  ghost predicate AllIn(xs: seq<real>, lo: real, hi: real) {
    forall i :: 0 <= i < |xs| ==> lo <= xs[i] <= hi
  }

  ghost predicate Positive(xs: seq<real>) {
    forall i :: 0 <= i < |xs| ==> xs[i] > 0.0
  }

  lemma {:induction false} SumPositive(xs: seq<real>)
    requires Positive(xs)
    ensures if xs == [] then Sum(xs) == 0.0 else Sum(xs) > 0.0
  {
    if xs != [] {
      SumPositive(xs[1..]);
    }
  }

  function Scaled(xs: seq<real>, total: real): (scaled: seq<real>)
    requires total != 0.0
    ensures |scaled| == |xs|
  {
    seq(|xs|, i requires 0 <= i < |xs| => xs[i] / total)
  }

  lemma AddQuotients(a: real, b: real, total: real)
    requires total != 0.0
    ensures a / total + b / total == (a + b) / total
  {
  }

  lemma {:induction false} SumScaled(xs: seq<real>, total: real)
    requires total != 0.0
    ensures Sum(Scaled(xs, total)) == Sum(xs) / total
  {
    if xs != [] {
      SumScaled(xs[1..], total);
      assert Scaled(xs, total)[1..] == Scaled(xs[1..], total);
      AddQuotients(xs[0], Sum(xs[1..]), total);
    }
  }

  /** Normalised weights are positive and add up to one. */
  lemma NormalizedIsWeighting(effective: seq<real>)
    requires effective != [] && Positive(effective)
    ensures Positive(Normalized(effective)) && Sum(Normalized(effective)) == 1.0
  {
    SumPositive(effective);
    SumScaled(effective, Sum(effective));
    assert Sum(effective) / Sum(effective) == 1.0;
    forall i | 0 <= i < |effective| ensures effective[i] / Sum(effective) > 0.0 {
    }
  }

  lemma {:induction false} DotMonotone(dims: seq<real>, better: seq<real>, weights: seq<real>)
    requires |dims| == |better| == |weights| && Positive(weights)
    requires forall i :: 0 <= i < |dims| ==> dims[i] <= better[i]
    ensures Dot(dims, weights) <= Dot(better, weights)
    ensures Dot(dims, weights) == Dot(better, weights) ==> dims == better
  {
    if dims != [] {
      DotMonotone(dims[1..], better[1..], weights[1..]);
      assert (better[0] - dims[0]) * weights[0] >= 0.0;
      assert better[0] > dims[0] ==> (better[0] - dims[0]) * weights[0] > 0.0;
      if Dot(dims, weights) == Dot(better, weights) {
        assert dims == [dims[0]] + dims[1..] && better == [better[0]] + better[1..];
      }
    }
  }

  lemma {:induction false} DotConstant(c: real, constants: seq<real>, weights: seq<real>)
    requires |constants| == |weights| && forall i :: 0 <= i < |constants| ==> constants[i] == c
    ensures Dot(constants, weights) == c * Sum(weights)
  {
    if weights != [] {
      DotConstant(c, constants[1..], weights[1..]);
      Distributes(c, weights[0], Sum(weights[1..]));
    }
  }

  lemma Distributes(c: real, a: real, b: real)
    ensures c * a + c * b == c * (a + b)
  {
  }

  lemma DotBounded(dims: seq<real>, weights: seq<real>, lo: real, hi: real)
    requires |dims| == |weights| && Positive(weights) && AllIn(dims, lo, hi)
    ensures lo * Sum(weights) <= Dot(dims, weights) <= hi * Sum(weights)
  {
    var los, his := seq(|dims|, _ => lo), seq(|dims|, _ => hi);
    DotMonotone(los, dims, weights);
    DotMonotone(dims, his, weights);
    DotConstant(lo, los, weights);
    DotConstant(hi, his, weights);
  }

  /** For multipliers in their range and dimensions in [0, 1], the score is an average: it lies
      between the weakest and the strongest dimension and the clamp never bites. */
  lemma ScoreIsAverage(weights: seq<real>, multipliers: seq<real>, dims: seq<real>, lo: real, hi: real)
    requires |weights| == |multipliers| == |dims| > 0
    requires Positive(weights) && AllIn(multipliers, MULT_MIN, MULT_MAX)
    requires 0.0 <= lo <= hi <= 1.0 && AllIn(dims, lo, hi)
    ensures lo * 100.0 <= RawTotal(weights, multipliers, dims) <= hi * 100.0
    ensures Total(weights, multipliers, dims) == RawTotal(weights, multipliers, dims)
    ensures Sum(Normalized(Effective(weights, multipliers))) == 1.0
  {
    EffectivePositive(weights, multipliers);
    NormalizedIsWeighting(Effective(weights, multipliers));
    DotBounded(dims, Normalized(Effective(weights, multipliers)), lo, hi);
  }

  lemma EffectivePositive(weights: seq<real>, multipliers: seq<real>)
    requires |weights| == |multipliers| && Positive(weights) && AllIn(multipliers, MULT_MIN, MULT_MAX)
    ensures Positive(Effective(weights, multipliers))
  {
    forall i | 0 <= i < |weights| ensures weights[i] * multipliers[i] > 0.0 {
    }
  }

  /** Improving any dimension strictly improves the total and never lowers the recommendation. */
  lemma ScoreIsMonotone(weights: seq<real>, multipliers: seq<real>, dims: seq<real>, better: seq<real>)
    requires |weights| == |multipliers| == |dims| == |better| > 0
    requires Positive(weights) && AllIn(multipliers, MULT_MIN, MULT_MAX)
    requires AllIn(dims, 0.0, 1.0) && AllIn(better, 0.0, 1.0)
    requires dims != better && forall i :: 0 <= i < |dims| ==> dims[i] <= better[i]
    ensures Total(weights, multipliers, dims) < Total(weights, multipliers, better)
    ensures Rank(Recommend(Total(weights, multipliers, dims))) <= Rank(Recommend(Total(weights, multipliers, better)))
  {
    ScoreIsAverage(weights, multipliers, dims, 0.0, 1.0);
    ScoreIsAverage(weights, multipliers, better, 0.0, 1.0);
    EffectivePositive(weights, multipliers);
    NormalizedIsWeighting(Effective(weights, multipliers));
    DotMonotone(dims, better, Normalized(Effective(weights, multipliers)));
  }

  lemma GlobalWeightsSumToOne()
    ensures Positive(GLOBAL_WEIGHTS) && Sum(GLOBAL_WEIGHTS) == 1.0
  {
    var w := GLOBAL_WEIGHTS;
    assert w[1..] == [0.15, 0.15, 0.10, 0.10, 0.10, 0.20];
    assert w[1..][1..] == [0.15, 0.10, 0.10, 0.10, 0.20];
    assert [0.15, 0.10, 0.10, 0.10, 0.20][1..] == [0.10, 0.10, 0.10, 0.20];
    assert [0.10, 0.10, 0.10, 0.20][1..] == [0.10, 0.10, 0.20];
    assert [0.10, 0.10, 0.20][1..] == [0.10, 0.20];
    assert [0.10, 0.20][1..] == [0.20];
    assert [0.20][1..] == [];
  }

  /** For any features and any multipliers in range the score is the rounded average itself:
      it lies in [0, 100] without the clamp. */
  lemma ScoreNeedsNoClamp(f: Features, positions: nat, n: News, stored: seq<real>)
    requires n.positive + n.negative <= n.items && |stored| == 6 && AllIn(stored, MULT_MIN, MULT_MAX)
    ensures var raw := RawTotal(GLOBAL_WEIGHTS, stored + [1.0], Dims(f, positions, n));
      0.0 <= raw <= 100.0 && ComputeScore(f, positions, n, stored) == Round2(raw)
    ensures 0.0 <= ComputeScore(f, positions, n, stored) <= 100.0
  {
    GlobalWeightsSumToOne();
    var raw := RawTotal(GLOBAL_WEIGHTS, stored + [1.0], Dims(f, positions, n));
    ScoreIsAverage(GLOBAL_WEIGHTS, stored + [1.0], Dims(f, positions, n), 0.0, 1.0);
    Round2Laws(0.0, raw);
    Round2Laws(raw, 100.0);
    Round2Laws(100.0, 100.0);
  }

  // ---- What the score is made of ----

  /** With no multiplier learned yet the score is the weighted sum of the dimensions in percent. */
  lemma UntrainedScore(f: Features, positions: nat, n: News, stored: seq<real>)
    requires n.positive + n.negative <= n.items && stored == [1.0, 1.0, 1.0, 1.0, 1.0, 1.0]
    ensures RawTotal(GLOBAL_WEIGHTS, stored + [1.0], Dims(f, positions, n))
         == 20.0 * DimMomentum(f) + 15.0 * DimTrend(f) + 15.0 * DimVolume(f) + 10.0 * DimVolatility(f)
            + 10.0 * DimPortfolioFit(positions) + 10.0 * DimSentiment(n) + 20.0 * DimPriceChange(f)
  {
    UntrainedWeights(stored);
    WeightedInPercent(Dims(f, positions, n));
  }

  lemma UntrainedWeights(stored: seq<real>)
    requires stored == [1.0, 1.0, 1.0, 1.0, 1.0, 1.0]
    ensures Normalized(Effective(GLOBAL_WEIGHTS, stored + [1.0])) == GLOBAL_WEIGHTS
  {
    assert Effective(GLOBAL_WEIGHTS, stored + [1.0]) == GLOBAL_WEIGHTS;
    GlobalWeightsSumToOne();
    DividedByOne(GLOBAL_WEIGHTS);
  }

  lemma DividedByOne(xs: seq<real>)
    requires Sum(xs) == 1.0
    ensures Normalized(xs) == xs
  {
  }

  lemma WeightedInPercent(dims: seq<real>)
    requires |dims| == 7
    ensures Dot(dims, GLOBAL_WEIGHTS) * 100.0
         == 20.0 * dims[0] + 15.0 * dims[1] + 15.0 * dims[2] + 10.0 * dims[3] + 10.0 * dims[4] + 10.0 * dims[5]
            + 20.0 * dims[6]
  {
    DotOfSeven(dims, GLOBAL_WEIGHTS);
  }

  lemma DotOfSeven(a: seq<real>, b: seq<real>)
    requires |a| == |b| == 7
    ensures Dot(a, b)
         == a[0] * b[0] + a[1] * b[1] + a[2] * b[2] + a[3] * b[3] + a[4] * b[4] + a[5] * b[5] + a[6] * b[6]
  {
    DotOfThree(a[4..], b[4..]);
    assert a[1..][1..] == a[2..] && a[2..][1..] == a[3..] && a[3..][1..] == a[4..];
    assert b[1..][1..] == b[2..] && b[2..][1..] == b[3..] && b[3..][1..] == b[4..];
    assert Dot(a[3..], b[3..]) == a[3] * b[3] + Dot(a[4..], b[4..]);
    assert Dot(a[2..], b[2..]) == a[2] * b[2] + Dot(a[3..], b[3..]);
    assert Dot(a[1..], b[1..]) == a[1] * b[1] + Dot(a[2..], b[2..]);
  }

  lemma DotOfThree(a: seq<real>, b: seq<real>)
    requires |a| == |b| == 3
    ensures Dot(a, b) == a[0] * b[0] + a[1] * b[1] + a[2] * b[2]
  {
    assert a[1..][1..] == a[2..] && b[1..][1..] == b[2..];
    assert Dot(a[2..], b[2..]) == a[2] * b[2] + Dot(a[2..][1..], b[2..][1..]);
    assert Dot(a[1..], b[1..]) == a[1] * b[1] + Dot(a[2..], b[2..]);
  }

  /** Momentum looks at how far the RSI is from 50, on either side, and rewards more of it. */
  lemma MomentumIsSymmetric(f: Features, distance: real, further: real)
    requires 0.0 <= distance <= further
    ensures DimMomentum(f.(rsi14 := Some(50.0 + distance))) == DimMomentum(f.(rsi14 := Some(50.0 - distance)))
    ensures DimMomentum(f.(rsi14 := Some(50.0 + distance))) <= DimMomentum(f.(rsi14 := Some(50.0 + further)))
    ensures DimMomentum(f.(rsi14 := None)) == DimMomentum(f.(rsi14 := Some(50.0)))
    ensures DimMomentum(f.(rsi14 := Some(50.0), macdCrossover := true)) == 0.4
    ensures DimMomentum(f.(rsi14 := Some(80.0), macdCrossover := false)) == 0.5
  {
  }

  /** Good and bad news mirror each other, with a tie in the middle and none at the bottom. */
  lemma SentimentMirrors(good: nat, bad: nat, items: nat)
    requires good + bad <= items && items > 0
    ensures DimSentiment(News(good, bad, items)) + DimSentiment(News(bad, good, items)) == 1.0
    ensures good > bad <==> DimSentiment(News(good, bad, items)) > 0.5
    ensures good < bad <==> DimSentiment(News(good, bad, items)) < 0.5
    ensures DimSentiment(News(0, 0, 0)) == 0.0
    ensures DimSentiment(News(items, 0, items)) == 1.0
  {
    ShareIsFraction(good, items);
    ShareIsFraction(bad, items);
    assert items as real / items as real == 1.0;
  }

  /** More volume never hurts, and further positions never help. */
  lemma VolumeAndFitAreMonotone(f: Features, ratio: real, more: real, positions: nat)
    requires ratio <= more
    ensures DimVolume(f.(volumeRatio20d := Some(ratio))) <= DimVolume(f.(volumeRatio20d := Some(more)))
    ensures DimVolume(f.(volumeRatio20d := Some(1.0))) == 0.5 && DimVolume(f.(volumeRatio20d := Some(3.0))) == 1.0
    ensures DimPortfolioFit(positions) >= DimPortfolioFit(positions + 1)
    ensures DimPortfolioFit(positions) > 0.0 <==> positions <= 2
  {
  }

  /** Trend adds the order of the averages, the strength against the market and the band. */
  lemma TrendAddsUp(f: Features, short: real, mid: real, long: real, strength: real, band: real)
    requires f.sma20 == Some(short) && f.sma50 == Some(mid) && f.sma200 == Some(long)
    requires f.rsVsSpy30d == Some(strength) && f.bollingerPosition == Some(band)
    requires short != 0.0 && mid != 0.0 && long != 0.0
    ensures DimTrend(f) == (if short > mid then 0.25 else 0.0) + (if mid > long then 0.25 else 0.0)
      + (if strength > 0.05 then 0.3 else if strength > 0.0 then 0.15 else 0.0)
      + (if band > 0.6 then 0.2 else if band > 0.4 then 0.1 else 0.0)
  {
  }

  /** Volatility is best from 1 to 2.5, and a price change from 1 to 4 percent; beyond either way
      both score less. */
  lemma BestZones(f: Features, atr: real, change: real)
    ensures DimVolatility(f.(atrPct := Some(atr))) == 1.0 <==> 1.0 <= atr <= 2.5
    ensures DimVolatility(f.(atrPct := Some(atr))) >= 0.5 <==> 0.5 <= atr <= 4.0
    ensures DimPriceChange(f.(priceChangePct := Some(change))) == 0.9 <==> 1.0 <= change <= 4.0
    ensures DimPriceChange(f.(priceChangePct := Some(change))) >= 0.6 <==> change >= 0.0
    ensures DimPriceChange(f.(priceChangePct := Some(change))) == 0.1 <==> change < -3.0
  {
  }

  /** The bands of the recommendation, each upper bound included. */
  lemma RecommendationBands(total: real)
    ensures Recommend(total).Rejected? <==> total <= 35.0
    ensures Recommend(total).Watchlist? <==> 35.0 < total <= 55.0
    ensures Recommend(total).Propose? <==> 55.0 < total <= 75.0
    ensures Recommend(total).Priority? <==> total > 75.0
  {
  }

  // ---- Attenuated learning ----

  /** The move by a share of the way to the suggestion, before clamping and rounding. */
  function Move(current: real, suggested: real, share: real): real {
    current + (suggested - current) * share
  }

  function Learn(current: real, suggested: real, share: real): real {
    Round4(Clamp(Move(current, suggested, share), MULT_MIN, MULT_MAX))
  }

  /** One symbol's stored multiplier and trade count. */
  class SymbolParameters {
    var multiplier: real
    var tradeCount: int

    constructor (multiplier: real, tradeCount: int)
      ensures this.multiplier == multiplier && this.tradeCount == tradeCount
    {
      this.multiplier, this.tradeCount := multiplier, tradeCount;
    }

    /** `update_weights_attenuated`: refused until the symbol has enough trades. */
    method Update(suggested: real, confidence: real, learningRate: real := LEARNING_RATE,
                  minTradeCount: int := MIN_TRADE_COUNT)
      returns (updated: bool)
      modifies this`multiplier
      ensures updated <==> tradeCount >= minTradeCount
      ensures multiplier
           == if updated then Learn(old(multiplier), suggested, confidence * learningRate) else old(multiplier)
    {
      if tradeCount < minTradeCount {
        return false;
      }
      var next := multiplier + (suggested - multiplier) * confidence * learningRate;
      assert next == Move(multiplier, suggested, confidence * learningRate);
      next := Clamp(next, MULT_MIN, MULT_MAX);
      multiplier := Round4(next);
      return true;
    }
  }

  /** The values a multiplier takes over a run of updates, each a suggestion with the share of
      the way it moves: confidence times learning rate. */
  ghost predicate LearningRun(values: seq<real>, suggestions: seq<(real, real)>) {
    && |values| == |suggestions| + 1
    && forall i {:trigger suggestions[i]} :: 0 <= i < |suggestions| ==>
         values[i + 1] == Learn(values[i], suggestions[i].0, suggestions[i].1)
  }

  /** No run of updates, whatever it suggests, takes a multiplier out of its range. */
  lemma {:induction false} MultiplierStaysInRange(values: seq<real>, suggestions: seq<(real, real)>, n: nat)
    requires LearningRun(values, suggestions) && n < |values|
    requires MULT_MIN <= values[0] <= MULT_MAX
    ensures MULT_MIN <= values[n] <= MULT_MAX
  {
    if n > 0 {
      var last := suggestions[n - 1];
      LearnInRange(values[n - 1], last.0, last.1);
    }
  }

  lemma LearnInRange(current: real, suggested: real, share: real)
    ensures MULT_MIN <= Learn(current, suggested, share) <= MULT_MAX
  {
    var c := Clamp(Move(current, suggested, share), MULT_MIN, MULT_MAX);
    Round4Laws(MULT_MIN, c);
    Round4Laws(c, MULT_MAX);
    Round4Laws(MULT_MAX, MULT_MAX);
  }

  function Abs(x: real): real { if x >= 0.0 then x else -x }

  /** The part of the gap that one update leaves open: by default 1 - 0.15 * confidence. */
  function Shrink(share: real): real { 1.0 - share }

  lemma MoveClosesGap(current: real, target: real, share: real)
    requires 0.0 <= share <= 1.0
    ensures Move(current, target, share) - target == Shrink(share) * (current - target)
    ensures Abs(Move(current, target, share) - target) == Shrink(share) * Abs(current - target)
  {
    var gap, left := current - target, Shrink(share);
    assert Move(current, target, share) == current - gap * share;
    assert left * gap == gap - gap * share;
    if gap >= 0.0 {
      NonNegative(left, gap);
    } else {
      NonNegative(left, -gap);
    }
  }

  lemma NonNegative(a: real, b: real)
    requires a >= 0.0 && b >= 0.0
    ensures a * b >= 0.0 && a * -b <= 0.0
  {
  }

  lemma MoveStaysBetween(current: real, target: real, share: real)
    requires 0.5 <= current <= 1.5 && 0.5 <= target <= 1.5 && 0.0 <= share <= 1.0
    ensures 0.5 <= Move(current, target, share) <= 1.5
  {
    MoveClosesGap(current, target, share);
    Convex(Shrink(share), current, target);
  }

  lemma Convex(left: real, a: real, b: real)
    requires 0.0 <= left <= 1.0 && 0.5 <= a <= 1.5 && 0.5 <= b <= 1.5
    ensures 0.5 <= b + left * (a - b) <= 1.5
  {
    assert b + left * (a - b) == left * a + (1.0 - left) * b;
    NonNegative(left, a - 0.5);
    NonNegative(left, 1.5 - a);
    NonNegative(1.0 - left, b - 0.5);
    NonNegative(1.0 - left, 1.5 - b);
  }

  /** One update towards an in-range target closes the gap by the attenuated share, up to half
      a rounding unit. */
  lemma LearnContracts(current: real, target: real, share: real)
    requires MULT_MIN <= current <= MULT_MAX && MULT_MIN <= target <= MULT_MAX && 0.0 <= share <= 1.0
    ensures Abs(Learn(current, target, share) - target) <= Shrink(share) * Abs(current - target) + 0.00005
  {
    MoveClosesGap(current, target, share);
    MoveStaysBetween(current, target, share);
    Round4Laws(Move(current, target, share), 0.0);
  }

  /** Nor does it close more: the new value is that share of the way, no further, within half a
      rounding unit, so the rest of the gap remains. */
  lemma LearnGoesNoFurther(current: real, target: real, share: real)
    requires MULT_MIN <= current <= MULT_MAX && MULT_MIN <= target <= MULT_MAX && 0.0 <= share <= 1.0
    ensures var learned := Learn(current, target, share);
      -0.00005 <= learned - (current + share * (target - current)) <= 0.00005
  {
    MoveStaysBetween(current, target, share);
    Round4Laws(Move(current, target, share), 0.0);
    assert Move(current, target, share) == current + share * (target - current);
  }

  /** At the default rate a suggestion moves the multiplier 15% of the way at full confidence. */
  lemma DefaultLearning(current: real, target: real, confidence: real, share: real)
    requires MULT_MIN <= current <= MULT_MAX && MULT_MIN <= target <= MULT_MAX && 0.0 <= confidence <= 1.0
    requires share == 0.15 * confidence
    ensures var learned := Learn(current, target, confidence * LEARNING_RATE);
      -0.00005 <= learned - (current + share * (target - current)) <= 0.00005
  {
    assert share == confidence * LEARNING_RATE;
    LearnGoesNoFurther(current, target, share);
  }

  lemma LearnLeavesTheRest(current: real, target: real, share: real)
    requires MULT_MIN <= current <= MULT_MAX && MULT_MIN <= target <= MULT_MAX && 0.0 <= share <= 1.0
    ensures Abs(Learn(current, target, share) - target) >= Shrink(share) * Abs(current - target) - 0.00005
  {
    MoveClosesGap(current, target, share);
    MoveStaysBetween(current, target, share);
    Round4Laws(Move(current, target, share), 0.0);
  }

  /** A suggestion that would carry the multiplier out of its range leaves it at the bound. */
  lemma LearnStopsAtBounds(current: real, suggested: real, share: real)
    ensures current + share * (suggested - current) >= 1.5 ==> Learn(current, suggested, share) == 1.5
    ensures current + share * (suggested - current) <= 0.5 ==> Learn(current, suggested, share) == 0.5
  {
    assert Move(current, suggested, share) == current + share * (suggested - current);
    Round4Laws(1.5, 1.5);
    Round4Laws(0.5, 0.5);
  }

  function Power(q: real, n: nat): real {
    if n == 0 then 1.0 else q * Power(q, n - 1)
  }

  /** The rounding error that repeated updates can accumulate. */
  function Residue(share: real): real
    requires share > 0.0
  {
    0.00005 / share
  }

  /** The gap after `n` updates at worst: each leaves the share `q` of it and adds an error `e`. */
  function WorstGap(q: real, e: real, gap: real, n: nat): real {
    if n == 0 then gap else q * WorstGap(q, e, gap, n - 1) + e
  }

  /** The worst gap is a geometric decay plus a residue that depends on the share alone. */
  lemma {:induction false} WorstGapIsGeometric(share: real, gap: real, n: nat)
    requires 0.0 < share <= 1.0
    ensures WorstGap(Shrink(share), 0.00005, gap, n) <= Power(Shrink(share), n) * gap + Residue(share)
  {
    ResidueAbsorbs(share);
    if n > 0 {
      WorstGapIsGeometric(share, gap, n - 1);
      OneMore(Shrink(share), WorstGap(Shrink(share), 0.00005, gap, n - 1),
              Power(Shrink(share), n - 1), gap, Residue(share), 0.00005);
    }
  }

  /** The `i`-th value leaves at most the share `q` of the gap before it, plus an error `e`. */
  ghost predicate ShrinksAt(values: seq<real>, i: nat, target: real, q: real, e: real)
    requires 0 < i < |values|
  {
    Abs(values[i] - target) <= q * Abs(values[i - 1] - target) + e
  }

  lemma {:induction false} GapsShrink(values: seq<real>, target: real, q: real, e: real, n: nat)
    requires q >= 0.0 && n < |values|
    requires forall i :: 0 < i < |values| ==> ShrinksAt(values, i, target, q, e)
    ensures Abs(values[n] - target) <= WorstGap(q, e, Abs(values[0] - target), n)
  {
    if n > 0 {
      GapsShrink(values, target, q, e, n - 1);
      assert ShrinksAt(values, n, target, q, e);
      NonNegative(q, WorstGap(q, e, Abs(values[0] - target), n - 1) - Abs(values[n - 1] - target));
    }
  }

  lemma RunShrinks(values: seq<real>, target: real, share: real, suggestions: seq<(real, real)>, i: nat)
    requires LearningRun(values, suggestions) && 0 < i < |values|
    requires MULT_MIN <= values[0] <= MULT_MAX && MULT_MIN <= target <= MULT_MAX && 0.0 <= share <= 1.0
    requires suggestions[i - 1] == (target, share)
    ensures ShrinksAt(values, i, target, Shrink(share), 0.00005)
  {
    MultiplierStaysInRange(values, suggestions, i - 1);
    Approaches(values[i - 1], values[i], target, share);
  }

  lemma Approaches(current: real, next: real, target: real, share: real)
    requires MULT_MIN <= current <= MULT_MAX && MULT_MIN <= target <= MULT_MAX && 0.0 <= share <= 1.0
    requires next == Learn(current, target, share)
    ensures Abs(next - target) <= Shrink(share) * Abs(current - target) + 0.00005
  {
    LearnContracts(current, target, share);
  }

  /** Repeating a suggestion brings the multiplier to it: after n updates the gap is within the
      n-th worst gap, whatever the starting point in range. */
  lemma LearningConverges(values: seq<real>, target: real, share: real, suggestions: seq<(real, real)>, n: nat)
    requires LearningRun(values, suggestions) && n < |values|
    requires MULT_MIN <= values[0] <= MULT_MAX && MULT_MIN <= target <= MULT_MAX && 0.0 <= share <= 1.0
    requires forall i :: 0 <= i < |suggestions| ==> suggestions[i] == (target, share)
    ensures Abs(values[n] - target) <= WorstGap(Shrink(share), 0.00005, Abs(values[0] - target), n)
  {
    forall i | 0 < i < |values| ensures ShrinksAt(values, i, target, Shrink(share), 0.00005) {
      RunShrinks(values, target, share, suggestions, i);
    }
    GapsShrink(values, target, Shrink(share), 0.00005, n);
  }

  lemma ResidueAbsorbs(share: real)
    requires share > 0.0
    ensures Residue(share) == Shrink(share) * Residue(share) + 0.00005
    ensures Residue(share) > 0.0
  {
    var r := Residue(share);
    assert r * share == 0.00005;
    assert Shrink(share) * r == r - r * share;
  }

  lemma OneMore(q: real, gap: real, power: real, start: real, residue: real, e: real)
    requires q >= 0.0 && gap <= power * start + residue && residue == q * residue + e
    ensures q * gap + e <= q * power * start + residue
  {
    assert q * gap <= q * (power * start + residue);
    assert q * (power * start + residue) == q * power * start + q * residue;
  }
}
