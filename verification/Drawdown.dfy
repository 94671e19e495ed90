/** The dashboard's drawdown over the account history. */
module Drawdown {
  import opened Wrappers

  datatype Summary = Summary(peak: real, maxDdPct: real, currentDdPct: real)

  /** `float(h.get("net_liquidation") or 0)`. */
  function Reading(h: Option<real>): real {
    if h.Some? then h.value else 0.0
  }

  /** The readings that count: the positive ones, in order. */
  function Positive(history: seq<Option<real>>): seq<real> {
    if history == [] then []
    else
      var n := |history| - 1;
      Positive(history[..n]) + if Reading(history[n]) > 0.0 then [Reading(history[n])] else []
  }

  lemma {:induction false} PositiveIsPositive(history: seq<Option<real>>)
    ensures forall i :: 0 <= i < |Positive(history)| ==> Positive(history)[i] > 0.0
  {
    if history != [] {
      PositiveIsPositive(history[..|history| - 1]);
    }
  }

  function Fall(a: real, b: real): real
    requires a > 0.0
  {
    (a - b) / a * 100.0
  }

  /** A fall is in percent of the level it starts from. */
  lemma FallMeans(a: real, b: real)
    requires a > 0.0
    ensures b == a - a * Fall(a, b) / 100.0
  {
    FallAsShare(a, b);
  }

  lemma FallAsShare(a: real, v: real)
    requires a > 0.0
    ensures (v / a) * a == v
    ensures Fall(a, v) == (1.0 - v / a) * 100.0
  {
    var q := v / a;
    assert q * a == v;
    assert (1.0 - q) * a == a - v;
    QuotientIs(a - v, a, 1.0 - q);
  }

  lemma QuotientIs(x: real, a: real, q: real)
    requires a > 0.0 && q * a == x
    ensures x / a == q
  {
    var r := x / a;
    assert r * a == x;
    if r != q {
      assert (r - q) * a != 0.0;
    }
  }

  /** Falling to the same level from higher up is a larger relative fall. */
  lemma FallFromHigher(a: real, b: real, v: real)
    requires 0.0 < a <= b && v > 0.0
    ensures Fall(a, v) <= Fall(b, v)
  {
    FallAsShare(a, v);
    FallAsShare(b, v);
    var p, q := v / a, v / b;
    assert p * a == v && q * b == v;
    assert q * (b - a) >= 0.0;
    Cancel(q, p, a);
  }

  lemma Cancel(q: real, p: real, a: real)
    requires a > 0.0 && q * a <= p * a
    ensures q <= p
  {
    assert (p - q) * a >= 0.0;
  }

  ghost predicate IsRunningMax(vs: seq<real>, peak: real) {
    if vs == [] then peak == 0.0 else peak in vs && forall i :: 0 <= i < |vs| ==> vs[i] <= peak
  }

  /** The largest relative fall from any reading to the same or a later one. */
  ghost predicate IsMaxFall(vs: seq<real>, dd: real)
    requires forall i :: 0 <= i < |vs| ==> vs[i] > 0.0
  {
    if vs == [] then dd == 0.0
    else
      && (forall i, j :: 0 <= i <= j < |vs| ==> Fall(vs[i], vs[j]) <= dd)
      && (exists i, j :: 0 <= i <= j < |vs| && Fall(vs[i], vs[j]) == dd)
  }

  ghost predicate Tracks(vs: seq<real>, peak: real, maxDd: real) {
    && (forall i :: 0 <= i < |vs| ==> vs[i] > 0.0)
    && IsRunningMax(vs, peak)
    && IsMaxFall(vs, maxDd)
  }

  /** How far the last reading lies below the peak. */
  function LastFall(vs: seq<real>, peak: real): real {
    if vs == [] || peak <= 0.0 then 0.0 else Fall(peak, vs[|vs| - 1])
  }

  lemma PositiveNext(history: seq<Option<real>>, n: nat)
    requires n < |history|
    ensures Positive(history[..n + 1])
         == if Reading(history[n]) > 0.0 then Positive(history[..n]) + [Reading(history[n])] else Positive(history[..n])
    ensures Reading(history[n]) > 0.0 <==> history[n].Some? && history[n].value > 0.0
    ensures history[n].Some? ==> Reading(history[n]) == history[n].value
  {
    assert history[..n + 1][..n] == history[..n];
    assert Positive(history[..n]) + [] == Positive(history[..n]);
  }

  lemma TracksNext(vs: seq<real>, peak: real, maxDd: real, v: real)
    requires Tracks(vs, peak, maxDd) && v > 0.0
    ensures var top := if v > peak then v else peak;
      top > 0.0 && Tracks(vs + [v], top, if Fall(top, v) > maxDd then Fall(top, v) else maxDd)
  {
    var all, top := vs + [v], if v > peak then v else peak;
    assert all[|vs|] == v && forall i :: 0 <= i < |vs| ==> all[i] == vs[i];
    var k :| 0 <= k < |all| && all[k] == top;
    var dd := Fall(all[k], all[|vs|]);
    forall i | 0 <= i < |all| ensures Fall(all[i], v) <= dd {
      FallFromHigher(all[i], top, v);
    }
    if vs == [] {
      assert dd == 0.0;
    } else {
      var i, j :| 0 <= i <= j < |vs| && Fall(vs[i], vs[j]) == maxDd;
      assert Fall(all[i], all[j]) == maxDd;
    }
  }

  /** The loop body for one positive reading. */
  method Observe(s: Summary, v: real, ghost vs: seq<real>) returns (t: Summary)
    requires Tracks(vs, s.peak, s.maxDdPct) && v > 0.0
    ensures t.peak > 0.0 && Tracks(vs + [v], t.peak, t.maxDdPct)
    ensures t.currentDdPct == Fall(t.peak, v)
  {
    TracksNext(vs, s.peak, s.maxDdPct, v);
    var peak := if v > s.peak then v else s.peak;
    var dd := Fall(peak, v);
    t := Summary(peak, if dd > s.maxDdPct then dd else s.maxDdPct, dd);
  }

  /** `_compute_drawdown`: one pass, skipping readings that are absent or not positive. */
  method ComputeDrawdown(history: seq<Option<real>>) returns (s: Summary)
    ensures Tracks(Positive(history), s.peak, s.maxDdPct)
    ensures s.currentDdPct == LastFall(Positive(history), s.peak)
  {
    s := Summary(0.0, 0.0, 0.0);
    assert history[..0] == [];
    for n := 0 to |history|
      invariant Tracks(Positive(history[..n]), s.peak, s.maxDdPct)
      invariant s.currentDdPct == LastFall(Positive(history[..n]), s.peak)
    {
      PositiveNext(history, n);
      var nl := Reading(history[n]);
      if nl <= 0.0 {
        continue;
      }
      s := Observe(s, nl, Positive(history[..n]));
    }
    assert history[..|history|] == history;
  }
}
