/** The daily sizing model `b_dual_mom_target` and its helpers, over exact reals:
    dual-momentum consensus, trend dampening, volatility targeting, a tiered
    drawdown overlay and a final leverage cap. */
module Strategy {
  import opened Wrappers
  import opened Seqs

  /** `math.sqrt`, left abstract: whatever function is supplied, as long as it never
      returns a negative value. */
  type SqrtFn = f: real -> real | forall x: real :: 0.0 <= f(x) witness (x: real) => 0.0

  /** An annualised volatility at or below this gives no volatility-targeted leverage. */
  const VolFloor: real := 0.000000001

  /** Calendar days per year used to annualise daily volatility. */
  const DaysPerYear: real := 365.0

  /** The `cfg["strategy"]` record: short and long momentum windows, trend window,
      volatility lookback, target annual volatility, the two drawdown tiers and the
      leverage cap. */
  datatype Params = Params(ms: nat, ml: nat, tr: nat, v: nat, tv: real, dd1: real, dd2: real, maxlev: real)

  // ---------------------------------------------------------------- helpers

  /** `sma(values, n)`: no value while fewer than `n` points exist, otherwise the mean of the
      last `n`. (`n == 0` divides by zero in the source.) */
  function Sma(values: seq<real>, n: nat): (r: Option<real>)
    requires n > 0
    ensures r.None? <==> |values| < n
    ensures r.Some? ==>
      var w := values[|values| - n..];
      SeqMin(w) <= r.value <= SeqMax(w)
  {
    if |values| < n then None
    else
      var w := values[|values| - n..];
      MeanWithinRange(w, n);
      Some(Sum(w) / n as real)
  }

  /** The moving average is the mean of the window: `n` times it is the window's sum. This
      pins down the exact value of `Sma`, whose own contract only bounds it by the window's
      minimum and maximum. */
  lemma {:induction false} SmaIsMean(values: seq<real>, n: nat)
    requires 0 < n <= |values|
    ensures Sma(values, n).value * n as real == Sum(values[|values| - n..])
  {
    var w := values[|values| - n..];
    var m := Sum(w) / n as real;
    assert Sma(values, n) == Some(m);
    DivTimes(Sum(w), n as real);
  }

  /** The mean of a list of `n > 0` elements lies between its smallest and its largest
      element. */
  lemma {:induction false} MeanWithinRange(w: seq<real>, n: nat)
    requires |w| == n > 0
    ensures SeqMin(w) <= Sum(w) / n as real <= SeqMax(w)
  {
    var lo, hi := SeqMin(w), SeqMax(w);
    SumBounds(w, lo, hi);
    MeanBounds(Sum(w), n as real, lo, hi);
  }

  /** `realized_vol_annual(rets, lookback)`: no value while fewer than `lookback` returns
      exist, otherwise the root mean square of the last `lookback` returns (of all of them
      when `lookback == 0`, as `rets[-0:]` is the whole list) times the root of 365. */
  function RealizedVolAnnual(rets: seq<real>, lookback: nat, sqrt: SqrtFn): (r: Option<real>)
    requires lookback > 0 || |rets| > 0
    ensures r.None? <==> |rets| < lookback
    ensures r.Some? ==> 0.0 <= r.value
  {
    if |rets| < lookback then None
    else
      var w := PyTail(rets, lookback);
      Some(sqrt(SumSquares(w) / |w| as real) * sqrt(DaysPerYear))
  }

  /** The returns the source collects in `rets[1:]`: one simple return per consecutive
      pair of closes. */
  function SimpleReturns(closes: seq<real>): (r: seq<real>)
    requires AllPositive(closes)
    ensures |r| == Max(|closes| - 1, 0)
    ensures forall i :: 0 <= i < |r| ==> r[i] == closes[i + 1] / closes[i] - 1.0
  {
    if |closes| < 2 then []
    else SimpleReturns(closes[..|closes| - 1]) + [closes[|closes| - 1] / closes[|closes| - 2] - 1.0]
  }

  /** The loop at strategy.py:67-69, which appends one return per close after a leading 0.0. */
  method VolReturns(closes: seq<real>) returns (rets: seq<real>)
    requires AllPositive(closes)
    ensures rets == [0.0] + SimpleReturns(closes)
  {
    rets := [0.0];
    var i := 1;
    ghost var r := SimpleReturns(closes);
    while i < |closes|
      invariant 1 <= i <= Max(|closes|, 1)
      invariant |rets| == i && rets == [0.0] + r[..i - 1]
    {
      rets := rets + [closes[i] / closes[i - 1] - 1.0];
      assert r[..i] == r[..i - 1] + [r[i - 1]];
      i := i + 1;
    }
    assert r[..i - 1] == r;
  }

  // ---------------------------------------------------------------- drawdown

  /** The running peak `peak` after the loop in `max_drawdown` has seen the first `n` points. */
  function Peak(eq: seq<real>, n: nat): (r: real)
    requires 0 < n <= |eq|
    ensures eq[0] <= r && eq[n - 1] <= r
  {
    if n == 1 then eq[0]
    else
      var p := Peak(eq, n - 1);
      if eq[n - 1] > p then eq[n - 1] else p
  }

  /** The running peak is the largest of the points seen so far. */
  lemma {:induction false} PeakIsRunningMax(eq: seq<real>, n: nat)
    requires 0 < n <= |eq|
    ensures forall j :: 0 <= j < n ==> eq[j] <= Peak(eq, n)
    ensures exists j :: 0 <= j < n && Peak(eq, n) == eq[j]
  {
    if n == 1 {
      assert Peak(eq, n) == eq[0];
    } else {
      PeakIsRunningMax(eq, n - 1);
      var j :| 0 <= j < n - 1 && Peak(eq, n - 1) == eq[j];
      if eq[n - 1] > Peak(eq, n - 1) {
        assert Peak(eq, n) == eq[n - 1];
      } else {
        assert Peak(eq, n) == eq[j];
      }
    }
  }

  /** The drawdown of one point against the peak so far; zero while that peak is not positive. */
  function PointDrawdown(x: real, peak: real): (r: real)
    ensures peak <= 0.0 ==> r == 0.0
    ensures 0.0 < peak ==> (0.0 < r <==> x < peak) && (r == 0.0 <==> x == peak)
    ensures 0.0 < peak && 0.0 <= x ==> r <= 1.0
  {
    if peak > 0.0 then
      RatioOrder(x, peak);
      1.0 - x / peak
    else 0.0
  }

  /** The drawdown `max_drawdown` computes at point `i`. */
  function DrawdownAt(eq: seq<real>, i: nat): (r: real)
    requires i < |eq|
    ensures 0.0 <= r
    ensures 0.0 <= eq[i] ==> r <= 1.0
  {
    PointDrawdown(eq[i], Peak(eq, i + 1))
  }

  /** `mdd` after the loop has seen the first `n` points; never below zero. */
  function MaxDrawdownOf(eq: seq<real>, n: nat): (r: real)
    requires n <= |eq|
    ensures 0.0 <= r
  {
    if n == 0 then 0.0 else RMax(MaxDrawdownOf(eq, n - 1), DrawdownAt(eq, n - 1))
  }

  /** `mdd` is the largest drawdown seen so far, or zero when none is positive. */
  lemma {:induction false} MaxDrawdownIsLargest(eq: seq<real>, n: nat)
    requires n <= |eq|
    ensures forall i :: 0 <= i < n ==> DrawdownAt(eq, i) <= MaxDrawdownOf(eq, n)
    ensures MaxDrawdownOf(eq, n) == 0.0 || exists i :: 0 <= i < n && MaxDrawdownOf(eq, n) == DrawdownAt(eq, i)
  {
    if n > 0 {
      MaxDrawdownIsLargest(eq, n - 1);
    }
  }

  /** `max_drawdown(equity_curve)`; the source indexes `equity_curve[0]`, so the curve must
      not be empty. */
  function MaxDrawdown(eq: seq<real>): (r: real)
    requires |eq| > 0
    ensures 0.0 <= r
  {
    MaxDrawdownOf(eq, |eq|)
  }

  /** The loop of `max_drawdown` itself, updating `peak` and `mdd` point by point. */
  method MaxDrawdownLoop(eq: seq<real>) returns (mdd: real)
    requires |eq| > 0
    ensures mdd == MaxDrawdown(eq)
  {
    var peak := eq[0];
    mdd := 0.0;
    var i := 0;
    while i < |eq|
      invariant 0 <= i <= |eq|
      invariant peak == Peak(eq, if i == 0 then 1 else i)
      invariant mdd == MaxDrawdownOf(eq, i)
    {
      var x := eq[i];
      if x > peak {
        peak := x;
      }
      var dd := if peak > 0.0 then 1.0 - x / peak else 0.0;
      mdd := RMax(mdd, dd);
      i := i + 1;
    }
  }

  /** A curve that never falls has no drawdown. */
  lemma NonDecreasingNoDrawdown(eq: seq<real>)
    requires |eq| > 0
    requires forall i, j :: 0 <= i <= j < |eq| ==> eq[i] <= eq[j]
    ensures MaxDrawdown(eq) == 0.0
  {
    MaxDrawdownIsLargest(eq, |eq|);
    forall i | 0 <= i < |eq|
      ensures DrawdownAt(eq, i) == 0.0
    {
      var p := Peak(eq, i + 1);
      PeakIsRunningMax(eq, i + 1);
      var j :| 0 <= j < i + 1 && p == eq[j];
      assert eq[j] <= eq[i] <= p;
      if p > 0.0 {
        SelfRatio(p);
      }
    }
  }

  /** Points seen while the running peak is not positive count as zero drawdown, so a
      curve that never rises above zero has none. */
  lemma NonPositiveCurveNoDrawdown(eq: seq<real>)
    requires |eq| > 0
    requires forall i :: 0 <= i < |eq| ==> eq[i] <= 0.0
    ensures MaxDrawdown(eq) == 0.0
  {
    MaxDrawdownIsLargest(eq, |eq|);
    forall i | 0 <= i < |eq|
      ensures DrawdownAt(eq, i) == 0.0
    {
      var p := Peak(eq, i + 1);
      PeakIsRunningMax(eq, i + 1);
      var j :| 0 <= j < i + 1 && p == eq[j];
    }
  }

  /** On a curve that never goes negative, no drawdown exceeds a total loss. */
  lemma DrawdownAtMostTotalLoss(eq: seq<real>)
    requires |eq| > 0
    requires forall i :: 0 <= i < |eq| ==> 0.0 <= eq[i]
    ensures MaxDrawdown(eq) <= 1.0
  {
    MaxDrawdownIsLargest(eq, |eq|);
    forall i | 0 <= i < |eq|
      ensures DrawdownAt(eq, i) <= 1.0
    {
      var p := Peak(eq, i + 1);
      if p > 0.0 {
        NonNegativeRatio(eq[i], p);
      }
    }
  }

  // ---------------------------------------------------------------- stages

  /** `need`: the history below which the model stays flat. */
  function Need(p: Params): (n: nat)
    ensures p.ms + 2 <= n && p.ml + 2 <= n && p.tr + 2 <= n && p.v + 2 <= n
    ensures n == p.ms + 2 || n == p.ml + 2 || n == p.tr + 2 || n == p.v + 2
  {
    Max(Max(p.ms, p.ml), Max(p.tr, p.v)) + 2
  }

  /** The source divides by every close and calls `sma(closes, tr)` once the history is
      long enough, which divides by `tr`. */
  predicate Defined(closes: seq<real>, p: Params) {
    AllPositive(closes) && (|closes| >= Need(p) ==> p.tr > 0)
  }

  /** `closes[-1] / closes[-1 - k] - 1.0` */
  function Momentum(closes: seq<real>, k: nat): (m: real)
    requires AllPositive(closes) && |closes| >= k + 1
    ensures 0.0 < m <==> closes[|closes| - 1 - k] < closes[|closes| - 1]
    ensures m < 0.0 <==> closes[|closes| - 1] < closes[|closes| - 1 - k]
  {
    var last, past := closes[|closes| - 1], closes[|closes| - 1 - k];
    RatioOrder(last, past);
    last / past - 1.0
  }

  /** Dual-momentum consensus: long only when both windows rose, short only when both fell. */
  function Direction(momS: real, momL: real): (base: real)
    ensures base == 1.0 <==> momS > 0.0 && momL > 0.0
    ensures base == -1.0 <==> momS < 0.0 && momL < 0.0
    ensures base == 0.0 <==> !(momS > 0.0 && momL > 0.0) && !(momS < 0.0 && momL < 0.0)
  {
    if momS > 0.0 && momL > 0.0 then 1.0
    else if momS < 0.0 && momL < 0.0 then -1.0
    else 0.0
  }

  /** Trend dampening: a short while the close is at or above its moving average keeps half
      its size, a long while it is below keeps three quarters; the sign never changes. */
  function Dampen(base: real, close: real, ma: Option<real>): (r: real)
    ensures r > 0.0 <==> base > 0.0
    ensures r < 0.0 <==> base < 0.0
    ensures ma.None? ==> r == base
    ensures base in {-1.0, 0.0, 1.0} ==> r in {-1.0, -0.5, 0.0, 0.75, 1.0}
    ensures ma.Some? && close >= ma.value && base < 0.0 ==> r == base * 0.5
    ensures ma.Some? && close < ma.value && base > 0.0 ==> r == base * 0.75
    ensures ma.Some? && !(close >= ma.value && base < 0.0) && !(close < ma.value && base > 0.0) ==> r == base
  {
    match ma
    case None => base
    case Some(m) =>
      var bull := close >= m;
      var b := if bull && base < 0.0 then base * 0.5 else base;
      if !bull && b > 0.0 then b * 0.75 else b
  }

  /** Volatility targeting: `tv / rv_a` capped to `[0, maxlev]`, and nothing at all without
      a usable volatility estimate. */
  function VolLeverage(rvA: Option<real>, tv: real, maxlev: real): (lev: real)
    ensures 0.0 <= maxlev ==> 0.0 <= lev <= maxlev
    ensures rvA.None? || rvA.value <= VolFloor ==> lev == 0.0
    ensures rvA.Some? && rvA.value > VolFloor && 0.0 < tv && 0.0 < maxlev ==> 0.0 < lev
    ensures rvA.Some? && rvA.value > VolFloor && 0.0 <= tv / rvA.value <= maxlev ==> lev == tv / rvA.value
    ensures rvA.Some? && rvA.value > VolFloor && tv / rvA.value > maxlev ==> lev == maxlev
    ensures rvA.Some? && rvA.value > VolFloor && tv / rvA.value < 0.0 ==> lev == RMin(maxlev, 0.0)
  {
    if rvA.None? || rvA.value <= VolFloor then 0.0
    else
      var ratio := tv / rvA.value;
      assert 0.0 < tv ==> 0.0 < ratio by {
        if 0.0 < tv { PositiveRatio(tv, rvA.value); }
      }
      RMin(maxlev, RMax(0.0, ratio))
  }

  /** Tiered drawdown overlay: flat at or beyond `dd2`, else half at or beyond `dd1`; one tier
      at most, and skipped for an empty curve. It never grows the target or flips its sign. */
  function DrawdownOverlay(target: real, equity: seq<real>, dd1: real, dd2: real): (r: real)
    ensures equity == [] ==> r == target
    ensures equity != [] && MaxDrawdown(equity) >= dd2 ==> r == 0.0
    ensures equity != [] && dd1 <= MaxDrawdown(equity) < dd2 ==> r == target * 0.5
    ensures equity != [] && MaxDrawdown(equity) < dd1 && MaxDrawdown(equity) < dd2 ==> r == target
    ensures r > 0.0 ==> target > 0.0
    ensures r < 0.0 ==> target < 0.0
  {
    if equity == [] then target
    else
      var mdd := MaxDrawdown(equity);
      if mdd >= dd2 then target * 0.0
      else if mdd >= dd1 then target * 0.5
      else target
  }

  /** The final cap `max(-maxlev, min(maxlev, target))`. */
  function Clamp(x: real, maxlev: real): (r: real)
    ensures 0.0 <= maxlev ==> -maxlev <= r <= maxlev
    ensures 0.0 <= maxlev && -maxlev <= x <= maxlev ==> r == x
    ensures 0.0 <= maxlev && x > maxlev ==> r == maxlev
    ensures 0.0 <= maxlev && x < -maxlev ==> r == -maxlev
    ensures 0.0 <= maxlev && r > 0.0 ==> x > 0.0
    ensures 0.0 <= maxlev && r < 0.0 ==> x < 0.0
  {
    RMax(-maxlev, RMin(maxlev, x))
  }

  /** The direction after consensus and trend dampening (`base` at strategy.py:76). */
  function Base(closes: seq<real>, p: Params): (b: real)
    requires Defined(closes, p) && |closes| >= Need(p)
    ensures b in {-1.0, -0.5, 0.0, 0.75, 1.0}
  {
    var last := closes[|closes| - 1];
    Dampen(Direction(Momentum(closes, p.ms), Momentum(closes, p.ml)), last, Sma(closes, p.tr))
  }

  /** The volatility-targeted leverage (`lev` at strategy.py:76). Once the history is long
      enough there are at least `v + 1` returns, so a volatility estimate always exists: the
      source's `rv_a is None` branch is unreachable here, and only the 1e-9 floor gives 0. */
  function Leverage(closes: seq<real>, p: Params, sqrt: SqrtFn): (lev: real)
    requires Defined(closes, p) && |closes| >= Need(p)
    ensures RealizedVolAnnual(SimpleReturns(closes), p.v, sqrt).Some?
    ensures 0.0 <= p.maxlev ==> 0.0 <= lev <= p.maxlev
    ensures RealizedVolAnnual(SimpleReturns(closes), p.v, sqrt).value <= VolFloor ==> lev == 0.0
    ensures RealizedVolAnnual(SimpleReturns(closes), p.v, sqrt).value > VolFloor && 0.0 < p.tv && 0.0 < p.maxlev ==>
      0.0 < lev
  {
    VolLeverage(RealizedVolAnnual(SimpleReturns(closes), p.v, sqrt), p.tv, p.maxlev)
  }

  /** `b_dual_mom_target(closes, equity_curve, cfg)`. */
  function Target(closes: seq<real>, equity: seq<real>, p: Params, sqrt: SqrtFn): (r: real)
    requires Defined(closes, p)
    ensures |closes| < Need(p) ==> r == 0.0
    ensures 0.0 <= p.maxlev ==> -p.maxlev <= r <= p.maxlev
  {
    if |closes| < Need(p) then 0.0
    else Clamp(DrawdownOverlay(Base(closes, p) * Leverage(closes, p, sqrt), equity, p.dd1, p.dd2), p.maxlev)
  }

  // ---------------------------------------------------------------- properties of Target

  /** The sign of the target never opposes the dampened direction, and that direction is
      long only when both momenta are positive and short only when both are negative;
      without consensus the model is flat. */
  lemma TargetFollowsConsensus(closes: seq<real>, equity: seq<real>, p: Params, sqrt: SqrtFn)
    requires Defined(closes, p) && |closes| >= Need(p) && 0.0 <= p.maxlev
    ensures Target(closes, equity, p, sqrt) > 0.0 ==>
      Base(closes, p) > 0.0 && Momentum(closes, p.ms) > 0.0 && Momentum(closes, p.ml) > 0.0
    ensures Target(closes, equity, p, sqrt) < 0.0 ==>
      Base(closes, p) < 0.0 && Momentum(closes, p.ms) < 0.0 && Momentum(closes, p.ml) < 0.0
    ensures !(Momentum(closes, p.ms) > 0.0 && Momentum(closes, p.ml) > 0.0) &&
            !(Momentum(closes, p.ms) < 0.0 && Momentum(closes, p.ml) < 0.0) ==>
      Target(closes, equity, p, sqrt) == 0.0
  {
    var b := Base(closes, p);
    var lev := Leverage(closes, p, sqrt);
    ProductSign(b, lev);
  }

  /** A price history that never moves has no momentum, so the model stays flat. */
  lemma FlatHistoryIsFlat(closes: seq<real>, c: real, equity: seq<real>, p: Params, sqrt: SqrtFn)
    requires Defined(closes, p) && AllEqual(closes, c) && 0.0 <= p.maxlev
    ensures Target(closes, equity, p, sqrt) == 0.0
  {
    if |closes| >= Need(p) {
      SelfRatio(c);
      assert Momentum(closes, p.ms) == 0.0;
      TargetFollowsConsensus(closes, equity, p, sqrt);
    }
  }

  /** A drawdown at or beyond the second tier forces the model flat, whatever the first tier
      and the momentum say. */
  lemma DeepDrawdownIsFlat(closes: seq<real>, equity: seq<real>, i: nat, p: Params, sqrt: SqrtFn)
    requires Defined(closes, p) && 0.0 <= p.maxlev
    requires i < |equity| && DrawdownAt(equity, i) >= p.dd2
    ensures Target(closes, equity, p, sqrt) == 0.0
  {
    MaxDrawdownIsLargest(equity, |equity|);
  }

  /** On a strictly rising history (both windows non-zero) with no drawdown tier reached, the
      model goes long with exactly the volatility-targeted leverage: both momenta are positive
      and the last close is at or above its moving average, so nothing is dampened. */
  lemma UptrendGoesLong(closes: seq<real>, equity: seq<real>, p: Params, sqrt: SqrtFn)
    requires Defined(closes, p) && |closes| >= Need(p) && 0.0 <= p.maxlev
    requires p.ms > 0 && p.ml > 0
    requires forall i :: 0 < i < |closes| ==> closes[i - 1] < closes[i]
    requires equity != [] ==> MaxDrawdown(equity) < p.dd1 && MaxDrawdown(equity) < p.dd2
    ensures Target(closes, equity, p, sqrt) == Leverage(closes, p, sqrt)
    ensures VolFloor < RealizedVolAnnual(SimpleReturns(closes), p.v, sqrt).value && 0.0 < p.tv && 0.0 < p.maxlev ==>
      0.0 < Target(closes, equity, p, sqrt)
  {
    RisingBase(closes, p);
    var lev := Leverage(closes, p, sqrt);
    assert Base(closes, p) * lev == lev;
  }

  /** On a strictly rising history (both windows non-zero) both momenta are positive and the
      last close is at or above its moving average, so the direction is a full long. */
  lemma RisingBase(closes: seq<real>, p: Params)
    requires Defined(closes, p) && |closes| >= Need(p)
    requires p.ms > 0 && p.ml > 0
    requires forall i :: 0 < i < |closes| ==> closes[i - 1] < closes[i]
    ensures Base(closes, p) == 1.0
  {
    RisingMomentum(closes, p.ms);
    RisingMomentum(closes, p.ml);
    RisingAboveAverage(closes, p.tr);
  }

  /** Over a strictly rising history every non-zero window has positive momentum. */
  lemma RisingMomentum(closes: seq<real>, k: nat)
    requires AllPositive(closes) && 0 < k && k + 1 <= |closes|
    requires forall i :: 0 < i < |closes| ==> closes[i - 1] < closes[i]
    ensures Momentum(closes, k) > 0.0
  {
    RisingUpToLast(closes);
    RatioAboveOne(closes[|closes| - 1], closes[|closes| - 1 - k]);
  }

  /** Over a strictly rising history the last close is at or above every moving average. */
  lemma RisingAboveAverage(closes: seq<real>, n: nat)
    requires 0 < n <= |closes|
    requires forall i :: 0 < i < |closes| ==> closes[i - 1] < closes[i]
    ensures Sma(closes, n).value <= closes[|closes| - 1]
  {
    RisingUpToLast(closes);
    var w := closes[|closes| - n..];
    var j :| 0 <= j < |w| && SeqMax(w) == w[j];
    assert w[j] <= closes[|closes| - 1];
  }

  /** In a strictly rising history every earlier close lies below the last one. */
  lemma {:induction false} RisingUpToLast(closes: seq<real>)
    requires |closes| > 0
    requires forall i :: 0 < i < |closes| ==> closes[i - 1] < closes[i]
    ensures forall i :: 0 <= i < |closes| - 1 ==> closes[i] < closes[|closes| - 1]
  {
    if |closes| > 1 {
      RisingUpToLast(closes[..|closes| - 1]);
    }
  }

  // ---------------------------------------------------------------- real-arithmetic helpers

  lemma ProductSign(a: real, b: real)
    requires 0.0 <= b
    ensures a * b > 0.0 ==> a > 0.0
    ensures a * b < 0.0 ==> a < 0.0
  {
  }

  lemma RatioAboveOne(a: real, b: real)
    requires a > b > 0.0
    ensures a / b > 1.0
  {
  }

  lemma SelfRatio(a: real)
    requires a > 0.0
    ensures a / a == 1.0
  {
  }

  lemma PositiveRatio(a: real, b: real)
    requires a > 0.0 && b > 0.0
    ensures a / b > 0.0
  {
  }

  lemma RatioOrder(a: real, b: real)
    requires b > 0.0
    ensures a / b > 1.0 <==> a > b
    ensures a / b < 1.0 <==> a < b
    ensures a / b == 1.0 <==> a == b
    ensures a >= 0.0 ==> a / b >= 0.0
  {
    assert (a / b) * b == a;
  }

  lemma NonNegativeRatio(a: real, b: real)
    requires a >= 0.0 && b > 0.0
    ensures a / b >= 0.0
  {
  }

  lemma DivTimes(a: real, n: real)
    requires n != 0.0
    ensures (a / n) * n == a
  {
  }

  lemma MeanBounds(s: real, n: real, lo: real, hi: real)
    requires n > 0.0 && n * lo <= s <= n * hi
    ensures lo <= s / n <= hi
  {
  }
}
