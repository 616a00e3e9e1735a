/**
 * The sampling throttle of cmd/esx/throttle.go: a fixed-capacity FIFO window
 * of batch durations (in seconds), a least-squares trend line over it, and a
 * backoff derived from the trend's prediction one step past the window.
 * The mutex is left out: the model is single-threaded.
 */
module Throttle {
  import opened Regression

  /** The option setters `SetLimit`, `SetWindowSize` and `SetBackoffFactor`. */
  datatype ThrottleOpt =
    | SetLimit(limit: real)
    | SetWindowSize(size: int)
    | SetBackoffFactor(factor: real)

  /** The configurable fields of a throttle; `limit` is in seconds. */
  datatype Settings = Settings(limit: real, windowSize: int, backoffFactor: real)

  /** The defaults `NewSamplingThrottle` assigns before applying options. */
  const DefaultSettings := Settings(30.0, 10, 1.0)

  /** What running one option closure does to the fields. */
  function ApplyOpt(s: Settings, opt: ThrottleOpt): Settings
  {
    match opt
    case SetLimit(l) => s.(limit := l)
    case SetWindowSize(n) => s.(windowSize := n)
    case SetBackoffFactor(f) => s.(backoffFactor := f)
  }

  /** The options applied in order, first to last. */
  function ApplyOpts(s: Settings, opts: seq<ThrottleOpt>): Settings
  {
    if opts == [] then s
    else ApplyOpt(ApplyOpts(s, opts[..|opts| - 1]), opts[|opts| - 1])
  }

  /** Option j is the last one in opts that sets the limit. */
  ghost predicate LastSetsLimit(opts: seq<ThrottleOpt>, j: int)
  {
    0 <= j < |opts| && opts[j].SetLimit? && forall k :: j < k < |opts| ==> !opts[k].SetLimit?
  }

  /** Option j is the last one in opts that sets the window size. */
  ghost predicate LastSetsWindowSize(opts: seq<ThrottleOpt>, j: int)
  {
    0 <= j < |opts| && opts[j].SetWindowSize? && forall k :: j < k < |opts| ==> !opts[k].SetWindowSize?
  }

  /** Option j is the last one in opts that sets the backoff factor. */
  ghost predicate LastSetsBackoffFactor(opts: seq<ThrottleOpt>, j: int)
  {
    0 <= j < |opts| && opts[j].SetBackoffFactor? && forall k :: j < k < |opts| ==> !opts[k].SetBackoffFactor?
  }

  /**
   * Options are applied in order, so the limit ends up with the value of the
   * last `SetLimit`, or keeps its starting value if there is none.
   */
  lemma {:induction false} LastLimitWins(s: Settings, opts: seq<ThrottleOpt>)
    ensures (forall k :: 0 <= k < |opts| ==> !opts[k].SetLimit?) ==>
              ApplyOpts(s, opts).limit == s.limit
    ensures forall j :: LastSetsLimit(opts, j) ==> ApplyOpts(s, opts).limit == opts[j].limit
  {
    if opts != [] {
      var n := |opts| - 1;
      LastLimitWins(s, opts[..n]);
      LimitStep(s, opts);
      if forall k :: 0 <= k < |opts| ==> !opts[k].SetLimit? {
        NoLimitInit(opts, opts[..n]);
      }
      forall j | LastSetsLimit(opts, j)
        ensures ApplyOpts(s, opts).limit == opts[j].limit
      {
        LastSetsLimitInit(opts, j);
      }
    }
  }

  lemma LimitStep(s: Settings, opts: seq<ThrottleOpt>)
    requires opts != []
    ensures ApplyOpts(s, opts).limit
         == if opts[|opts| - 1].SetLimit? then opts[|opts| - 1].limit else ApplyOpts(s, opts[..|opts| - 1]).limit
  {
  }

  lemma NoLimitInit(opts: seq<ThrottleOpt>, init: seq<ThrottleOpt>)
    requires opts != [] && init == opts[..|opts| - 1]
    requires forall k :: 0 <= k < |opts| ==> !opts[k].SetLimit?
    ensures forall k :: 0 <= k < |init| ==> !init[k].SetLimit?
  {
  }

  lemma LastSetsLimitInit(opts: seq<ThrottleOpt>, j: int)
    requires LastSetsLimit(opts, j)
    ensures opts[|opts| - 1].SetLimit? ==> j == |opts| - 1
    ensures j < |opts| - 1 ==> LastSetsLimit(opts[..|opts| - 1], j) && opts[..|opts| - 1][j] == opts[j]
  {
  }

  /** Likewise for the window size and the last `SetWindowSize`. */
  lemma {:induction false} LastWindowSizeWins(s: Settings, opts: seq<ThrottleOpt>)
    ensures (forall k :: 0 <= k < |opts| ==> !opts[k].SetWindowSize?) ==>
              ApplyOpts(s, opts).windowSize == s.windowSize
    ensures forall j :: LastSetsWindowSize(opts, j) ==> ApplyOpts(s, opts).windowSize == opts[j].size
  {
    if opts != [] {
      var n := |opts| - 1;
      LastWindowSizeWins(s, opts[..n]);
      WindowSizeStep(s, opts);
      if forall k :: 0 <= k < |opts| ==> !opts[k].SetWindowSize? {
        NoWindowSizeInit(opts, opts[..n]);
      }
      forall j | LastSetsWindowSize(opts, j)
        ensures ApplyOpts(s, opts).windowSize == opts[j].size
      {
        LastSetsWindowSizeInit(opts, j);
      }
    }
  }

  lemma WindowSizeStep(s: Settings, opts: seq<ThrottleOpt>)
    requires opts != []
    ensures ApplyOpts(s, opts).windowSize
         == if opts[|opts| - 1].SetWindowSize? then opts[|opts| - 1].size else ApplyOpts(s, opts[..|opts| - 1]).windowSize
  {
  }

  lemma NoWindowSizeInit(opts: seq<ThrottleOpt>, init: seq<ThrottleOpt>)
    requires opts != [] && init == opts[..|opts| - 1]
    requires forall k :: 0 <= k < |opts| ==> !opts[k].SetWindowSize?
    ensures forall k :: 0 <= k < |init| ==> !init[k].SetWindowSize?
  {
  }

  lemma LastSetsWindowSizeInit(opts: seq<ThrottleOpt>, j: int)
    requires LastSetsWindowSize(opts, j)
    ensures opts[|opts| - 1].SetWindowSize? ==> j == |opts| - 1
    ensures j < |opts| - 1 ==> LastSetsWindowSize(opts[..|opts| - 1], j) && opts[..|opts| - 1][j] == opts[j]
  {
  }

  /** Likewise for the backoff factor and the last `SetBackoffFactor`. */
  lemma {:induction false} LastBackoffFactorWins(s: Settings, opts: seq<ThrottleOpt>)
    ensures (forall k :: 0 <= k < |opts| ==> !opts[k].SetBackoffFactor?) ==>
              ApplyOpts(s, opts).backoffFactor == s.backoffFactor
    ensures forall j :: LastSetsBackoffFactor(opts, j) ==> ApplyOpts(s, opts).backoffFactor == opts[j].factor
  {
    if opts != [] {
      var n := |opts| - 1;
      LastBackoffFactorWins(s, opts[..n]);
      BackoffFactorStep(s, opts);
      if forall k :: 0 <= k < |opts| ==> !opts[k].SetBackoffFactor? {
        NoBackoffFactorInit(opts, opts[..n]);
      }
      forall j | LastSetsBackoffFactor(opts, j)
        ensures ApplyOpts(s, opts).backoffFactor == opts[j].factor
      {
        LastSetsBackoffFactorInit(opts, j);
      }
    }
  }

  lemma BackoffFactorStep(s: Settings, opts: seq<ThrottleOpt>)
    requires opts != []
    ensures ApplyOpts(s, opts).backoffFactor
         == if opts[|opts| - 1].SetBackoffFactor? then opts[|opts| - 1].factor else ApplyOpts(s, opts[..|opts| - 1]).backoffFactor
  {
  }

  lemma NoBackoffFactorInit(opts: seq<ThrottleOpt>, init: seq<ThrottleOpt>)
    requires opts != [] && init == opts[..|opts| - 1]
    requires forall k :: 0 <= k < |opts| ==> !opts[k].SetBackoffFactor?
    ensures forall k :: 0 <= k < |init| ==> !init[k].SetBackoffFactor?
  {
  }

  lemma LastSetsBackoffFactorInit(opts: seq<ThrottleOpt>, j: int)
    requires LastSetsBackoffFactor(opts, j)
    ensures opts[|opts| - 1].SetBackoffFactor? ==> j == |opts| - 1
    ensures j < |opts| - 1 ==> LastSetsBackoffFactor(opts[..|opts| - 1], j) && opts[..|opts| - 1][j] == opts[j]
  {
  }

  /** One `Collect`: drop the oldest sample if the window is full, then append. */
  function CollectStep(samples: seq<real>, windowSize: int, t: real): seq<real>
  {
    if |samples| == windowSize && |samples| > 0 then samples[1..] + [t]
    else samples + [t]
  }

  /** The window after collecting ts, in order, starting from `samples`. */
  function CollectAll(samples: seq<real>, windowSize: int, ts: seq<real>): seq<real>
  {
    if ts == [] then samples
    else CollectStep(CollectAll(samples, windowSize, ts[..|ts| - 1]), windowSize, ts[|ts| - 1])
  }

  /** The last w elements of xs, oldest first (all of xs if it is shorter). */
  function Trailing(xs: seq<real>, w: nat): (r: seq<real>)
    ensures |r| <= w && |r| <= |xs|
  {
    if |xs| <= w then xs else xs[|xs| - w..]
  }

  /**
   * A window that held the last w values of xs holds, after one more
   * `Collect` of t, the last w values of xs + [t].
   */
  lemma CollectStepTrailing(xs: seq<real>, w: int, t: real)
    requires w >= 1
    ensures CollectStep(Trailing(xs, w), w, t) == Trailing(xs + [t], w)
  {
    var s := Trailing(xs, w);
    if |xs| >= w {
      assert s == xs[|xs| - w..];
      assert s[1..] + [t] == (xs + [t])[|xs| + 1 - w..];
    }
  }

  /**
   * After collecting ts into an empty window of size w >= 1, the window holds
   * exactly the last w values of ts (all of them while fewer than w were
   * collected), oldest first.
   */
  lemma {:induction false} WindowHoldsLast(w: int, ts: seq<real>)
    requires w >= 1
    ensures CollectAll([], w, ts) == Trailing(ts, w)
  {
    if ts != [] {
      var init := ts[..|ts| - 1];
      WindowHoldsLast(w, init);
      CollectStepTrailing(init, w, ts[|ts| - 1]);
      assert init + [ts[|ts| - 1]] == ts;
    }
  }

  /** `Collect` never lets the window grow past its capacity. */
  lemma CollectStepBounded(samples: seq<real>, w: int, t: real)
    requires w >= 1 && |samples| <= w
    ensures |CollectStep(samples, w, t)| <= w
    ensures |samples| < w ==> CollectStep(samples, w, t) == samples + [t]
    ensures |samples| == w ==> CollectStep(samples, w, t)[..w - 1] == samples[1..]
    ensures CollectStep(samples, w, t)[|CollectStep(samples, w, t)| - 1] == t
  {
  }

  /**
   * The strength factor * pred^2 / limit, clamped at zero: the backoff in
   * seconds that `computeBackoff` derives from a predicted duration.
   */
  function Backoff(pred: real, limit: real, factor: real): (r: real)
    requires limit != 0.0
    ensures r >= 0.0
    ensures r > 0.0 <==> factor * (pred * pred) / limit > 0.0
    ensures r > 0.0 ==> r == factor * (pred * pred) / limit
  {
    var backoff := (pred * pred) / limit * factor;
    if backoff > 0.0 then backoff else 0.0
  }

  /** No predicted duration, no backoff. */
  lemma BackoffAtZero(limit: real, factor: real)
    requires limit != 0.0
    ensures Backoff(0.0, limit, factor) == 0.0
  {
    assert 0.0 * 0.0 == 0.0;
  }

  /**
   * For a positive limit and a non-negative factor the backoff never
   * decreases as the predicted duration grows in magnitude.
   */
  lemma BackoffMonotone(p: real, q: real, limit: real, factor: real)
    requires limit > 0.0 && factor >= 0.0
    requires Abs(p) <= Abs(q)
    ensures Backoff(p, limit, factor) <= Backoff(q, limit, factor)
  {
    SquareOfAbs(p);
    SquareOfAbs(q);
    SquareMonotone(Abs(p), Abs(q));
    ScaleMonotone(p * p, q * q, limit, factor);
  }

  function Abs(x: real): real
  {
    if x >= 0.0 then x else -x
  }

  lemma SquareOfAbs(x: real)
    ensures x * x == Abs(x) * Abs(x)
  {
    if x < 0.0 {
      assert Abs(x) * Abs(x) == (-x) * (-x);
    }
  }

  lemma SquareMonotone(x: real, y: real)
    requires 0.0 <= x <= y
    ensures x * x <= y * y
  {
    assert x * x <= x * y;
    assert x * y <= y * y;
  }

  lemma ScaleMonotone(x: real, y: real, limit: real, factor: real)
    requires x <= y && limit > 0.0 && factor >= 0.0
    ensures x / limit * factor <= y / limit * factor
  {
    assert x / limit <= y / limit;
  }

  /** The value of `computeBackoff`: the predicted duration and the backoff, in seconds. */
  datatype Prediction = Prediction(pred: real, backoff: real)

  /**
   * The delay the gate should impose on a window: the backoff for the trend
   * line's prediction one step past the window when the window is full enough
   * to be fitted, and none otherwise.
   */
  function GateDelay(samples: seq<real>, windowSize: int, limit: real, factor: real): (d: real)
    requires |samples| >= windowSize ==> |samples| >= 2
    requires limit != 0.0
    ensures d >= 0.0
    ensures |samples| < windowSize ==> d == 0.0
  {
    if |samples| >= windowSize then
      Backoff(LineAt(Slope(samples), Intercept(samples), |samples| as real), limit, factor)
    else 0.0
  }

  /**
   * On a full window of exactly linear durations y_i = m i + b the gate
   * delay is the backoff for m * W + b, the line one step past the window.
   */
  lemma GateOnLinearWindow(samples: seq<real>, m: real, b: real, limit: real, factor: real)
    requires |samples| >= 2 && limit != 0.0
    requires OnLine(samples, m, b)
    ensures GateDelay(samples, |samples|, limit, factor)
         == Backoff(m * (|samples| as real) + b, limit, factor)
  {
    LinearFit(samples, m, b);
  }

  /**
   * A full two-sample window of one-second batches with the default 30 s
   * limit and factor 1: the computed backoff is 1/30 s, yet `Wait` as
   * written delays by zero.
   */
  lemma ShadowedBackoffIsPositive()
    ensures GateDelay([1.0, 1.0], 2, 30.0, 1.0) == 1.0 / 30.0
  {
    var ys := [1.0, 1.0];
    assert OnLine(ys, 0.0, 1.0);
    LinearFit(ys, 0.0, 1.0);
    assert LineAt(0.0, 1.0, 2.0) == 1.0;
  }

  /** One more term of the numerator sum. */
  lemma CrossStep(ys: seq<real>, k: nat, xa: real, ya: real, d: real)
    requires k < |ys| && d == k as real - xa
    ensures Cross(ys, k + 1, xa, ya) == Cross(ys, k, xa, ya) + d * (ys[k] - ya)
  {
  }

  /** One more term of the denominator sum. */
  lemma SqDevStep(k: nat, xa: real, d: real)
    requires d == k as real - xa
    ensures SqDev(k + 1, xa) == SqDev(k, xa) + d * d
  {
  }

  /** The sums `computeOLS` accumulates determine the least-squares line. */
  lemma FitFromSums(ys: seq<real>, xavg: real, yavg: real, num: real, den: real)
    requires |ys| >= 2 && xavg == Mean(Indices(|ys|)) && yavg == Mean(ys)
    requires num == Cross(ys, |ys|, xavg, yavg) && den == SqDev(|ys|, xavg)
    ensures den > 0.0
    ensures num / den == Slope(ys) && yavg - (num / den) * xavg == Intercept(ys)
  {
    FitDefinition(ys);
  }

  /** `computeAvg`: the running sum divided by the length. */
  method ComputeAvg(xs: seq<real>) returns (avg: real)
    requires |xs| > 0
    ensures avg == Mean(xs)
  {
    var size := |xs| as real;
    var sum := 0.0;
    var i := 0;
    while i < |xs|
      invariant 0 <= i <= |xs|
      invariant sum == Sum(xs[..i])
    {
      assert xs[..i + 1][..i] == xs[..i];
      sum := sum + xs[i];
      i := i + 1;
    }
    assert xs[..|xs|] == xs;
    avg := sum / size;
  }

  class SamplingThrottle {
    var limit: real
    var windowSize: int
    var backoffFactor: real
    var samples: seq<real>

    function CurrentSettings(): Settings
      reads this
    {
      Settings(limit, windowSize, backoffFactor)
    }

    /** A full window has at least two points, so its fit is defined. */
    predicate FitDefined()
      reads this
    {
      |samples| >= windowSize ==> |samples| >= 2
    }

    /** `NewSamplingThrottle`: the defaults, then every option in order. */
    constructor (opts: seq<ThrottleOpt>)
      ensures CurrentSettings() == ApplyOpts(DefaultSettings, opts)
      ensures samples == []
    {
      limit := 30.0;
      windowSize := 10;
      backoffFactor := 1.0;
      samples := [];
      new;
      var i := 0;
      while i < |opts|
        invariant 0 <= i <= |opts|
        invariant CurrentSettings() == ApplyOpts(DefaultSettings, opts[..i])
        invariant samples == []
      {
        assert opts[..i + 1][..i] == opts[..i];
        Apply(opts[i]);
        i := i + 1;
      }
      assert opts[..|opts|] == opts;
    }

    /** Runs one option closure on the fields. */
    method Apply(opt: ThrottleOpt)
      modifies this
      ensures CurrentSettings() == ApplyOpt(old(CurrentSettings()), opt)
      ensures samples == old(samples)
    {
      match opt
      case SetLimit(l) => limit := l;
      case SetWindowSize(n) => windowSize := n;
      case SetBackoffFactor(f) => backoffFactor := f;
    }

    /**
     * `Collect`: records one batch duration, first evicting the oldest sample
     * when the window is full. (With a window size of 0 the source slices an
     * empty slice at 1 and panics: that call is excluded.)
     */
    method Collect(t: real)
      requires windowSize != 0
      modifies this`samples
      ensures samples == CollectStep(old(samples), windowSize, t)
      ensures |old(samples)| <= windowSize ==> |samples| <= windowSize
    {
      if |samples| == windowSize {
        samples := samples[1..];
      }
      samples := samples + [t];
    }

    /**
     * `computeOLS`: not ready (and zeros) while the window holds fewer than
     * `windowSize` samples; otherwise the least-squares line through
     * (i, samples[i]). The window is left as it is.
     */
    method ComputeOLS() returns (ready: bool, m: real, b: real)
      requires FitDefined()
      ensures ready <==> |samples| >= windowSize
      ensures !ready ==> m == 0.0 && b == 0.0
      ensures ready ==> m == Slope(samples) && b == Intercept(samples)
    {
      if |samples| >= windowSize {
        var ys := samples;
        var n := |ys|;
        var num, den := 0.0, 0.0;
        var xs := new real[n];
        var i := 0;
        while i < n
          invariant 0 <= i <= n
          invariant forall j :: 0 <= j < i ==> xs[j] == j as real
        {
          xs[i] := i as real;
          i := i + 1;
        }
        assert xs[..] == Indices(n);
        var xavg := ComputeAvg(xs[..]);
        var yavg := ComputeAvg(ys);
        var x := 0;
        while x < n
          invariant 0 <= x <= n
          invariant num == Cross(ys, x, xavg, yavg)
          invariant den == SqDev(x, xavg)
        {
          var xdelta := x as real - xavg;
          CrossStep(ys, x, xavg, yavg, xdelta);
          SqDevStep(x, xavg, xdelta);
          num := num + xdelta * (ys[x] - yavg);
          den := den + xdelta * xdelta;
          x := x + 1;
        }
        FitFromSums(ys, xavg, yavg, num, den);
        m := num / den;
        b := yavg - m * xavg;
        return true, m, b;
      }
      return false, 0.0, 0.0;
    }

    /**
     * `computeBackoff`: the line evaluated at x = |samples|, one step past
     * the last index of the window, and the clamped backoff for it.
     */
    function ComputeBackoff(m: real, b: real): (r: Prediction)
      reads this
      requires limit != 0.0
      ensures r.pred == LineAt(m, b, |samples| as real)
      ensures r.backoff == Backoff(r.pred, limit, backoffFactor)
    {
      var x := |samples| as real;
      var pred := m * x + b;
      Prediction(pred, Backoff(pred, limit, backoffFactor))
    }

    /**
     * `Wait` as written: the backoff is computed, but into a variable that
     * shadows the one handed to the timer, so the delay is always zero. In a
     * state whose fit or backoff divides by zero (a full window of one
     * sample, a zero limit) the source computes NaN or an infinity into that
     * shadowed variable; the model skips the computation there, since its
     * result never reaches the delay.
     */
    method Wait() returns (delay: real)
      ensures delay == 0.0
    {
      var backoff := 0.0;
      if FitDefined() && limit != 0.0 {
        var ready, m, b := ComputeOLS();
        if ready {
          var p := ComputeBackoff(m, b);
          var backoff := p.backoff;
        }
      }
      delay := backoff;
    }

    /**
     * The gate as intended: the delay is the computed backoff once the window
     * is full, and zero before.
     */
    method Gate() returns (delay: real)
      requires FitDefined() && limit != 0.0
      ensures delay == GateDelay(samples, windowSize, limit, backoffFactor)
    {
      delay := 0.0;
      var ready, m, b := ComputeOLS();
      if ready {
        var p := ComputeBackoff(m, b);
        delay := p.backoff;
      }
    }
  }

  /**
   * The scenario of the regression test: a throttle with window size `size`
   * that has collected `size` durations on the line y = m x + b reports a
   * ready fit with exactly that slope and intercept.
   */
  method FitCollectedLine(m: real, b: real, size: nat) returns (ready: bool, cm: real, cb: real)
    requires size >= 2
    ensures ready && cm == m && cb == b
  {
    var throttle := new SamplingThrottle([SetWindowSize(size)]);
    assert throttle.windowSize == size;
    var i := 0;
    while i < size
      invariant 0 <= i <= size
      invariant throttle.windowSize == size
      invariant |throttle.samples| == i
      invariant OnLine(throttle.samples, m, b)
    {
      throttle.Collect(m * (i as real) + b);
      i := i + 1;
    }
    ready, cm, cb := throttle.ComputeOLS();
    LinearFit(throttle.samples, m, b);
  }
}
