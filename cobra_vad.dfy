/**
 * The probability-smoothing engine (`CobraVADEngine`): the Cobra SDK returns a
 * speech probability per frame, which is smoothed exponentially and compared
 * with a threshold.
 */
module CobraVad {
  import opened Wrappers
  import opened VadEngine

  const DefaultThreshold: real := 0.6
  const DefaultAlpha: real := 0.5

  /** One smoothing step: `alpha * p + (1 - alpha) * previous`. */
  function Smooth(alpha: real, p: real, previous: real): (r: real)
    ensures r - previous == alpha * (p - previous)
    ensures alpha == 1.0 ==> r == p
  {
    alpha * p + (1.0 - alpha) * previous
  }

  predicate InUnit(x: real) {
    0.0 <= x <= 1.0
  }

  /** The smoothed value after a run of successful calls with probabilities `ps`. */
  function SmoothAll(alpha: real, previous: real, ps: seq<real>): real
    decreases |ps|
  {
    if ps == [] then previous else SmoothAll(alpha, Smooth(alpha, ps[0], previous), ps[1..])
  }

  class CobraVadEngine {
    const accessKey: string
    const threshold: real
    const alpha: real
    var smoothedProbability: real
    /** Whether `delete()` has released the SDK handle. */
    var released: bool

    /** `init(accessKey:threshold:alpha:)` once `Cobra(accessKey:)` has succeeded. */
    constructor (accessKey: string, threshold: real, alpha: real)
      ensures this.accessKey == accessKey && this.threshold == threshold && this.alpha == alpha
      ensures smoothedProbability == 0.0 && !released
    {
      this.accessKey := accessKey;
      this.threshold := threshold;
      this.alpha := alpha;
      smoothedProbability := 0.0;
      released := false;
    }

    /**
     * `process(frame:)`; `probability` is what `cobra.process(pcm:)` returned, or
     * None when it threw, in which case the error propagates and nothing changes.
     */
    method Process(frame: seq<int>, probability: Option<real>) returns (r: Verdict)
      modifies this`smoothedProbability
      ensures probability.None? ==> r == Err(FrameProcessingFailed) && smoothedProbability == old(smoothedProbability)
      ensures probability.Some? ==>
        smoothedProbability == Smooth(alpha, probability.value, old(smoothedProbability)) &&
        r == Ok(smoothedProbability >= threshold)
    {
      if probability.None? {
        return Err(FrameProcessingFailed);
      }
      smoothedProbability := alpha * probability.value + (1.0 - alpha) * smoothedProbability;
      r := Ok(smoothedProbability >= threshold);
    }

    /** `delete()`: releases the SDK handle. */
    method Delete()
      modifies this`released
      ensures released
    {
      released := true;
    }
  }

  /** With weights and probabilities in [0, 1], the smoothed value stays in [0, 1]. */
  lemma SmoothInUnit(alpha: real, p: real, previous: real)
    requires InUnit(alpha) && InUnit(p) && InUnit(previous)
    ensures InUnit(Smooth(alpha, p, previous))
  {
    MulNonNegative(alpha, p);
    MulNonNegative(1.0 - alpha, previous);
    MulNonNegative(alpha, 1.0 - p);
    MulNonNegative(1.0 - alpha, 1.0 - previous);
    assert alpha * (1.0 - p) == alpha - alpha * p;
    assert (1.0 - alpha) * (1.0 - previous) == (1.0 - alpha) - (1.0 - alpha) * previous;
  }

  lemma MulNonNegative(a: real, b: real)
    requires a >= 0.0 && b >= 0.0
    ensures a * b >= 0.0
  {
  }

  lemma {:induction false} SmoothAllInUnit(alpha: real, previous: real, ps: seq<real>)
    requires InUnit(alpha) && InUnit(previous)
    requires forall i :: 0 <= i < |ps| ==> InUnit(ps[i])
    ensures InUnit(SmoothAll(alpha, previous, ps))
    decreases |ps|
  {
    if ps != [] {
      SmoothInUnit(alpha, ps[0], previous);
      SmoothAllInUnit(alpha, Smooth(alpha, ps[0], previous), ps[1..]);
    }
  }

  /**
   * With the defaults, from rest, one certain-speech frame is not enough (0.5 < 0.6)
   * and two in a row are (0.75 >= 0.6).
   */
  lemma DefaultsNeedTwoFrames()
    ensures SmoothAll(DefaultAlpha, 0.0, [1.0]) == 0.5 && !(0.5 >= DefaultThreshold)
    ensures SmoothAll(DefaultAlpha, 0.0, [1.0, 1.0]) == 0.75 && 0.75 >= DefaultThreshold
  {
    assert [1.0, 1.0][1..] == [1.0];
  }

  function Pow(x: real, n: nat): real
    decreases n
  {
    if n == 0 then 1.0 else x * Pow(x, n - 1)
  }

  function Ones(n: nat): (r: seq<real>)
    ensures |r| == n && forall i :: 0 <= i < n ==> r[i] == 1.0
  {
    seq(n, _ => 1.0)
  }

  /**
   * After `n` certain-speech frames the remaining gap to 1 has shrunk by `(1 - alpha)^n`;
   * from rest the smoothed value is `1 - (1 - alpha)^n`.
   */
  lemma {:induction false} SmoothOnes(alpha: real, previous: real, n: nat)
    ensures SmoothAll(alpha, previous, Ones(n)) == 1.0 - Pow(1.0 - alpha, n) * (1.0 - previous)
    decreases n
  {
    if n > 0 {
      assert Ones(n)[0] == 1.0 && Ones(n)[1..] == Ones(n - 1);
      var next := Smooth(alpha, 1.0, previous);
      SmoothOnes(alpha, next, n - 1);
      assert 1.0 - next == (1.0 - alpha) * (1.0 - previous);
      calc {
        Pow(1.0 - alpha, n - 1) * (1.0 - next);
        Pow(1.0 - alpha, n - 1) * ((1.0 - alpha) * (1.0 - previous));
        ((1.0 - alpha) * Pow(1.0 - alpha, n - 1)) * (1.0 - previous);
        Pow(1.0 - alpha, n) * (1.0 - previous);
      }
    }
  }
}
