/**
 * `addFrameToRecording`: a new frame joins the recording with a short linear cross-fade
 * between the end of the previous frame and the start of the new one.
 */
module Crossfade {
  import opened Wrappers
  import opened Pcm

  /** `frameOverlap`: at most this many samples are blended. */
  const FrameOverlap: nat := 10

  /** The number of samples blended: 0 when there is no (non-empty) previous frame. */
  function Overlap(last: Option<seq<int>>, frame: seq<int>): (k: nat)
    ensures k <= FrameOverlap && k <= |frame|
    ensures last.Some? ==> k <= |last.value|
    ensures k > 0 <==> last.Some? && last.value != [] && frame != []
  {
    if last.Some? && last.value != [] then Min(FrameOverlap, Min(|last.value|, |frame|)) else 0
  }

  /** The fade weight `Float(i) / Float(k)`. */
  function Weight(i: nat, k: nat): (w: real)
    requires i <= k && k > 0
    ensures 0.0 <= w <= 1.0
  {
    i as real / k as real
  }

  /** `previous * weight1 + next * weight2`, the blend before `Int16(_)`. */
  function Weighted(previous: real, next: real, weight1: real, weight2: real): real {
    previous * weight1 + next * weight2
  }

  /**
   * Sample `i` of a `k`-sample fade: weight `(k - i)/k` on the previous sample and `i/k` on
   * the new one (they sum to 1, see `FadeWeights`), truncated by `Int16(_)`.
   */
  function Blend(previous: int, next: int, i: nat, k: nat): (b: int)
    requires i < k
    ensures i == 0 ==> b == previous
  {
    var w := Weighted(previous as real, next as real, Weight(k - i, k), Weight(i, k));
    if i == 0 then
      assert w == previous as real;
      TruncateOfInt(previous);
      Truncate(w)
    else Truncate(w)
  }

  /** The `k` blended samples. */
  function Fade(last: seq<int>, frame: seq<int>, k: nat): (f: seq<int>)
    requires k <= |last| && k <= |frame|
    ensures |f| == k
  {
    seq(k, i requires 0 <= i < k => Blend(last[|last| - k + i], frame[i], i, k))
  }

  /**
   * The recording after `addFrameToRecording`: the last `k` recorded samples replaced by the
   * fade, then the rest of the frame. The source indexes the recording `k` samples from its
   * end, so it must hold that many.
   */
  function Crossfaded(recording: seq<int>, last: Option<seq<int>>, frame: seq<int>): (r: seq<int>)
    requires Overlap(last, frame) <= |recording|
    ensures |r| == |recording| + |frame| - Overlap(last, frame)
  {
    var k := Overlap(last, frame);
    if k == 0 then recording + frame
    else recording[..|recording| - k] + Fade(last.value, frame, k) + frame[k..]
  }

  /**
   * Only the last `k` recorded samples change, the frame's remaining samples are appended
   * in order, and the length grows by `|frame| - k`.
   */
  lemma CrossfadedShape(recording: seq<int>, last: Option<seq<int>>, frame: seq<int>)
    requires Overlap(last, frame) <= |recording|
    ensures var k := Overlap(last, frame); var r := Crossfaded(recording, last, frame);
      |r| == |recording| + |frame| - k &&
      r[..|recording| - k] == recording[..|recording| - k] &&
      r[|recording|..] == frame[k..]
  {
  }

  /** With no previous frame, or an empty one, the frame is appended unchanged. */
  lemma CrossfadedAppends(recording: seq<int>, last: Option<seq<int>>, frame: seq<int>)
    requires last.None? || last.value == [] || frame == []
    ensures Crossfaded(recording, last, frame) == recording + frame
  {
  }

  /** The first blended sample is the previous frame's sample, unchanged: its weight is 1. */
  lemma FadeStartsAtPrevious(recording: seq<int>, last: Option<seq<int>>, frame: seq<int>)
    requires Overlap(last, frame) <= |recording| && Overlap(last, frame) > 0
    ensures var k := Overlap(last, frame);
      Crossfaded(recording, last, frame)[|recording| - k] == last.value[|last.value| - k]
  {
    var k := Overlap(last, frame);
    var l := last.value;
    assert Crossfaded(recording, last, frame)[|recording| - k] == Fade(l, frame, k)[0];
    FadeWeights(0, k);
    assert Weight(0, k) == 0.0;
    assert Weighted(l[|l| - k] as real, frame[0] as real, 1.0, 0.0) == l[|l| - k] as real;
    TruncateOfInt(l[|l| - k]);
  }

  /** The two fade weights sum to 1, and the new sample's weight stays below 1. */
  lemma FadeWeights(i: nat, k: nat)
    requires i < k
    ensures Weight(k - i, k) == 1.0 - Weight(i, k) && Weight(i, k) < 1.0
  {
    var kr := k as real;
    var ir := i as real;
    assert (k - i) as real == kr - ir;
    assert (kr - ir) / kr == kr / kr - ir / kr;
    assert kr / kr == 1.0;
  }

  /** `x` moved towards `y` by the fraction `w` of the gap: never past either end. */
  function Offset(x: real, y: real, w: real): (r: real)
    requires 0.0 <= w <= 1.0
    ensures x <= y ==> x <= r <= y
    ensures y < x ==> y <= r <= x
  {
    var gap := y - x;
    assert gap - gap * w == gap * (1.0 - w);
    x + gap * w
  }

  /** Weights `1 - w` and `w` move from the previous sample towards the next by `w`. */
  lemma WeightedIsOffset(x: real, y: real, w1: real, w: real)
    requires 0.0 <= w <= 1.0 && w1 == 1.0 - w
    ensures Weighted(x, y, w1, w) == Offset(x, y, w)
  {
    assert x * w1 == x - x * w;
    assert (y - x) * w == y * w - x * w;
  }

  /** A blend lies between the two samples it mixes. */
  lemma BlendBetween(previous: int, next: int, i: nat, k: nat)
    requires i < k
    ensures Min(previous, next) <= Blend(previous, next, i, k) <= -Min(-previous, -next)
  {
    var w1 := Weight(k - i, k);
    var w := Weight(i, k);
    FadeWeights(i, k);
    WeightedIsOffset(previous as real, next as real, w1, w);
    var x := Weighted(previous as real, next as real, w1, w);
    if previous <= next {
      TruncateBetween(x, previous, next);
    } else {
      TruncateBetween(x, next, previous);
    }
  }

  /** Cross-fading 16-bit audio yields 16-bit audio: the source's `Int16(_)` never traps here. */
  lemma CrossfadedSamples(recording: seq<int>, last: Option<seq<int>>, frame: seq<int>)
    requires Overlap(last, frame) <= |recording|
    requires AllSamples(recording) && AllSamples(frame) && (last.Some? ==> AllSamples(last.value))
    ensures AllSamples(Crossfaded(recording, last, frame))
  {
    var k := Overlap(last, frame);
    if k > 0 {
      var l := last.value;
      var f := Fade(l, frame, k);
      forall i | 0 <= i < k
        ensures IsSample(f[i])
      {
        BlendBetween(l[|l| - k + i], frame[i], i, k);
      }
      var r := Crossfaded(recording, last, frame);
      forall j | 0 <= j < |r|
        ensures IsSample(r[j])
      {
        if j < |recording| - k {
          assert r[j] == recording[j];
        } else if j < |recording| {
          assert r[j] == f[j - (|recording| - k)];
        } else {
          assert r[j] == frame[j - |recording| + k];
        }
      }
    }
  }
}
