/**
 * Episode finalisation: `trimTrailingSilence` cuts the quiet tail of a recording and
 * `normalizeAudioLevels` rescales recordings whose peak is very low or near full scale.
 */
module Finalize {
  import opened Wrappers
  import opened Pcm

  const TrimWindow: nat := 160
  const MinTrimLength: nat := 320
  /** Five windows (50 ms) are kept after the last loud window. */
  const KeepAfterSpeech: nat := 800
  const QuietFloor: real := 250.0
  const QuietCeiling: real := 800.0

  const LowPeak: int := 100
  const HighPeak: int := 32000
  const TargetPeak: int := 24000
  const ClipLimit: int := 32767

  // ---------------------------------------------------------------- trimming

  /** Energy of the full window `[i, i + 160)`. */
  function TrimWindowEnergy(b: seq<int>, energyOf: EnergyFn, i: nat): real
    requires i + TrimWindow <= |b|
  {
    energyOf(b[i..i + TrimWindow])
  }

  /** Sum of the energies of the first `k` start-aligned windows `0, 160, …`. */
  function TrimTotal(b: seq<int>, energyOf: EnergyFn, k: nat): real
    requires TrimWindow * k <= |b|
  {
    if k == 0 then 0.0 else TrimTotal(b, energyOf, k - 1) + TrimWindowEnergy(b, energyOf, TrimWindow * (k - 1))
  }

  /** `max(250, min(800, 0.12 · average window energy))`, over the `n / 160` full windows. */
  function QuietThreshold(b: seq<int>, energyOf: EnergyFn): real
    requires |b| > MinTrimLength
  {
    var count := |b| / TrimWindow;
    var avg := TrimTotal(b, energyOf, count) / (count as real);
    MaxR(QuietFloor, MinR(QuietCeiling, avg * 0.12))
  }

  /** Energy of the `m`-th window counted from the end: `[n - 160(m+1), n - 160m)`. */
  function EndWindowEnergy(b: seq<int>, energyOf: EnergyFn, m: nat): real
    requires TrimWindow * (m + 1) <= |b|
  {
    TrimWindowEnergy(b, energyOf, |b| - TrimWindow * (m + 1))
  }

  /** Scanning the end-aligned windows from the `j`-th toward the front: the first louder than `threshold`. */
  function LastLoud(b: seq<int>, energyOf: EnergyFn, threshold: real, j: nat): (r: Option<nat>)
    ensures r.Some? ==> j <= r.value && TrimWindow * (r.value + 1) <= |b| &&
                        EndWindowEnergy(b, energyOf, r.value) > threshold
    ensures forall m: nat :: j <= m && TrimWindow * (m + 1) <= |b| && (r.None? || m < r.value) ==>
                        EndWindowEnergy(b, energyOf, m) <= threshold
    decreases |b| - TrimWindow * j
  {
    if TrimWindow * (j + 1) > |b| then None
    else if EndWindowEnergy(b, energyOf, j) > threshold then Some(j)
    else LastLoud(b, energyOf, threshold, j + 1)
  }

  /** The recording `trimTrailingSilence` returns. */
  function Trimmed(b: seq<int>, energyOf: EnergyFn): (r: seq<int>)
    ensures |r| <= |b| && r == b[..|r|]
  {
    if |b| <= MinTrimLength then b
    else
      match LastLoud(b, energyOf, QuietThreshold(b, energyOf), 0)
      case Some(m) => b[..Min(|b| - TrimWindow * m + KeepAfterSpeech, |b|)]
      case None => b
  }

  /**
   * Short recordings and recordings with no loud window are kept whole; otherwise the cut
   * falls 800 samples after the end of the last loud end-aligned window (or at the end):
   * that window is kept whole and every window after it is quiet.
   */
  lemma TrimmedCut(b: seq<int>, energyOf: EnergyFn)
    ensures var r := Trimmed(b, energyOf);
      (|b| <= MinTrimLength ==> r == b) &&
      (|b| > MinTrimLength ==>
        var thr := QuietThreshold(b, energyOf);
        match LastLoud(b, energyOf, thr, 0)
        case None =>
          r == b &&
          forall m: nat :: TrimWindow * (m + 1) <= |b| ==> EndWindowEnergy(b, energyOf, m) <= thr
        case Some(last) =>
          var e := |b| - TrimWindow * last;
          |r| == Min(e + KeepAfterSpeech, |b|) && e <= |r| &&
          EndWindowEnergy(b, energyOf, last) > thr &&
          forall m: nat :: m < last ==> EndWindowEnergy(b, energyOf, m) <= thr)
  {
  }

  /** `trimTrailingSilence`: a forward pass for the average, a backward pass for the last loud window. */
  method TrimTrailingSilence(recording: seq<int>, energyOf: EnergyFn) returns (r: seq<int>)
    ensures r == Trimmed(recording, energyOf)
  {
    var n := |recording|;
    if n <= MinTrimLength {
      return recording;
    }
    var totalEnergy := 0.0;
    var frameCount: nat := 0;
    var i := 0;
    while i <= n - TrimWindow
      invariant i == TrimWindow * frameCount && i <= n
      invariant totalEnergy == TrimTotal(recording, energyOf, frameCount)
      invariant i == TrimWindow * frameCount && frameCount <= n / TrimWindow
      invariant i > n - TrimWindow ==> frameCount == n / TrimWindow
      decreases n - i
    {
      totalEnergy := totalEnergy + energyOf(recording[i..Min(i + TrimWindow, n)]);
      frameCount := frameCount + 1;
      i := i + TrimWindow;
    }
    var avgEnergy := if frameCount > 0 then totalEnergy / (frameCount as real) else 0.0;
    var threshold := MaxR(QuietFloor, MinR(QuietCeiling, avgEnergy * 0.12));
    assert threshold == QuietThreshold(recording, energyOf);

    var lastSpeechIndex := n;
    var j: nat := 0;
    ghost var found: Option<nat> := None;
    while TrimWindow * (j + 1) <= n
      invariant LastLoud(recording, energyOf, threshold, j) == LastLoud(recording, energyOf, threshold, 0)
      decreases n - TrimWindow * j
    {
      var startIdx := n - TrimWindow * (j + 1);
      var endIdx := Min(startIdx + TrimWindow, n);
      if energyOf(recording[startIdx..endIdx]) > threshold {
        lastSpeechIndex := endIdx;
        found := Some(j);
        break;
      }
      j := j + 1;
    }
    assert found == LastLoud(recording, energyOf, threshold, 0);
    assert found.None? ==> lastSpeechIndex == n;
    assert found.Some? ==> lastSpeechIndex == n - TrimWindow * found.value;
    var endPosition := Min(lastSpeechIndex + KeepAfterSpeech, n);
    r := recording[..endPosition];
  }

  // ---------------------------------------------------------------- level normalisation

  function Abs(x: int): (r: nat)
    ensures r == x || r == -x
  {
    if x >= 0 then x else -x
  }

  /** The largest magnitude in `s` (0 for the empty sequence). */
  function Peak(s: seq<int>): (p: nat)
    ensures forall i :: 0 <= i < |s| ==> Abs(s[i]) <= p
    ensures s != [] ==> exists i :: 0 <= i < |s| && Abs(s[i]) == p
    ensures s == [] ==> p == 0
    decreases |s|
  {
    if s == [] then 0
    else
      var init := Peak(s[..|s| - 1]);
      var last := Abs(s[|s| - 1]);
      assert forall i :: 0 <= i < |s| - 1 ==> s[i] == s[..|s| - 1][i];
      if last > init then last else init
  }

  /** Clipping to `[-32767, 32767]`. */
  function Clip(x: real): (r: real)
    ensures -ClipLimit as real <= r <= ClipLimit as real
    ensures -ClipLimit as real <= x <= ClipLimit as real ==> r == x
  {
    MaxR(-ClipLimit as real, MinR(ClipLimit as real, x))
  }

  predicate OutOfBand(s: seq<int>) {
    Peak(s) < LowPeak || Peak(s) > HighPeak
  }

  /** `24000 / peak`, or 1 for silence. */
  function ScaleFactor(peak: nat): (f: real)
    ensures f > 0.0
  {
    if peak > 0 then TargetPeak as real / peak as real else 1.0
  }

  /** One sample scaled, clipped and converted back with `Int16(_)`. */
  function Rescaled(x: int, f: real): (y: int)
    ensures -ClipLimit <= y <= ClipLimit
    ensures -ClipLimit as real <= x as real * f <= ClipLimit as real ==> y == Truncate(x as real * f)
  {
    Truncate(Clip(x as real * f))
  }

  /** The recording `normalizeAudioLevels` returns. */
  function Normalized(s: seq<int>): (r: seq<int>)
    ensures |r| == |s|
  {
    if s == [] || !OutOfBand(s) then s
    else
      var f := ScaleFactor(Peak(s));
      seq(|s|, i requires 0 <= i < |s| => Rescaled(s[i], f))
  }

  lemma MulMonotone(a: real, b: real, c: real)
    requires a <= b && c >= 0.0
    ensures a * c <= b * c
  {
  }

  /** A sample of magnitude at most `peak`, scaled by `24000 / peak`, lies within ±24000. */
  lemma ScaledRange(x: int, peak: nat)
    requires 0 < peak && Abs(x) <= peak
    ensures -TargetPeak as real <= x as real * ScaleFactor(peak) <= TargetPeak as real
  {
    var f := ScaleFactor(peak);
    assert peak as real * f == TargetPeak as real;
    MulMonotone(x as real, peak as real, f);
    MulMonotone(-(peak as real), x as real, f);
  }

  /** Rescaling keeps a sample within ±24000, and sends the peak to exactly ±24000. */
  lemma ScaledSample(x: int, peak: nat)
    requires 0 < peak && Abs(x) <= peak
    ensures Abs(Rescaled(x, ScaleFactor(peak))) <= TargetPeak
    ensures Abs(x) == peak ==> Abs(Rescaled(x, ScaleFactor(peak))) == TargetPeak
  {
    var f := ScaleFactor(peak);
    var y := x as real * f;
    ScaledRange(x, peak);
    assert Clip(y) == y;
    TruncateBetween(y, -TargetPeak, TargetPeak);
    if x == peak {
      assert y == TargetPeak as real;
      TruncateOfInt(TargetPeak);
    } else if x == -(peak as int) {
      assert y == -TargetPeak as real;
      TruncateOfInt(-TargetPeak);
    }
  }

  /** Rescaled samples stay within ±24000. */
  lemma NormalizedBounded(s: seq<int>)
    requires s != [] && OutOfBand(s) && Peak(s) > 0
    ensures forall i :: 0 <= i < |s| ==> Abs(Normalized(s)[i]) <= TargetPeak
  {
    var r := Normalized(s);
    var p := Peak(s);
    forall i | 0 <= i < |s|
      ensures Abs(r[i]) <= TargetPeak
    {
      ScaledSample(s[i], p);
    }
  }

  /**
   * Out of the band a non-silent recording is rescaled so that its peak is exactly 24000;
   * every sample stays a 16-bit value.
   */
  lemma NormalizedPeak(s: seq<int>)
    requires s != [] && OutOfBand(s) && Peak(s) > 0
    ensures Peak(Normalized(s)) == TargetPeak
    ensures AllSamples(Normalized(s))
  {
    var r := Normalized(s);
    var p := Peak(s);
    NormalizedBounded(s);
    var k :| 0 <= k < |s| && Abs(s[k]) == p;
    ScaledSample(s[k], p);
    assert Abs(r[k]) == TargetPeak;
    var m :| 0 <= m < |r| && Abs(r[m]) == Peak(r);
  }

  /** Levels in `[100, 32000]`, and silence, are returned unchanged. */
  lemma NormalizedIdentity(s: seq<int>)
    requires !OutOfBand(s) || Peak(s) == 0
    ensures Normalized(s) == s
  {
    if s != [] && OutOfBand(s) {
      forall i | 0 <= i < |s|
        ensures Normalized(s)[i] == s[i]
      {
        assert s[i] == 0;
      }
    }
  }

  /** Normalising twice is normalising once. */
  lemma NormalizedIdempotent(s: seq<int>)
    ensures Normalized(Normalized(s)) == Normalized(s)
  {
    if s != [] && OutOfBand(s) && Peak(s) > 0 {
      NormalizedPeak(s);
    }
    NormalizedIdentity(Normalized(s));
  }

  /** `normalizeAudioLevels`: a loop finds the peak, then every sample is mapped. */
  method NormalizeAudioLevels(samples: seq<int>) returns (r: seq<int>)
    ensures r == Normalized(samples)
  {
    if samples == [] {
      return samples;
    }
    var peakValue: nat := 0;
    for i := 0 to |samples|
      invariant peakValue == Peak(samples[..i])
    {
      assert samples[..i + 1][..i] == samples[..i];
      var absValue := Abs(samples[i]);
      if absValue > peakValue {
        peakValue := absValue;
      }
    }
    assert samples[..|samples|] == samples;
    if peakValue < LowPeak || peakValue > HighPeak {
      var scaleFactor := if peakValue > 0 then TargetPeak as real / peakValue as real else 1.0;
      assert scaleFactor == ScaleFactor(Peak(samples));
      r := seq(|samples|, i requires 0 <= i < |samples| => Rescaled(samples[i], scaleFactor));
      return r;
    }
    return samples;
  }
}
