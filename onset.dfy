/**
 * `findOptimalStartIndex`: where, in the pre-roll ring buffer, a new recording starts.
 * The buffer is scanned in 10 ms (160-sample) windows for any activity, then from just
 * before that point in 5 ms steps for confirmed speech.
 */
module Onset {
  import opened Wrappers
  import opened Pcm

  const WindowSize: nat := 160
  const ActivityThreshold: real := 350.0
  const MinActivationLevel: real := 600.0
  /** `frameSize / 3` in integer arithmetic: shorter trailing windows end the first pass. */
  const MinWindow: nat := 53
  const ConfirmStep: nat := 80
  const NoActivityKeep: nat := 1600

  /** The windows of the first pass: starts 0, 160, 320, … with at least 53 samples in range. */
  function WindowCount(n: nat): (k: nat)
    ensures forall j :: 0 <= j < k ==> WindowSize * j + MinWindow <= n
    ensures WindowSize * k + MinWindow > n
  {
    if n < MinWindow then 0 else (n - MinWindow) / WindowSize + 1
  }

  /** The samples `[i, min(i + 160, n))`. */
  function Segment(b: seq<int>, i: nat): (s: seq<int>)
    requires i <= |b|
    ensures |s| == Min(WindowSize, |b| - i)
  {
    b[i..Min(i + WindowSize, |b|)]
  }

  function WindowEnergy(b: seq<int>, energyOf: EnergyFn, j: nat): real
    requires WindowSize * j <= |b|
  {
    energyOf(Segment(b, WindowSize * j))
  }

  /** Sum of the first `k` window energies. */
  function TotalEnergy(b: seq<int>, energyOf: EnergyFn, k: nat): real
    requires k <= WindowCount(|b|)
  {
    if k == 0 then 0.0 else TotalEnergy(b, energyOf, k - 1) + WindowEnergy(b, energyOf, k - 1)
  }

  /** Start of the first of the first `k` windows louder than 350, or `|b|` if none is. */
  function FirstActivityIn(b: seq<int>, energyOf: EnergyFn, k: nat): (first: nat)
    requires k <= WindowCount(|b|)
  {
    if k == 0 then |b|
    else
      var earlier := FirstActivityIn(b, energyOf, k - 1);
      if earlier < |b| then earlier
      else if WindowEnergy(b, energyOf, k - 1) > ActivityThreshold then WindowSize * (k - 1)
      else |b|
  }

  /**
   * The first pass finds the first loud window: either none of the first `k` windows is
   * louder than 350 and the result is `|b|`, or the result starts a loud window and every
   * window before it is quiet.
   */
  lemma {:induction false} FirstActivityInSpec(b: seq<int>, energyOf: EnergyFn, k: nat)
    requires k <= WindowCount(|b|)
    ensures var first := FirstActivityIn(b, energyOf, k);
      && (first == |b| || (first % WindowSize == 0 && first / WindowSize < k && first + MinWindow <= |b|))
      && (first < |b| ==> WindowEnergy(b, energyOf, first / WindowSize) > ActivityThreshold)
      && (forall j :: 0 <= j < k && WindowSize * j < first ==> WindowEnergy(b, energyOf, j) <= ActivityThreshold)
  {
    if k > 0 {
      FirstActivityInSpec(b, energyOf, k - 1);
    }
  }

  function FirstActivity(b: seq<int>, energyOf: EnergyFn): nat {
    FirstActivityIn(b, energyOf, WindowCount(|b|))
  }

  /** The first confirmation point `i, i + 80, …` before `|b|` whose window beats `threshold`. */
  function ConfirmFrom(b: seq<int>, energyOf: EnergyFn, i: nat, threshold: real): (r: Option<nat>)
    ensures r.Some? ==> i <= r.value < |b|
    decreases |b| - i
  {
    if i >= |b| then None
    else if energyOf(Segment(b, i)) > threshold then Some(i)
    else
      ConfirmFrom(b, energyOf, i + ConfirmStep, threshold)
  }

  /**
   * The second pass finds the first confirmation point `i + 80 q` in the buffer whose
   * window beats `threshold`, and `None` when there is none.
   */
  lemma {:induction false} ConfirmFromSpec(b: seq<int>, energyOf: EnergyFn, i: nat, threshold: real)
    ensures var r := ConfirmFrom(b, energyOf, i, threshold);
      && (r.Some? ==> i <= r.value < |b| && (r.value - i) % ConfirmStep == 0 &&
                      energyOf(Segment(b, r.value)) > threshold)
      && (forall p :: i <= p < |b| && (p - i) % ConfirmStep == 0 && (r.None? || p < r.value) ==>
                      energyOf(Segment(b, p)) <= threshold)
    decreases |b| - i
  {
    if i < |b| && energyOf(Segment(b, i)) <= threshold {
      var r := ConfirmFrom(b, energyOf, i, threshold);
      ConfirmFromSpec(b, energyOf, i + ConfirmStep, threshold);
      forall p | i <= p < |b| && (p - i) % ConfirmStep == 0 && (r.None? || p < r.value)
        ensures energyOf(Segment(b, p)) <= threshold
      {
        if p != i {
          assert (p - (i + ConfirmStep)) % ConfirmStep == 0;
        }
      }
    }
  }

  /** The confirmation threshold: the larger of 600 and 1.5 times the mean window energy. */
  function AdaptiveThreshold(b: seq<int>, energyOf: EnergyFn): real {
    var count := WindowCount(|b|);
    var avg := if count > 0 then TotalEnergy(b, energyOf, count) / (count as real) else 0.0;
    MaxR(MinActivationLevel, avg * 1.5)
  }

  /** The index `findOptimalStartIndex` returns. */
  function OptimalStart(b: seq<int>, energyOf: EnergyFn): (start: nat)
    ensures start <= |b| && (b != [] ==> start < |b|)
  {
    if |b| == 0 then 0
    else
      var first := FirstActivity(b, energyOf);
      if first >= |b| then Max0(|b| - NoActivityKeep)
      else
        match ConfirmFrom(b, energyOf, Max0(first - WindowSize), AdaptiveThreshold(b, energyOf))
        case Some(i) => Max0(i - 3 * WindowSize)
        case None => Max0(first - 2 * WindowSize)
  }

  /**
   * The start index lies in the buffer and always leaves its last `min(n, 373)` samples;
   * with no activity exactly the last `min(n, 1600)` are kept; otherwise the start is at
   * most 640 samples before the first loud window, and every window before that one is quiet.
   */
  lemma OptimalStartBounds(b: seq<int>, energyOf: EnergyFn)
    ensures var r := OptimalStart(b, energyOf); var n := |b|; var first := FirstActivity(b, energyOf);
      r <= n && n - r >= Min(n, 373) &&
      (first == n ==> r == Max0(n - NoActivityKeep)) &&
      (first < n ==> first - 4 * WindowSize <= r) &&
      (forall j :: 0 <= j < WindowCount(n) && WindowSize * j < first ==> WindowEnergy(b, energyOf, j) <= ActivityThreshold)
  {
    var n := |b|;
    FirstActivityInSpec(b, energyOf, WindowCount(n));
    if n > 0 {
      var first := FirstActivity(b, energyOf);
      if first < n {
        assert first + MinWindow <= n;
        ConfirmFromSpec(b, energyOf, Max0(first - WindowSize), AdaptiveThreshold(b, energyOf));
      }
    }
  }

  /** Window `k` of the first pass is the last one considered exactly when fewer than 53 samples follow the next start. */
  lemma WindowCountStep(n: nat, k: nat)
    ensures WindowSize * k + MinWindow <= n <==> k < WindowCount(n)
  {
  }

  /** The first pass: every window's energy summed, and the first loud window noted. */
  method ScanActivity(buffer: seq<int>, energyOf: EnergyFn)
    returns (firstActivityIndex: nat, totalEnergy: real, frameCount: nat)
    ensures frameCount == WindowCount(|buffer|)
    ensures totalEnergy == TotalEnergy(buffer, energyOf, frameCount)
    ensures firstActivityIndex == FirstActivity(buffer, energyOf)
  {
    var n := |buffer|;
    firstActivityIndex := n;
    totalEnergy := 0.0;
    frameCount := 0;
    var i := 0;
    while i < n
      invariant i == WindowSize * frameCount && frameCount <= WindowCount(n)
      invariant totalEnergy == TotalEnergy(buffer, energyOf, frameCount)
      invariant firstActivityIndex == FirstActivityIn(buffer, energyOf, frameCount)
      decreases n - i
    {
      var endIndex := Min(i + WindowSize, n);
      WindowCountStep(n, frameCount);
      if endIndex - i < WindowSize / 3 {
        break;
      }
      var energy := energyOf(buffer[i..endIndex]);
      assert energy == WindowEnergy(buffer, energyOf, frameCount);
      totalEnergy := totalEnergy + energy;
      frameCount := frameCount + 1;
      if energy > ActivityThreshold && firstActivityIndex == n {
        firstActivityIndex := i;
      }
      i := i + WindowSize;
    }
    WindowCountStep(n, frameCount);
  }

  /** The second pass: 5 ms steps from `start`, stopping at the first window above `threshold`. */
  method ConfirmOnset(buffer: seq<int>, energyOf: EnergyFn, start: nat, threshold: real)
    returns (found: Option<nat>)
    ensures found == ConfirmFrom(buffer, energyOf, start, threshold)
  {
    var n := |buffer|;
    var i := start;
    while i < n
      invariant ConfirmFrom(buffer, energyOf, i, threshold) == ConfirmFrom(buffer, energyOf, start, threshold)
      decreases n - i
    {
      var endIndex := Min(i + WindowSize, n);
      var energy := energyOf(buffer[i..endIndex]);
      if energy > threshold {
        return Some(i);
      }
      i := i + WindowSize / 2;
    }
    return None;
  }

  /** `findOptimalStartIndex`. */
  method FindOptimalStartIndex(buffer: seq<int>, energyOf: EnergyFn) returns (r: nat)
    ensures r == OptimalStart(buffer, energyOf)
  {
    var n := |buffer|;
    if n == 0 {
      return 0;
    }
    var firstActivityIndex, totalEnergy, frameCount := ScanActivity(buffer, energyOf);
    if firstActivityIndex >= n {
      return Max0(n - NoActivityKeep);
    }
    var avgEnergy := if frameCount > 0 then totalEnergy / (frameCount as real) else 0.0;
    var adaptiveThreshold := MaxR(MinActivationLevel, avgEnergy * 1.5);
    var confirmed := ConfirmOnset(buffer, energyOf, Max0(firstActivityIndex - WindowSize), adaptiveThreshold);
    match confirmed
    case Some(i) => return Max0(i - WindowSize * 3);
    case None => return Max0(firstActivityIndex - WindowSize * 2);
  }
}
