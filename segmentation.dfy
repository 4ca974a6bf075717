/**
 * The per-frame decisions of `SpeechMonitorViewModel`: the pre-roll ring buffer, the
 * adaptive silence threshold, the energy override of the raw detector result, the
 * decision history and the hysteresis filter.
 */
module Segmentation {
  import opened Pcm

  const MaxRingBufferSize: nat := 24000
  const BaseSilenceThreshold: real := 350.0
  const MaxSilenceThreshold: real := 1500.0
  const SilenceThresholdMultiplier: real := 0.8
  const MaxVADHistorySize: nat := 10
  const MinActiveFrames: nat := 3
  const MinSilentFrames: nat := 5
  const MaxSilentFrames: nat := 30

  // ---------------------------------------------------------------- ring buffer

  /** `updateRingBuffer`: drop the oldest excess samples (or everything), then append the frame. */
  function RingAfter(ring: seq<int>, frame: seq<int>): (r: seq<int>)
    ensures |r| == if |ring| + |frame| <= MaxRingBufferSize then |ring| + |frame|
                   else if |frame| < MaxRingBufferSize then MaxRingBufferSize else |frame|
  {
    var kept :=
      if |ring| + |frame| > MaxRingBufferSize then
        var excessSamples := |ring| + |frame| - MaxRingBufferSize;
        if excessSamples < |ring| then ring[excessSamples..] else []
      else ring;
    kept + frame
  }

  /**
   * The buffer is a suffix of the old buffer followed by the frame, at most 24000 samples
   * long unless the frame alone is longer, and it always ends with the whole frame.
   */
  lemma RingAfterShape(ring: seq<int>, frame: seq<int>)
    ensures var all := ring + frame; var r := RingAfter(ring, frame);
      |r| == Min(|all|, if |frame| > MaxRingBufferSize then |frame| else MaxRingBufferSize) &&
      r == all[|all| - |r|..] && |r| >= |frame| && r[|r| - |frame|..] == frame
  {
    var kept :=
      if |ring| + |frame| > MaxRingBufferSize then
        var excessSamples := |ring| + |frame| - MaxRingBufferSize;
        if excessSamples < |ring| then ring[excessSamples..] else []
      else ring;
    assert (ring + frame)[|ring| + |frame| - |kept + frame|..] == kept + frame;
    assert (kept + frame)[|kept|..] == frame;
  }

  /**
   * For frames of at most 24000 samples the buffer is the newest `min(|old| + |frame|, 24000)`
   * samples of the stream, so capacity is never exceeded.
   */
  lemma RingKeepsNewest(ring: seq<int>, frame: seq<int>)
    requires |frame| <= MaxRingBufferSize
    ensures var all := ring + frame; var r := RingAfter(ring, frame);
      |r| == Min(|all|, MaxRingBufferSize) && r == all[|all| - Min(|all|, MaxRingBufferSize)..] &&
      |r| <= MaxRingBufferSize
  {
    RingAfterShape(ring, frame);
  }

  /** The buffer after a run of frames. */
  function RingAfterAll(ring: seq<int>, frames: seq<seq<int>>): seq<int>
    decreases |frames|
  {
    if frames == [] then ring else RingAfterAll(RingAfter(ring, frames[0]), frames[1..])
  }

  function Concat(frames: seq<seq<int>>): seq<int>
    decreases |frames|
  {
    if frames == [] then [] else frames[0] + Concat(frames[1..])
  }

  /** A suffix of a suffix, extended by the same tail, is a suffix of the extended whole. */
  lemma SuffixAppend(x: seq<int>, y: seq<int>, a: nat, rest: seq<int>, b: nat)
    requires a <= |x| && y == x[|x| - a..]
    requires b <= |y + rest|
    ensures (y + rest)[|y + rest| - b..] == (x + rest)[|x + rest| - b..]
  {
    assert y + rest == (x + rest)[|x| - a..];
  }

  /** One step of the induction below, on plain sequences. */
  lemma NewestOfNewest(ring: seq<int>, frame: seq<int>, rest: seq<int>, next: seq<int>, r: seq<int>)
    requires |next| == Min(|ring + frame|, MaxRingBufferSize) && next == (ring + frame)[|ring + frame| - |next|..]
    requires |r| == Min(|next + rest|, MaxRingBufferSize) && r == (next + rest)[|next + rest| - |r|..]
    ensures |r| == Min(|ring + (frame + rest)|, MaxRingBufferSize)
    ensures r == (ring + (frame + rest))[|ring + (frame + rest)| - |r|..]
  {
    assert ring + (frame + rest) == (ring + frame) + rest;
    SuffixAppend(ring + frame, next, |next|, rest, |r|);
  }

  /** Over any run of frames, the buffer holds the newest samples of everything it was fed. */
  lemma {:induction false} RingAfterAllKeepsNewest(ring: seq<int>, frames: seq<seq<int>>)
    requires |ring| <= MaxRingBufferSize
    requires forall i :: 0 <= i < |frames| ==> |frames[i]| <= MaxRingBufferSize
    ensures |RingAfterAll(ring, frames)| == Min(|ring + Concat(frames)|, MaxRingBufferSize)
    ensures RingAfterAll(ring, frames) ==
      (ring + Concat(frames))[|ring + Concat(frames)| - |RingAfterAll(ring, frames)|..]
    decreases |frames|
  {
    if frames != [] {
      var next := RingAfter(ring, frames[0]);
      var tail := frames[1..];
      RingKeepsNewest(ring, frames[0]);
      assert forall i :: 0 <= i < |tail| ==> |tail[i]| <= MaxRingBufferSize by {
        forall i | 0 <= i < |tail| ensures |tail[i]| <= MaxRingBufferSize { assert tail[i] == frames[i + 1]; }
      }
      RingAfterAllKeepsNewest(next, tail);
      assert Concat(frames) == frames[0] + Concat(tail);
      NewestOfNewest(ring, frames[0], Concat(tail), next, RingAfterAll(next, tail));
    }
  }

  // ---------------------------------------------------------------- adaptive threshold

  /**
   * `updateSilenceThreshold`; it is driven by the raw detector result. A threshold in
   * (0, 1500] stays there; a decay step never goes below 350 nor, from 350 up, rises; the
   * "raise" branch mixes in only 1.5% of the energy, so it lowers the threshold whenever
   * the energy is above it but below 10/3 of it.
   */
  function NextThreshold(t: real, rawIsSpeaking: bool, energy: real): (r: real)
    ensures 0.0 < t <= MaxSilenceThreshold ==> 0.0 < r <= MaxSilenceThreshold
    ensures !(rawIsSpeaking && energy > t) ==> BaseSilenceThreshold <= r && (BaseSilenceThreshold <= t ==> r <= t)
    ensures rawIsSpeaking && energy > t ==> r <= MaxSilenceThreshold
    ensures rawIsSpeaking && energy > t && t <= MaxSilenceThreshold ==> (r < t <==> energy * 3.0 < t * 10.0)
  {
    if rawIsSpeaking && energy > t then MinR(t * 0.95 + energy * 0.05 * 0.3, MaxSilenceThreshold)
    else MaxR(BaseSilenceThreshold, t * 0.995)
  }

  /** Concretely: from the base threshold a frame of energy 351 drops it to 337.765. */
  lemma RaiseBranchBelowBase()
    ensures NextThreshold(BaseSilenceThreshold, true, 351.0) == 337.765
    ensures NextThreshold(BaseSilenceThreshold, true, 351.0) < BaseSilenceThreshold
  {
  }

  // ---------------------------------------------------------------- enhanced decision

  /** The result of `determineEnhancedSpeakingState`: the decision and the new silent-frame counter. */
  datatype Enhanced = Enhanced(isSpeaking: bool, consecutiveSilentFrames: nat)

  /** `determineEnhancedSpeakingState`, evaluated with the already updated threshold. */
  function EnhancedDecision(rawIsSpeaking: bool, energy: real, threshold: real, speaking: bool,
                            consecutiveSilentFrames: nat): (r: Enhanced)
    ensures r.isSpeaking <==> rawIsSpeaking || (speaking && energy > threshold * SilenceThresholdMultiplier)
    ensures r.consecutiveSilentFrames == if r.isSpeaking then 0 else consecutiveSilentFrames + 1
  {
    if rawIsSpeaking then Enhanced(true, 0)
    else
      var effectiveThreshold := if speaking then threshold * SilenceThresholdMultiplier else threshold;
      if energy > effectiveThreshold && speaking then Enhanced(true, 0)
      else Enhanced(false, consecutiveSilentFrames + 1)
  }

  // ---------------------------------------------------------------- history and hysteresis

  /** Append the decision; past 10 entries the oldest is removed. */
  function PushHistory(history: seq<bool>, decision: bool): (r: seq<bool>)
    requires |history| <= MaxVADHistorySize
    ensures |r| == Min(|history| + 1, MaxVADHistorySize)
    ensures r == (history + [decision])[|history| + 1 - |r|..]
    ensures r[|r| - 1] == decision
  {
    var appended := history + [decision];
    if |appended| > MaxVADHistorySize then appended[1..] else appended
  }

  /** The last `n` entries (all of them if there are fewer): Swift's `suffix(_:)`. */
  function Suffix(s: seq<bool>, n: nat): (r: seq<bool>)
    ensures |r| == Min(|s|, n) && r == s[|s| - |r|..]
  {
    if |s| <= n then s else s[|s| - n..]
  }

  function CountTrue(s: seq<bool>): (c: nat)
    ensures c <= |s|
    ensures c == |s| <==> forall i :: 0 <= i < |s| ==> s[i]
    decreases |s|
  {
    if s == [] then 0 else (if s[|s| - 1] then 1 else 0) + CountTrue(s[..|s| - 1])
  }

  /** The last `n` decisions exist and are all "speaking". */
  predicate RecentAllTrue(history: seq<bool>, n: nat) {
    |history| >= n && forall i :: |history| - n <= i < |history| ==> history[i]
  }

  /**
   * `determineSmoothedSpeakingState`, with the current decision already appended to the
   * history: on after three speaking decisions in a row, off after five silent frames.
   */
  function Smoothed(state: bool, current: bool, history: seq<bool>, consecutiveSilentFrames: nat): (r: bool)
    ensures current ==> (r <==> state || RecentAllTrue(history, MinActiveFrames))
    ensures !current ==> (r <==> state && consecutiveSilentFrames < MinSilentFrames)
  {
    if !state && current then
      var recent := Suffix(history, MinActiveFrames);
      assert CountTrue(recent) >= MinActiveFrames <==> RecentAllTrue(history, MinActiveFrames) by {
        if RecentAllTrue(history, MinActiveFrames) {
          assert forall i :: 0 <= i < |recent| ==> recent[i] == history[|history| - MinActiveFrames + i];
        }
        if CountTrue(recent) >= MinActiveFrames {
          forall i | |history| - MinActiveFrames <= i < |history| ensures history[i] {
            assert history[i] == recent[i - (|history| - |recent|)];
          }
        }
      }
      if CountTrue(recent) >= MinActiveFrames then true else state
    else if state && !current then
      if consecutiveSilentFrames >= MinSilentFrames then false else state
    else state
  }
}
