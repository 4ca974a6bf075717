/**
 * The buffered energy engine (`EnergyVADEngine`): incoming frames are scaled to
 * [-1, 1] and accumulated; as soon as a full analysis window of 1600 samples is
 * buffered, exactly that window is taken off the front and handed to WhisperKit's
 * chunked energy check, and leftover samples wait for the next call.
 */
module EnergyVad {
  import opened Wrappers

  /** `frameLength` and `sampleRate`, as passed to `super.init` (0.1 s windows at 16 kHz). */
  const FrameLength: nat := 1600
  const SampleRate: nat := 16000
  /** Default normalised energy threshold of `init(threshold:)`. */
  const DefaultThreshold: real := 0.02

  /**
   * WhisperKit's `AudioProcessor.calculateVoiceActivityInChunks`: given a waveform,
   * a chunk count and the energy threshold, one activity flag per chunk. External.
   */
  type ActivityCheck = (seq<real>, nat, real) -> seq<bool>

  /** `Float(sample) / Float(Int16.max)` for every sample of the frame. */
  function Scale(frame: seq<int>): (r: seq<real>)
    ensures |r| == |frame|
    ensures forall i :: 0 <= i < |frame| ==> r[i] * 32767.0 == frame[i] as real
  {
    seq(|frame|, i requires 0 <= i < |frame| => frame[i] as real / 32767.0)
  }

  /** `Int(ceil(Double(n) / Double(frameLengthSamples)))`, the chunk count of `voiceActivity(in:)`. */
  function ChunkCount(n: nat): (c: nat)
    ensures c * FrameLength >= n
    ensures c > 0 ==> (c - 1) * FrameLength < n
  {
    (n + FrameLength - 1) / FrameLength
  }

  /** `voiceActivity(in: window).contains(true)`. */
  predicate WindowActive(window: seq<real>, check: ActivityCheck, threshold: real) {
    true in check(window, ChunkCount(|window|), threshold)
  }

  /** The effect of one `process(frame:)` call on the buffer: what stays, and the window analysed if any. */
  datatype Step = Step(buffer: seq<real>, window: Option<seq<real>>)

  function Accumulate(buffer: seq<real>, frame: seq<int>): (r: Step)
    ensures r.window.Some? <==> |buffer| + |frame| >= FrameLength
    ensures r.window.None? ==> r.buffer == buffer + Scale(frame)
    ensures r.window.Some? ==> |r.window.value| == FrameLength && r.window.value + r.buffer == buffer + Scale(frame)
  {
    var all := buffer + Scale(frame);
    if |all| < FrameLength then Step(all, None)
    else Step(all[FrameLength..], Some(all[..FrameLength]))
  }

  /** The value `process(frame:)` returns for a given step. */
  predicate StepVerdict(s: Step, check: ActivityCheck, threshold: real)
    ensures StepVerdict(s, check, threshold) ==> s.window.Some?
  {
    s.window.Some? && WindowActive(s.window.value, check, threshold)
  }

  /** The buffer after feeding `frames` one call at a time. */
  function Feed(buffer: seq<real>, frames: seq<seq<int>>): seq<real>
    decreases |frames|
  {
    if frames == [] then buffer else Feed(Accumulate(buffer, frames[0]).buffer, frames[1..])
  }

  class EnergyVadEngine {
    const threshold: real
    var buffer: seq<real>

    constructor (threshold: real)
      ensures this.threshold == threshold && buffer == []
    {
      this.threshold := threshold;
      buffer := [];
    }

    /** `process(frame:)`: never throws. */
    method Process(frame: seq<int>, check: ActivityCheck) returns (speech: bool)
      modifies this
      ensures buffer == Accumulate(old(buffer), frame).buffer
      ensures speech == StepVerdict(Accumulate(old(buffer), frame), check, threshold)
    {
      buffer := buffer + Scale(frame);
      if |buffer| < FrameLength {
        return false;
      }
      var segment := buffer[..FrameLength];
      buffer := buffer[FrameLength..];
      speech := true in check(segment, ChunkCount(|segment|), threshold);
    }

    /** `delete()`: empties the buffer, whatever it held (so a second call changes nothing). */
    method Delete()
      modifies this
      ensures buffer == []
    {
      buffer := [];
    }
  }

  /** A full window is always exactly one chunk. */
  lemma OneChunkPerWindow()
    ensures ChunkCount(FrameLength) == 1
  {
  }

  /** Frames of at most one window keep the buffer below a window, call after call. */
  lemma {:induction false} FeedStaysBelowWindow(buffer: seq<real>, frames: seq<seq<int>>)
    requires |buffer| < FrameLength
    requires forall i :: 0 <= i < |frames| ==> |frames[i]| <= FrameLength
    ensures |Feed(buffer, frames)| < FrameLength
    decreases |frames|
  {
    if frames != [] {
      FeedStaysBelowWindow(Accumulate(buffer, frames[0]).buffer, frames[1..]);
    }
  }

  /** Window-sized frames from an empty buffer: every frame is analysed on its own and the buffer stays empty. */
  lemma {:induction false} FeedWholeWindows(frames: seq<seq<int>>)
    requires forall i :: 0 <= i < |frames| ==> |frames[i]| == FrameLength
    ensures Feed([], frames) == []
    ensures forall i :: 0 <= i < |frames| ==> Accumulate([], frames[i]) == Step([], Some(Scale(frames[i])))
    decreases |frames|
  {
    if frames != [] {
      assert Accumulate([], frames[0]).buffer == [];
      FeedWholeWindows(frames[1..]);
      forall i | 0 <= i < |frames|
        ensures Accumulate([], frames[i]) == Step([], Some(Scale(frames[i])))
      {
        var all := [] + Scale(frames[i]);
        assert all == Scale(frames[i]);
        assert all[FrameLength..] == [] && all[..FrameLength] == all;
      }
    }
  }

  /** The windows analysed, in order, while feeding `frames` one call at a time. */
  function Analysed(buffer: seq<real>, frames: seq<seq<int>>): seq<real>
    decreases |frames|
  {
    if frames == [] then []
    else
      var s := Accumulate(buffer, frames[0]);
      (if s.window.Some? then s.window.value else []) + Analysed(s.buffer, frames[1..])
  }

  /** The scaled frames, concatenated. */
  function Flatten(frames: seq<seq<int>>): seq<real>
    decreases |frames|
  {
    if frames == [] then [] else Scale(frames[0]) + Flatten(frames[1..])
  }

  /**
   * Order is preserved across calls: whatever has been analysed so far, followed
   * by what is still buffered, is exactly the scaled input in arrival order.
   */
  lemma {:induction false} FeedPreservesOrder(buffer: seq<real>, frames: seq<seq<int>>)
    ensures Analysed(buffer, frames) + Feed(buffer, frames) == buffer + Flatten(frames)
    decreases |frames|
  {
    if frames != [] {
      var s := Accumulate(buffer, frames[0]);
      FeedPreservesOrder(s.buffer, frames[1..]);
      var w := if s.window.Some? then s.window.value else [];
      assert w + s.buffer == buffer + Scale(frames[0]);
      calc {
        Analysed(buffer, frames) + Feed(buffer, frames);
        (w + Analysed(s.buffer, frames[1..])) + Feed(s.buffer, frames[1..]);
        { Associative(w, Analysed(s.buffer, frames[1..]), Feed(s.buffer, frames[1..])); }
        w + (Analysed(s.buffer, frames[1..]) + Feed(s.buffer, frames[1..]));
        w + (s.buffer + Flatten(frames[1..]));
        { Associative(w, s.buffer, Flatten(frames[1..])); }
        (w + s.buffer) + Flatten(frames[1..]);
        (buffer + Scale(frames[0])) + Flatten(frames[1..]);
        { Associative(buffer, Scale(frames[0]), Flatten(frames[1..])); }
        buffer + Flatten(frames);
      }
    }
  }

  lemma Associative(a: seq<real>, b: seq<real>, c: seq<real>)
    ensures (a + b) + c == a + (b + c)
  {
  }
}
