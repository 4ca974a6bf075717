/**
 * What the frame pipeline of `SpeechMonitorViewModel` promises over several frames and
 * events, proved about the functions of `MonitorModel`: an episode opens on the fifth
 * speech frame from rest, thirty quiet frames close it, a timer that fires afterwards
 * publishes nothing more, and the start/stop guards and buffer clearing behave as written.
 */
module MonitorProperties {
  import opened Wrappers
  import opened Pcm
  import opened VadEngine
  import opened Segmentation
  import opened MonitorModel
  import Onset
  import Finalize
  import Crossfade
  import EnergyVad

  /**
   * One frame on the detector path, with the engine's raw verdict given: the frame is
   * counted and buffered, then classified.
   */
  function Step(m: Monitor, frame: seq<int>, rawIsSpeaking: bool, energyOf: EnergyFn): (r: Monitor)
    requires Valid(m) && m.listening
    ensures Valid(r) && r.listening
  {
    var received := Receive(m, frame);
    Classify(received, frame, Ok(rawIsSpeaking), energyOf(frame), energyOf)
  }

  /** Outside manual recording, a frame is exactly a `Step` with the energy engine's verdict. */
  lemma OnFrameIsStep(m: Monitor, frame: seq<int>, check: EnergyVad.ActivityCheck, energyOf: EnergyFn)
    requires Valid(m) && m.listening && !(m.manualRecording && m.recording)
    ensures var step := EnergyVad.Accumulate(m.vadBuffer, frame);
      OnFrame(m, frame, check, energyOf) ==
      Step(m.(vadBuffer := step.buffer), frame, EnergyVad.StepVerdict(step, check, EnergyVad.DefaultThreshold), energyOf)
  {
    var step := EnergyVad.Accumulate(m.vadBuffer, frame);
    ReceiveKeepsVadBuffer(m, step.buffer, frame);
  }

  lemma ReceiveKeepsVadBuffer(m: Monitor, vadBuffer: seq<real>, frame: seq<int>)
    ensures Receive(m.(vadBuffer := vadBuffer), frame) == Receive(m, frame).(vadBuffer := vadBuffer)
  {
  }

  /** In manual recording the frame only joins the recording; the detector does not run. */
  lemma ManualFrameIsRecorded(m: Monitor, frame: seq<int>, check: EnergyVad.ActivityCheck, energyOf: EnergyFn)
    requires Valid(m) && m.listening && m.manualRecording && m.recording
    ensures var received := Receive(m, frame);
      Crossfade.Overlap(received.lastAudioFrame, frame) <= |received.currentRecording| &&
      OnFrame(m, frame, check, energyOf) == AddFrame(received, frame)
  {
  }

  /** A frame the engine cannot classify records the error; counter and ring buffer are already updated. */
  lemma FailedFrameOnlyRecordsError(m: Monitor, frame: seq<int>, e: EngineError, energy: real, energyOf: EnergyFn)
    requires Valid(m) && m.listening
    ensures var received := Receive(m, frame);
      Classify(received, frame, Err(e), energy, energyOf) == received.(error := Some(VadFailed(e))) &&
      received.frameCounter == m.frameCounter + 1 && received.ringBuffer == RingAfter(m.ringBuffer, frame)
  {
  }

  /** The state after a run of frames, all with the same raw verdict, taken first to last. */
  function Run(m: Monitor, frames: seq<seq<int>>, rawIsSpeaking: bool, energyOf: EnergyFn): (r: Monitor)
    requires Valid(m) && m.listening
    ensures Valid(r) && r.listening
    decreases |frames|
  {
    if frames == [] then m
    else Run(Step(m, frames[0], rawIsSpeaking, energyOf), frames[1..], rawIsSpeaking, energyOf)
  }

  // ---------------------------------------------------------------- onset

  /**
   * Listening, not speaking, not recording, after `n` speech decisions in a row from rest:
   * the history holds those `n` decisions, hysteresis has switched on from the third, and
   * every frame since then counted as active.
   */
  predicate Warming(m: Monitor, n: nat) {
    Valid(m) && m.listening && !m.speaking && !m.recording && m.lastAudioFrame.None? &&
    |m.recentVADHistory| == n && (forall i :: 0 <= i < n ==> m.recentVADHistory[i]) &&
    m.smoothedSpeakingState == (n >= MinActiveFrames) &&
    m.activeFramesCount == (if n >= MinActiveFrames then n - (MinActiveFrames - 1) else 0)
  }

  /** Capture started from the initial state, or after a successful stop, is at rest. */
  lemma StartIsAtRest(m: Monitor)
    requires Valid(m) && !m.listening && !m.speaking && !m.recording && !m.manualRecording
    requires m.recentVADHistory == [] && !m.smoothedSpeakingState && m.activeFramesCount == 0
    ensures Warming(Start(m, true, true), 0)
  {
  }

  lemma InitialStartIsAtRest()
    ensures Warming(Start(Initial(), true, true), 0)
  {
    StartIsAtRest(Initial());
  }

  /** The first four speech frames from rest do not open an episode. */
  lemma {:induction false} SpeechFrameWarms(m: Monitor, n: nat, frame: seq<int>, energyOf: EnergyFn)
    requires Warming(m, n) && n < 4
    ensures Warming(Step(m, frame, true, energyOf), n + 1)
  {
    var received := Receive(m, frame);
    DetectLogsSpeech(received, n, energyOf(frame));
    StepIsVoiceState(m, frame, true, energyOf);
    VoiceStateWarms(Detect(received, true, energyOf(frame)), n, frame, energyOf, Step(m, frame, true, energyOf));
  }

  /**
   * After `n` speech decisions from rest the detector has logged the next one: the
   * history holds `n + 1` of them and hysteresis is on from the third; nothing else moved.
   */
  predicate Logged(d: Monitor, n: nat) {
    Valid(d) && d.listening && !d.speaking && !d.recording && d.lastAudioFrame.None? &&
    |d.recentVADHistory| == n + 1 && (forall i :: 0 <= i < n + 1 ==> d.recentVADHistory[i]) &&
    d.smoothedSpeakingState == (n + 1 >= MinActiveFrames) &&
    d.activeFramesCount == (if n >= MinActiveFrames then n - (MinActiveFrames - 1) else 0)
  }

  lemma {:induction false} DetectLogsSpeech(m: Monitor, n: nat, energy: real)
    requires Warming(m, n) && n < 4
    ensures Logged(Detect(m, true, energy), n)
  {
    DetectIsLocal(m, true, energy);
    var h := PushHistory(m.recentVADHistory, true);
    PushKeepsAllTrue(m.recentVADHistory, n);
    WarmSmoothed(h, n);
  }

  /** Below ten entries, a speech decision is appended to an all-speech history. */
  lemma PushKeepsAllTrue(history: seq<bool>, n: nat)
    requires |history| == n < MaxVADHistorySize && forall i :: 0 <= i < n ==> history[i]
    ensures var h := PushHistory(history, true); |h| == n + 1 && forall i :: 0 <= i < n + 1 ==> h[i]
  {
    var h := PushHistory(history, true);
    assert h == history + [true];
    forall i | 0 <= i < n + 1 ensures h[i] {
      if i < n {
        assert h[i] == history[i];
      }
    }
  }

  /** The voice-state half of `SpeechFrameWarms`, once the detector has logged the decision. */
  lemma VoiceStateWarms(d: Monitor, n: nat, frame: seq<int>, energyOf: EnergyFn, r: Monitor)
    requires Logged(d, n) && |d.ringBuffer| >= |frame| && n < 4
    requires r == VoiceState(d, d.smoothedSpeakingState, frame, energyOf)
    ensures Warming(r, n + 1)
  {
    if n + 1 >= MinActiveFrames {
      SpeechBelowOnset(d, frame, energyOf);
    } else {
      SilenceAtRest(d, frame, energyOf);
    }
  }

  /** Hysteresis turns on exactly when the third speech decision in a row arrives. */
  lemma WarmSmoothed(h: seq<bool>, n: nat)
    requires |h| == n + 1 && forall i :: 0 <= i < n + 1 ==> h[i]
    ensures Smoothed(n >= MinActiveFrames, true, h, 0) == (n + 1 >= MinActiveFrames)
  {
    if n + 1 >= MinActiveFrames {
      assert RecentAllTrue(h, MinActiveFrames);
    }
  }

  lemma StepIsVoiceState(m: Monitor, frame: seq<int>, rawIsSpeaking: bool, energyOf: EnergyFn)
    requires Valid(m) && m.listening
    ensures var d := Detect(Receive(m, frame), rawIsSpeaking, energyOf(frame));
      Step(m, frame, rawIsSpeaking, energyOf) == VoiceState(d, d.smoothedSpeakingState, frame, energyOf)
  {
  }

  /** Before the onset count is reached, a speech frame only counts. */
  lemma SpeechBelowOnset(m: Monitor, frame: seq<int>, energyOf: EnergyFn)
    requires Valid(m) && m.listening && |m.ringBuffer| >= |frame|
    requires !m.speaking && m.activeFramesCount + 1 < MinActiveFrames
    ensures VoiceState(m, true, frame, energyOf) ==
            m.(activeFramesCount := m.activeFramesCount + 1, accumulatedSilentFrames := 0)
  {
  }

  /** At rest, a silent frame only restarts the onset count. */
  lemma SilenceAtRest(m: Monitor, frame: seq<int>, energyOf: EnergyFn)
    requires Valid(m) && m.listening && |m.ringBuffer| >= |frame| && !m.speaking
    ensures VoiceState(m, false, frame, energyOf) == m.(activeFramesCount := 0)
  {
  }

  /**
   * The fifth speech frame opens the episode: speaking is published, the timer is armed,
   * and the recording is the pre-roll from the onset index, followed by the frame itself.
   * (The ring buffer already ends with that frame, so it is recorded twice.)
   */
  lemma {:induction false} FifthSpeechFrameOpens(m: Monitor, frame: seq<int>, energyOf: EnergyFn)
    requires Warming(m, 4)
    ensures var r := Step(m, frame, true, energyOf); var ring := RingAfter(m.ringBuffer, frame);
      r.speaking && r.recording && r.timerArmed && r.lastAudioFrame == Some(frame) &&
      r.smoothedSpeakingState && r.consecutiveSilentFrames == 0 && r.accumulatedSilentFrames == 0 &&
      Onset.OptimalStart(ring, energyOf) <= |ring| &&
      r.currentRecording == ring[Onset.OptimalStart(ring, energyOf)..] + frame
  {
    var received := Receive(m, frame);
    var d := Detect(received, true, energyOf(frame));
    DetectIsLocal(received, true, energyOf(frame));
    var h := PushHistory(m.recentVADHistory, true);
    assert d.recentVADHistory == h;
    assert h == m.recentVADHistory + [true];
    assert RecentAllTrue(h, MinActiveFrames) by {
      forall i | |h| - MinActiveFrames <= i < |h| ensures h[i] {
        if i < 4 {
          assert h[i] == m.recentVADHistory[i];
        }
      }
    }
    assert d.smoothedSpeakingState;
    var counted := d.(activeFramesCount := d.activeFramesCount + 1, accumulatedSilentFrames := 0);
    var started := BeginRecording(counted.(speaking := true), energyOf);
    Crossfade.CrossfadedAppends(started.currentRecording, started.lastAudioFrame, frame);
  }

  /** From rest, five speech frames in a row are needed, and enough, to open an episode. */
  lemma OnsetTakesFiveFrames(m: Monitor, frames: seq<seq<int>>, energyOf: EnergyFn)
    requires Warming(m, 0) && |frames| == 5
    ensures forall k :: 0 <= k < 5 ==> !Run(m, frames[..k], true, energyOf).speaking
    ensures Run(m, frames, true, energyOf).speaking
  {
    forall k | 0 <= k < 5
      ensures Warming(Run(m, frames[..k], true, energyOf), k)
    {
      WarmingRun(m, 0, frames[..k], energyOf);
    }
    OnsetRun(m, 0, frames, energyOf);
  }

  lemma {:induction false} WarmingRun(m: Monitor, n: nat, frames: seq<seq<int>>, energyOf: EnergyFn)
    requires Warming(m, n) && n + |frames| < 5
    ensures Warming(Run(m, frames, true, energyOf), n + |frames|)
    decreases |frames|
  {
    if frames != [] {
      SpeechFrameWarms(m, n, frames[0], energyOf);
      WarmingRun(Step(m, frames[0], true, energyOf), n + 1, frames[1..], energyOf);
    }
  }

  lemma {:induction false} OnsetRun(m: Monitor, n: nat, frames: seq<seq<int>>, energyOf: EnergyFn)
    requires Warming(m, n) && n + |frames| == 5 && frames != []
    ensures Run(m, frames, true, energyOf).speaking
    decreases |frames|
  {
    if |frames| == 1 {
      FifthSpeechFrameOpens(m, frames[0], energyOf);
      assert frames[1..] == [];
    } else {
      SpeechFrameWarms(m, n, frames[0], energyOf);
      OnsetRun(Step(m, frames[0], true, energyOf), n + 1, frames[1..], energyOf);
    }
  }

  // ---------------------------------------------------------------- episode end

  /**
   * A quiet frame: below 280, the silence threshold's floor of 350 times the in-speech
   * multiplier 0.8, so no threshold can turn it into speech once the engine says silence.
   */
  predicate Quiet(frame: seq<int>, energyOf: EnergyFn) {
    energyOf(frame) <= BaseSilenceThreshold * SilenceThresholdMultiplier
  }

  /**
   * Speaking, after `n` quiet frames in a row that began with hysteresis switched on: the
   * first four keep it on (and count as speech), from the fifth on each one accumulates.
   */
  predicate Fading(m: Monitor, n: nat) {
    Valid(m) && m.listening && m.speaking && m.consecutiveSilentFrames == n &&
    m.smoothedSpeakingState == (n < MinSilentFrames) &&
    m.accumulatedSilentFrames == (if n < MinSilentFrames then 0 else n - (MinSilentFrames - 1))
  }

  /** The frame that opens an episode leaves it ready to fade. */
  lemma OpenedEpisodeFades(m: Monitor, frame: seq<int>, energyOf: EnergyFn)
    requires Warming(m, 4)
    ensures Fading(Step(m, frame, true, energyOf), 0)
  {
    FifthSpeechFrameOpens(m, frame, energyOf);
  }

  /** A quiet frame is silent to the enhanced decision, whatever the threshold was. */
  lemma QuietIsSilent(m: Monitor, frame: seq<int>, energyOf: EnergyFn)
    requires Valid(m) && Quiet(frame, energyOf)
    ensures var t := NextThreshold(m.currentSilenceThreshold, false, energyOf(frame));
      !EnhancedDecision(false, energyOf(frame), t, m.speaking, m.consecutiveSilentFrames).isSpeaking
  {
  }

  /** Quiet frames 1 to 29 keep the episode open. */
  lemma {:induction false} QuietFrameFades(m: Monitor, n: nat, frame: seq<int>, energyOf: EnergyFn)
    requires Fading(m, n) && n < MaxSilentFrames - 1 && Quiet(frame, energyOf)
    ensures Fading(Step(m, frame, false, energyOf), n + 1)
  {
    var received := Receive(m, frame);
    QuietIsSilent(received, frame, energyOf);
    var d := Detect(received, false, energyOf(frame));
    DetectIsLocal(received, false, energyOf(frame));
    assert d.consecutiveSilentFrames == n + 1;
  }

  /** The thirtieth quiet frame ends the episode and returns the detector to rest. */
  lemma {:induction false} ThirtiethQuietFrameEnds(m: Monitor, frame: seq<int>, energyOf: EnergyFn)
    requires Fading(m, MaxSilentFrames - 1) && Quiet(frame, energyOf)
    ensures var r := Step(m, frame, false, energyOf);
      !r.speaking && !r.recording && r.currentRecording == [] && Warming(r, 0)
  {
    var received := Receive(m, frame);
    QuietIsSilent(received, frame, energyOf);
    var d := Detect(received, false, energyOf(frame));
    DetectIsLocal(received, false, energyOf(frame));
    assert d.consecutiveSilentFrames == MaxSilentFrames;
  }

  /**
   * While speaking, a frame ends the episode exactly when hysteresis judges it silent and
   * 30 consecutive silent frames have been seen or it is the 30th accumulated one; a frame
   * that keeps the episode open publishes nothing.
   */
  lemma SpeakingEndsOnlyOnLongSilence(m: Monitor, isSpeaking: bool, frame: seq<int>, energyOf: EnergyFn)
    requires Valid(m) && m.listening && |m.ringBuffer| >= |frame| && m.speaking
    ensures var r := VoiceState(m, isSpeaking, frame, energyOf);
      (!r.speaking <==> !isSpeaking && (m.consecutiveSilentFrames >= MaxSilentFrames ||
                                        m.accumulatedSilentFrames + 1 >= MaxSilentFrames)) &&
      (r.speaking ==> r.recordedAudioData == m.recordedAudioData)
  {
  }

  lemma {:induction false} FadingRun(m: Monitor, n: nat, frames: seq<seq<int>>, energyOf: EnergyFn)
    requires Fading(m, n) && n + |frames| < MaxSilentFrames
    requires forall i :: 0 <= i < |frames| ==> Quiet(frames[i], energyOf)
    ensures Fading(Run(m, frames, false, energyOf), n + |frames|)
    decreases |frames|
  {
    if frames != [] {
      QuietFrameFades(m, n, frames[0], energyOf);
      assert forall i :: 0 <= i < |frames| - 1 ==> frames[1..][i] == frames[i + 1];
      FadingRun(Step(m, frames[0], false, energyOf), n + 1, frames[1..], energyOf);
    }
  }

  lemma {:induction false} EndingRun(m: Monitor, n: nat, frames: seq<seq<int>>, energyOf: EnergyFn)
    requires Fading(m, n) && n + |frames| == MaxSilentFrames && frames != []
    requires forall i :: 0 <= i < |frames| ==> Quiet(frames[i], energyOf)
    ensures var r := Run(m, frames, false, energyOf); !r.speaking && !r.recording
    decreases |frames|
  {
    if |frames| == 1 {
      ThirtiethQuietFrameEnds(m, frames[0], energyOf);
      assert frames[1..] == [];
    } else {
      QuietFrameFades(m, n, frames[0], energyOf);
      assert forall i :: 0 <= i < |frames| - 1 ==> frames[1..][i] == frames[i + 1];
      EndingRun(Step(m, frames[0], false, energyOf), n + 1, frames[1..], energyOf);
    }
  }

  /** Once speaking with hysteresis on, exactly thirty quiet frames end the episode. */
  lemma EpisodeEndsAfterThirtyQuietFrames(m: Monitor, frames: seq<seq<int>>, energyOf: EnergyFn)
    requires Fading(m, 0) && |frames| == MaxSilentFrames
    requires forall i :: 0 <= i < |frames| ==> Quiet(frames[i], energyOf)
    ensures forall k :: 0 <= k < MaxSilentFrames ==> Run(m, frames[..k], false, energyOf).speaking
    ensures !Run(m, frames, false, energyOf).speaking && !Run(m, frames, false, energyOf).recording
  {
    forall k | 0 <= k < MaxSilentFrames
      ensures Fading(Run(m, frames[..k], false, energyOf), k)
    {
      assert forall i :: 0 <= i < k ==> frames[..k][i] == frames[i];
      FadingRun(m, 0, frames[..k], energyOf);
    }
    EndingRun(m, 0, frames, energyOf);
  }

  /**
   * After the frame path has ended the episode, the still pending timer fires without a
   * second publication: only the timer flag changes.
   */
  lemma NoSecondPublication(m: Monitor, frame: seq<int>, energyOf: EnergyFn)
    requires Fading(m, MaxSilentFrames - 1) && Quiet(frame, energyOf)
    ensures var r := Step(m, frame, false, energyOf);
      r.timerArmed ==> Timeout(r, energyOf) == r.(timerArmed := false)
  {
    ThirtiethQuietFrameEnds(m, frame, energyOf);
  }

  /** The timer ends an episode only while speaking, and then publishes as `endRecording` does. */
  lemma TimeoutEndsOnlyWhileSpeaking(m: Monitor, energyOf: EnergyFn)
    requires m.timerArmed
    ensures !m.speaking ==> Timeout(m, energyOf) == m.(timerArmed := false)
    ensures m.speaking ==> Timeout(m, energyOf) == EndRecording(m.(timerArmed := false, speaking := false), energyOf)
  {
  }

  // ---------------------------------------------------------------- lifecycle

  /** Starting while listening and stopping while not listening change nothing (the engine is still emptied). */
  lemma GuardsMakeRepeatsNoOps(m: Monitor, stopSucceeds: bool, permitted: bool, captureStarts: bool,
                               check: EnergyVad.ActivityCheck)
    ensures m.listening ==> StartWithVad(m, permitted, captureStarts) == m &&
                            StartWithoutVad(m, permitted, captureStarts) == m &&
                            Start(m, permitted, captureStarts) == m.(vadBuffer := [])
    ensures !m.listening ==> StopWithVad(m, stopSucceeds) == m && StopWithoutVad(m, stopSucceeds, check) == m &&
                             Stop(m, stopSucceeds, check) == m
  {
  }

  /**
   * Swapping the engine while listening never resumes capture. The restart inside
   * `setVADEngine` runs against the state before the stop's deferred reset, where it only
   * empties the engine, so a successful stop leaves the monitor stopped, whatever the
   * permission and the capture service would say. Had the reset run first, the same
   * restart would have resumed capture.
   */
  lemma SetVadEngineSkipsRestart(m: Monitor, check: EnergyVad.ActivityCheck, permitted: bool, captureStarts: bool)
    requires Valid(m) && m.listening
    ensures Start(m, permitted, captureStarts) == m.(vadBuffer := [])
    ensures !SetVadEngine(m, true, check).listening
    ensures permitted && captureStarts ==> Start(Stop(m, true, check), permitted, captureStarts).listening
  {
  }

  /** A successful stop empties the ring buffer; the end of an episode leaves it as it was. */
  lemma StopClearsRingEpisodeEndKeepsIt(m: Monitor, energyOf: EnergyFn)
    requires m.listening
    ensures StopWithVad(m, true).ringBuffer == []
    ensures EndRecording(m, energyOf).ringBuffer == m.ringBuffer
  {
  }

  /**
   * Stopping a manual recording publishes the normalised recording, untrimmed and of any
   * length, exactly when it is non-empty and the energy engine hears speech in it.
   */
  lemma ManualStopPublishesOnlySpeech(m: Monitor, check: EnergyVad.ActivityCheck)
    requires m.listening
    ensures var r := StopWithoutVad(m, true, check);
      var normalizedRecording := Finalize.Normalized(m.currentRecording);
      var heard := m.recording && m.currentRecording != [] &&
                   ScanForSpeech(m.vadBuffer, normalizedRecording, check, 0).speech;
      r.recordedAudioData == (if heard then Some(normalizedRecording) else m.recordedAudioData) &&
      !r.listening && !r.speaking && !r.recording && r.currentRecording == []
  {
  }
}
