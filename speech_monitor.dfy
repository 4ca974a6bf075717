/**
 * `SpeechMonitorViewModel` as a class whose fields the operations update in place. Its
 * stored properties are kept in three records (the detector counters that
 * `resetStateCounters` rewinds, the audio buffers, the published properties) plus four
 * plain fields; `State()` flattens them into a `MonitorModel.Monitor`, and every method
 * is proved to move `State()` exactly as the matching function of `MonitorModel` says.
 * The callbacks the source schedules on the main actor run to completion inside the
 * method that schedules them.
 */
module SpeechMonitor {
  import opened Wrappers
  import opened Pcm
  import opened Segmentation
  import opened MonitorModel
  import Onset
  import Finalize
  import Crossfade
  import EnergyVad

  /** The counters, decision history and threshold that `resetStateCounters` rewinds. */
  datatype Detector = Detector(
    activeFramesCount: nat,
    accumulatedSilentFrames: nat,
    consecutiveSilentFrames: nat,
    recentVADHistory: seq<bool>,
    smoothedSpeakingState: bool,
    lastVADResult: bool,
    currentSilenceThreshold: real)

  /** The detector at rest. */
  const RestDetector: Detector := Detector(0, 0, 0, [], false, false, BaseSilenceThreshold)

  /** The pre-roll buffer, the recording in progress and the last frame recorded. */
  datatype Audio = Audio(ringBuffer: seq<int>, currentRecording: seq<int>, lastAudioFrame: Option<seq<int>>)

  /** The `@Published` properties (the volume is not modelled). */
  datatype Published = Published(listening: bool, speaking: bool, recordedAudioData: Option<seq<int>>,
                                 error: Option<MonitorError>)

  /** The view model's fields, flattened. */
  function Snapshot(manualRecording: bool, recording: bool, timerArmed: bool, frameCounter: nat,
                    d: Detector, a: Audio, p: Published, vadBuffer: seq<real>): (m: Monitor)
    ensures m.frameCounter == frameCounter && m.ringBuffer == a.ringBuffer && m.vadBuffer == vadBuffer
  {
    Monitor(manualRecording, p.listening, p.speaking, recording,
            a.ringBuffer, a.currentRecording, a.lastAudioFrame,
            d.activeFramesCount, d.accumulatedSilentFrames, d.consecutiveSilentFrames,
            d.recentVADHistory, d.smoothedSpeakingState, d.lastVADResult,
            d.currentSilenceThreshold, timerArmed, frameCounter,
            p.recordedAudioData, p.error, vadBuffer)
  }

  /** Receiving a frame touches only the counter and the ring buffer. */
  lemma ReceiveSnapshot(manualRecording: bool, recording: bool, timerArmed: bool, frameCounter: nat,
                        d: Detector, a: Audio, p: Published, vadBuffer: seq<real>, frame: seq<int>)
    ensures Receive(Snapshot(manualRecording, recording, timerArmed, frameCounter, d, a, p, vadBuffer), frame)
         == Snapshot(manualRecording, recording, timerArmed, frameCounter + 1, d,
                     a.(ringBuffer := RingAfter(a.ringBuffer, frame)), p, vadBuffer)
  {
  }

  class SpeechMonitorViewModel {
    /** The engine is always the energy engine: `setVADEngine(_:)` ignores its argument. */
    const engine: EnergyVad.EnergyVadEngine
    /** `calculateEnergy`. */
    const energyOf: EnergyFn

    var manualRecording: bool
    var recording: bool
    /** A `vadTimeoutTimer` is scheduled and has neither fired nor been invalidated. */
    var timerArmed: bool
    var frameCounter: nat
    var detector: Detector
    var audio: Audio
    var published: Published

    function State(): Monitor
      reads this, engine
    {
      Snapshot(manualRecording, recording, timerArmed, frameCounter, detector, audio, published, engine.buffer)
    }

    predicate Valid()
      reads this, engine
    {
      MonitorModel.Valid(State()) && engine.threshold == EnergyVad.DefaultThreshold
    }

    constructor (energyOf: EnergyFn)
      ensures Valid() && State() == Initial() && this.energyOf == energyOf && fresh(engine)
    {
      engine := new EnergyVad.EnergyVadEngine(EnergyVad.DefaultThreshold);
      this.energyOf := energyOf;
      manualRecording := false;
      recording := false;
      timerArmed := false;
      frameCounter := 0;
      detector := RestDetector;
      audio := Audio([], [], None);
      published := Published(false, false, None, None);
    }

    // ------------------------------------------------------------ public operations

    method SetManualRecording(isManual: bool)
      requires Valid()
      modifies this
      ensures Valid() && State() == MonitorModel.SetManualRecording(old(State()), isManual)
    {
      manualRecording := isManual;
    }

    method SetVadEngine(stopSucceeds: bool, check: EnergyVad.ActivityCheck)
      requires Valid()
      modifies this, engine
      ensures Valid() && State() == MonitorModel.SetVadEngine(old(State()), stopSucceeds, check)
    {
      var wasListening := published.listening;
      if wasListening {
        StopMonitoring(stopSucceeds, check);
      }
      engine.Delete();
      if wasListening {
        // `startMonitoring()`: its `delete()` runs, but its start guard reads `listening`
        // before the stop's deferred reset, still true, and returns at once.
        engine.Delete();
      }
    }

    method StartMonitoring(permitted: bool, captureStarts: bool)
      requires Valid()
      modifies this, engine
      ensures Valid() && State() == Start(old(State()), permitted, captureStarts)
    {
      engine.Delete();
      if manualRecording {
        StartMonitoringWithoutVad(permitted, captureStarts);
      } else {
        StartMonitoringWithVad(permitted, captureStarts);
      }
    }

    method StopMonitoring(stopSucceeds: bool, check: EnergyVad.ActivityCheck)
      requires Valid()
      modifies this, engine
      ensures Valid() && State() == Stop(old(State()), stopSucceeds, check)
    {
      if manualRecording {
        StopMonitoringWithoutVad(stopSucceeds, check);
      } else {
        StopMonitoringWithVad(stopSucceeds);
      }
    }

    method ToggleMonitoring(stopSucceeds: bool, permitted: bool, captureStarts: bool, check: EnergyVad.ActivityCheck)
      requires Valid()
      modifies this, engine
      ensures Valid() && State() == Toggle(old(State()), stopSucceeds, permitted, captureStarts, check)
    {
      if published.listening {
        StopMonitoring(stopSucceeds, check);
      } else {
        StartMonitoring(permitted, captureStarts);
      }
    }

    method StartMonitoringWithVad(permitted: bool, captureStarts: bool)
      modifies this
      ensures State() == StartWithVad(old(State()), permitted, captureStarts)
    {
      if published.listening {
        return;
      }
      if !permitted {
        published := published.(error := Some(PermissionDenied));
        return;
      }
      if !captureStarts {
        published := published.(error := Some(VoiceProcessorFailed));
        return;
      }
      published := published.(listening := true, error := None);
    }

    method StopMonitoringWithVad(stopSucceeds: bool)
      modifies this
      ensures State() == StopWithVad(old(State()), stopSucceeds)
    {
      if !published.listening {
        return;
      }
      if stopSucceeds {
        published := published.(listening := false, speaking := false);
        ResetStateCounters();
        audio := audio.(ringBuffer := []);
      } else {
        published := published.(error := Some(VoiceProcessorFailed));
      }
      timerArmed := false;
    }

    method StartMonitoringWithoutVad(permitted: bool, captureStarts: bool)
      modifies this
      ensures State() == StartWithoutVad(old(State()), permitted, captureStarts)
    {
      if published.listening {
        return;
      }
      if !permitted {
        published := published.(error := Some(PermissionDenied));
        return;
      }
      if !captureStarts {
        published := published.(error := Some(VoiceProcessorFailed));
        return;
      }
      audio := audio.(currentRecording := []);
      recording := true;
      published := published.(listening := true, speaking := true, error := None);
    }

    method StopMonitoringWithoutVad(stopSucceeds: bool, check: EnergyVad.ActivityCheck)
      requires engine.threshold == EnergyVad.DefaultThreshold
      modifies this, engine
      ensures State() == StopWithoutVad(old(State()), stopSucceeds, check)
    {
      if !published.listening {
        return;
      }
      if !stopSucceeds {
        published := published.(error := Some(VoiceProcessorFailed));
        return;
      }
      if recording && audio.currentRecording != [] {
        var normalizedRecording := Finalize.NormalizeAudioLevels(audio.currentRecording);
        var isSpeaking := DetectSpeech(normalizedRecording, check);
        if isSpeaking {
          published := published.(recordedAudioData := Some(normalizedRecording));
        }
      }
      published := published.(listening := false, speaking := false);
      recording := false;
      audio := audio.(currentRecording := []);
      ResetStateCounters();
    }

    /** The chunk loop of `stopMonitoringWithoutVAD`: stop at the first chunk judged speech. */
    method DetectSpeech(samples: seq<int>, check: EnergyVad.ActivityCheck) returns (isSpeaking: bool)
      requires engine.threshold == EnergyVad.DefaultThreshold
      modifies engine
      ensures Scan(engine.buffer, isSpeaking) == ScanForSpeech(old(engine.buffer), samples, check, 0)
    {
      ghost var target := ScanForSpeech(engine.buffer, samples, check, 0);
      isSpeaking := false;
      var i := 0;
      while i < |samples|
        invariant ScanForSpeech(engine.buffer, samples, check, i) == target
        decreases |samples| - i
      {
        var end := Min(i + EnergyVad.FrameLength, |samples|);
        var frameData := samples[i..end];
        var speech := engine.Process(frameData, check);
        if speech {
          isSpeaking := true;
          break;
        }
        i := i + EnergyVad.FrameLength;
      }
    }

    // ------------------------------------------------------------ frame processing

    /** The capture service delivers a frame (it does so only while capture runs). */
    method ProcessAudioFrame(frame: seq<int>, check: EnergyVad.ActivityCheck)
      requires Valid() && published.listening
      modifies this, engine
      ensures Valid() && State() == OnFrame(old(State()), frame, check, energyOf)
    {
      ReceiveFrame(frame);
      if manualRecording && recording {
        AddFrameToRecording(frame);
        return;
      }
      DetectFrame(frame, check);
    }

    /** The detector path of `processAudioFrame`: the engine's verdict, then `ClassifyFrame`. */
    method DetectFrame(frame: seq<int>, check: EnergyVad.ActivityCheck)
      requires Valid() && published.listening && |audio.ringBuffer| >= |frame|
      modifies this, engine
      ensures Valid()
      ensures var m := old(State()); var step := EnergyVad.Accumulate(m.vadBuffer, frame);
        State() == Classify(m.(vadBuffer := step.buffer), frame,
                            Ok(EnergyVad.StepVerdict(step, check, EnergyVad.DefaultThreshold)), energyOf(frame), energyOf)
    {
      var rawIsSpeaking := engine.Process(frame, check);
      var frameEnergy := energyOf(frame);
      ClassifyFrame(frame, rawIsSpeaking, frameEnergy);
    }

    /** Every frame is counted and enters the ring buffer. */
    method ReceiveFrame(frame: seq<int>)
      modifies `frameCounter, `audio
      ensures State() == Receive(old(State()), frame)
    {
      ReceiveSnapshot(manualRecording, recording, timerArmed, frameCounter, detector, audio, published, engine.buffer, frame);
      frameCounter := frameCounter + 1;
      UpdateRingBuffer(frame);
    }

    /** The part of `processAudioFrame` after the engine has answered. */
    method ClassifyFrame(frame: seq<int>, rawIsSpeaking: bool, frameEnergy: real)
      requires MonitorModel.Valid(State()) && published.listening && |audio.ringBuffer| >= |frame|
      modifies this
      ensures State() == Classify(old(State()), frame, Ok(rawIsSpeaking), frameEnergy, energyOf)
    {
      var smoothedIsSpeaking := UpdateDetector(rawIsSpeaking, frameEnergy);
      UpdateVoiceState(smoothedIsSpeaking, frame);
    }

    /** Threshold, enhanced decision, history and hysteresis, as `processAudioFrame` orders them. */
    method UpdateDetector(rawIsSpeaking: bool, frameEnergy: real) returns (smoothedIsSpeaking: bool)
      requires MonitorModel.Valid(State())
      modifies this
      ensures State() == Detect(old(State()), rawIsSpeaking, frameEnergy)
      ensures smoothedIsSpeaking == detector.smoothedSpeakingState
    {
      var enhancedIsSpeaking := UpdateDecision(rawIsSpeaking, frameEnergy);
      smoothedIsSpeaking := UpdateSmoothing(rawIsSpeaking, enhancedIsSpeaking);
    }

    /** The threshold adapts, then the enhanced decision is taken against it. */
    method UpdateDecision(rawIsSpeaking: bool, frameEnergy: real) returns (isSpeaking: bool)
      modifies `detector
      ensures var t := NextThreshold(old(detector.currentSilenceThreshold), rawIsSpeaking, frameEnergy);
        var e := EnhancedDecision(rawIsSpeaking, frameEnergy, t, published.speaking, old(detector.consecutiveSilentFrames));
        isSpeaking == e.isSpeaking &&
        detector == old(detector).(currentSilenceThreshold := t, consecutiveSilentFrames := e.consecutiveSilentFrames)
    {
      UpdateSilenceThreshold(frameEnergy, rawIsSpeaking);
      isSpeaking := DetermineEnhancedSpeakingState(rawIsSpeaking, frameEnergy);
    }

    /** The decision enters the history, the hysteresis follows, and the raw verdict is kept. */
    method UpdateSmoothing(rawIsSpeaking: bool, decision: bool) returns (smoothed: bool)
      requires |detector.recentVADHistory| <= MaxVADHistorySize
      modifies `detector
      ensures var h := PushHistory(old(detector.recentVADHistory), decision);
        smoothed == Smoothed(old(detector.smoothedSpeakingState), decision, h, detector.consecutiveSilentFrames) &&
        detector == old(detector).(recentVADHistory := h, smoothedSpeakingState := smoothed, lastVADResult := rawIsSpeaking)
    {
      PushVadHistory(decision);
      smoothed := DetermineSmoothedSpeakingState(decision);
      RecordVadResult(rawIsSpeaking);
    }

    /** The history step of `processAudioFrame`: append, and drop the oldest beyond ten. */
    method PushVadHistory(decision: bool)
      requires |detector.recentVADHistory| <= MaxVADHistorySize
      modifies `detector
      ensures detector == old(detector).(recentVADHistory := PushHistory(old(detector.recentVADHistory), decision))
    {
      var history := detector.recentVADHistory + [decision];
      if |history| > MaxVADHistorySize {
        history := history[1..];
      }
      assert history == PushHistory(old(detector.recentVADHistory), decision);
      detector := detector.(recentVADHistory := history);
    }

    method UpdateRingBuffer(frame: seq<int>)
      modifies `audio
      ensures audio == old(audio).(ringBuffer := RingAfter(old(audio.ringBuffer), frame))
    {
      var ring := audio.ringBuffer;
      if |ring| + |frame| > MaxRingBufferSize {
        var excessSamples := |ring| + |frame| - MaxRingBufferSize;
        if excessSamples < |ring| {
          ring := ring[excessSamples..];
        } else {
          ring := [];
        }
      }
      assert ring + frame == RingAfter(audio.ringBuffer, frame);
      audio := audio.(ringBuffer := ring + frame);
    }

    method UpdateSilenceThreshold(frameEnergy: real, isSpeaking: bool)
      modifies `detector
      ensures detector == old(detector).(currentSilenceThreshold :=
        NextThreshold(old(detector.currentSilenceThreshold), isSpeaking, frameEnergy))
    {
      var t := detector.currentSilenceThreshold;
      if isSpeaking && frameEnergy > t {
        t := t * 0.95 + frameEnergy * 0.05 * 0.3;
        t := MinR(t, MaxSilenceThreshold);
      } else {
        t := MaxR(BaseSilenceThreshold, t * 0.995);
      }
      detector := detector.(currentSilenceThreshold := t);
    }

    method DetermineEnhancedSpeakingState(vadResult: bool, frameEnergy: real) returns (isSpeaking: bool)
      modifies `detector
      ensures var e := EnhancedDecision(vadResult, frameEnergy, old(detector.currentSilenceThreshold),
                                        old(published.speaking), old(detector.consecutiveSilentFrames));
        isSpeaking == e.isSpeaking && detector == old(detector).(consecutiveSilentFrames := e.consecutiveSilentFrames)
    {
      if vadResult {
        detector := detector.(consecutiveSilentFrames := 0);
        return true;
      }
      var effectiveThreshold :=
        if published.speaking then detector.currentSilenceThreshold * SilenceThresholdMultiplier
        else detector.currentSilenceThreshold;
      if frameEnergy > effectiveThreshold && published.speaking {
        detector := detector.(consecutiveSilentFrames := 0);
        return true;
      }
      detector := detector.(consecutiveSilentFrames := detector.consecutiveSilentFrames + 1);
      return false;
    }

    method DetermineSmoothedSpeakingState(currentVad: bool) returns (smoothed: bool)
      modifies `detector
      ensures smoothed == Smoothed(old(detector.smoothedSpeakingState), currentVad,
                                   detector.recentVADHistory, detector.consecutiveSilentFrames)
      ensures detector == old(detector).(smoothedSpeakingState := smoothed)
    {
      if !detector.smoothedSpeakingState && currentVad {
        var recentTrueCount := CountTrue(Suffix(detector.recentVADHistory, MinActiveFrames));
        if recentTrueCount >= MinActiveFrames {
          detector := detector.(smoothedSpeakingState := true);
        }
        return detector.smoothedSpeakingState;
      }
      if detector.smoothedSpeakingState && !currentVad {
        if detector.consecutiveSilentFrames >= MinSilentFrames {
          detector := detector.(smoothedSpeakingState := false);
        }
      }
      return detector.smoothedSpeakingState;
    }

    method UpdateVoiceState(isSpeaking: bool, frame: seq<int>)
      requires MonitorModel.Valid(State()) && published.listening && |audio.ringBuffer| >= |frame|
      modifies this
      ensures State() == VoiceState(old(State()), isSpeaking, frame, energyOf)
    {
      if isSpeaking {
        SpeakingFrame(frame);
      } else {
        SilentFrame(frame);
      }
    }

    /** The speaking branch of `updateVoiceState`. */
    method SpeakingFrame(frame: seq<int>)
      requires MonitorModel.Valid(State()) && published.listening && |audio.ringBuffer| >= |frame|
      modifies this
      ensures State() == SpeechFrame(old(State()), frame, energyOf)
    {
      CountActiveFrame();
      if !published.speaking && detector.activeFramesCount >= MinActiveFrames {
        StartSpeaking();
      }
      if published.speaking {
        ResetVadTimeout();
        if recording {
          AddFrameToRecording(frame);
        }
      }
    }

    method CountActiveFrame()
      modifies this
      ensures State() == old(State()).(activeFramesCount := old(detector.activeFramesCount) + 1,
                                       accumulatedSilentFrames := 0)
    {
      detector := detector.(activeFramesCount := detector.activeFramesCount + 1, accumulatedSilentFrames := 0);
    }

    method ClearActiveFrames()
      modifies this
      ensures State() == old(State()).(activeFramesCount := 0)
    {
      detector := detector.(activeFramesCount := 0);
    }

    method CountSilentFrame()
      modifies this
      ensures State() == old(State()).(accumulatedSilentFrames := old(detector.accumulatedSilentFrames) + 1)
    {
      detector := detector.(accumulatedSilentFrames := detector.accumulatedSilentFrames + 1);
    }

    method RecordVadResult(rawIsSpeaking: bool)
      modifies `detector
      ensures detector == old(detector).(lastVADResult := rawIsSpeaking)
    {
      detector := detector.(lastVADResult := rawIsSpeaking);
    }

    /** Speech begins: publish it and open the recording with its pre-roll. */
    method StartSpeaking()
      modifies this
      ensures State() == BeginRecording(old(State()).(speaking := true), energyOf)
    {
      published := published.(speaking := true);
      BeginRecordingWithPreSpeech();
    }

    /** The silent branch of `updateVoiceState`. */
    method SilentFrame(frame: seq<int>)
      requires MonitorModel.Valid(State()) && published.listening
      modifies this
      ensures State() == SilenceFrame(old(State()), frame, energyOf)
    {
      ClearActiveFrames();
      if published.speaking {
        ContinueSilence(frame);
      }
    }

    /** A silent frame while speaking: record it, count it, and end the episode after 30. */
    method ContinueSilence(frame: seq<int>)
      requires MonitorModel.Valid(State()) && published.listening
      modifies this
      ensures State() == SilenceDuringSpeech(old(State()), frame, energyOf)
    {
      if recording {
        ValidOverlapFits(State(), frame);
        AddFrameToRecording(frame);
      }
      EndIfSilentTooLong();
    }

    /** The silent frame is counted, and the episode ends once 30 are reached. */
    method EndIfSilentTooLong()
      requires MonitorModel.Valid(State())
      modifies this
      ensures State() == CountSilence(old(State()), energyOf)
    {
      CountSilentFrame();
      if detector.consecutiveSilentFrames >= MaxSilentFrames || detector.accumulatedSilentFrames >= MaxSilentFrames {
        StopSpeaking();
      }
    }

    /** The episode ends: publish it and finish the recording. */
    method StopSpeaking()
      modifies this
      ensures State() == MonitorModel.EndRecording(old(State()).(speaking := false), energyOf)
    {
      published := published.(speaking := false);
      EndRecording();
    }

    // ------------------------------------------------------------ timer and recording

    /** `resetVadTimeout`: a fresh two-second timer replaces any pending one. */
    method ResetVadTimeout()
      modifies this
      ensures State() == old(State()).(timerArmed := true)
    {
      timerArmed := true;
    }

    /** The pending timeout fires. */
    method VadTimeoutFired()
      requires timerArmed
      modifies this
      ensures State() == Timeout(old(State()), energyOf)
    {
      timerArmed := false;
      if published.speaking {
        StopSpeaking();
      }
    }

    /** The capture service's error listener fires. */
    method ReportVoiceProcessorError()
      modifies this
      ensures State() == ReportError(old(State()))
    {
      published := published.(error := Some(VoiceProcessorFailed));
    }

    method BeginRecordingWithPreSpeech()
      modifies this
      ensures State() == BeginRecording(old(State()), energyOf)
    {
      var preRoll: seq<int> := [];
      var optimalStartIndex := Onset.FindOptimalStartIndex(audio.ringBuffer, energyOf);
      Onset.OptimalStartBounds(audio.ringBuffer, energyOf);
      if optimalStartIndex < |audio.ringBuffer| {
        preRoll := preRoll + audio.ringBuffer[optimalStartIndex..];
      }
      audio := audio.(currentRecording := preRoll);
      recording := true;
    }

    /** `addFrameToRecording`: the fade rewrites the recording's last samples in place. */
    method AddFrameToRecording(frame: seq<int>)
      requires Crossfade.Overlap(audio.lastAudioFrame, frame) <= |audio.currentRecording|
      modifies this
      ensures State() == AddFrame(old(State()), frame)
    {
      var rec := audio.currentRecording;
      if audio.lastAudioFrame.Some? && audio.lastAudioFrame.value != [] {
        var lastFrame := audio.lastAudioFrame.value;
        var overlapSize := Min(Crossfade.FrameOverlap, Min(|lastFrame|, |frame|));
        if overlapSize > 0 {
          rec := CrossfadeInPlace(rec, lastFrame, frame, overlapSize);
          if |frame| > overlapSize {
            rec := rec + frame[overlapSize..];
          } else {
            assert frame[overlapSize..] == [];
          }
        } else {
          rec := rec + frame;
        }
      } else {
        rec := rec + frame;
      }
      audio := audio.(currentRecording := rec, lastAudioFrame := Some(frame));
    }

    method EndRecording()
      modifies this
      ensures State() == MonitorModel.EndRecording(old(State()), energyOf)
    {
      recording := false;
      if |audio.currentRecording| < MinRecordingSamples {
        audio := audio.(currentRecording := []);
        ResetStateCounters();
        return;
      }
      var trimmedRecording := Finalize.TrimTrailingSilence(audio.currentRecording, energyOf);
      var normalizedRecording := Finalize.NormalizeAudioLevels(trimmedRecording);
      published := published.(recordedAudioData := Some(normalizedRecording));
      audio := audio.(currentRecording := []);
      ResetStateCounters();
    }

    method ResetStateCounters()
      modifies this
      ensures State() == MonitorModel.ResetStateCounters(old(State()))
    {
      detector := RestDetector;
      audio := audio.(lastAudioFrame := None);
    }
  }

  /**
   * The loop of `addFrameToRecording`: the last `k` samples of the recording are replaced,
   * one by one, by the blend of the previous frame's tail and the new frame's head.
   */
  method CrossfadeInPlace(recording: seq<int>, lastFrame: seq<int>, frame: seq<int>, overlapSize: nat)
    returns (r: seq<int>)
    requires 0 < overlapSize <= |recording| && overlapSize <= |lastFrame| && overlapSize <= |frame|
    ensures r == recording[..|recording| - overlapSize] + Crossfade.Fade(lastFrame, frame, overlapSize)
  {
    r := recording;
    var base := |recording| - overlapSize;
    for i := 0 to overlapSize
      invariant |r| == |recording| && r[..base] == recording[..base]
      invariant forall j :: 0 <= j < i ==>
        r[base + j] == Crossfade.Blend(lastFrame[|lastFrame| - overlapSize + j], frame[j], j, overlapSize)
    {
      var weight1 := Crossfade.Weight(overlapSize - i, overlapSize);
      var weight2 := Crossfade.Weight(i, overlapSize);
      var lastSample := lastFrame[|lastFrame| - overlapSize + i] as real;
      var newSample := frame[i] as real;
      var blendedSample := Crossfade.Weighted(lastSample, newSample, weight1, weight2);
      r := r[base + i := Truncate(blendedSample)];
    }
  }
}
