/**
 * The state of `SpeechMonitorViewModel` as a value, and each of its operations as a
 * function from the state before to the state after. The class in `speech_monitor.dfy`
 * is proved to follow these functions; `monitor_properties.dfy` proves what they promise.
 */
module MonitorModel {
  import opened Wrappers
  import opened Pcm
  import opened VadEngine
  import opened Segmentation
  import Onset
  import Finalize
  import Crossfade
  import EnergyVad

  /** A recording shorter than 30 windows of 160 samples is discarded. */
  const MinRecordingSamples: nat := 30 * 160

  datatype MonitorError =
    | PermissionDenied                  // the microphone permission was refused
    | VoiceProcessorFailed              // the capture service failed to start or stop, or reported an error
    | VadFailed(cause: EngineError)

  /** Everything the view model's operations read or write, the engine's sample buffer included. */
  datatype Monitor = Monitor(
    manualRecording: bool,
    listening: bool,
    speaking: bool,
    recording: bool,
    ringBuffer: seq<int>,
    currentRecording: seq<int>,
    lastAudioFrame: Option<seq<int>>,
    activeFramesCount: nat,
    accumulatedSilentFrames: nat,
    consecutiveSilentFrames: nat,
    recentVADHistory: seq<bool>,
    smoothedSpeakingState: bool,
    lastVADResult: bool,
    currentSilenceThreshold: real,
    timerArmed: bool,
    frameCounter: nat,
    recordedAudioData: Option<seq<int>>,
    error: Option<MonitorError>,
    vadBuffer: seq<real>)

  /** The state right after `init()`. */
  function Initial(): Monitor {
    Monitor(false, false, false, false, [], [], None, 0, 0, 0, [], false, false,
            BaseSilenceThreshold, false, 0, None, None, [])
  }

  /**
   * What every operation keeps: the recording holds the samples the next crossfade
   * overwrites, nothing is remembered for crossfading once capture has stopped, the
   * history holds at most ten decisions and the threshold lies in (0, 1500].
   */
  predicate Valid(m: Monitor) {
    (m.lastAudioFrame.Some? ==> Min(Crossfade.FrameOverlap, |m.lastAudioFrame.value|) <= |m.currentRecording|) &&
    (!m.listening ==> m.lastAudioFrame.None?) &&
    |m.recentVADHistory| <= MaxVADHistorySize &&
    0.0 < m.currentSilenceThreshold <= MaxSilenceThreshold
  }

  lemma InitialValid()
    ensures Valid(Initial()) && !Initial().listening && !Initial().speaking
  {
  }

  // ---------------------------------------------------------------- recording

  /** `resetStateCounters`: counters, history, smoothing, crossfade memory and threshold back to rest. */
  function ResetStateCounters(m: Monitor): (r: Monitor)
    ensures Valid(r) && r.lastAudioFrame.None? && r.recentVADHistory == [] && !r.smoothedSpeakingState
    ensures r.currentSilenceThreshold == BaseSilenceThreshold &&
            r.activeFramesCount == 0 && r.accumulatedSilentFrames == 0 && r.consecutiveSilentFrames == 0
    ensures r.ringBuffer == m.ringBuffer && r.currentRecording == m.currentRecording &&
            r.recordedAudioData == m.recordedAudioData && r.listening == m.listening && r.speaking == m.speaking
  {
    m.(activeFramesCount := 0, accumulatedSilentFrames := 0, consecutiveSilentFrames := 0,
       recentVADHistory := [], smoothedSpeakingState := false, lastVADResult := false,
       lastAudioFrame := None, currentSilenceThreshold := BaseSilenceThreshold)
  }

  /** `beginRecordingWithPreSpeech`: the recording restarts from the onset found in the ring buffer. */
  function BeginRecording(m: Monitor, energyOf: EnergyFn): (r: Monitor)
    ensures r.recording
    ensures Onset.OptimalStart(m.ringBuffer, energyOf) <= |m.ringBuffer|
    ensures r.currentRecording == m.ringBuffer[Onset.OptimalStart(m.ringBuffer, energyOf)..]
    ensures |r.currentRecording| >= Min(|m.ringBuffer|, 373)
  {
    Onset.OptimalStartBounds(m.ringBuffer, energyOf);
    m.(currentRecording := m.ringBuffer[Onset.OptimalStart(m.ringBuffer, energyOf)..], recording := true)
  }

  /** In a valid state the crossfade never reaches before the start of the recording. */
  lemma ValidOverlapFits(m: Monitor, frame: seq<int>)
    requires Valid(m)
    ensures Crossfade.Overlap(m.lastAudioFrame, frame) <= |m.currentRecording|
  {
  }

  /** `addFrameToRecording`: crossfade the frame in, and remember it for the next crossfade. */
  function AddFrame(m: Monitor, frame: seq<int>): (r: Monitor)
    requires Crossfade.Overlap(m.lastAudioFrame, frame) <= |m.currentRecording|
    ensures r.lastAudioFrame == Some(frame) && |r.currentRecording| >= |frame|
    ensures (m.listening && |m.recentVADHistory| <= MaxVADHistorySize &&
             0.0 < m.currentSilenceThreshold <= MaxSilenceThreshold) ==> Valid(r)
  {
    Crossfade.CrossfadedShape(m.currentRecording, m.lastAudioFrame, frame);
    m.(currentRecording := Crossfade.Crossfaded(m.currentRecording, m.lastAudioFrame, frame),
       lastAudioFrame := Some(frame))
  }

  /** `endRecording`: publish the trimmed and normalised recording unless it is too short; then reset. */
  function EndRecording(m: Monitor, energyOf: EnergyFn): (r: Monitor)
    ensures Valid(r) && !r.recording && r.currentRecording == [] && r.speaking == m.speaking
    ensures r.recordedAudioData ==
      if |m.currentRecording| < MinRecordingSamples then m.recordedAudioData
      else Some(Finalize.Normalized(Finalize.Trimmed(m.currentRecording, energyOf)))
  {
    var stopped := m.(recording := false);
    if |stopped.currentRecording| < MinRecordingSamples then
      ResetStateCounters(stopped.(currentRecording := []))
    else
      var trimmedRecording := Finalize.Trimmed(stopped.currentRecording, energyOf);
      var normalizedRecording := Finalize.Normalized(trimmedRecording);
      ResetStateCounters(stopped.(recordedAudioData := Some(normalizedRecording), currentRecording := []))
  }

  // ---------------------------------------------------------------- frames

  /** `updateVoiceState`, with `resetVadTimeout` arming the timer. */
  function VoiceState(m: Monitor, isSpeaking: bool, frame: seq<int>, energyOf: EnergyFn): (r: Monitor)
    requires Valid(m) && m.listening && |m.ringBuffer| >= |frame|
    ensures Valid(r)
    ensures r.ringBuffer == m.ringBuffer && r.listening == m.listening
  {
    if isSpeaking then SpeechFrame(m, frame, energyOf) else SilenceFrame(m, frame, energyOf)
  }

  /**
   * A frame judged speech: it counts towards the onset, which opens a recording after five
   * such frames; while speaking the timer is re-armed and the frame recorded.
   */
  function SpeechFrame(m: Monitor, frame: seq<int>, energyOf: EnergyFn): (r: Monitor)
    requires Valid(m) && m.listening && |m.ringBuffer| >= |frame|
    ensures Valid(r)
    ensures r.ringBuffer == m.ringBuffer && r.listening == m.listening
  {
    var counted := m.(activeFramesCount := m.activeFramesCount + 1, accumulatedSilentFrames := 0);
    var started :=
      if !counted.speaking && counted.activeFramesCount >= MinActiveFrames then
        BeginRecording(counted.(speaking := true), energyOf)
      else counted;
    if started.speaking then
      var armed := started.(timerArmed := true);
      if armed.recording then
        assert Crossfade.Overlap(armed.lastAudioFrame, frame) <= |armed.currentRecording| by {
          if !counted.speaking && counted.activeFramesCount >= MinActiveFrames {
            assert |armed.currentRecording| >= Min(|m.ringBuffer|, 373);
          }
        }
        AddFrame(armed, frame)
      else armed
    else started
  }

  /** A frame judged silence: the onset count restarts, and while speaking `SilenceDuringSpeech` follows. */
  function SilenceFrame(m: Monitor, frame: seq<int>, energyOf: EnergyFn): (r: Monitor)
    requires Valid(m) && m.listening
    ensures Valid(r)
    ensures r.ringBuffer == m.ringBuffer && r.listening == m.listening
  {
    var reset := m.(activeFramesCount := 0);
    if reset.speaking then SilenceDuringSpeech(reset, frame, energyOf) else reset
  }

  /**
   * Silence while speaking: the frame is still recorded, and the episode ends once 30
   * silent frames have accumulated or 30 consecutive ones have been seen.
   */
  function SilenceDuringSpeech(m: Monitor, frame: seq<int>, energyOf: EnergyFn): (r: Monitor)
    requires Valid(m) && m.listening
    ensures Valid(r)
    ensures r.ringBuffer == m.ringBuffer && r.listening == m.listening
  {
    var added := if m.recording then AddFrame(m, frame) else m;
    CountSilence(added, energyOf)
  }

  /** One more silent frame is counted; 30 of them, or 30 consecutive ones, end the episode. */
  function CountSilence(m: Monitor, energyOf: EnergyFn): (r: Monitor)
    requires Valid(m)
    ensures Valid(r)
    ensures r.ringBuffer == m.ringBuffer && r.listening == m.listening
  {
    var counted := m.(accumulatedSilentFrames := m.accumulatedSilentFrames + 1);
    if counted.consecutiveSilentFrames >= MaxSilentFrames || counted.accumulatedSilentFrames >= MaxSilentFrames then
      EndRecording(counted.(speaking := false), energyOf)
    else counted
  }

  /**
   * The detector updates of `processAudioFrame` once the engine has answered: threshold,
   * enhanced decision, history and hysteresis, in that order, and the raw verdict kept.
   * The smoothed decision is left in `smoothedSpeakingState`.
   */
  function Detect(m: Monitor, rawIsSpeaking: bool, energy: real): (r: Monitor)
    requires Valid(m)
    ensures Valid(r)
    ensures r.ringBuffer == m.ringBuffer && r.listening == m.listening && r.speaking == m.speaking
  {
    var threshold := NextThreshold(m.currentSilenceThreshold, rawIsSpeaking, energy);
    var enhanced := EnhancedDecision(rawIsSpeaking, energy, threshold, m.speaking, m.consecutiveSilentFrames);
    var history := PushHistory(m.recentVADHistory, enhanced.isSpeaking);
    var smoothed := Smoothed(m.smoothedSpeakingState, enhanced.isSpeaking, history, enhanced.consecutiveSilentFrames);
    m.(currentSilenceThreshold := threshold,
       consecutiveSilentFrames := enhanced.consecutiveSilentFrames,
       recentVADHistory := history,
       smoothedSpeakingState := smoothed,
       lastVADResult := rawIsSpeaking)
  }

  /** The detector pass touches the threshold, the silence run, the history and the two decisions only. */
  lemma DetectIsLocal(m: Monitor, rawIsSpeaking: bool, energy: real)
    requires Valid(m)
    ensures var r := Detect(m, rawIsSpeaking, energy);
      r == m.(currentSilenceThreshold := r.currentSilenceThreshold,
              consecutiveSilentFrames := r.consecutiveSilentFrames,
              recentVADHistory := r.recentVADHistory,
              smoothedSpeakingState := r.smoothedSpeakingState,
              lastVADResult := rawIsSpeaking)
  {
  }

  /**
   * The detector path of `processAudioFrame` once the engine has answered: a thrown error is
   * recorded; otherwise `Detect` runs and its smoothed decision drives `updateVoiceState`.
   */
  function Classify(m: Monitor, frame: seq<int>, verdict: Verdict, energy: real, energyOf: EnergyFn): (r: Monitor)
    requires Valid(m) && m.listening && |m.ringBuffer| >= |frame|
    ensures Valid(r) && r.ringBuffer == m.ringBuffer && r.listening
    ensures verdict.Err? ==> r == m.(error := Some(VadFailed(verdict.error)))
  {
    match verdict
    case Err(e) => m.(error := Some(VadFailed(e)))
    case Ok(rawIsSpeaking) =>
      var detected := Detect(m, rawIsSpeaking, energy);
      VoiceState(detected, detected.smoothedSpeakingState, frame, energyOf)
  }

  /** The counter and ring buffer update every frame starts with. */
  function Receive(m: Monitor, frame: seq<int>): (r: Monitor)
    ensures Valid(m) ==> Valid(r)
    ensures r.frameCounter == m.frameCounter + 1 && |r.ringBuffer| >= |frame|
  {
    RingAfterShape(m.ringBuffer, frame);
    m.(frameCounter := m.frameCounter + 1, ringBuffer := RingAfter(m.ringBuffer, frame))
  }

  /**
   * `processAudioFrame`: in manual mode while recording the frame is only recorded;
   * otherwise the energy engine classifies it (it never throws) and `Classify` follows.
   */
  function OnFrame(m: Monitor, frame: seq<int>, check: EnergyVad.ActivityCheck, energyOf: EnergyFn): (r: Monitor)
    requires Valid(m) && m.listening
    ensures Valid(r) && r.listening && r.ringBuffer == RingAfter(m.ringBuffer, frame)
  {
    var received := Receive(m, frame);
    if received.manualRecording && received.recording then
      AddFrame(received, frame)
    else
      var step := EnergyVad.Accumulate(received.vadBuffer, frame);
      var rawIsSpeaking := EnergyVad.StepVerdict(step, check, EnergyVad.DefaultThreshold);
      Classify(received.(vadBuffer := step.buffer), frame, Ok(rawIsSpeaking), energyOf(frame), energyOf)
  }

  /** The timer `resetVadTimeout` armed fires: the episode ends only if still speaking. */
  function Timeout(m: Monitor, energyOf: EnergyFn): (r: Monitor)
    requires m.timerArmed
    ensures Valid(m) ==> Valid(r)
    ensures !r.timerArmed && !r.speaking
  {
    var fired := m.(timerArmed := false);
    if fired.speaking then EndRecording(fired.(speaking := false), energyOf) else fired
  }

  /** The capture service's error listener. */
  function ReportError(m: Monitor): (r: Monitor)
    ensures r.error == Some(VoiceProcessorFailed)
    ensures r.(error := m.error) == m
  {
    m.(error := Some(VoiceProcessorFailed))
  }

  // ---------------------------------------------------------------- lifecycle

  /**
   * `startMonitoringWithVAD`. `permitted`: the permission is held or the request is granted
   * (the source then retries once); `captureStarts`: the capture service starts.
   */
  function StartWithVad(m: Monitor, permitted: bool, captureStarts: bool): (r: Monitor)
    ensures Valid(m) ==> Valid(r)
    ensures r.listening <==> m.listening || (permitted && captureStarts)
  {
    if m.listening then m
    else if !permitted then m.(error := Some(PermissionDenied))
    else if !captureStarts then m.(error := Some(VoiceProcessorFailed))
    else m.(listening := true, error := None)
  }

  /** `startMonitoringWithoutVAD`: on success recording starts at once, marked as speaking. */
  function StartWithoutVad(m: Monitor, permitted: bool, captureStarts: bool): (r: Monitor)
    ensures Valid(m) ==> Valid(r)
    ensures r.listening <==> m.listening || (permitted && captureStarts)
  {
    if m.listening then m
    else if !permitted then m.(error := Some(PermissionDenied))
    else if !captureStarts then m.(error := Some(VoiceProcessorFailed))
    else m.(currentRecording := [], recording := true, listening := true, speaking := true, error := None)
  }

  /** `startMonitoring`: the engine buffer is emptied first, whatever happens next. */
  function Start(m: Monitor, permitted: bool, captureStarts: bool): (r: Monitor)
    ensures Valid(m) ==> Valid(r)
    ensures r.listening <==> m.listening || (permitted && captureStarts)
    ensures r.vadBuffer == []
  {
    var cleared := m.(vadBuffer := []);
    if cleared.manualRecording then StartWithoutVad(cleared, permitted, captureStarts)
    else StartWithVad(cleared, permitted, captureStarts)
  }

  /** `stopMonitoringWithVAD`: the ring buffer is cleared too; the timer is cancelled either way. */
  function StopWithVad(m: Monitor, stopSucceeds: bool): (r: Monitor)
    ensures Valid(m) ==> Valid(r)
    ensures m.listening ==> !r.timerArmed
    ensures r.listening <==> m.listening && !stopSucceeds
  {
    if !m.listening then m
    else
      var stopped :=
        if stopSucceeds then ResetStateCounters(m.(listening := false, speaking := false, ringBuffer := []))
        else m.(error := Some(VoiceProcessorFailed));
      stopped.(timerArmed := false)
  }

  /** The outcome of the chunk loop of `stopMonitoringWithoutVAD`. */
  datatype Scan = Scan(buffer: seq<real>, speech: bool)

  /** Feed 1600-sample chunks from `i` on to the energy engine until one is judged speech. */
  function ScanForSpeech(buffer: seq<real>, samples: seq<int>, check: EnergyVad.ActivityCheck, i: nat): (r: Scan)
    ensures r.speech ==> i < |samples| && |buffer| + |samples| - i >= EnergyVad.FrameLength
    decreases |samples| - i
  {
    if i >= |samples| then Scan(buffer, false)
    else
      var chunk := samples[i..Min(i + EnergyVad.FrameLength, |samples|)];
      var step := EnergyVad.Accumulate(buffer, chunk);
      if EnergyVad.StepVerdict(step, check, EnergyVad.DefaultThreshold) then Scan(step.buffer, true)
      else
        var rest := ScanForSpeech(step.buffer, samples, check, i + EnergyVad.FrameLength);
        assert rest.speech ==> |step.buffer| <= |buffer| + |chunk|;
        rest
  }

  /**
   * `stopMonitoringWithoutVAD`: a non-empty recording is normalised and published only if
   * the engine hears speech in it; then capture state and counters are reset.
   */
  function StopWithoutVad(m: Monitor, stopSucceeds: bool, check: EnergyVad.ActivityCheck): (r: Monitor)
    ensures Valid(m) ==> Valid(r)
    ensures r.listening <==> m.listening && !stopSucceeds
  {
    if !m.listening then m
    else if !stopSucceeds then m.(error := Some(VoiceProcessorFailed))
    else
      var scanned :=
        if m.recording && m.currentRecording != [] then
          var normalizedRecording := Finalize.Normalized(m.currentRecording);
          var scan := ScanForSpeech(m.vadBuffer, normalizedRecording, check, 0);
          m.(vadBuffer := scan.buffer,
             recordedAudioData := if scan.speech then Some(normalizedRecording) else m.recordedAudioData)
        else m;
      ResetStateCounters(scanned.(listening := false, speaking := false, recording := false, currentRecording := []))
  }

  /** `stopMonitoring`. */
  function Stop(m: Monitor, stopSucceeds: bool, check: EnergyVad.ActivityCheck): (r: Monitor)
    ensures Valid(m) ==> Valid(r)
    ensures r.listening <==> m.listening && !stopSucceeds
  {
    if m.manualRecording then StopWithoutVad(m, stopSucceeds, check) else StopWithVad(m, stopSucceeds)
  }

  /** `toggleMonitoring`. */
  function Toggle(m: Monitor, stopSucceeds: bool, permitted: bool, captureStarts: bool,
                  check: EnergyVad.ActivityCheck): (r: Monitor)
    ensures Valid(m) ==> Valid(r)
    ensures m.listening ==> (r.listening <==> !stopSucceeds)
    ensures !m.listening ==> (r.listening <==> permitted && captureStarts)
  {
    if m.listening then Stop(m, stopSucceeds, check) else Start(m, permitted, captureStarts)
  }

  /**
   * `setVADEngine(_:)`: the argument is ignored and the engine is emptied. When listening, the
   * stop's reset of `listening` is a main-actor task that runs only after `setVADEngine`
   * returns, so the `startMonitoring()` that follows still sees `listening` true: apart from
   * its own `delete()` its guard returns at once, and capture is not restarted.
   */
  function SetVadEngine(m: Monitor, stopSucceeds: bool, check: EnergyVad.ActivityCheck): (r: Monitor)
    ensures Valid(m) ==> Valid(r)
    ensures r.vadBuffer == []
    ensures r.listening <==> m.listening && !stopSucceeds
    ensures m.listening && stopSucceeds ==> !r.speaking
  {
    if m.listening then Stop(m, stopSucceeds, check).(vadBuffer := []) else m.(vadBuffer := [])
  }

  /** `setManualRecording(_:)`. */
  function SetManualRecording(m: Monitor, isManual: bool): (r: Monitor)
    ensures r.manualRecording == isManual && r.(manualRecording := m.manualRecording) == m
  {
    m.(manualRecording := isManual)
  }
}
