# Talk: speech segmentation, VAD engines, WAV serialisation and settings validation in Dafny

Talk is an iOS voice-chat app. This project models its core in Dafny:

- **`SpeechMonitorViewModel`.** It turns the microphone's stream of 16-bit PCM frames into
  discrete utterances. The stages are:
  - a bounded pre-roll ring buffer;
  - an adaptive silence threshold;
  - an energy override of the raw VAD verdict, kept in a history of at most ten decisions;
  - a hysteresis filter;
  - the activation/termination layer of `updateVoiceState`;
  - onset seeding from the ring buffer (`findOptimalStartIndex`);
  - cross-faded frame assembly;
  - episode finalisation: trimming trailing silence and normalising levels.
- **The two VAD engines.**
  - `EnergyVADEngine` buffers samples into 1600-sample windows and asks WhisperKit's chunked
    energy check about each window.
  - `CobraVADEngine` smooths the Cobra SDK's speech probability exponentially.
- **`AudioHelper.convertToWavData`.** The canonical 44-byte RIFF/WAVE PCM header of the
  Multimedia Programming Interface and Data Specifications 1.0 (chapter 3, WAVE form, `fmt `
  chunk with WAVE_FORMAT_PCM, then the `data` chunk), followed by the samples as
  little-endian two's-complement pairs.
- **`ServicesManager`.** It validates the settings of the selected VAD, LLM,
  speech-recognition and TTS service in a fixed check order.
- **`ChatHistory.getLatestMessages`**, the suffix slice of the stored conversation.
- **`TextNormalizer`**, the clean-up a reply goes through before it is spoken.

## Structure

| module | file | models |
|---|---|---|
| `Wrappers`, `Pcm`, `VadEngine` | `wrappers.dfy`, `pcm.dfy`, `vad_engine.dfy` | `Option`/`Result`; samples, `Int16(_)` truncation, the energy function; the `VADEngine` protocol's verdict |
| `EnergyVad` | `energy_vad.dfy` | `EnergyVADEngine` as a class with a `buffer` field |
| `CobraVad` | `cobra_vad.dfy` | `CobraVADEngine` as a class with a `smoothedProbability` field |
| `Segmentation` | `segmentation.dfy` | ring buffer, threshold, enhanced decision, history, hysteresis |
| `Onset` | `onset.dfy` | `findOptimalStartIndex`: its two stride loops as methods, each proved against a recursive function |
| `Crossfade` | `crossfade.dfy` | the blend arithmetic of `addFrameToRecording` |
| `Finalize` | `finalize.dfy` | `trimTrailingSilence` and `normalizeAudioLevels`: loops proved against functions |
| `MonitorModel` | `monitor_model.dfy` | the view model's whole state as a value; one function per operation |
| `SpeechMonitor` | `speech_monitor.dfy` | `SpeechMonitorViewModel` as a class; each method's effect is given by a `MonitorModel` or `Segmentation` function; `CrossfadeInPlace` is a module-level method proved equal to `Crossfade.Fade` |
| `MonitorProperties` | `monitor_properties.dfy` | what the pipeline promises over runs of frames: onset, episode end, lifecycle |
| `Wav` | `wav.dfy` | the WAV bytes, a reader for them and the round trip |
| `ServicesManager` | `services.dfy` | the four factory validators |
| `ChatHistory` | `chat_history.dfy` | `fetchMessages`, `getLatestMessages` |
| `TextNormalizer` | `text_normalizer.dfy` | the normalisation pipeline and its passes |

### Modelling decisions

**Energy and the engines**
- `calculateEnergy` is a parameter `energyOf: seq<int> -> real`, because its float square root is not modelled.
- The view model's engine is always the energy engine. `setVADEngine(_:)` ignores its argument, and every start first calls `delete()` on the existing engine.
- The energy engine never throws. The thrown-error path of `processAudioFrame` is modelled by `Classify`, because the protocol allows an engine to throw.

**Concurrency and events**
- Most operations schedule their `Task { @MainActor }` hops last and read nothing after them. Their hops are applied at the end of the operation, so one frame is one synchronous step.
- `setVADEngine(_:)` is the exception. It stops capture and then calls `startMonitoring()` in the same main-actor job. The stop's `listening = false` hop has not run yet, so the start's `guard !listening` returns at once. `MonitorModel.SetVadEngine` keeps that order: a successful stop leaves the monitor stopped, and the restart only empties the engine (`MonitorProperties.SetVadEngineSkipsRestart`).
- The two-second timer is the field `timerArmed` plus the event `VadTimeoutFired` (`Timeout`).

**External answers become parameters**
- The microphone permission is `permitted`.
- Whether the capture service starts or stops is `captureStarts` or `stopSucceeds`.
- WhisperKit's chunk check is `check`.
- Cobra's probability is `probability`, with `None` standing for a throw.
- `URL(string:)` is `parses`.
- The regular-expression engine is `engine`.
- The Unicode emoji properties are `props`.
- The dictionary iteration order of `processTTSSpecialContent` is `order`, which may be any permutation of its table.

**Behaviour that follows from the code** (where the source's comments or constant names suggest otherwise, the model follows the code):
- **Onset takes five frames.** `minActiveFrames = 3` (Talk/ViewModels/SpeechMonitor/SpeechMonitorViewModel.swift:41-42) is compared with `activeFramesCount`. That count only grows on frames the hysteresis already calls speech. The hysteresis itself turns on at the third speech decision in a row (`recentVADHistory.suffix(minActiveFrames)`, :616-622). So from rest, five consecutive speech frames are needed to publish `speaking` (`MonitorProperties.OnsetTakesFiveFrames`).
- **An episode ends after thirty quiet frames.** `minSilentFrames = 5` (:44-45) only turns the hysteresis off (:625-631). Publishing the end needs `maxSilentFrames = 30` (:56-57), counted either by `consecutiveSilentFrames` or by `accumulatedSilentFrames`. `accumulatedSilentFrames` is reset by every frame the hysteresis still calls speech. So exactly thirty quiet frames end an episode (`MonitorProperties.EpisodeEndsAfterThirtyQuietFrames`). With the energy engine's 1600-sample frames at 16 kHz, that is 3 seconds of audio, not the 1.2 seconds the comment at :56 gives for 40 ms frames.
- **The opening frame is recorded twice.** It is already the tail of the ring buffer the recording is seeded from (:646-648, :737-758), and it is then added again (:655-657, `MonitorProperties.FifthSpeechFrameOpens`).
- **The threshold adapts to the raw verdict.** It follows the raw VAD result rather than `speaking` (:494). Its raise branch (:573-577) can take it below the 350 floor, for example to 337.765 at energy 351 (`Segmentation.RaiseBranchBelowBase`).
- **Unused fields.** `inSpeechSilenceThresholdMultiplier`, `silentFramesCount` and `lastVADResult` never influence a decision.

## Model

| member | source | states |
|---|---|---|
| Pcm.Truncate | Talk/ViewModels/SpeechMonitor/SpeechMonitorViewModel.swift:841 | `Int16(_)` of a float truncates toward zero: the result is within 1 of x and no farther from 0, for either sign |
| EnergyVad.Scale | Talk/ViewModels/SpeechMonitor/VAD/EnergyVADEngine.swift:34 | every sample becomes `sample / 32767`, same length and order |
| EnergyVad.ChunkCount | Talk/ViewModels/SpeechMonitor/VAD/EnergyVADEngine.swift:20-21 | the smallest `c` with `c * 1600 >= n`, that is `ceil(n / 1600)` |
| EnergyVad.Accumulate | Talk/ViewModels/SpeechMonitor/VAD/EnergyVADEngine.swift:33-40 | a window is taken iff at least 1600 samples are buffered; it is then exactly 1600 long, and window ++ rest equals the old buffer ++ the scaled frame; otherwise the frame is just appended |
| EnergyVad.StepVerdict | Talk/ViewModels/SpeechMonitor/VAD/EnergyVADEngine.swift:33-44 | the value `process(frame:)` returns: never true without a full 1600-sample window; `Process` answers it, and a window is taken iff 1600 samples are buffered (`Accumulate`) |
| EnergyVad.EnergyVadEngine.constructor | Talk/ViewModels/SpeechMonitor/VAD/EnergyVADEngine.swift:14-17 | the threshold is kept and the buffer starts empty |
| EnergyVad.EnergyVadEngine.Process | Talk/ViewModels/SpeechMonitor/VAD/EnergyVADEngine.swift:33-44 | with fewer than 1600 samples it buffers and answers false; otherwise it removes exactly the first 1600 and answers whether the chunk check flags any chunk of them |
| EnergyVad.EnergyVadEngine.Delete | Talk/ViewModels/SpeechMonitor/VAD/EnergyVADEngine.swift:49-51 | the buffer is empty afterwards, whatever it held, so a second call changes nothing |
| EnergyVad.OneChunkPerWindow | Talk/ViewModels/SpeechMonitor/VAD/EnergyVADEngine.swift:19-28 | a 1600-sample window is one chunk |
| EnergyVad.FeedStaysBelowWindow | Talk/ViewModels/SpeechMonitor/VAD/EnergyVADEngine.swift:33-40 | frames of at most 1600 samples keep the buffer below 1600 after every call |
| EnergyVad.FeedWholeWindows | Talk/ViewModels/SpeechMonitor/VAD/EnergyVADEngine.swift:33-40 | 1600-sample frames from an empty buffer are each analysed whole, and the buffer stays empty |
| EnergyVad.FeedPreservesOrder | Talk/ViewModels/SpeechMonitor/VAD/EnergyVADEngine.swift:35-40 | over any run of calls, the windows analysed followed by the buffer left are the scaled input in arrival order |
| CobraVad.CobraVadEngine.constructor | Talk/ViewModels/SpeechMonitor/VAD/CobraVADEngine.swift:25-31 | threshold and alpha are kept; the smoothed probability starts at 0 |
| CobraVad.CobraVadEngine.Process | Talk/ViewModels/SpeechMonitor/VAD/CobraVADEngine.swift:33-39 | a failing SDK call throws and leaves the smoothed value unchanged; otherwise the value becomes `alpha·p + (1−alpha)·previous` and the answer is whether the new value reaches the threshold |
| CobraVad.CobraVadEngine.Delete | Talk/ViewModels/SpeechMonitor/VAD/CobraVADEngine.swift:49-51 | the SDK handle is released |
| CobraVad.Smooth | Talk/ViewModels/SpeechMonitor/VAD/CobraVADEngine.swift:36 | the step moves the previous value a fraction alpha of the way to p, and alpha 1 yields p; `SmoothInUnit` keeps it in [0, 1] and `SmoothOnes` gives its rate of approach |
| CobraVad.SmoothInUnit | Talk/ViewModels/SpeechMonitor/VAD/CobraVADEngine.swift:36 | with alpha, p and the previous value in [0, 1] the smoothed value stays in [0, 1] |
| CobraVad.SmoothAllInUnit | Talk/ViewModels/SpeechMonitor/VAD/CobraVADEngine.swift:33-39 | the smoothed value stays in [0, 1] over any run of calls whose probabilities are in [0, 1] |
| CobraVad.DefaultsNeedTwoFrames | Talk/ViewModels/SpeechMonitor/VAD/CobraVADEngine.swift:27-38 | with threshold 0.6 and alpha 0.5, one certain frame from rest gives 0.5, which is not speech; two give 0.75, which is |
| CobraVad.SmoothOnes | Talk/ViewModels/SpeechMonitor/VAD/CobraVADEngine.swift:36 | after n certain frames the distance to 1 has shrunk by the factor `(1−alpha)^n` |
| Segmentation.RingAfterShape | Talk/ViewModels/SpeechMonitor/SpeechMonitorViewModel.swift:532-548 | the new buffer is a suffix of old ++ frame of length `min(|old|+|frame|, max(24000, |frame|))`, and it ends with the whole frame |
| Segmentation.RingAfter | Talk/ViewModels/SpeechMonitor/SpeechMonitorViewModel.swift:532-548 | the buffer `updateRingBuffer` leaves: ring ++ frame when that fits in 24000 samples, else 24000 samples, or the whole frame when the frame alone is longer; its content is stated by `RingAfterShape` and `RingKeepsNewest` |
| Segmentation.RingKeepsNewest | Talk/ViewModels/SpeechMonitor/SpeechMonitorViewModel.swift:532-548 | for frames of at most 24000 samples the buffer is exactly the newest `min(|old|+|frame|, 24000)` samples, so capacity is never exceeded |
| Segmentation.RingAfterAllKeepsNewest | Talk/ViewModels/SpeechMonitor/SpeechMonitorViewModel.swift:532-548 | over any run of frames the buffer holds the newest `min(total, 24000)` samples of everything fed |
| Segmentation.NextThreshold | Talk/ViewModels/SpeechMonitor/SpeechMonitorViewModel.swift:571-585 | a threshold in (0, 1500] stays in (0, 1500]; a decay step never goes below 350 and, from 350 up, never rises; the raise branch stays at most 1500 and lowers the threshold exactly when the energy is below 10/3 of it |
| Segmentation.RaiseBranchBelowBase | Talk/ViewModels/SpeechMonitor/SpeechMonitorViewModel.swift:573-577 | from 350, a speech frame of energy 351 drops the threshold to 337.765, below the floor |
| Segmentation.EnhancedDecision | Talk/ViewModels/SpeechMonitor/SpeechMonitorViewModel.swift:588-609 | speech iff raw true, or speaking with energy above 0.8·t; the silent-frame counter resets on speech and grows by one otherwise |
| Segmentation.PushHistory | Talk/ViewModels/SpeechMonitor/SpeechMonitorViewModel.swift:510-513 | the history is the newest `min(|h|+1, 10)` decisions of h ++ [d], and it ends with d |
| Segmentation.Smoothed | Talk/ViewModels/SpeechMonitor/SpeechMonitorViewModel.swift:614-635 | on a speech decision, on iff already on or the last three history entries are speech; on a silent decision, on iff on and fewer than five consecutive silent frames |
| Onset.WindowCount | Talk/ViewModels/SpeechMonitor/SpeechMonitorViewModel.swift:778-780 | the first pass visits exactly the windows 0, 160, … that have at least 53 samples in range |
| Onset.FirstActivityInSpec | Talk/ViewModels/SpeechMonitor/SpeechMonitorViewModel.swift:778-791 | the first pass finds the first window louder than 350 (a window start), with every earlier window quiet, or the buffer length if none |
| Onset.ConfirmFromSpec | Talk/ViewModels/SpeechMonitor/SpeechMonitorViewModel.swift:805-816 | the second pass finds the first 80-sample step whose window beats the adaptive threshold, with every earlier step below it, or none |
| Onset.OptimalStartBounds | Talk/ViewModels/SpeechMonitor/SpeechMonitorViewModel.swift:763-820 | the start lies in the buffer and keeps at least `min(n, 373)` samples; with no activity exactly `max(0, n−1600)`; otherwise at most 640 samples before the first loud window, every window before which is quiet |
| Onset.OptimalStart | Talk/ViewModels/SpeechMonitor/SpeechMonitorViewModel.swift:763-820 | the index `findOptimalStartIndex` returns lies inside a non-empty buffer (0 for an empty one); `OptimalStartBounds` bounds how far before the first loud window it lies |
| Onset.ScanActivity | Talk/ViewModels/SpeechMonitor/SpeechMonitorViewModel.swift:772-791 | the loop's window count, energy total and first active index are those of the recursive definitions |
| Onset.ConfirmOnset | Talk/ViewModels/SpeechMonitor/SpeechMonitorViewModel.swift:805-816 | the loop returns the confirmation point the recursive definition finds |
| Onset.FindOptimalStartIndex | Talk/ViewModels/SpeechMonitor/SpeechMonitorViewModel.swift:763-820 | the index returned is `OptimalStart`, whose properties `OptimalStartBounds` states |
| Crossfade.Overlap | Talk/ViewModels/SpeechMonitor/SpeechMonitorViewModel.swift:824-829 | at most 10 samples, no more than either frame holds, and positive iff there is a non-empty previous frame and a non-empty new one |
| Crossfade.Weight | Talk/ViewModels/SpeechMonitor/SpeechMonitorViewModel.swift:832-833 | each fade weight lies in [0, 1] |
| Crossfade.Blend | Talk/ViewModels/SpeechMonitor/SpeechMonitorViewModel.swift:830-841 | a blended sample: sample 0 is the previous sample unchanged; `BlendBetween` puts every one between the two samples it mixes |
| Crossfade.Fade | Talk/ViewModels/SpeechMonitor/SpeechMonitorViewModel.swift:830-842 | the k blended samples, exactly k of them; `FadeStartsAtPrevious` and `BlendBetween` give their values |
| Crossfade.Crossfaded | Talk/ViewModels/SpeechMonitor/SpeechMonitorViewModel.swift:823-859 | the recording after `addFrameToRecording` grows by `|frame| − k`; `CrossfadedShape`, `CrossfadedAppends` and `CrossfadedSamples` state its content |
| Crossfade.CrossfadedShape | Talk/ViewModels/SpeechMonitor/SpeechMonitorViewModel.swift:823-859 | only the last k recorded samples change; then `frame[k..]` is appended, so the length grows by `|frame| − k` |
| Crossfade.CrossfadedAppends | Talk/ViewModels/SpeechMonitor/SpeechMonitorViewModel.swift:848-855 | with no previous frame, or an empty one, the frame is appended unchanged |
| Crossfade.FadeStartsAtPrevious | Talk/ViewModels/SpeechMonitor/SpeechMonitorViewModel.swift:830-841 | the first blended sample equals the previous frame's sample exactly |
| Crossfade.FadeWeights | Talk/ViewModels/SpeechMonitor/SpeechMonitorViewModel.swift:832-833 | the weights `(k−i)/k` and `i/k` sum to 1 |
| Crossfade.BlendBetween | Talk/ViewModels/SpeechMonitor/SpeechMonitorViewModel.swift:836-841 | every blended sample lies between the two samples it mixes |
| Crossfade.CrossfadedSamples | Talk/ViewModels/SpeechMonitor/SpeechMonitorViewModel.swift:823-859 | cross-fading 16-bit audio yields 16-bit audio, so `Int16(_)` never traps there |
| Finalize.LastLoud | Talk/ViewModels/SpeechMonitor/SpeechMonitorViewModel.swift:886-897 | the backward scan finds an end-aligned window louder than the threshold, with every later window quiet, or none |
| Finalize.Trimmed | Talk/ViewModels/SpeechMonitor/SpeechMonitorViewModel.swift:862-905 | the result is always a prefix of the input |
| Finalize.TrimmedCut | Talk/ViewModels/SpeechMonitor/SpeechMonitorViewModel.swift:862-905 | at most 320 samples, or no loud window: the input itself; otherwise the cut is 800 samples after the last loud window, capped at the length, and every window after it is quiet under `clamp(0.12·avg, 250, 800)` |
| Finalize.TrimTrailingSilence | Talk/ViewModels/SpeechMonitor/SpeechMonitorViewModel.swift:862-905 | the two loops compute `Trimmed` |
| Finalize.Peak | Talk/ViewModels/SpeechMonitor/SpeechMonitorViewModel.swift:945-951 | the largest magnitude: no sample exceeds it and some sample attains it (0 when empty) |
| Finalize.Clip | Talk/ViewModels/SpeechMonitor/SpeechMonitorViewModel.swift:963 | the result lies in [−32767, 32767] and values already there are unchanged |
| Finalize.ScaleFactor | Talk/ViewModels/SpeechMonitor/SpeechMonitorViewModel.swift:955-956 | the factor `24000 / peak`, 1 for silence, is always positive |
| Finalize.Rescaled | Talk/ViewModels/SpeechMonitor/SpeechMonitorViewModel.swift:961-964 | a rescaled sample is in [−32767, 32767], so `Int16(_)` never traps, and it is `Int16(x·f)` whenever `x·f` needs no clipping |
| Finalize.Normalized | Talk/ViewModels/SpeechMonitor/SpeechMonitorViewModel.swift:941-969 | the length is preserved |
| Finalize.ScaledSample | Talk/ViewModels/SpeechMonitor/SpeechMonitorViewModel.swift:956-964 | a rescaled sample stays within ±24000, and the peak sample becomes exactly ±24000 |
| Finalize.NormalizedBounded | Talk/ViewModels/SpeechMonitor/SpeechMonitorViewModel.swift:954-966 | after rescaling every sample lies within ±24000 |
| Finalize.NormalizedPeak | Talk/ViewModels/SpeechMonitor/SpeechMonitorViewModel.swift:954-966 | a non-silent recording with peak below 100 or above 32000 is rescaled to peak exactly 24000, and all its samples are 16-bit |
| Finalize.NormalizedIdentity | Talk/ViewModels/SpeechMonitor/SpeechMonitorViewModel.swift:941-969 | a peak in [100, 32000], an empty input or all zeros is returned unchanged |
| Finalize.NormalizedIdempotent | Talk/ViewModels/SpeechMonitor/SpeechMonitorViewModel.swift:941-969 | normalising twice is normalising once |
| Finalize.NormalizeAudioLevels | Talk/ViewModels/SpeechMonitor/SpeechMonitorViewModel.swift:941-969 | the peak loop and the map compute `Normalized` |
| MonitorModel.InitialValid | Talk/ViewModels/SpeechMonitor/SpeechMonitorViewModel.swift:22-147 | the initial state satisfies the invariant and is neither listening nor speaking |
| MonitorModel.ResetStateCounters | Talk/ViewModels/SpeechMonitor/SpeechMonitorViewModel.swift:972-985 | counters zero, history empty, hysteresis off, no crossfade memory, threshold back to 350; ring buffer, recording and published data untouched |
| MonitorModel.BeginRecording | Talk/ViewModels/SpeechMonitor/SpeechMonitorViewModel.swift:737-758 | recording starts as `ring[OptimalStart..]`, with the start index in `[0, |ring|]` |
| MonitorModel.ValidOverlapFits | Talk/ViewModels/SpeechMonitor/SpeechMonitorViewModel.swift:841 | in a valid state the fade never indexes before the start of the recording |
| MonitorModel.AddFrame | Talk/ViewModels/SpeechMonitor/SpeechMonitorViewModel.swift:823-859 | the frame is remembered for the next crossfade and the invariant is kept |
| MonitorModel.EndRecording | Talk/ViewModels/SpeechMonitor/SpeechMonitorViewModel.swift:909-938 | under 4800 samples the published data is untouched; otherwise it becomes `Normalized(Trimmed(rec))`; either way the recording is cleared, recording stops and the counters are reset |
| MonitorModel.VoiceState | Talk/ViewModels/SpeechMonitor/SpeechMonitorViewModel.swift:639-682 | the invariant is kept and the ring buffer and `listening` are untouched |
| MonitorModel.SpeechFrame | Talk/ViewModels/SpeechMonitor/SpeechMonitorViewModel.swift:640-659 | the speaking branch keeps the invariant, in particular the crossfade always fits after an onset |
| MonitorModel.SilenceFrame | Talk/ViewModels/SpeechMonitor/SpeechMonitorViewModel.swift:660-681 | the silent branch keeps the invariant |
| MonitorModel.SilenceDuringSpeech | Talk/ViewModels/SpeechMonitor/SpeechMonitorViewModel.swift:664-680 | recording the frame and counting it keep the invariant |
| MonitorModel.CountSilence | Talk/ViewModels/SpeechMonitor/SpeechMonitorViewModel.swift:671-679 | counting a silent frame, and ending the episode at 30, keep the invariant |
| MonitorModel.Detect | Talk/ViewModels/SpeechMonitor/SpeechMonitorViewModel.swift:493-517 | the detector pass keeps the invariant and leaves `speaking`, `listening` and the ring buffer alone |
| MonitorModel.DetectIsLocal | Talk/ViewModels/SpeechMonitor/SpeechMonitorViewModel.swift:493-517 | the detector pass changes only the threshold, the silent run, the history, the smoothed state and the raw verdict |
| MonitorModel.Classify | Talk/ViewModels/SpeechMonitor/SpeechMonitorViewModel.swift:486-527 | an engine error only records the error; otherwise the invariant is kept |
| MonitorModel.Receive | Talk/ViewModels/SpeechMonitor/SpeechMonitorViewModel.swift:469-472 | the frame counter grows by one, the ring buffer holds at least the frame, and the invariant is kept |
| MonitorModel.OnFrame | Talk/ViewModels/SpeechMonitor/SpeechMonitorViewModel.swift:468-528 | the invariant is kept, capture keeps running and the ring buffer receives the frame |
| MonitorModel.Timeout | Talk/ViewModels/SpeechMonitor/SpeechMonitorViewModel.swift:719-734 | after the timer fires it is disarmed and nobody is speaking |
| MonitorModel.ReportError | Talk/ViewModels/SpeechMonitor/SpeechMonitorViewModel.swift:151-171 | the capture error is recorded and nothing else changes |
| MonitorModel.StartWithVad | Talk/ViewModels/SpeechMonitor/SpeechMonitorViewModel.swift:252-297 | listening afterwards iff already listening or permitted and capture starts |
| MonitorModel.StartWithoutVad | Talk/ViewModels/SpeechMonitor/SpeechMonitorViewModel.swift:333-385 | listening afterwards iff already listening or permitted and capture starts |
| MonitorModel.Start | Talk/ViewModels/SpeechMonitor/SpeechMonitorViewModel.swift:229-237 | the engine buffer is emptied first, and listening follows as above |
| MonitorModel.StopWithVad | Talk/ViewModels/SpeechMonitor/SpeechMonitorViewModel.swift:301-329 | still listening iff the stop failed; the timer is cancelled either way |
| MonitorModel.ScanForSpeech | Talk/ViewModels/SpeechMonitor/SpeechMonitorViewModel.swift:404-415 | a chunk is judged speech only if one whole window has been gathered |
| MonitorModel.StopWithoutVad | Talk/ViewModels/SpeechMonitor/SpeechMonitorViewModel.swift:389-452 | still listening iff the stop failed, and the invariant is kept |
| MonitorModel.Stop | Talk/ViewModels/SpeechMonitor/SpeechMonitorViewModel.swift:242-248 | still listening iff the stop failed |
| MonitorModel.Toggle | Talk/ViewModels/SpeechMonitor/SpeechMonitorViewModel.swift:455-462 | from listening: still listening iff the stop failed; otherwise listening iff permitted and capture starts |
| MonitorModel.SetVadEngine | Talk/ViewModels/SpeechMonitor/SpeechMonitorViewModel.swift:210-224 | the engine is emptied; still listening afterwards iff it was listening and the stop failed, so a successful stop is never followed by a restart; no one is speaking after a successful stop |
| MonitorModel.SetManualRecording | Talk/ViewModels/SpeechMonitor/SpeechMonitorViewModel.swift:203-206 | only the mode flag changes |
| SpeechMonitor.SpeechMonitorViewModel.constructor | Talk/ViewModels/SpeechMonitor/SpeechMonitorViewModel.swift:22-147 | the fields start in `Initial()`, with an energy engine of threshold 0.02 and an empty buffer |
| SpeechMonitor.SpeechMonitorViewModel.SetManualRecording | Talk/ViewModels/SpeechMonitor/SpeechMonitorViewModel.swift:203-206 | the new state is `SetManualRecording(old)` |
| SpeechMonitor.SpeechMonitorViewModel.SetVadEngine | Talk/ViewModels/SpeechMonitor/SpeechMonitorViewModel.swift:210-224 | the new state is `SetVadEngine(old, …)` and the invariant is kept; the restart only empties the engine |
| SpeechMonitor.SpeechMonitorViewModel.StartMonitoring | Talk/ViewModels/SpeechMonitor/SpeechMonitorViewModel.swift:229-237 | the new state is `Start(old, …)` |
| SpeechMonitor.SpeechMonitorViewModel.StopMonitoring | Talk/ViewModels/SpeechMonitor/SpeechMonitorViewModel.swift:242-248 | the new state is `Stop(old, …)` |
| SpeechMonitor.SpeechMonitorViewModel.ToggleMonitoring | Talk/ViewModels/SpeechMonitor/SpeechMonitorViewModel.swift:455-462 | the new state is `Toggle(old, …)` |
| SpeechMonitor.SpeechMonitorViewModel.StartMonitoringWithVad | Talk/ViewModels/SpeechMonitor/SpeechMonitorViewModel.swift:252-297 | the new state is `StartWithVad(old, …)` |
| SpeechMonitor.SpeechMonitorViewModel.StopMonitoringWithVad | Talk/ViewModels/SpeechMonitor/SpeechMonitorViewModel.swift:301-329 | the new state is `StopWithVad(old, …)` |
| SpeechMonitor.SpeechMonitorViewModel.StartMonitoringWithoutVad | Talk/ViewModels/SpeechMonitor/SpeechMonitorViewModel.swift:333-385 | the new state is `StartWithoutVad(old, …)` |
| SpeechMonitor.SpeechMonitorViewModel.StopMonitoringWithoutVad | Talk/ViewModels/SpeechMonitor/SpeechMonitorViewModel.swift:389-452 | the new state is `StopWithoutVad(old, …)` |
| SpeechMonitor.SpeechMonitorViewModel.DetectSpeech | Talk/ViewModels/SpeechMonitor/SpeechMonitorViewModel.swift:404-415 | the stride loop's verdict and the engine's buffer are those of `ScanForSpeech` |
| SpeechMonitor.SpeechMonitorViewModel.ProcessAudioFrame | Talk/ViewModels/SpeechMonitor/SpeechMonitorViewModel.swift:468-528 | the new state is `OnFrame(old, …)` and the invariant is kept |
| SpeechMonitor.SpeechMonitorViewModel.DetectFrame | Talk/ViewModels/SpeechMonitor/SpeechMonitorViewModel.swift:486-521 | the engine consumes the frame and `Classify` follows with its verdict |
| SpeechMonitor.SpeechMonitorViewModel.ReceiveFrame | Talk/ViewModels/SpeechMonitor/SpeechMonitorViewModel.swift:469-472 | the new state is `Receive(old, frame)` |
| SpeechMonitor.SpeechMonitorViewModel.ClassifyFrame | Talk/ViewModels/SpeechMonitor/SpeechMonitorViewModel.swift:493-521 | the new state is `Classify(old, …)` |
| SpeechMonitor.SpeechMonitorViewModel.UpdateDetector | Talk/ViewModels/SpeechMonitor/SpeechMonitorViewModel.swift:493-517 | the new state is `Detect(old, …)` and the smoothed decision is returned |
| SpeechMonitor.SpeechMonitorViewModel.UpdateDecision | Talk/ViewModels/SpeechMonitor/SpeechMonitorViewModel.swift:493-500 | the threshold adapts first, and the enhanced decision is then taken against the new threshold |
| SpeechMonitor.SpeechMonitorViewModel.UpdateSmoothing | Talk/ViewModels/SpeechMonitor/SpeechMonitorViewModel.swift:509-517 | the decision enters the history, then the hysteresis runs on the updated history, then the raw verdict is kept |
| SpeechMonitor.SpeechMonitorViewModel.PushVadHistory | Talk/ViewModels/SpeechMonitor/SpeechMonitorViewModel.swift:510-513 | the history becomes `PushHistory(old, decision)` |
| SpeechMonitor.SpeechMonitorViewModel.UpdateRingBuffer | Talk/ViewModels/SpeechMonitor/SpeechMonitorViewModel.swift:532-548 | the ring buffer becomes `RingAfter(old, frame)` |
| SpeechMonitor.SpeechMonitorViewModel.UpdateSilenceThreshold | Talk/ViewModels/SpeechMonitor/SpeechMonitorViewModel.swift:571-585 | the threshold becomes `NextThreshold(old, …)` |
| SpeechMonitor.SpeechMonitorViewModel.DetermineEnhancedSpeakingState | Talk/ViewModels/SpeechMonitor/SpeechMonitorViewModel.swift:588-609 | the decision and the silent-frame counter are those of `EnhancedDecision` |
| SpeechMonitor.SpeechMonitorViewModel.DetermineSmoothedSpeakingState | Talk/ViewModels/SpeechMonitor/SpeechMonitorViewModel.swift:614-635 | the smoothed state becomes `Smoothed(old, …)` over the current history |
| SpeechMonitor.SpeechMonitorViewModel.UpdateVoiceState | Talk/ViewModels/SpeechMonitor/SpeechMonitorViewModel.swift:639-682 | the new state is `VoiceState(old, …)` |
| SpeechMonitor.SpeechMonitorViewModel.SpeakingFrame | Talk/ViewModels/SpeechMonitor/SpeechMonitorViewModel.swift:640-659 | the new state is `SpeechFrame(old, …)` |
| SpeechMonitor.SpeechMonitorViewModel.CountActiveFrame | Talk/ViewModels/SpeechMonitor/SpeechMonitorViewModel.swift:641-642 | a speech frame adds one to the active count and clears the accumulated silence, nothing else changes |
| SpeechMonitor.SpeechMonitorViewModel.StartSpeaking | Talk/ViewModels/SpeechMonitor/SpeechMonitorViewModel.swift:645-648 | `speaking` is published and the recording is opened as `BeginRecording` says |
| SpeechMonitor.SpeechMonitorViewModel.ClearActiveFrames | Talk/ViewModels/SpeechMonitor/SpeechMonitorViewModel.swift:661 | a silent frame clears the active count, nothing else changes |
| SpeechMonitor.SpeechMonitorViewModel.CountSilentFrame | Talk/ViewModels/SpeechMonitor/SpeechMonitorViewModel.swift:671 | a silent frame during speech adds one to the accumulated silence, nothing else changes |
| SpeechMonitor.SpeechMonitorViewModel.StopSpeaking | Talk/ViewModels/SpeechMonitor/SpeechMonitorViewModel.swift:676-678 | `speaking` is withdrawn and the recording ends as `EndRecording` says |
| SpeechMonitor.SpeechMonitorViewModel.RecordVadResult | Talk/ViewModels/SpeechMonitor/SpeechMonitorViewModel.swift:517 | the raw verdict is stored, nothing else in the detector changes |
| SpeechMonitor.SpeechMonitorViewModel.SilentFrame | Talk/ViewModels/SpeechMonitor/SpeechMonitorViewModel.swift:660-681 | the new state is `SilenceFrame(old, …)` |
| SpeechMonitor.SpeechMonitorViewModel.ContinueSilence | Talk/ViewModels/SpeechMonitor/SpeechMonitorViewModel.swift:664-680 | the new state is `SilenceDuringSpeech(old, …)` |
| SpeechMonitor.SpeechMonitorViewModel.EndIfSilentTooLong | Talk/ViewModels/SpeechMonitor/SpeechMonitorViewModel.swift:671-679 | the new state is `CountSilence(old, …)` |
| SpeechMonitor.SpeechMonitorViewModel.ResetVadTimeout | Talk/ViewModels/SpeechMonitor/SpeechMonitorViewModel.swift:719-721 | a timer is pending afterwards and nothing else changes |
| SpeechMonitor.SpeechMonitorViewModel.VadTimeoutFired | Talk/ViewModels/SpeechMonitor/SpeechMonitorViewModel.swift:721-733 | the new state is `Timeout(old, …)` |
| SpeechMonitor.SpeechMonitorViewModel.ReportVoiceProcessorError | Talk/ViewModels/SpeechMonitor/SpeechMonitorViewModel.swift:151-171 | the new state is `ReportError(old)` |
| SpeechMonitor.SpeechMonitorViewModel.BeginRecordingWithPreSpeech | Talk/ViewModels/SpeechMonitor/SpeechMonitorViewModel.swift:737-758 | the new state is `BeginRecording(old, …)` |
| SpeechMonitor.SpeechMonitorViewModel.AddFrameToRecording | Talk/ViewModels/SpeechMonitor/SpeechMonitorViewModel.swift:823-859 | the new state is `AddFrame(old, frame)` |
| SpeechMonitor.SpeechMonitorViewModel.EndRecording | Talk/ViewModels/SpeechMonitor/SpeechMonitorViewModel.swift:909-938 | the new state is `EndRecording(old, …)` |
| SpeechMonitor.SpeechMonitorViewModel.ResetStateCounters | Talk/ViewModels/SpeechMonitor/SpeechMonitorViewModel.swift:972-985 | the new state is `ResetStateCounters(old)` |
| SpeechMonitor.CrossfadeInPlace | Talk/ViewModels/SpeechMonitor/SpeechMonitorViewModel.swift:830-842 | the in-place loop leaves the recording's head and puts the k blended samples in its last k cells |
| MonitorProperties.OnFrameIsStep | Talk/ViewModels/SpeechMonitor/SpeechMonitorViewModel.swift:468-528 | outside manual recording a frame is exactly one `Step` with the energy engine's verdict |
| MonitorProperties.ManualFrameIsRecorded | Talk/ViewModels/SpeechMonitor/SpeechMonitorViewModel.swift:474-484 | in manual recording a frame is only buffered and recorded; the detector does not run |
| MonitorProperties.FailedFrameOnlyRecordsError | Talk/ViewModels/SpeechMonitor/SpeechMonitorViewModel.swift:522-527 | a throwing engine records the error, and only the counter and ring buffer have moved |
| MonitorProperties.StartIsAtRest | Talk/ViewModels/SpeechMonitor/SpeechMonitorViewModel.swift:252-297 | starting capture from an idle, stopped monitor whose detector is clear leaves it at rest |
| MonitorProperties.InitialStartIsAtRest | Talk/ViewModels/SpeechMonitor/SpeechMonitorViewModel.swift:229-237 | capture started from the initial state is at rest |
| MonitorProperties.SpeechFrameWarms | Talk/ViewModels/SpeechMonitor/SpeechMonitorViewModel.swift:614-659 | each of the first four speech frames from rest only warms up: no episode, hysteresis on from the third |
| MonitorProperties.DetectLogsSpeech | Talk/ViewModels/SpeechMonitor/SpeechMonitorViewModel.swift:509-517 | during warm-up the detector logs the speech decision and turns the hysteresis on at the third |
| MonitorProperties.VoiceStateWarms | Talk/ViewModels/SpeechMonitor/SpeechMonitorViewModel.swift:640-650 | before the onset count is reached, the voice state only counts the active frame |
| MonitorProperties.WarmSmoothed | Talk/ViewModels/SpeechMonitor/SpeechMonitorViewModel.swift:616-622 | the hysteresis turns on exactly with the third speech decision in a row |
| MonitorProperties.StepIsVoiceState | Talk/ViewModels/SpeechMonitor/SpeechMonitorViewModel.swift:516-520 | a step's voice-state update is driven by the smoothed decision the detector left |
| MonitorProperties.SpeechBelowOnset | Talk/ViewModels/SpeechMonitor/SpeechMonitorViewModel.swift:640-659 | below the onset count a speech frame only counts, with no episode opened |
| MonitorProperties.SilenceAtRest | Talk/ViewModels/SpeechMonitor/SpeechMonitorViewModel.swift:660-662 | at rest, a silent frame only restarts the onset count |
| MonitorProperties.FifthSpeechFrameOpens | Talk/ViewModels/SpeechMonitor/SpeechMonitorViewModel.swift:646-658 | the fifth speech frame publishes speaking, arms the timer and records `ring[OptimalStart..] ++ frame` |
| MonitorProperties.OnsetTakesFiveFrames | Talk/ViewModels/SpeechMonitor/SpeechMonitorViewModel.swift:614-682 | from rest, no prefix of four speech frames opens an episode, and the fifth does |
| MonitorProperties.WarmingRun | Talk/ViewModels/SpeechMonitor/SpeechMonitorViewModel.swift:614-682 | a run of fewer than five speech frames from rest stays warming |
| MonitorProperties.OnsetRun | Talk/ViewModels/SpeechMonitor/SpeechMonitorViewModel.swift:614-682 | completing five speech frames from rest opens the episode |
| MonitorProperties.OpenedEpisodeFades | Talk/ViewModels/SpeechMonitor/SpeechMonitorViewModel.swift:646-658 | the frame that opens an episode leaves it speaking with the hysteresis on |
| MonitorProperties.QuietIsSilent | Talk/ViewModels/SpeechMonitor/SpeechMonitorViewModel.swift:588-609 | a frame of energy at most 280 that the engine calls silence stays silence in the enhanced decision, whatever the threshold |
| MonitorProperties.QuietFrameFades | Talk/ViewModels/SpeechMonitor/SpeechMonitorViewModel.swift:660-681 | quiet frames 1 to 29 keep the episode open |
| MonitorProperties.ThirtiethQuietFrameEnds | Talk/ViewModels/SpeechMonitor/SpeechMonitorViewModel.swift:671-679 | the thirtieth quiet frame ends the episode and returns the detector to rest |
| MonitorProperties.SpeakingEndsOnlyOnLongSilence | Talk/ViewModels/SpeechMonitor/SpeechMonitorViewModel.swift:639-682 | while speaking, a frame ends the episode iff it is smoothed-silent and 30 consecutive or 30 accumulated silent frames are reached; otherwise nothing is published |
| MonitorProperties.FadingRun | Talk/ViewModels/SpeechMonitor/SpeechMonitorViewModel.swift:660-681 | fewer than thirty quiet frames keep the episode fading |
| MonitorProperties.EndingRun | Talk/ViewModels/SpeechMonitor/SpeechMonitorViewModel.swift:660-681 | completing thirty quiet frames ends the episode |
| MonitorProperties.EpisodeEndsAfterThirtyQuietFrames | Talk/ViewModels/SpeechMonitor/SpeechMonitorViewModel.swift:664-680 | once speaking, every prefix of fewer than thirty quiet frames keeps speaking, and thirty end it |
| MonitorProperties.NoSecondPublication | Talk/ViewModels/SpeechMonitor/SpeechMonitorViewModel.swift:724-731 | the timer still pending after the frame path ended the episode changes nothing but itself |
| MonitorProperties.TimeoutEndsOnlyWhileSpeaking | Talk/ViewModels/SpeechMonitor/SpeechMonitorViewModel.swift:724-731 | the timeout is a no-op unless speaking, and then ends the recording as `endRecording` does |
| MonitorProperties.GuardsMakeRepeatsNoOps | Talk/ViewModels/SpeechMonitor/SpeechMonitorViewModel.swift:252-394 | starting while listening and stopping while not listening change nothing, except that the engine is emptied |
| MonitorProperties.SetVadEngineSkipsRestart | Talk/ViewModels/SpeechMonitor/SpeechMonitorViewModel.swift:210-257 | while listening, `startMonitoring` only empties the engine, so a successful stop inside `setVADEngine` leaves capture stopped, whatever the permission and capture outcome; the same restart on the already-stopped state would have resumed capture |
| MonitorProperties.StopClearsRingEpisodeEndKeepsIt | Talk/ViewModels/SpeechMonitor/SpeechMonitorViewModel.swift:312-318 | a successful VAD-mode stop empties the ring buffer; an episode end keeps it |
| MonitorProperties.ManualStopPublishesOnlySpeech | Talk/ViewModels/SpeechMonitor/SpeechMonitorViewModel.swift:396-445 | a successful manual stop publishes the normalised recording, untrimmed and of any length, iff a recording is open, non-empty, and the engine judges some window of the normalised samples speech; capture, speaking and recording all end |
| Wav.LE16 | Talk/ViewModels/SpeechMonitor/SpeechMonitorViewModel.swift:989-996 | two bytes, low byte first, that read back as the value |
| Wav.LE32 | Talk/ViewModels/SpeechMonitor/SpeechMonitorViewModel.swift:989-996 | four bytes, low half first, that read back as the value |
| Wav.Ascii | Talk/Utils/AudioHelper.swift:18 | one byte per character, holding its code |
| Wav.DecodeSampleBytes | Talk/Utils/AudioHelper.swift:31 | a sample's two bytes decode back to the sample (two's complement) |
| Wav.PcmBytes | Talk/Utils/AudioHelper.swift:31 | the payload is two bytes per sample |
| Wav.PcmBytesAt | Talk/Utils/AudioHelper.swift:31 | sample k sits at offsets 2k and 2k+1 |
| Wav.PcmRoundTrip | Talk/Utils/AudioHelper.swift:31-32 | decoding the payload returns the samples |
| Wav.Header | Talk/Utils/AudioHelper.swift:12-29 | the header is 44 bytes |
| Wav.WavBytes | Talk/Utils/AudioHelper.swift:11-37 | the file is 44 + 2n bytes; `HeaderLayout` and `WavRoundTrip` state where each field lies and that the samples read back |
| Wav.ConvertToWavData | Talk/Utils/AudioHelper.swift:11-37 | the bytes built by the appends are the header followed by the payload |
| Wav.HeaderLayout | Talk/Utils/AudioHelper.swift:17-32 | length 44 + 2n; RIFF, WAVEfmt and data tags at 0, 8 and 36; chunk size 36 + 2n at 4; 16, 1, channels, rate, byte rate, block align and bits at 16 to 34; data size 2n at 40; samples from 44 |
| Wav.WavRoundTrip | Talk/Utils/AudioHelper.swift:11-37 | reading the file back gives every header field as promised and the original samples |
| ServicesManager.FirstFailure | Talk/Utils/ServicesManager.swift:28-40 | none iff every check passes; otherwise the problem of the first failing check |
| ServicesManager.CreateVADEngine | Talk/Utils/ServicesManager.swift:14-24 | energy never fails and gets threshold 0.02; Cobra with an empty key is an invalid configuration, and otherwise succeeds iff the SDK accepts the key |
| ServicesManager.CreateLLMService | Talk/Utils/ServicesManager.swift:26-53 | OpenAI: the first of empty key, empty model, empty URL, unparsable URL is reported, else it succeeds; Dify: empty key then empty URL, else it succeeds, with the URL passed iff it parses |
| ServicesManager.DifyEndpoint | Talk/Services/LLM/DefaultLLMService.swift:46-59 | no URL means Dify's default endpoint; a given URL is used as is |
| ServicesManager.DifyUnparsableURLUsesDefault | Talk/Utils/ServicesManager.swift:47-51 | a non-empty Dify URL that does not parse is accepted and talks to the default endpoint |
| ServicesManager.CreateSpeechRecognitionService | Talk/Utils/ServicesManager.swift:55-73 | whisper.cpp fails iff the URL is empty and falls back to localhost:8080/inference if it does not parse; WhisperKit fails only when its model fails to load; system recognition never fails; no other case reports an invalid configuration |
| ServicesManager.CreateTTSService | Talk/Utils/ServicesManager.swift:75-115 | Microsoft: empty key, then empty region, else key, region and voice reach the backend; OpenAI: only an empty key fails, else key, model, voice, speed and base URL reach the backend and empty instructions become nil; system never fails and passes language, voice identifier, rate, pitch and volume |
| ChatHistory.FetchMessages | Talk/Utils/ChatHistory.swift:7-15 | a failed fetch reads as the empty list |
| ChatHistory.GetLatestMessages | Talk/Utils/ChatHistory.swift:47-51 | the last `min(count, n)` fetched messages, contiguous and in order; empty for count 0; everything for count ≥ n; empty on a failed fetch |
| ChatHistory.LatestKeepsOrder | Talk/Utils/ChatHistory.swift:47-51 | the result keeps the timestamp order of the fetch |
| ChatHistory.LatestAreNewest | Talk/Utils/ChatHistory.swift:47-51 | every message returned is at least as new as every one left out |
| ChatHistory.LatestOfLatest | Talk/Utils/ChatHistory.swift:47-51 | the latest a of the latest b are the latest `min(a, b)` |
| TextNormalizer.IsEmojiCharacterization | Talk/Utils/TextNormalizer.swift:96-106 | a character is an emoji iff its first scalar is Emoji and it is Emoji_Presentation itself, or, with more than one scalar, a later scalar is |
| TextNormalizer.IsEmoji | Talk/Utils/TextNormalizer.swift:96-106 | only a character whose first scalar has the Emoji property is an emoji; `IsEmojiCharacterization` gives the full iff |
| TextNormalizer.WithoutEmojis | Talk/Utils/TextNormalizer.swift:27-37 | no longer than the input, and every character kept is a non-emoji of the input |
| TextNormalizer.RemoveUnicodeEmojis | Talk/Utils/TextNormalizer.swift:27-37 | the loop computes `WithoutEmojis` |
| TextNormalizer.WithoutEmojisAppend | Talk/Utils/TextNormalizer.swift:27-37 | filtering distributes over concatenation, so kept characters keep their order |
| TextNormalizer.WithoutEmojisCounts | Talk/Utils/TextNormalizer.swift:27-37 | each non-emoji character is kept as often as it occurs, each emoji never |
| TextNormalizer.WithoutEmojisIdentity | Talk/Utils/TextNormalizer.swift:27-37 | emoji-free text is unchanged |
| TextNormalizer.WithoutEmojisIdempotent | Talk/Utils/TextNormalizer.swift:27-37 | filtering twice is filtering once |
| TextNormalizer.ReplaceText | Talk/Utils/TextNormalizer.swift:39-46 | a pattern that does not compile leaves the text unchanged |
| TextNormalizer.RemoveEmojiTags | Talk/Utils/TextNormalizer.swift:18-25 | a pattern that does not compile leaves the text unchanged |
| TextNormalizer.ApplyRules | Talk/Utils/TextNormalizer.swift:48-73 | if no rule compiles, the text is unchanged |
| TextNormalizer.RemoveMarkdown | Talk/Utils/TextNormalizer.swift:48-73 | if none of the nine patterns compiles, the text is unchanged |
| TextNormalizer.StripTags | Talk/Utils/TextNormalizer.swift:78 | no longer than the input, made only of input characters, and a first character other than `<` survives |
| TextNormalizer.StripTagsLeavesNoTag | Talk/Utils/TextNormalizer.swift:78 | no match of `<[^>]+>` survives the tag pass |
| TextNormalizer.StripTagsIdentity | Talk/Utils/TextNormalizer.swift:78 | tag-free text is unchanged |
| TextNormalizer.StripTagsIdempotent | Talk/Utils/TextNormalizer.swift:78 | the tag pass twice is the tag pass once |
| TextNormalizer.ReplaceAll | Talk/Utils/TextNormalizer.swift:89 | only input or replacement characters appear, and a key that cannot occur leaves the text unchanged |
| TextNormalizer.ReplaceAllKeepsNoTag | Talk/Utils/TextNormalizer.swift:88-90 | replacing with keys and replacements free of `<` and `>` keeps text tag-free |
| TextNormalizer.SpecialCharsSafe | Talk/Utils/TextNormalizer.swift:80-86 | every key of the table starts with `&` or a backslash, and no entry holds `<` or `>` |
| TextNormalizer.TableOrderSafe | Talk/Utils/TextNormalizer.swift:80-88 | every iteration order of the table has only such entries |
| TextNormalizer.ReplaceEachKeepsNoTag | Talk/Utils/TextNormalizer.swift:88-90 | the replacements, in any order, keep text tag-free |
| TextNormalizer.ReplaceEachIdentity | Talk/Utils/TextNormalizer.swift:88-90 | text without `&` or a backslash is unchanged by the replacements |
| TextNormalizer.SpecialContent | Talk/Utils/TextNormalizer.swift:75-93 | the result contains no tag, whatever the iteration order |
| TextNormalizer.SpecialContentIdentity | Talk/Utils/TextNormalizer.swift:75-93 | plain text is spoken as written, in any iteration order |
| TextNormalizer.ProcessTTSSpecialContent | Talk/Utils/TextNormalizer.swift:75-93 | the tag pass and the replacement loop compute `SpecialContent` |
| TextNormalizer.Normalized | Talk/Utils/TextNormalizer.swift:4-16 | the result of the four passes contains no tag |
| TextNormalizer.NormalizedWithoutRegex | Talk/Utils/TextNormalizer.swift:4-16 | with no compilable pattern, normalising drops the emoji characters and then applies the tag and entity pass |
| TextNormalizer.Normalize | Talk/Utils/TextNormalizer.swift:4-16 | the four passes run in order: emoji tags, emoji characters, markdown, special content |

## Left out

- `calculateEnergy` (SpeechMonitorViewModel.swift:551-568) is a parameter. Its float square root and weighting are not modelled, and neither is any IEEE rounding.
  - Every `Float` becomes an exact `real`.
  - `Int16(_)` truncates toward zero and does not trap on values the model proves in range.
- Volume publishing (`setupVolumeDebounce`, `updateVoiceVolume`, SpeechMonitorViewModel.swift:174-187, 685-716): its Combine throttle, `Date()`, `pow` and `sqrt` are timing and float numerics.
- Logging, and the `print` in `convertToWavData`, have no effect on state.
- The microphone permission request, `VoiceProcessor` start and stop, and the frame and error listeners (SpeechMonitorViewModel.swift:151-171, 259-296) are I/O. Their outcomes are the parameters `permitted`, `captureStarts` and `stopSucceeds`.
  - A permission granted on request is modelled as the retried start succeeding or failing as `captureStarts` says.
  - `deinit` (190-197) only stops capture.
- Concurrency: the `Task { @MainActor }` hops are applied at the end of the operation that schedules them. `setVADEngine` is the exception; it is modelled in the deferred order. The interleavings the hops allow between the capture thread and the main actor are not modelled. The `Timer`'s two-second delay is not modelled. Its firing is the event `VadTimeoutFired`, allowed whenever a timer is pending.
- The Cobra SDK (`Cobra(accessKey:)`, `cobra.process(pcm:)`, `Cobra.frameLength`, `Cobra.sampleRate`) is foreign code. Its probability is the `Option<real>` parameter of `CobraVad.CobraVadEngine.Process`, and its acceptance of a key is the `cobraAccepts` parameter.
- WhisperKit's `AudioProcessor.calculateVoiceActivityInChunks` and the `VoiceActivityDetector` base class are foreign code. The chunk check is the `check` parameter.
- `frameLength` and `sampleRate` of the energy engine (EnergyVADEngine.swift:46-47) are the constants `FrameLength` and `SampleRate`. They carry no contract; their use is in `EnergyVad.Accumulate` and `EnergyVad.OneChunkPerWindow`.
- `NSRegularExpression` is modelled in two ways:
  - The `<[^>]+>` pattern of `processTTSSpecialContent` is given concrete semantics (`StripTags`), over characters rather than code points (see the `TextNormalizer.StripTags` line below).
  - The emoji-tag and markdown patterns are an abstract engine (`compiles`, `replaceMatches`). Their matching is not modelled.
- The Unicode Emoji and Emoji_Presentation property tables are the `props` parameter, and grapheme segmentation is taken as given: text is a sequence of characters, each a sequence of scalars.
- TextNormalizer.StripTags: finds `<` and `>` only as characters of one scalar. `NSRegularExpression` matches code points, so a `<` or `>` followed by a combining mark (one Swift character, such as `>` + U+0301) still delimits a tag in the source. In the model it does not, and such a tag is left in place. `NoTag`, `SpecialContent` and `Normalized` read tags the same way, so their no-tag guarantees are about one-scalar delimiters only. The reason is that the model keeps the character structure the emoji pass needs instead of re-segmenting the scalar stream after the tag pass.
- `URL(string:)` is the `parses` parameter.
- The backend factories (`LLMServiceFactory`, `SpeechRecognitionServiceFactory`, `TTSServiceFactory`) are modelled only as the backend and arguments chosen. The exception is Dify's default endpoint (`DifyEndpoint`). WhisperKit model loading is the `whisperKitLoads` parameter.
- `ChatHistory.addMessage` and `clearAllMessages` (ChatHistory.swift:17-45) are SwiftData persistence side effects. The store's fetch is the `Option<seq<ChatMessage>>` parameter of `FetchMessages`.
- `ChatHistory.GetLatestMessages`: requires `count >= 0`, because a negative count makes the slice start past the end of the list, and that traps.
- `Wav.ConvertToWavData`: requires the sizes and rates to fit their UInt32/UInt16 fields (`Representable`), because Swift's checked arithmetic traps otherwise. Byte order is little-endian, as `Data(from:)` produces on the app's targets.
- `MonitorModel.StartWithVad`: `error = nil` on success is modelled; the `NSError` contents are reduced to the `MonitorError` kind.
- `SpeechMonitor.SpeechMonitorViewModel.ProcessAudioFrame`: requires `listening`, because the capture service delivers frames only while it runs.
- `MonitorProperties.EpisodeEndsAfterThirtyQuietFrames`: is stated for frames that the engine calls silence and whose energy is at most 280, so that the enhanced decision calls them silent whatever the threshold is. With louder frames, how long an episode lasts depends on the adaptive threshold.
