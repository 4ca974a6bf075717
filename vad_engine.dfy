/** What every VAD engine shares (the `VADEngine` protocol): a per-frame verdict that may fail. */
module VadEngine {
  import opened Wrappers

  /** The error an engine's `process(frame:)` throws. */
  datatype EngineError = FrameProcessingFailed

  /** What `try vadEngine.process(frame:)` yields: a speaking decision or the thrown error. */
  type Verdict = Result<bool, EngineError>
}
