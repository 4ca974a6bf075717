/**
 * `ServicesManager`: from the selected service and its settings, either the backend
 * to construct or `invalidConfiguration`. The checks of each service run in a fixed
 * order and the first that fails is reported.
 */
module ServicesManager {
  import opened Wrappers

  /** Which check refused the settings (one per `invalidConfiguration` message). */
  datatype Problem =
    | CobraAccessKeyMissing
    | OpenAIKeyMissing | OpenAIModelMissing | OpenAIBaseURLMissing | OpenAIBaseURLInvalid
    | DifyKeyMissing | DifyBaseURLMissing
    | WhisperCppServerURLMissing
    | MicrosoftKeyMissing | MicrosoftRegionMissing
    | OpenAITTSKeyMissing

  datatype ServiceError =
    | InvalidConfiguration(problem: Problem)
    /** A backend's own constructor threw (Cobra SDK, WhisperKit model loading). */
    | ConstructionFailed

  /** `URL(string:)` succeeds on the string. Foundation's URL parser is external. */
  type UrlParser = string -> bool

  const DifyDefaultBaseURL: string := "https://api.dify.ai/v1"
  const WhisperCppFallbackURL: string := "http://localhost:8080/inference"

  datatype VadService = Energy | Cobra
  datatype LlmService = OpenAI | Dify
  datatype SpeechService = WhisperKit | WhisperCpp | SystemSpeech
  datatype TtsService = Microsoft | OpenAITTS | SystemTTS

  datatype CobraSettings = CobraSettings(accessKey: string)
  datatype OpenAILLMSettings = OpenAILLMSettings(apiKey: string, baseURL: string, model: string)
  datatype DifySettings = DifySettings(apiKey: string, baseURL: string)
  datatype WhisperCppSettings = WhisperCppSettings(serverURL: string)
  datatype WhisperKitSettings = WhisperKitSettings(modelName: string)
  datatype AppleSpeechSettings = AppleSpeechSettings(language: string)
  datatype MicrosoftTTSSettings = MicrosoftTTSSettings(subscriptionKey: string, region: string, voiceName: string)
  datatype OpenAITTSSettings = OpenAITTSSettings(apiKey: string, model: string, voice: string, speed: real,
                                                 instructions: string, baseURL: string)
  datatype SystemTTSSettings = SystemTTSSettings(voiceIdentifier: string, language: string,
                                                 rate: real, pitch: real, volume: real)

  /** The backends the factories are asked for, with the arguments they receive. */
  datatype VadEngineChoice = CobraEngine(accessKey: string, threshold: real, alpha: real) | EnergyEngine(threshold: real)
  datatype LlmBackend = OpenAIBackend(apiKey: string, baseURL: string) | DifyBackend(apiKey: string, difyURL: Option<string>)
  datatype SpeechBackend = WhisperCppBackend(serverURL: string) | WhisperKitBackend(modelName: string) | AppleSpeechBackend(language: string)
  datatype TtsBackend =
    | MicrosoftBackend(subscriptionKey: string, region: string, voiceName: string)
    | OpenAITTSBackend(apiKey: string, model: string, voice: string, speed: real, instructions: Option<string>, baseURL: string)
    | AVSpeechBackend(language: string, voiceIdentifier: string, rate: real, pitch: real, volume: real)

  /** A check in a validation sequence: whether it passes, and what is reported if not. */
  datatype Check = Check(passes: bool, problem: Problem)

  /** The reference reading of a fixed check order: the problem of the first failing check. */
  function FirstFailure(checks: seq<Check>): (r: Option<Problem>)
    ensures r.None? <==> forall i :: 0 <= i < |checks| ==> checks[i].passes
    ensures r.Some? ==> exists i :: 0 <= i < |checks| && !checks[i].passes && checks[i].problem == r.value &&
                          forall j :: 0 <= j < i ==> checks[j].passes
    decreases |checks|
  {
    if checks == [] then None
    else if !checks[0].passes then Some(checks[0].problem)
    else
      var rest := FirstFailure(checks[1..]);
      assert forall i :: 1 <= i < |checks| ==> checks[i] == checks[1..][i - 1];
      rest
  }

  /** `createVADEngin`; `cobraAccepts` says whether `Cobra(accessKey:)` succeeds. */
  function CreateVADEngine(selected: VadService, cobra: CobraSettings, cobraAccepts: string -> bool)
    : (r: Result<VadEngineChoice, ServiceError>)
    ensures selected == Energy ==> r == Ok(EnergyEngine(0.02))
    ensures selected == Cobra ==>
      (r.Ok? <==> cobra.accessKey != "" && cobraAccepts(cobra.accessKey)) &&
      (cobra.accessKey == "" ==> r == Err(InvalidConfiguration(CobraAccessKeyMissing))) &&
      (r.Ok? ==> r.value == CobraEngine(cobra.accessKey, 0.6, 0.5))
  {
    match selected
    case Cobra =>
      if cobra.accessKey == "" then Err(InvalidConfiguration(CobraAccessKeyMissing))
      else if !cobraAccepts(cobra.accessKey) then Err(ConstructionFailed)
      else Ok(CobraEngine(cobra.accessKey, 0.6, 0.5))
    case Energy => Ok(EnergyEngine(0.02))
  }

  function OpenAIChecks(s: OpenAILLMSettings, parses: UrlParser): seq<Check> {
    [Check(s.apiKey != "", OpenAIKeyMissing), Check(s.model != "", OpenAIModelMissing),
     Check(s.baseURL != "", OpenAIBaseURLMissing), Check(parses(s.baseURL), OpenAIBaseURLInvalid)]
  }

  function DifyChecks(s: DifySettings): seq<Check> {
    [Check(s.apiKey != "", DifyKeyMissing), Check(s.baseURL != "", DifyBaseURLMissing)]
  }

  /** `createLLMService`. */
  function CreateLLMService(selected: LlmService, openAI: OpenAILLMSettings, dify: DifySettings, parses: UrlParser)
    : (r: Result<LlmBackend, ServiceError>)
    ensures selected == OpenAI ==>
      (r.Ok? <==> FirstFailure(OpenAIChecks(openAI, parses)).None?) &&
      (r.Err? ==> r.error == InvalidConfiguration(FirstFailure(OpenAIChecks(openAI, parses)).value)) &&
      (r.Ok? ==> r.value == OpenAIBackend(openAI.apiKey, openAI.baseURL))
    ensures selected == Dify ==>
      (r.Ok? <==> FirstFailure(DifyChecks(dify)).None?) &&
      (r.Err? ==> r.error == InvalidConfiguration(FirstFailure(DifyChecks(dify)).value)) &&
      (r.Ok? ==> r.value.DifyBackend? && r.value.apiKey == dify.apiKey &&
                 (r.value.difyURL == Some(dify.baseURL) <==> parses(dify.baseURL)) &&
                 (r.value.difyURL.None? <==> !parses(dify.baseURL)))
  {
    match selected
    case OpenAI =>
      var checks := OpenAIChecks(openAI, parses);
      assert FirstFailure(checks[2..]) == (if !checks[2].passes then Some(checks[2].problem)
                                           else FirstFailure(checks[3..]));
      if openAI.apiKey == "" then Err(InvalidConfiguration(OpenAIKeyMissing))
      else if openAI.model == "" then Err(InvalidConfiguration(OpenAIModelMissing))
      else if openAI.baseURL == "" then Err(InvalidConfiguration(OpenAIBaseURLMissing))
      else if !parses(openAI.baseURL) then Err(InvalidConfiguration(OpenAIBaseURLInvalid))
      else Ok(OpenAIBackend(openAI.apiKey, openAI.baseURL))
    case Dify =>
      if dify.apiKey == "" then Err(InvalidConfiguration(DifyKeyMissing))
      else if dify.baseURL == "" then Err(InvalidConfiguration(DifyBaseURLMissing))
      else
        var baseURL: Option<string> := if dify.baseURL == "" then None
                                        else if parses(dify.baseURL) then Some(dify.baseURL) else None;
        Ok(DifyBackend(dify.apiKey, baseURL))
  }

  /** `LLMServiceFactory.createDifyService`: a missing URL selects Dify's default endpoint. */
  function DifyEndpoint(baseURL: Option<string>): (url: string)
    ensures baseURL.None? ==> url == DifyDefaultBaseURL
    ensures baseURL.Some? ==> url == baseURL.value
  {
    match baseURL
    case Some(u) => u
    case None => DifyDefaultBaseURL
  }

  /** A non-empty Dify URL that does not parse is accepted and talks to the default endpoint. */
  lemma DifyUnparsableURLUsesDefault(dify: DifySettings, parses: UrlParser, openAI: OpenAILLMSettings)
    requires dify.apiKey != "" && dify.baseURL != "" && !parses(dify.baseURL)
    ensures var r := CreateLLMService(Dify, openAI, dify, parses);
      r.Ok? && DifyEndpoint(r.value.difyURL) == DifyDefaultBaseURL
  {
  }

  /**
   * `createSpeechRecognitionService`; `whisperKitLoads` says whether loading the
   * WhisperKit model named in the settings succeeds.
   */
  function CreateSpeechRecognitionService(selected: SpeechService, whisperCpp: WhisperCppSettings,
                                          whisperKit: WhisperKitSettings, apple: AppleSpeechSettings,
                                          parses: UrlParser, whisperKitLoads: string -> bool)
    : (r: Result<SpeechBackend, ServiceError>)
    ensures selected == WhisperCpp ==>
      (r.Err? <==> whisperCpp.serverURL == "") &&
      (r.Err? ==> r.error == InvalidConfiguration(WhisperCppServerURLMissing)) &&
      (r.Ok? ==> r.value == WhisperCppBackend(if parses(whisperCpp.serverURL) then whisperCpp.serverURL
                                                else WhisperCppFallbackURL))
    ensures selected == WhisperKit ==>
      r == (if whisperKitLoads(whisperKit.modelName) then Ok(WhisperKitBackend(whisperKit.modelName))
            else Err(ConstructionFailed))
    ensures selected == SystemSpeech ==> r == Ok(AppleSpeechBackend(apple.language))
    ensures r.Err? && r.error.InvalidConfiguration? ==> selected == WhisperCpp
  {
    match selected
    case WhisperCpp =>
      if whisperCpp.serverURL == "" then Err(InvalidConfiguration(WhisperCppServerURLMissing))
      else
        var serverURL := if parses(whisperCpp.serverURL) then whisperCpp.serverURL else WhisperCppFallbackURL;
        Ok(WhisperCppBackend(serverURL))
    case WhisperKit =>
      if whisperKitLoads(whisperKit.modelName) then Ok(WhisperKitBackend(whisperKit.modelName))
      else Err(ConstructionFailed)
    case SystemSpeech => Ok(AppleSpeechBackend(apple.language))
  }

  function MicrosoftChecks(s: MicrosoftTTSSettings): seq<Check> {
    [Check(s.subscriptionKey != "", MicrosoftKeyMissing), Check(s.region != "", MicrosoftRegionMissing)]
  }

  /** `createTTSService`. */
  function CreateTTSService(selected: TtsService, microsoft: MicrosoftTTSSettings,
                            openAI: OpenAITTSSettings, system: SystemTTSSettings)
    : (r: Result<TtsBackend, ServiceError>)
    ensures selected == Microsoft ==>
      (r.Ok? <==> FirstFailure(MicrosoftChecks(microsoft)).None?) &&
      (r.Err? ==> r.error == InvalidConfiguration(FirstFailure(MicrosoftChecks(microsoft)).value)) &&
      (r.Ok? ==> r.value == MicrosoftBackend(microsoft.subscriptionKey, microsoft.region, microsoft.voiceName))
    ensures selected == OpenAITTS ==>
      (r.Err? <==> openAI.apiKey == "") &&
      (r.Err? ==> r.error == InvalidConfiguration(OpenAITTSKeyMissing)) &&
      (r.Ok? ==> r.value.OpenAITTSBackend? && r.value.apiKey == openAI.apiKey &&
                 r.value.model == openAI.model && r.value.voice == openAI.voice &&
                 r.value.speed == openAI.speed && r.value.baseURL == openAI.baseURL &&
                 (r.value.instructions.None? <==> openAI.instructions == "") &&
                 (r.value.instructions.Some? ==> r.value.instructions.value == openAI.instructions))
    ensures selected == SystemTTS ==>
      r.Ok? && r.value.AVSpeechBackend? &&
      r.value.language == system.language && r.value.voiceIdentifier == system.voiceIdentifier &&
      r.value.rate == system.rate && r.value.pitch == system.pitch && r.value.volume == system.volume
  {
    match selected
    case Microsoft =>
      if microsoft.subscriptionKey == "" then Err(InvalidConfiguration(MicrosoftKeyMissing))
      else if microsoft.region == "" then Err(InvalidConfiguration(MicrosoftRegionMissing))
      else Ok(MicrosoftBackend(microsoft.subscriptionKey, microsoft.region, microsoft.voiceName))
    case OpenAITTS =>
      if openAI.apiKey == "" then Err(InvalidConfiguration(OpenAITTSKeyMissing))
      else Ok(OpenAITTSBackend(openAI.apiKey, openAI.model, openAI.voice, openAI.speed,
                               if openAI.instructions == "" then None else Some(openAI.instructions),
                               openAI.baseURL))
    case SystemTTS =>
      Ok(AVSpeechBackend(system.language, system.voiceIdentifier, system.rate, system.pitch, system.volume))
  }
}
