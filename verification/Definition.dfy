/**
 The schema language of the repository: the Go struct `Definition` and everything it
 points to, plus `GoValue`, the dynamically typed values that generation produces.

 A nil-able Go map or slice whose nil-ness some operation changes or tests gets its own
 two-case datatype; nil pointers are `None`; floats are reals.
 */
module JsonSchema {
  import opened Wrappers

  datatype DataType =
    | Object | Number | Integer | String | Array | Null | Boolean | Map | Byte | Vector
    | OtherType(name: string)

  /** Go's `interface{}`, as far as the generator and the converters look into it. */
  datatype GoValue =
    | GoNil
    | GoBool(b: bool)
    | GoInt(i: int)
    | GoFloat(r: real)
    | GoString(s: string)
    | GoList(items: seq<GoValue>)
    | GoMap(entries: map<string, GoValue>)
    | GoOpaque(tag: string)  // any type the code has no case for

  datatype Definition = Definition(
    dataType: DataType,
    instruction: string,
    properties: Properties,
    items: Option<Definition>,
    model: string,
    processingOrder: seq<string>,
    systemPrompt: Option<string>,
    hashMap: Option<HashMap>,
    textToSpeech: Option<TextToSpeech>,
    speechToText: Option<SpeechToText>,
    image: Option<Image>,
    req: Option<RequestFormat>,
    narrowFocus: Option<Focus>,
    selectFields: seq<string>,
    sendImage: Option<SendImage>,
    stream: bool,
    overridePrompt: Option<string>,
    priority: int,
    decisionPoint: Option<DecisionPoint>,
    scoringCriteria: Option<ScoringCriteria>,
    recursiveLoop: Option<RecursiveLoop>,
    epistemic: EpistemicValidation,
    modelConfig: Option<ModelConfig>,
    structuredOutput: bool,
    responseSchema: Option<GoValue>)

  datatype Properties = NilProperties | Properties(entries: map<string, Definition>)

  datatype HashMap = HashMap(keyInstruction: string, fieldDefinition: Option<Definition>)

  datatype TextToSpeech = TextToSpeech(model: string, stringToAudio: string, voice: string, format: string)

  datatype SpeechToText = SpeechToText(
    model: string, audioToTranscribe: seq<bv8>, language: string, format: string,
    toString: bool, toCaptions: bool, chunkingStrategy: string, extraBody: Option<GoValue>)

  datatype Image = Image(model: string, size: string)

  datatype SendImage = SendImage(imagesData: seq<seq<bv8>>)

  datatype RequestFormat = RequestFormat(
    url: string, httpMethod: string, headers: map<string, string>, body: Option<map<string, GoValue>>,
    authorization: string, requireFields: seq<string>)

  datatype Focus = Focus(prompt: string, fields: seq<string>, keepOriginal: bool)

  datatype DecisionPoint = DecisionPoint(
    name: string, evaluationPrompt: string, branches: Branches, strategy: string)

  datatype Branches = NilBranches | Branches(branches: seq<ConditionalBranch>)

  datatype ConditionalBranch = ConditionalBranch(
    name: string, conditions: Conditions, logic: Option<Definition>, thenDef: Definition, priority: int)

  datatype Conditions = NilConditions | Conditions(conditions: seq<Condition>)

  datatype Condition = Condition(field: string, operator: string, value: GoValue, fieldPath: string)

  datatype ScoringCriteria = ScoringCriteria(
    dimensions: Option<map<string, ScoringDimension>>, evaluationModel: string, aggregationMethod: string)

  datatype ScoringDimension = ScoringDimension(
    description: string, scale: Option<ScoreScale>, scoreType: string, weight: real)

  datatype ScoreScale = ScoreScale(min: int, max: int)

  datatype RecursiveLoop = RecursiveLoop(
    maxIterations: int, selection: string, terminationPoint: Option<DecisionPoint>,
    feedbackPrompt: string, includePreviousAttempts: bool)

  datatype EpistemicValidation = EpistemicValidation(active: bool, judges: int)

  datatype ModelConfig = ModelConfig(
    maxCompletionTokens: int, temperature: real, topP: real, n: int, stream: bool, stop: seq<string>,
    presencePenalty: real, seed: Option<int>, frequencyPenalty: real,
    logitBias: Option<map<string, int>>, logProbs: bool, topLogProbs: int, user: string, store: bool,
    reasoningEffort: string, metadata: map<string, string>, chatTemplateKwargs: Option<map<string, GoValue>>)

  /** Go's zero value `Definition{}`. */
  const ZeroDefinition := Definition(
    OtherType(""), "", NilProperties, None, "", [], None, None, None, None, None, None, None, [], None,
    false, None, 0, None, None, None, EpistemicValidation(false, 0), None, false, None)

  /** The entries of a possibly nil map: ranging over nil visits nothing. */
  function Entries(p: Properties): map<string, Definition> {
    match p case NilProperties => map[] case Properties(m) => m
  }

  /** Indexing a Go map with a missing key gives the zero value. */
  function Property(d: Definition, key: string): Definition {
    if key in Entries(d.properties) then Entries(d.properties)[key] else ZeroDefinition
  }
}
