/**
 The converters between the schema model and the protobuf messages. Converting a definition
 to protobuf and back does not give it back; it gives `Normalise` of it, which the
 lemmas pin down: the round trip is exactly that function, and everything that comes out of
 a protobuf message is a fixed point of it.

 How Go prints a value (`%v`) is the parameter `show`. Slices and maps of messages contain no
 nil message; the optional `then` of a branch may be missing, and the code needs it.
 */
module Converters {
  import opened Wrappers
  import opened JsonSchema

  // ---------- Protobuf messages ----------

  type Int32 = x: int | -0x8000_0000 <= x < 0x8000_0000

  datatype PbDefinition = PbDefinition(
    dataType: DataType, instruction: string, properties: map<string, PbDefinition>, items: Option<PbDefinition>,
    model: string, processingOrder: seq<string>, systemPrompt: string, hashMap: Option<PbHashMap>,
    textToSpeech: Option<TextToSpeech>, speechToText: Option<PbSpeechToText>, image: Option<Image>,
    req: Option<PbRequestFormat>, narrowFocus: Option<Focus>, selectFields: seq<string>, sendImage: Option<SendImage>,
    stream: bool, overridePrompt: string, priority: int, decisionPoint: Option<PbDecisionPoint>,
    scoringCriteria: Option<PbScoringCriteria>, recursiveLoop: Option<PbRecursiveLoop>,
    epistemic: Option<PbEpistemic>, modelConfig: Option<PbModelConfig>,
    structuredOutput: bool, responseSchema: Option<PbStruct>)

  datatype PbHashMap = PbHashMap(keyInstruction: string, fieldDefinition: Option<PbDefinition>)

  datatype PbSpeechToText = PbSpeechToText(
    model: string, audioToTranscribe: seq<bv8>, language: string, format: string,
    toString: bool, toCaptions: bool, chunkingStrategy: string, extraBody: Option<PbStruct>)

  datatype PbRequestFormat = PbRequestFormat(
    url: string, httpMethod: string, headers: map<string, string>, body: Option<PbStruct>,
    authorization: string, requireFields: seq<string>)

  datatype PbDecisionPoint = PbDecisionPoint(
    name: string, evaluationPrompt: string, branches: seq<PbBranch>, strategy: string)

  datatype PbBranch = PbBranch(
    name: string, conditions: seq<PbCondition>, logic: Option<PbDefinition>, thenDef: Option<PbDefinition>,
    priority: Int32)

  datatype PbConditionValue = NoValue | NumberValue(r: real) | StringValue(s: string) | BoolValue(b: bool)

  datatype PbCondition = PbCondition(field: string, operator: string, value: PbConditionValue, fieldPath: string)

  datatype PbScoringCriteria = PbScoringCriteria(
    dimensions: map<string, PbScoringDimension>, evaluationModel: string, aggregationMethod: string)

  datatype PbScoringDimension = PbScoringDimension(
    description: string, scale: Option<PbScoreScale>, scoreType: string, weight: real)

  datatype PbScoreScale = PbScoreScale(min: Int32, max: Int32)

  datatype PbRecursiveLoop = PbRecursiveLoop(
    maxIterations: Int32, selection: string, terminationPoint: Option<PbDecisionPoint>,
    feedbackPrompt: string, includePreviousAttempts: bool)

  datatype PbEpistemic = PbEpistemic(active: bool, judges: Int32)

  datatype PbModelConfig = PbModelConfig(
    maxCompletionTokens: Int32, temperature: real, topP: real, n: Int32, stream: bool, stop: seq<string>,
    presencePenalty: real, seed: Int32, frequencyPenalty: real, logitBias: map<string, Int32>,
    logProbs: bool, topLogProbs: Int32, user: string, store: bool, reasoningEffort: string,
    metadata: map<string, string>, chatTemplateKwargs: Option<PbStruct>)

  /** `google.protobuf.Value` and `google.protobuf.Struct` */
  datatype PbValue =
    | PbNull | PbBool(b: bool) | PbNumber(r: real) | PbString(s: string)
    | PbList(items: seq<PbValue>) | PbStructValue(entries: map<string, PbValue>)

  type PbStruct = map<string, PbValue>

  // ---------- Integers, prompts and dynamic values ----------

  /** Go's `int32(x)` */
  function Wrap32(x: int): (r: Int32)
    ensures -0x8000_0000 <= x < 0x8000_0000 ==> r == x
    ensures (r - x) % 0x1_0000_0000 == 0
  {
    (x + 0x8000_0000) % 0x1_0000_0000 - 0x8000_0000
  }

  function PromptOf(p: Option<string>): string {
    if p.Some? then p.value else ""
  }

  function GetStringPointer(s: string): Option<string> {
    if s == "" then None else Some(s)
  }

  /** Whether `structpb.NewValue` accepts a value. */
  predicate Storable(v: GoValue) {
    match v
    case GoOpaque(_) => false
    case GoList(items) => forall x :: x in items ==> Storable(x)
    case GoMap(entries) => forall k :: k in entries ==> Storable(entries[k])
    case _ => true
  }

  function NewValue(v: GoValue): PbValue
    requires Storable(v)
  {
    match v
    case GoNil => PbNull
    case GoBool(b) => PbBool(b)
    case GoInt(i) => PbNumber(i as real)
    case GoFloat(r) => PbNumber(r)
    case GoString(s) => PbString(s)
    case GoList(items) => PbList(seq(|items|, i requires 0 <= i < |items| => NewValue(items[i])))
    case GoMap(entries) => PbStructValue(map k | k in entries :: NewValue(entries[k]))
  }

  function AsInterface(v: PbValue): GoValue {
    match v
    case PbNull => GoNil
    case PbBool(b) => GoBool(b)
    case PbNumber(r) => GoFloat(r)
    case PbString(s) => GoString(s)
    case PbList(items) => GoList(seq(|items|, i requires 0 <= i < |items| => AsInterface(items[i])))
    case PbStructValue(entries) => GoMap(map k | k in entries :: AsInterface(entries[k]))
  }

  /** `structpb.NewStruct`; the missing result is an error. */
  function NewStruct(m: map<string, GoValue>): Option<PbStruct> {
    if forall k :: k in m ==> Storable(m[k]) then Some(map k | k in m :: NewValue(m[k])) else None
  }

  /** A missing struct reads as an empty one. */
  function AsMap(s: Option<PbStruct>): map<string, GoValue> {
    if s.None? then map[] else map k | k in s.value :: AsInterface(s.value[k])
  }

  /** Integers become floats, at every depth. */
  function Widened(v: GoValue): GoValue {
    match v
    case GoInt(i) => GoFloat(i as real)
    case GoList(items) => GoList(seq(|items|, i requires 0 <= i < |items| => Widened(items[i])))
    case GoMap(entries) => GoMap(map k | k in entries :: Widened(entries[k]))
    case _ => v
  }

  function WidenedMap(m: map<string, GoValue>): map<string, GoValue> {
    map k | k in m :: Widened(m[k])
  }

  predicate StorableMap(m: map<string, GoValue>) {
    forall k :: k in m ==> Storable(m[k])
  }

  lemma {:induction false} ValueRoundTrip(v: GoValue)
    requires Storable(v)
    ensures AsInterface(NewValue(v)) == Widened(v)
  {
    match v
    case GoList(items) => forall i | 0 <= i < |items| ensures AsInterface(NewValue(items[i])) == Widened(items[i]) {
      ValueRoundTrip(items[i]);
    }
    case GoMap(entries) => forall k | k in entries ensures AsInterface(NewValue(entries[k])) == Widened(entries[k]) {
      ValueRoundTrip(entries[k]);
    }
    case _ =>
  }

  lemma {:induction false} ValueIsWide(v: PbValue)
    ensures Storable(AsInterface(v)) && Widened(AsInterface(v)) == AsInterface(v)
  {
    match v
    case PbList(items) =>
      forall i | 0 <= i < |items|
        ensures Storable(AsInterface(items[i])) && Widened(AsInterface(items[i])) == AsInterface(items[i])
      {
        ValueIsWide(items[i]);
      }
    case PbStructValue(entries) =>
      forall k | k in entries
        ensures Storable(AsInterface(entries[k])) && Widened(AsInterface(entries[k])) == AsInterface(entries[k])
      {
        ValueIsWide(entries[k]);
      }
    case _ =>
  }

  lemma StructRoundTrip(m: map<string, GoValue>)
    ensures AsMap(NewStruct(m)) == if StorableMap(m) then WidenedMap(m) else map[]
  {
    if StorableMap(m) {
      forall k | k in m ensures AsInterface(NewValue(m[k])) == Widened(m[k]) { ValueRoundTrip(m[k]); }
    }
  }

  lemma StructIsWide(s: Option<PbStruct>)
    ensures StorableMap(AsMap(s)) && WidenedMap(AsMap(s)) == AsMap(s)
  {
    if s.Some? {
      forall k | k in s.value
        ensures Storable(AsInterface(s.value[k])) && Widened(AsInterface(s.value[k])) == AsInterface(s.value[k])
      {
        ValueIsWide(s.value[k]);
      }
    }
  }

  // ---------- Parts without definitions in them ----------

  function SpeechToPb(s: SpeechToText): PbSpeechToText {
    PbSpeechToText(s.model, s.audioToTranscribe, s.language, s.format, s.toString, s.toCaptions, "", None)
  }

  function SpeechToModel(s: PbSpeechToText): SpeechToText {
    SpeechToText(s.model, s.audioToTranscribe, s.language, s.format, s.toString, s.toCaptions, "", None)
  }

  function ReqToPb(r: RequestFormat): PbRequestFormat {
    PbRequestFormat(r.url, r.httpMethod, r.headers, NewStruct(if r.body.Some? then r.body.value else map[]),
                    r.authorization, r.requireFields)
  }

  function ReqToModel(r: PbRequestFormat): RequestFormat {
    RequestFormat(r.url, r.httpMethod, r.headers, Some(AsMap(r.body)), r.authorization, r.requireFields)
  }

  function ConditionToPb(c: Condition, show: GoValue -> string): PbCondition {
    var value := match c.value
      case GoNil => NoValue
      case GoFloat(r) => NumberValue(r)
      case GoInt(i) => NumberValue(i as real)
      case GoString(s) => StringValue(s)
      case GoBool(b) => BoolValue(b)
      case other => StringValue(show(other));
    PbCondition(c.field, c.operator, value, c.fieldPath)
  }

  function ConditionToModel(c: PbCondition): Condition {
    var value := match c.value
      case NoValue => GoNil
      case NumberValue(r) => GoFloat(r)
      case StringValue(s) => GoString(s)
      case BoolValue(b) => GoBool(b);
    Condition(c.field, c.operator, value, c.fieldPath)
  }

  function DimensionToPb(d: ScoringDimension): PbScoringDimension {
    PbScoringDimension(d.description,
                       if d.scale.None? then None
                       else Some(PbScoreScale(Wrap32(d.scale.value.min), Wrap32(d.scale.value.max))),
                       d.scoreType, d.weight)
  }

  function DimensionToModel(d: PbScoringDimension): ScoringDimension {
    ScoringDimension(d.description,
                     if d.scale.None? then None else Some(ScoreScale(d.scale.value.min, d.scale.value.max)),
                     d.scoreType, d.weight)
  }

  function ScoringToPb(s: ScoringCriteria): PbScoringCriteria {
    PbScoringCriteria(if s.dimensions.None? then map[]
                      else map k | k in s.dimensions.value :: DimensionToPb(s.dimensions.value[k]),
                      s.evaluationModel, s.aggregationMethod)
  }

  function ScoringToModel(s: PbScoringCriteria): ScoringCriteria {
    ScoringCriteria(Some(map k | k in s.dimensions :: DimensionToModel(s.dimensions[k])), s.evaluationModel,
        s.aggregationMethod)
  }

  function ConfigToPb(c: ModelConfig): PbModelConfig {
    PbModelConfig(
      Wrap32(c.maxCompletionTokens), c.temperature, c.topP, Wrap32(c.n), c.stream, c.stop, c.presencePenalty,
      if c.seed.Some? then Wrap32(c.seed.value) else 0, c.frequencyPenalty,
      if c.logitBias.None? then map[] else map k | k in c.logitBias.value :: Wrap32(c.logitBias.value[k]),
      c.logProbs, Wrap32(c.topLogProbs), c.user, c.store, c.reasoningEffort, c.metadata,
      if c.chatTemplateKwargs.None? then None else NewStruct(c.chatTemplateKwargs.value))
  }

  function ConfigToModel(c: PbModelConfig): ModelConfig {
    ModelConfig(
      c.maxCompletionTokens, c.temperature, c.topP, c.n, c.stream, c.stop, c.presencePenalty,
      if c.seed == 0 then None else Some(c.seed), c.frequencyPenalty,
      Some(map k | k in c.logitBias :: c.logitBias[k]),
      c.logProbs, c.topLogProbs, c.user, c.store, c.reasoningEffort, c.metadata,
      if c.chatTemplateKwargs.None? then None else Some(AsMap(c.chatTemplateKwargs)))
  }

  /** A nil pointer converts to nil. */
  function IfPresent<T, U>(o: Option<T>, f: T -> U): Option<U> {
    match o case None => None case Some(x) => Some(f(x))
  }

  // ---------- Definitions to protobuf ----------

  function ToPb(m: Definition, show: GoValue -> string): PbDefinition
    decreases m, 1
  {
    PbWith(m, PropertiesToPb(m, show), OptionalToPb(m.items, show), HashMapToPb(m.hashMap, show),
           PointToPb(m.decisionPoint, show), LoopToPb(m.recursiveLoop, show))
  }

  /** The message for `m` with its nested definitions already converted. */
  function PbWith(m: Definition, properties: map<string, PbDefinition>, items: Option<PbDefinition>,
                  hashMap: Option<PbHashMap>, point: Option<PbDecisionPoint>,
                  loop: Option<PbRecursiveLoop>): PbDefinition {
    PbDefinition(
      m.dataType, m.instruction, properties, items, m.model, m.processingOrder, PromptOf(m.systemPrompt), hashMap,
      m.textToSpeech, IfPresent(m.speechToText, SpeechToPb), m.image, IfPresent(m.req, ReqToPb), m.narrowFocus,
      m.selectFields, m.sendImage, m.stream, PromptOf(m.overridePrompt), m.priority, point,
      IfPresent(m.scoringCriteria, ScoringToPb), loop,
      Some(PbEpistemic(m.epistemic.active, Wrap32(m.epistemic.judges))),
      IfPresent(m.modelConfig, ConfigToPb), false, None)
  }

  function PropertiesToPb(m: Definition, show: GoValue -> string): map<string, PbDefinition>
    decreases m, 0
  {
    if m.properties.NilProperties? then map[]
    else map k | k in m.properties.entries :: ToPb(m.properties.entries[k], show)
  }

  function OptionalToPb(o: Option<Definition>, show: GoValue -> string): Option<PbDefinition>
    decreases o, 0
  {
    if o.None? then None else Some(ToPb(o.value, show))
  }

  function HashMapToPb(h: Option<HashMap>, show: GoValue -> string): Option<PbHashMap>
    decreases h, 0
  {
    if h.None? then None
    else Some(PbHashMap(h.value.keyInstruction, OptionalToPb(h.value.fieldDefinition, show)))
  }

  function PointToPb(p: Option<DecisionPoint>, show: GoValue -> string): Option<PbDecisionPoint>
    decreases p, 0
  {
    if p.None? then None
    else Some(PbDecisionPoint(p.value.name, p.value.evaluationPrompt, BranchesToPb(p.value.branches, show),
        p.value.strategy))
  }

  function BranchesToPb(bs: Branches, show: GoValue -> string): seq<PbBranch>
    decreases bs, 0
  {
    if bs.NilBranches? then []
    else seq(|bs.branches|, i requires 0 <= i < |bs.branches| => BranchToPb(bs.branches[i], show))
  }

  function BranchToPb(b: ConditionalBranch, show: GoValue -> string): PbBranch
    decreases b, 0
  {
    PbBranch(b.name, ConditionsToPb(b.conditions, show), OptionalToPb(b.logic, show), Some(ToPb(b.thenDef, show)),
             Wrap32(b.priority))
  }

  function ConditionsToPb(cs: Conditions, show: GoValue -> string): seq<PbCondition> {
    if cs.NilConditions? then []
    else seq(|cs.conditions|, i requires 0 <= i < |cs.conditions| => ConditionToPb(cs.conditions[i], show))
  }

  function LoopToPb(l: Option<RecursiveLoop>, show: GoValue -> string): Option<PbRecursiveLoop>
    decreases l, 0
  {
    if l.None? then None
    else Some(PbRecursiveLoop(Wrap32(l.value.maxIterations), l.value.selection,
                              PointToPb(l.value.terminationPoint, show),
                              l.value.feedbackPrompt, l.value.includePreviousAttempts))
  }

  // ---------- Protobuf to definitions ----------

  /** Every branch of every decision point has its `then`; the code dereferences it. */
  predicate HasThens(p: PbDefinition)
    decreases p, 1
  {
    && PropertiesHaveThens(p) && OptionalHasThens(p.items) && HashMapHasThens(p.hashMap)
    && PointHasThens(p.decisionPoint) && LoopHasThens(p.recursiveLoop)
  }

  predicate PropertiesHaveThens(p: PbDefinition)
    decreases p, 0
  {
    forall k :: k in p.properties ==> HasThens(p.properties[k])
  }

  predicate OptionalHasThens(o: Option<PbDefinition>)
    decreases o, 0
  {
    o.None? || HasThens(o.value)
  }

  predicate HashMapHasThens(h: Option<PbHashMap>)
    decreases h, 0
  {
    h.None? || OptionalHasThens(h.value.fieldDefinition)
  }

  predicate PointHasThens(p: Option<PbDecisionPoint>)
    decreases p, 0
  {
    p.None? || forall b :: b in p.value.branches ==> BranchHasThens(b)
  }

  predicate BranchHasThens(b: PbBranch)
    decreases b, 0
  {
    OptionalHasThens(b.logic) && b.thenDef.Some? && HasThens(b.thenDef.value)
  }

  predicate LoopHasThens(l: Option<PbRecursiveLoop>)
    decreases l, 0
  {
    l.None? || PointHasThens(l.value.terminationPoint)
  }

  function ToModel(p: PbDefinition): Definition
    requires HasThens(p)
    decreases p, 1
  {
    ModelWith(p, PropertiesToModel(p), OptionalToModel(p.items), HashMapToModel(p.hashMap),
              PointToModel(p.decisionPoint), LoopToModel(p.recursiveLoop))
  }

  function ModelWith(p: PbDefinition, properties: Properties, items: Option<Definition>, hashMap: Option<HashMap>,
                     point: Option<DecisionPoint>, loop: Option<RecursiveLoop>): Definition {
    Definition(
      p.dataType, p.instruction, properties, items, p.model, p.processingOrder, GetStringPointer(p.systemPrompt),
      hashMap,
      p.textToSpeech, IfPresent(p.speechToText, SpeechToModel), p.image, IfPresent(p.req, ReqToModel), p.narrowFocus,
      p.selectFields, p.sendImage, p.stream, GetStringPointer(p.overridePrompt), p.priority, point,
      IfPresent(p.scoringCriteria, ScoringToModel), loop, EpistemicToModel(p.epistemic),
      IfPresent(p.modelConfig, ConfigToModel), false, None)
  }

  function PropertiesToModel(p: PbDefinition): Properties
    requires PropertiesHaveThens(p)
    decreases p, 0
  {
    Properties(map k | k in p.properties :: ToModel(p.properties[k]))
  }

  function OptionalToModel(o: Option<PbDefinition>): Option<Definition>
    requires OptionalHasThens(o)
    decreases o, 0
  {
    if o.None? then None else Some(ToModel(o.value))
  }

  function HashMapToModel(h: Option<PbHashMap>): Option<HashMap>
    requires HashMapHasThens(h)
    decreases h, 0
  {
    if h.None? then None else Some(HashMap(h.value.keyInstruction, OptionalToModel(h.value.fieldDefinition)))
  }

  function PointToModel(p: Option<PbDecisionPoint>): Option<DecisionPoint>
    requires PointHasThens(p)
    decreases p, 0
  {
    if p.None? then None
    else
      var bs := p.value.branches;
      Some(DecisionPoint(p.value.name, p.value.evaluationPrompt,
                         Branches(seq(|bs|, i requires 0 <= i < |bs| => BranchToModel(bs[i]))), p.value.strategy))
  }

  function BranchToModel(b: PbBranch): ConditionalBranch
    requires BranchHasThens(b)
    decreases b, 0
  {
    ConditionalBranch(b.name, ConditionsToModel(b.conditions), OptionalToModel(b.logic), ToModel(b.thenDef.value),
        b.priority)
  }

  function ConditionsToModel(cs: seq<PbCondition>): Conditions {
    Conditions(seq(|cs|, i requires 0 <= i < |cs| => ConditionToModel(cs[i])))
  }

  function LoopToModel(l: Option<PbRecursiveLoop>): Option<RecursiveLoop>
    requires LoopHasThens(l)
    decreases l, 0
  {
    if l.None? then None
    else Some(RecursiveLoop(l.value.maxIterations, l.value.selection, PointToModel(l.value.terminationPoint),
                            l.value.feedbackPrompt, l.value.includePreviousAttempts))
  }

  function EpistemicToModel(e: Option<PbEpistemic>): EpistemicValidation {
    if e.None? then EpistemicValidation(false, 0) else EpistemicValidation(e.value.active, e.value.judges)
  }

  // ---------- The normal form ----------

  /** What a struct field keeps: widened numbers, or nothing if some value cannot be stored. */
  function NormalBody(b: Option<map<string, GoValue>>): Option<map<string, GoValue>> {
    Some(if b.Some? && StorableMap(b.value) then WidenedMap(b.value) else map[])
  }

  function NormalSpeech(s: SpeechToText): SpeechToText {
    s.(chunkingStrategy := "", extraBody := None)
  }

  function NormalReq(r: RequestFormat): RequestFormat {
    r.(body := NormalBody(r.body))
  }

  /** Integers widen, other dynamic values turn into text. */
  function NormalCondition(c: Condition, show: GoValue -> string): Condition {
    match c.value
    case GoInt(i) => c.(value := GoFloat(i as real))
    case GoList(_) => c.(value := GoString(show(c.value)))
    case GoMap(_) => c.(value := GoString(show(c.value)))
    case GoOpaque(_) => c.(value := GoString(show(c.value)))
    case _ => c
  }

  function NormalDimension(d: ScoringDimension): ScoringDimension {
    if d.scale.None? then d else d.(scale := Some(ScoreScale(Wrap32(d.scale.value.min), Wrap32(d.scale.value.max))))
  }

  function NormalScoring(s: ScoringCriteria): ScoringCriteria {
    s.(dimensions := Some(if s.dimensions.None? then map[] else
                            map k | k in s.dimensions.value :: NormalDimension(s.dimensions.value[k])))
  }

  function NormalSeed(s: Option<int>): Option<int> {
    if s.None? || Wrap32(s.value) == 0 then None else Some(Wrap32(s.value))
  }

  function NormalConfig(c: ModelConfig): ModelConfig {
    c.(maxCompletionTokens := Wrap32(c.maxCompletionTokens), n := Wrap32(c.n), topLogProbs := Wrap32(c.topLogProbs),
       seed := NormalSeed(c.seed),
       logitBias := Some(if c.logitBias.None? then map[]
                         else map k | k in c.logitBias.value :: Wrap32(c.logitBias.value[k])),
       chatTemplateKwargs :=
         if c.chatTemplateKwargs.None? || !StorableMap(c.chatTemplateKwargs.value) then None
         else Some(WidenedMap(c.chatTemplateKwargs.value)))
  }

  function NormalPrompt(p: Option<string>): Option<string> {
    if p == Some("") then None else p
  }

  function Normalise(m: Definition, show: GoValue -> string): Definition
    decreases m, 1
  {
    NormalWith(m, NormalProperties(m, show), NormalOptional(m.items, show), NormalHashMap(m.hashMap, show),
               NormalPoint(m.decisionPoint, show), NormalLoop(m.recursiveLoop, show))
  }

  function NormalWith(m: Definition, properties: Properties, items: Option<Definition>, hashMap: Option<HashMap>,
                      point: Option<DecisionPoint>, loop: Option<RecursiveLoop>): Definition {
    m.(
      properties := properties, items := items, hashMap := hashMap, decisionPoint := point, recursiveLoop := loop,
      systemPrompt := NormalPrompt(m.systemPrompt), overridePrompt := NormalPrompt(m.overridePrompt),
      speechToText := IfPresent(m.speechToText, NormalSpeech), req := IfPresent(m.req, NormalReq),
      scoringCriteria := IfPresent(m.scoringCriteria, NormalScoring),
      epistemic := m.epistemic.(judges := Wrap32(m.epistemic.judges)),
      modelConfig := IfPresent(m.modelConfig, NormalConfig),
      structuredOutput := false, responseSchema := None)
  }

  function NormalProperties(m: Definition, show: GoValue -> string): Properties
    decreases m, 0
  {
    Properties(if m.properties.NilProperties? then map[]
               else map k | k in m.properties.entries :: Normalise(m.properties.entries[k], show))
  }

  function NormalOptional(o: Option<Definition>, show: GoValue -> string): Option<Definition>
    decreases o, 0
  {
    if o.None? then None else Some(Normalise(o.value, show))
  }

  function NormalHashMap(h: Option<HashMap>, show: GoValue -> string): Option<HashMap>
    decreases h, 0
  {
    if h.None? then None else Some(h.value.(fieldDefinition := NormalOptional(h.value.fieldDefinition, show)))
  }

  function NormalPoint(p: Option<DecisionPoint>, show: GoValue -> string): Option<DecisionPoint>
    decreases p, 0
  {
    if p.None? then None else Some(p.value.(branches := NormalBranches(p.value.branches, show)))
  }

  function NormalBranches(bs: Branches, show: GoValue -> string): Branches
    decreases bs, 0
  {
    Branches(if bs.NilBranches? then []
             else seq(|bs.branches|, i requires 0 <= i < |bs.branches| => NormalBranch(bs.branches[i], show)))
  }

  function NormalBranch(b: ConditionalBranch, show: GoValue -> string): ConditionalBranch
    decreases b, 0
  {
    b.(conditions := NormalConditions(b.conditions, show), logic := NormalOptional(b.logic, show),
       thenDef := Normalise(b.thenDef, show), priority := Wrap32(b.priority))
  }

  function NormalConditions(cs: Conditions, show: GoValue -> string): Conditions {
    if cs.NilConditions? then Conditions([]) else
      var n := |cs.conditions|;
      Conditions(seq(n, i requires 0 <= i < n => NormalCondition(cs.conditions[i], show)))
  }

  function NormalLoop(l: Option<RecursiveLoop>, show: GoValue -> string): Option<RecursiveLoop>
    decreases l, 0
  {
    if l.None? then None
    else Some(l.value.(maxIterations := Wrap32(l.value.maxIterations),
                       terminationPoint := NormalPoint(l.value.terminationPoint, show)))
  }

  // ---------- The round trip is the normal form ----------

  lemma ReqRoundTrip(r: Option<RequestFormat>)
    ensures IfPresent(IfPresent(r, ReqToPb), ReqToModel) == IfPresent(r, NormalReq)
  {
    if r.Some? { StructRoundTrip(if r.value.body.Some? then r.value.body.value else map[]); }
  }

  lemma ScoringRoundTrip(s: Option<ScoringCriteria>)
    ensures IfPresent(IfPresent(s, ScoringToPb), ScoringToModel) == IfPresent(s, NormalScoring)
  {
    if s.Some? && s.value.dimensions.Some? {
      var d, pb := s.value.dimensions.value, ScoringToPb(s.value).dimensions;
      assert forall k :: k in d ==> DimensionToModel(pb[k]) == NormalDimension(d[k]);
      assert ScoringToModel(ScoringToPb(s.value)).dimensions.value == NormalScoring(s.value).dimensions.value;
    }
  }

  lemma ConfigRoundTrip(c: Option<ModelConfig>)
    ensures IfPresent(IfPresent(c, ConfigToPb), ConfigToModel) == IfPresent(c, NormalConfig)
  {
    if c.Some? {
      if c.value.chatTemplateKwargs.Some? { StructRoundTrip(c.value.chatTemplateKwargs.value); }
      assert ConfigToModel(ConfigToPb(c.value)).logitBias.value == NormalConfig(c.value).logitBias.value;
    }
  }

  lemma SpeechRoundTrip(s: Option<SpeechToText>)
    ensures IfPresent(IfPresent(s, SpeechToPb), SpeechToModel) == IfPresent(s, NormalSpeech)
  {
  }

  lemma ConditionsRoundTrip(cs: Conditions, show: GoValue -> string)
    ensures ConditionsToModel(ConditionsToPb(cs, show)) == NormalConditions(cs, show)
  {
    if cs.Conditions? {
      var c, pb := cs.conditions, ConditionsToPb(cs, show);
      assert forall i :: 0 <= i < |c| ==> ConditionToModel(pb[i]) == NormalCondition(c[i], show);
      assert ConditionsToModel(pb).conditions == NormalConditions(cs, show).conditions;
    }
  }

  lemma {:induction false} RoundTrip(m: Definition, show: GoValue -> string)
    ensures HasThens(ToPb(m, show))
    ensures ToModel(ToPb(m, show)) == Normalise(m, show)
    decreases m, 1
  {
    PropertiesRoundTrip(m, show);
    OptionalRoundTrip(m.items, show);
    HashMapRoundTrip(m.hashMap, show);
    PointRoundTrip(m.decisionPoint, show);
    LoopRoundTrip(m.recursiveLoop, show);
    FieldsRoundTrip(m, PropertiesToPb(m, show), OptionalToPb(m.items, show), HashMapToPb(m.hashMap, show),
                    PointToPb(m.decisionPoint, show), LoopToPb(m.recursiveLoop, show),
                    NormalProperties(m, show), NormalOptional(m.items, show), NormalHashMap(m.hashMap, show),
                    NormalPoint(m.decisionPoint, show), NormalLoop(m.recursiveLoop, show));
  }

  /** Apart from the nested definitions, field by field. */
  lemma FieldsRoundTrip(m: Definition, a: map<string, PbDefinition>, b: Option<PbDefinition>, c: Option<PbHashMap>,
                        d: Option<PbDecisionPoint>, e: Option<PbRecursiveLoop>, properties: Properties,
                        items: Option<Definition>, hashMap: Option<HashMap>, point: Option<DecisionPoint>,
                        loop: Option<RecursiveLoop>)
    ensures ModelWith(PbWith(m, a, b, c, d, e), properties, items, hashMap, point, loop)
         == NormalWith(m, properties, items, hashMap, point, loop)
  {
    ReqRoundTrip(m.req);
    ScoringRoundTrip(m.scoringCriteria);
    ConfigRoundTrip(m.modelConfig);
    SpeechRoundTrip(m.speechToText);
  }

  lemma {:induction false} PropertiesRoundTrip(m: Definition, show: GoValue -> string)
    ensures PropertiesHaveThens(ToPb(m, show))
    ensures PropertiesToModel(ToPb(m, show)) == NormalProperties(m, show)
    decreases m, 0
  {
    if m.properties.Properties? {
      var e := m.properties.entries;
      forall k | k in e ensures HasThens(ToPb(e[k], show)) && ToModel(ToPb(e[k], show)) == Normalise(e[k], show) {
        RoundTrip(e[k], show);
      }
      PropertiesFollow(ToPb(m, show), m, show);
    }
  }

  lemma PropertiesFollow(pb: PbDefinition, m: Definition, show: GoValue -> string)
    requires m.properties.Properties? && pb.properties == PropertiesToPb(m, show)
    requires var e := m.properties.entries;
             forall k :: k in e ==> HasThens(ToPb(e[k], show)) && ToModel(ToPb(e[k], show)) == Normalise(e[k], show)
    ensures PropertiesHaveThens(pb)
    ensures PropertiesToModel(pb) == NormalProperties(m, show)
  {
    var e := m.properties.entries;
    assert forall k :: k in pb.properties ==> k in e && pb.properties[k] == ToPb(e[k], show);
    assert PropertiesToModel(pb).entries == NormalProperties(m, show).entries;
  }

  lemma {:induction false} OptionalRoundTrip(o: Option<Definition>, show: GoValue -> string)
    ensures OptionalHasThens(OptionalToPb(o, show))
    ensures OptionalToModel(OptionalToPb(o, show)) == NormalOptional(o, show)
    decreases o, 0
  {
    if o.Some? { RoundTrip(o.value, show); }
  }

  lemma {:induction false} HashMapRoundTrip(h: Option<HashMap>, show: GoValue -> string)
    ensures HashMapHasThens(HashMapToPb(h, show))
    ensures HashMapToModel(HashMapToPb(h, show)) == NormalHashMap(h, show)
    decreases h, 0
  {
    if h.Some? { OptionalRoundTrip(h.value.fieldDefinition, show); }
  }

  lemma {:induction false} PointRoundTrip(p: Option<DecisionPoint>, show: GoValue -> string)
    ensures PointHasThens(PointToPb(p, show))
    ensures PointToModel(PointToPb(p, show)) == NormalPoint(p, show)
    decreases p, 0
  {
    if p.Some? {
      BranchesRoundTrip(p.value.branches, show);
      assert PointToModel(PointToPb(p, show)).value.branches.branches ==
             NormalBranches(p.value.branches, show).branches;
    }
  }

  lemma {:induction false} BranchesRoundTrip(bs: Branches, show: GoValue -> string)
    ensures var pb := BranchesToPb(bs, show);
            && |pb| == |NormalBranches(bs, show).branches|
            && forall i :: 0 <= i < |pb| ==>
                 BranchHasThens(pb[i]) && BranchToModel(pb[i]) == NormalBranches(bs, show).branches[i]
    decreases bs, 0
  {
    if bs.Branches? {
      forall i | 0 <= i < |bs.branches|
        ensures BranchHasThens(BranchToPb(bs.branches[i], show))
        ensures BranchToModel(BranchToPb(bs.branches[i], show)) == NormalBranch(bs.branches[i], show)
      {
        BranchRoundTrip(bs.branches[i], show);
      }
    }
  }

  lemma {:induction false} BranchRoundTrip(b: ConditionalBranch, show: GoValue -> string)
    ensures BranchHasThens(BranchToPb(b, show))
    ensures BranchToModel(BranchToPb(b, show)) == NormalBranch(b, show)
    decreases b, 0
  {
    OptionalRoundTrip(b.logic, show);
    RoundTrip(b.thenDef, show);
    ConditionsRoundTrip(b.conditions, show);
  }

  lemma {:induction false} LoopRoundTrip(l: Option<RecursiveLoop>, show: GoValue -> string)
    ensures LoopHasThens(LoopToPb(l, show))
    ensures LoopToModel(LoopToPb(l, show)) == NormalLoop(l, show)
    decreases l, 0
  {
    if l.Some? { PointRoundTrip(l.value.terminationPoint, show); }
  }

  // ---------- What comes from protobuf is in normal form ----------

  lemma ReqIsNormal(r: Option<PbRequestFormat>)
    ensures IfPresent(IfPresent(r, ReqToModel), NormalReq) == IfPresent(r, ReqToModel)
  {
    if r.Some? { StructIsWide(r.value.body); }
  }

  lemma ScoringIsNormal(s: Option<PbScoringCriteria>)
    ensures IfPresent(IfPresent(s, ScoringToModel), NormalScoring) == IfPresent(s, ScoringToModel)
  {
    if s.Some? {
      var d := s.value.dimensions;
      assert forall k :: k in d ==> NormalDimension(DimensionToModel(d[k])) == DimensionToModel(d[k]);
      assert NormalScoring(ScoringToModel(s.value)).dimensions.value == ScoringToModel(s.value).dimensions.value;
    }
  }

  lemma ConfigIsNormal(c: Option<PbModelConfig>)
    ensures IfPresent(IfPresent(c, ConfigToModel), NormalConfig) == IfPresent(c, ConfigToModel)
  {
    if c.Some? {
      StructIsWide(c.value.chatTemplateKwargs);
      assert NormalConfig(ConfigToModel(c.value)).logitBias.value == ConfigToModel(c.value).logitBias.value;
    }
  }

  lemma SpeechIsNormal(s: Option<PbSpeechToText>)
    ensures IfPresent(IfPresent(s, SpeechToModel), NormalSpeech) == IfPresent(s, SpeechToModel)
  {
  }

  lemma ConditionsAreNormal(cs: seq<PbCondition>, show: GoValue -> string)
    ensures NormalConditions(ConditionsToModel(cs), show) == ConditionsToModel(cs)
  {
    assert forall i :: 0 <= i < |cs| ==> NormalCondition(ConditionToModel(cs[i]), show) == ConditionToModel(cs[i]);
    assert NormalConditions(ConditionsToModel(cs), show).conditions == ConditionsToModel(cs).conditions;
  }

  lemma {:induction false} ComesNormal(p: PbDefinition, show: GoValue -> string)
    requires HasThens(p)
    ensures Normalise(ToModel(p), show) == ToModel(p)
    decreases p, 1
  {
    PropertiesComeNormal(p, show);
    OptionalComesNormal(p.items, show);
    HashMapComesNormal(p.hashMap, show);
    PointComesNormal(p.decisionPoint, show);
    LoopComesNormal(p.recursiveLoop, show);
    FieldsComeNormal(p, PropertiesToModel(p), OptionalToModel(p.items), HashMapToModel(p.hashMap),
                     PointToModel(p.decisionPoint), LoopToModel(p.recursiveLoop));
  }

  lemma FieldsComeNormal(p: PbDefinition, properties: Properties, items: Option<Definition>, hashMap: Option<HashMap>,
                         point: Option<DecisionPoint>, loop: Option<RecursiveLoop>)
    ensures var m := ModelWith(p, properties, items, hashMap, point, loop);
            NormalWith(m, properties, items, hashMap, point, loop) == m
  {
    ReqIsNormal(p.req);
    ScoringIsNormal(p.scoringCriteria);
    ConfigIsNormal(p.modelConfig);
    SpeechIsNormal(p.speechToText);
  }

  lemma {:induction false} PropertiesComeNormal(p: PbDefinition, show: GoValue -> string)
    requires HasThens(p)
    ensures NormalProperties(ToModel(p), show) == PropertiesToModel(p)
    decreases p, 0
  {
    forall k | k in p.properties ensures Normalise(ToModel(p.properties[k]), show) == ToModel(p.properties[k]) {
      ComesNormal(p.properties[k], show);
    }
    PropertiesStay(ToModel(p), p, show);
  }

  lemma PropertiesStay(m: Definition, p: PbDefinition, show: GoValue -> string)
    requires PropertiesHaveThens(p) && m.properties == PropertiesToModel(p)
    requires forall k :: k in p.properties ==> Normalise(ToModel(p.properties[k]), show) == ToModel(p.properties[k])
    ensures NormalProperties(m, show) == m.properties
  {
    assert NormalProperties(m, show).entries == m.properties.entries;
  }

  lemma {:induction false} OptionalComesNormal(o: Option<PbDefinition>, show: GoValue -> string)
    requires OptionalHasThens(o)
    ensures NormalOptional(OptionalToModel(o), show) == OptionalToModel(o)
    decreases o, 0
  {
    if o.Some? { ComesNormal(o.value, show); }
  }

  lemma {:induction false} HashMapComesNormal(h: Option<PbHashMap>, show: GoValue -> string)
    requires HashMapHasThens(h)
    ensures NormalHashMap(HashMapToModel(h), show) == HashMapToModel(h)
    decreases h, 0
  {
    if h.Some? { OptionalComesNormal(h.value.fieldDefinition, show); }
  }

  lemma {:induction false} PointComesNormal(p: Option<PbDecisionPoint>, show: GoValue -> string)
    requires PointHasThens(p)
    ensures NormalPoint(PointToModel(p), show) == PointToModel(p)
    decreases p, 0
  {
    if p.Some? {
      var bs := p.value.branches;
      forall i | 0 <= i < |bs| ensures NormalBranch(BranchToModel(bs[i]), show) == BranchToModel(bs[i]) {
        BranchComesNormal(bs[i], show);
      }
      var q := PointToModel(p).value.branches;
      assert NormalBranches(q, show).branches == q.branches;
    }
  }

  lemma {:induction false} BranchComesNormal(b: PbBranch, show: GoValue -> string)
    requires BranchHasThens(b)
    ensures NormalBranch(BranchToModel(b), show) == BranchToModel(b)
    decreases b, 0
  {
    OptionalComesNormal(b.logic, show);
    ComesNormal(b.thenDef.value, show);
    ConditionsAreNormal(b.conditions, show);
  }

  lemma {:induction false} LoopComesNormal(l: Option<PbRecursiveLoop>, show: GoValue -> string)
    requires LoopHasThens(l)
    ensures NormalLoop(LoopToModel(l), show) == LoopToModel(l)
    decreases l, 0
  {
    if l.Some? { PointComesNormal(l.value.terminationPoint, show); }
  }

  /** Normalising twice is normalising once. */
  lemma NormaliseIdempotent(m: Definition, show: GoValue -> string)
    ensures Normalise(Normalise(m, show), show) == Normalise(m, show)
  {
    RoundTrip(m, show);
    ComesNormal(ToPb(m, show), show);
  }

  /** From protobuf, a second round trip changes nothing. */
  lemma SecondTripIsStable(p: PbDefinition, show: GoValue -> string)
    requires HasThens(p)
    ensures HasThens(ToPb(ToModel(p), show))
    ensures ToModel(ToPb(ToModel(p), show)) == ToModel(p)
  {
    RoundTrip(ToModel(p), show);
    ComesNormal(p, show);
  }

  /** The structured-output flag and the response schema never arrive, in either direction. */
  lemma StructuredOutputIsLost(p: PbDefinition, m: Definition, show: GoValue -> string)
    requires HasThens(p)
    ensures !ToModel(p).structuredOutput && ToModel(p).responseSchema == None
    ensures !ToPb(m, show).structuredOutput && ToPb(m, show).responseSchema == None
  {
  }

  /** A round trip keeps the flag and the response schema if and only if they are unset. */
  lemma StructuredOutputSurvivesIff(m: Definition, show: GoValue -> string)
    ensures HasThens(ToPb(m, show))
    ensures ToModel(ToPb(m, show)).structuredOutput == m.structuredOutput <==> !m.structuredOutput
    ensures ToModel(ToPb(m, show)).responseSchema == m.responseSchema <==> m.responseSchema == None
  {
    RoundTrip(m, show);
    StructuredOutputIsLost(ToPb(m, show), m, show);
  }
}
