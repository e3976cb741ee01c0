/**
 What a definition and a protobuf message have to do with each other, field by field and at
 every depth: the relation is the same for both converters, and each of them makes a partner
 of what it is given. It says nothing of the fields that are converted in neither direction.
 */
module Correspondence {
  import opened Wrappers
  import opened JsonSchema
  import opened Converters

  // ---------- Values and parts without definitions ----------

  /** A dynamic value and its protobuf form; numbers of either kind are floats there. */
  ghost predicate ValueMatches(v: GoValue, p: PbValue) {
    match p
    case PbNull => v == GoNil
    case PbBool(b) => v == GoBool(b)
    case PbNumber(r) => v == GoFloat(r) || (v.GoInt? && v.i as real == r)
    case PbString(s) => v == GoString(s)
    case PbList(items) =>
      v.GoList? && |v.items| == |items| && forall i :: 0 <= i < |items| ==> ValueMatches(v.items[i], items[i])
    case PbStructValue(entries) =>
      v.GoMap? && v.entries.Keys == entries.Keys && forall k :: k in entries ==> ValueMatches(v.entries[k], entries[k])
  }

  ghost predicate EntriesMatch(m: map<string, GoValue>, p: PbStruct) {
    m.Keys == p.Keys && forall k :: k in p ==> ValueMatches(m[k], p[k])
  }

  /** A struct is missing only if there is nothing to store, or nothing that can be stored. */
  ghost predicate StructMatches(m: Option<map<string, GoValue>>, p: Option<PbStruct>) {
    if p.Some? then m.Some? && EntriesMatch(m.value, p.value) else m.None? || !StorableMap(m.value)
  }

  ghost predicate BodyMatches(m: Option<map<string, GoValue>>, p: Option<PbStruct>) {
    var entries := if m.Some? then m.value else map[];
    if p.Some? then EntriesMatch(entries, p.value) else entries == map[] || !StorableMap(entries)
  }

  predicate PromptMatches(m: Option<string>, p: string) {
    if m.Some? then p == m.value else p == ""
  }

  predicate SpeechMatches(m: SpeechToText, p: PbSpeechToText) {
    && p.model == m.model && p.audioToTranscribe == m.audioToTranscribe && p.language == m.language
    && p.format == m.format && p.toString == m.toString && p.toCaptions == m.toCaptions
  }

  ghost predicate ReqMatches(m: RequestFormat, p: PbRequestFormat) {
    && p.url == m.url && p.httpMethod == m.httpMethod && p.headers == m.headers
    && p.authorization == m.authorization && p.requireFields == m.requireFields && BodyMatches(m.body, p.body)
  }

  /** A comparison value; lists, maps and others are stored as Go prints them. */
  predicate ComparedMatches(v: GoValue, p: PbConditionValue, show: GoValue -> string) {
    match p
    case NoValue => v == GoNil
    case NumberValue(r) => v == GoFloat(r) || (v.GoInt? && v.i as real == r)
    case StringValue(s) => v == GoString(s) || ((v.GoList? || v.GoMap? || v.GoOpaque?) && s == show(v))
    case BoolValue(b) => v == GoBool(b)
  }

  predicate ConditionMatches(m: Condition, p: PbCondition, show: GoValue -> string) {
    p.field == m.field && p.operator == m.operator && p.fieldPath == m.fieldPath &&
        ComparedMatches(m.value, p.value, show)
  }

  function ConditionsOf(cs: Conditions): seq<Condition> {
    match cs case NilConditions => [] case Conditions(conditions) => conditions
  }

  predicate ConditionsMatch(m: Conditions, p: seq<PbCondition>, show: GoValue -> string) {
    var cs := ConditionsOf(m);
    |cs| == |p| && forall i :: 0 <= i < |p| ==> ConditionMatches(cs[i], p[i], show)
  }

  predicate ScaleMatches(m: ScoreScale, p: PbScoreScale) {
    p.min == Wrap32(m.min) && p.max == Wrap32(m.max)
  }

  predicate DimensionMatches(m: ScoringDimension, p: PbScoringDimension) {
    && p.description == m.description && p.scoreType == m.scoreType && p.weight == m.weight
    && if m.scale.Some? then p.scale.Some? && ScaleMatches(m.scale.value, p.scale.value) else p.scale.None?
  }

  predicate ScoringMatches(m: ScoringCriteria, p: PbScoringCriteria) {
    var dimensions := if m.dimensions.Some? then m.dimensions.value else map[];
    && p.evaluationModel == m.evaluationModel && p.aggregationMethod == m.aggregationMethod
    && dimensions.Keys == p.dimensions.Keys
    && forall k :: k in dimensions ==> DimensionMatches(dimensions[k], p.dimensions[k])
  }

  ghost predicate ConfigMatches(m: ModelConfig, p: PbModelConfig) {
    var bias := if m.logitBias.Some? then m.logitBias.value else map[];
    && p.maxCompletionTokens == Wrap32(m.maxCompletionTokens) && p.temperature == m.temperature && p.topP == m.topP
    && p.n == Wrap32(m.n) && p.stream == m.stream && p.stop == m.stop && p.presencePenalty == m.presencePenalty
    && p.frequencyPenalty == m.frequencyPenalty && p.logProbs == m.logProbs && p.topLogProbs == Wrap32(m.topLogProbs)
    && p.user == m.user && p.store == m.store && p.reasoningEffort == m.reasoningEffort && p.metadata == m.metadata
    && p.seed == (if m.seed.Some? then Wrap32(m.seed.value) else 0)
    && p.logitBias.Keys == bias.Keys && (forall k :: k in bias ==> p.logitBias[k] == Wrap32(bias[k]))
    && StructMatches(m.chatTemplateKwargs, p.chatTemplateKwargs)
  }

  predicate EpistemicMatches(m: EpistemicValidation, p: Option<PbEpistemic>) {
    if p.Some? then p.value.active == m.active && p.value.judges == Wrap32(m.judges) else !m.active && m.judges == 0
  }

  // ---------- Definitions ----------

  /** What a definition says by itself. */
  ghost predicate FieldsMatch(m: Definition, p: PbDefinition) {
    && p.dataType == m.dataType && p.instruction == m.instruction && p.model == m.model
    && p.processingOrder == m.processingOrder && p.selectFields == m.selectFields
    && p.stream == m.stream && p.priority == m.priority
    && PromptMatches(m.systemPrompt, p.systemPrompt) && PromptMatches(m.overridePrompt, p.overridePrompt)
    && p.textToSpeech == m.textToSpeech && p.image == m.image
    && p.narrowFocus == m.narrowFocus && p.sendImage == m.sendImage
    && EpistemicMatches(m.epistemic, p.epistemic)
  }

  /** Its optional parts. */
  ghost predicate PartsMatch(m: Definition, p: PbDefinition) {
    && SpeechPart(m.speechToText, p.speechToText) && ReqPart(m.req, p.req)
    && ScoringPart(m.scoringCriteria, p.scoringCriteria) && ConfigPart(m.modelConfig, p.modelConfig)
  }

  predicate SpeechPart(m: Option<SpeechToText>, p: Option<PbSpeechToText>) {
    if m.Some? then p.Some? && SpeechMatches(m.value, p.value) else p.None?
  }

  ghost predicate ReqPart(m: Option<RequestFormat>, p: Option<PbRequestFormat>) {
    if m.Some? then p.Some? && ReqMatches(m.value, p.value) else p.None?
  }

  predicate ScoringPart(m: Option<ScoringCriteria>, p: Option<PbScoringCriteria>) {
    if m.Some? then p.Some? && ScoringMatches(m.value, p.value) else p.None?
  }

  ghost predicate ConfigPart(m: Option<ModelConfig>, p: Option<PbModelConfig>) {
    if m.Some? then p.Some? && ConfigMatches(m.value, p.value) else p.None?
  }

  ghost predicate Matches(m: Definition, p: PbDefinition, show: GoValue -> string)
    decreases m, 1
  {
    && FieldsMatch(m, p) && PartsMatch(m, p)
    && PropertiesMatch(m, p, show) && OptionalMatches(m.items, p.items, show)
    && HashMapMatches(m.hashMap, p.hashMap, show) && PointMatches(m.decisionPoint, p.decisionPoint, show)
    && LoopMatches(m.recursiveLoop, p.recursiveLoop, show)
  }

  ghost predicate PropertiesMatch(m: Definition, p: PbDefinition, show: GoValue -> string)
    decreases m, 0
  {
    if m.properties.NilProperties? then p.properties == map[] else
      && p.properties.Keys == m.properties.entries.Keys
      && forall k :: k in m.properties.entries ==> Matches(m.properties.entries[k], p.properties[k], show)
  }

  ghost predicate OptionalMatches(m: Option<Definition>, p: Option<PbDefinition>, show: GoValue -> string)
    decreases m, 0
  {
    if m.Some? then p.Some? && Matches(m.value, p.value, show) else p.None?
  }

  ghost predicate HashMapMatches(m: Option<HashMap>, p: Option<PbHashMap>, show: GoValue -> string)
    decreases m, 0
  {
    if m.None? then p.None? else
      && p.Some? && p.value.keyInstruction == m.value.keyInstruction
      && OptionalMatches(m.value.fieldDefinition, p.value.fieldDefinition, show)
  }

  ghost predicate PointMatches(m: Option<DecisionPoint>, p: Option<PbDecisionPoint>, show: GoValue -> string)
    decreases m, 0
  {
    if m.None? then p.None? else
      && p.Some? && p.value.name == m.value.name && p.value.evaluationPrompt == m.value.evaluationPrompt
      && p.value.strategy == m.value.strategy && BranchesMatch(m.value.branches, p.value.branches, show)
  }

  ghost predicate BranchesMatch(m: Branches, p: seq<PbBranch>, show: GoValue -> string)
    decreases m, 0
  {
    if m.NilBranches? then p == [] else
      |p| == |m.branches| && forall i :: 0 <= i < |p| ==> BranchMatches(m.branches[i], p[i], show)
  }

  ghost predicate BranchMatches(m: ConditionalBranch, p: PbBranch, show: GoValue -> string)
    decreases m, 0
  {
    && p.name == m.name && p.priority == Wrap32(m.priority) && ConditionsMatch(m.conditions, p.conditions, show)
    && OptionalMatches(m.logic, p.logic, show) && p.thenDef.Some? && Matches(m.thenDef, p.thenDef.value, show)
  }

  ghost predicate LoopMatches(m: Option<RecursiveLoop>, p: Option<PbRecursiveLoop>, show: GoValue -> string)
    decreases m, 0
  {
    if m.None? then p.None? else
      && p.Some? && p.value.maxIterations == Wrap32(m.value.maxIterations) && p.value.selection == m.value.selection
      && p.value.feedbackPrompt == m.value.feedbackPrompt
      && p.value.includePreviousAttempts == m.value.includePreviousAttempts
      && PointMatches(m.value.terminationPoint, p.value.terminationPoint, show)
  }

  // ---------- The parts the converters make ----------

  lemma {:induction false} NewValueMatches(v: GoValue)
    requires Storable(v)
    ensures ValueMatches(v, NewValue(v))
  {
    match v
    case GoList(items) =>
      forall i | 0 <= i < |items| ensures ValueMatches(items[i], NewValue(items[i])) { NewValueMatches(items[i]); }
    case GoMap(entries) =>
      forall k | k in entries ensures ValueMatches(entries[k], NewValue(entries[k])) { NewValueMatches(entries[k]); }
    case _ =>
  }

  lemma {:induction false} InterfaceMatches(p: PbValue)
    ensures ValueMatches(AsInterface(p), p)
  {
    match p
    case PbList(items) =>
      forall i | 0 <= i < |items| ensures ValueMatches(AsInterface(items[i]), items[i]) { InterfaceMatches(items[i]); }
    case PbStructValue(entries) =>
      forall k | k in entries
        ensures ValueMatches(AsInterface(entries[k]), entries[k])
      {
        InterfaceMatches(entries[k]);
      }
    case _ =>
  }

  lemma NewStructMatches(m: map<string, GoValue>)
    ensures StorableMap(m) ==> NewStruct(m).Some? && EntriesMatch(m, NewStruct(m).value)
    ensures !StorableMap(m) ==> NewStruct(m).None?
  {
    if StorableMap(m) {
      forall k | k in m ensures ValueMatches(m[k], NewValue(m[k])) { NewValueMatches(m[k]); }
    }
  }

  lemma AsMapMatches(p: PbStruct)
    ensures EntriesMatch(AsMap(Some(p)), p)
  {
    forall k | k in p ensures ValueMatches(AsInterface(p[k]), p[k]) { InterfaceMatches(p[k]); }
  }

  lemma SpeechToPbMatches(m: Option<SpeechToText>)
    ensures SpeechPart(m, IfPresent(m, SpeechToPb))
  {
  }

  lemma SpeechToModelMatches(p: Option<PbSpeechToText>)
    ensures SpeechPart(IfPresent(p, SpeechToModel), p)
  {
  }

  lemma ReqToPbMatches(m: Option<RequestFormat>)
    ensures ReqPart(m, IfPresent(m, ReqToPb))
  {
    if m.Some? { NewStructMatches(if m.value.body.Some? then m.value.body.value else map[]); }
  }

  lemma ReqToModelMatches(p: Option<PbRequestFormat>)
    ensures ReqPart(IfPresent(p, ReqToModel), p)
  {
    if p.Some? && p.value.body.Some? { AsMapMatches(p.value.body.value); }
  }

  lemma ScoringToPbMatches(m: Option<ScoringCriteria>)
    ensures ScoringPart(m, IfPresent(m, ScoringToPb))
  {
  }

  lemma ScoringToModelMatches(p: Option<PbScoringCriteria>)
    ensures ScoringPart(IfPresent(p, ScoringToModel), p)
  {
  }

  lemma ConfigToPbMatches(m: Option<ModelConfig>)
    ensures ConfigPart(m, IfPresent(m, ConfigToPb))
  {
    if m.Some? && m.value.chatTemplateKwargs.Some? { NewStructMatches(m.value.chatTemplateKwargs.value); }
  }

  lemma ConfigToModelMatches(p: Option<PbModelConfig>)
    ensures ConfigPart(IfPresent(p, ConfigToModel), p)
  {
    if p.Some? && p.value.chatTemplateKwargs.Some? { AsMapMatches(p.value.chatTemplateKwargs.value); }
  }

  lemma ConditionsToPbMatch(m: Conditions, show: GoValue -> string)
    ensures ConditionsMatch(m, ConditionsToPb(m, show), show)
  {
  }

  lemma ConditionsToModelMatch(p: seq<PbCondition>, show: GoValue -> string)
    ensures ConditionsMatch(ConditionsToModel(p), p, show)
  {
  }

  lemma FieldsToPbMatch(m: Definition, a: map<string, PbDefinition>, b: Option<PbDefinition>, c: Option<PbHashMap>,
                        d: Option<PbDecisionPoint>, e: Option<PbRecursiveLoop>)
    ensures FieldsMatch(m, PbWith(m, a, b, c, d, e))
  {
  }

  lemma PartsToPbMatch(m: Definition, a: map<string, PbDefinition>, b: Option<PbDefinition>, c: Option<PbHashMap>,
                       d: Option<PbDecisionPoint>, e: Option<PbRecursiveLoop>)
    ensures PartsMatch(m, PbWith(m, a, b, c, d, e))
  {
    SpeechToPbMatches(m.speechToText);
    ReqToPbMatches(m.req);
    ScoringToPbMatches(m.scoringCriteria);
    ConfigToPbMatches(m.modelConfig);
  }

  lemma FieldsToModelMatch(p: PbDefinition, a: Properties, b: Option<Definition>, c: Option<HashMap>,
                           d: Option<DecisionPoint>, e: Option<RecursiveLoop>)
    ensures FieldsMatch(ModelWith(p, a, b, c, d, e), p)
  {
  }

  lemma PartsToModelMatch(p: PbDefinition, a: Properties, b: Option<Definition>, c: Option<HashMap>,
                          d: Option<DecisionPoint>, e: Option<RecursiveLoop>)
    ensures PartsMatch(ModelWith(p, a, b, c, d, e), p)
  {
    SpeechToModelMatches(p.speechToText);
    ReqToModelMatches(p.req);
    ScoringToModelMatches(p.scoringCriteria);
    ConfigToModelMatches(p.modelConfig);
  }

  // ---------- The converters ----------

  /** The message made of a definition matches it, at every depth. */
  lemma {:induction false} ToPbMatches(m: Definition, show: GoValue -> string)
    ensures Matches(m, ToPb(m, show), show)
    decreases m, 1
  {
    var a, b, c := PropertiesToPb(m, show), OptionalToPb(m.items, show), HashMapToPb(m.hashMap, show);
    var d, e := PointToPb(m.decisionPoint, show), LoopToPb(m.recursiveLoop, show);
    FieldsToPbMatch(m, a, b, c, d, e);
    PartsToPbMatch(m, a, b, c, d, e);
    PropertiesToPbMatch(m, show);
    OptionalToPbMatches(m.items, show);
    HashMapToPbMatches(m.hashMap, show);
    PointToPbMatches(m.decisionPoint, show);
    LoopToPbMatches(m.recursiveLoop, show);
    assert PropertiesMatch(m, ToPb(m, show), show);
  }

  lemma {:induction false} PropertiesToPbMatch(m: Definition, show: GoValue -> string)
    ensures forall p: PbDefinition :: p.properties == PropertiesToPb(m, show) ==> PropertiesMatch(m, p, show)
    decreases m, 0
  {
    if m.properties.Properties? {
      forall k | k in m.properties.entries
        ensures Matches(m.properties.entries[k], ToPb(m.properties.entries[k], show), show)
      {
        ToPbMatches(m.properties.entries[k], show);
      }
    }
  }

  lemma {:induction false} OptionalToPbMatches(m: Option<Definition>, show: GoValue -> string)
    ensures OptionalMatches(m, OptionalToPb(m, show), show)
    decreases m, 0
  {
    if m.Some? { ToPbMatches(m.value, show); }
  }

  lemma {:induction false} HashMapToPbMatches(m: Option<HashMap>, show: GoValue -> string)
    ensures HashMapMatches(m, HashMapToPb(m, show), show)
    decreases m, 0
  {
    if m.Some? { OptionalToPbMatches(m.value.fieldDefinition, show); }
  }

  lemma {:induction false} PointToPbMatches(m: Option<DecisionPoint>, show: GoValue -> string)
    ensures PointMatches(m, PointToPb(m, show), show)
    decreases m, 0
  {
    if m.Some? { BranchesToPbMatch(m.value.branches, show); }
  }

  lemma {:induction false} BranchesToPbMatch(m: Branches, show: GoValue -> string)
    ensures BranchesMatch(m, BranchesToPb(m, show), show)
    decreases m, 0
  {
    if m.Branches? {
      forall i | 0 <= i < |m.branches| ensures BranchMatches(m.branches[i], BranchToPb(m.branches[i], show), show) {
        BranchToPbMatches(m.branches[i], show);
      }
    }
  }

  lemma {:induction false} BranchToPbMatches(m: ConditionalBranch, show: GoValue -> string)
    ensures BranchMatches(m, BranchToPb(m, show), show)
    decreases m, 0
  {
    ConditionsToPbMatch(m.conditions, show);
    OptionalToPbMatches(m.logic, show);
    ToPbMatches(m.thenDef, show);
  }

  lemma {:induction false} LoopToPbMatches(m: Option<RecursiveLoop>, show: GoValue -> string)
    ensures LoopMatches(m, LoopToPb(m, show), show)
    decreases m, 0
  {
    if m.Some? { PointToPbMatches(m.value.terminationPoint, show); }
  }

  /** The definition made of a message matches it, at every depth, however Go prints values. */
  lemma {:induction false} ToModelMatches(p: PbDefinition, show: GoValue -> string)
    requires HasThens(p)
    ensures Matches(ToModel(p), p, show)
    decreases p, 1
  {
    var a, b, c := PropertiesToModel(p), OptionalToModel(p.items), HashMapToModel(p.hashMap);
    var d, e := PointToModel(p.decisionPoint), LoopToModel(p.recursiveLoop);
    FieldsToModelMatch(p, a, b, c, d, e);
    PartsToModelMatch(p, a, b, c, d, e);
    PropertiesToModelMatch(p, show);
    OptionalToModelMatches(p.items, show);
    HashMapToModelMatches(p.hashMap, show);
    PointToModelMatches(p.decisionPoint, show);
    LoopToModelMatches(p.recursiveLoop, show);
    assert PropertiesMatch(ToModel(p), p, show);
  }

  lemma {:induction false} PropertiesToModelMatch(p: PbDefinition, show: GoValue -> string)
    requires PropertiesHaveThens(p)
    ensures forall m: Definition :: m.properties == PropertiesToModel(p) ==> PropertiesMatch(m, p, show)
    decreases p, 0
  {
    forall k | k in p.properties ensures Matches(ToModel(p.properties[k]), p.properties[k], show) {
      ToModelMatches(p.properties[k], show);
    }
  }

  lemma {:induction false} OptionalToModelMatches(p: Option<PbDefinition>, show: GoValue -> string)
    requires OptionalHasThens(p)
    ensures OptionalMatches(OptionalToModel(p), p, show)
    decreases p, 0
  {
    if p.Some? { ToModelMatches(p.value, show); }
  }

  lemma {:induction false} HashMapToModelMatches(p: Option<PbHashMap>, show: GoValue -> string)
    requires HashMapHasThens(p)
    ensures HashMapMatches(HashMapToModel(p), p, show)
    decreases p, 0
  {
    if p.Some? { OptionalToModelMatches(p.value.fieldDefinition, show); }
  }

  lemma {:induction false} PointToModelMatches(p: Option<PbDecisionPoint>, show: GoValue -> string)
    requires PointHasThens(p)
    ensures PointMatches(PointToModel(p), p, show)
    decreases p, 0
  {
    if p.Some? {
      var bs := p.value.branches;
      forall i | 0 <= i < |bs| ensures BranchMatches(BranchToModel(bs[i]), bs[i], show) {
        BranchToModelMatches(bs[i], show);
      }
      assert BranchesMatch(PointToModel(p).value.branches, bs, show);
    }
  }

  lemma {:induction false} BranchToModelMatches(p: PbBranch, show: GoValue -> string)
    requires BranchHasThens(p)
    ensures BranchMatches(BranchToModel(p), p, show)
    decreases p, 0
  {
    ConditionsToModelMatch(p.conditions, show);
    OptionalToModelMatches(p.logic, show);
    ToModelMatches(p.thenDef.value, show);
  }

  lemma {:induction false} LoopToModelMatches(p: Option<PbRecursiveLoop>, show: GoValue -> string)
    requires LoopHasThens(p)
    ensures LoopMatches(LoopToModel(p), p, show)
    decreases p, 0
  {
    if p.Some? { PointToModelMatches(p.value.terminationPoint, show); }
  }
}
