/**
 The converters as the code runs them: fresh slices and maps filled in loops, maps in no
 particular order. Each is proved to compute its function in `Converters`.
 */
module ConverterLoops {
  import opened Wrappers
  import opened JsonSchema
  import opened Converters
  import opened Correspondence

  // ---------- Model to protobuf ----------

  method ConvertModelToProto(o: Option<Definition>, show: GoValue -> string) returns (p: Option<PbDefinition>)
    ensures p == OptionalToPb(o, show) && OptionalMatches(o, p, show)
    decreases o, 1
  {
    OptionalToPbMatches(o, show);
    if o.None? { return None; }
    var d := ConvertModelDefinition(o.value, show);
    p := Some(d);
  }

  method ConvertModelDefinition(m: Definition, show: GoValue -> string) returns (p: PbDefinition)
    ensures p == ToPb(m, show)
    decreases m, 1
  {
    var items := ConvertModelToProto(m.items, show);
    var hashMap := ConvertModelToProtoHashMap(m.hashMap, show);
    var decisionPoint := ConvertModelDecisionPoint(m.decisionPoint, show);
    var scoringCriteria := ConvertModelScoringCriteria(m.scoringCriteria);
    var recursiveLoop := ConvertModelRecursiveLoop(m.recursiveLoop, show);
    var modelConfig := ConvertModelModelConfig(m.modelConfig);
    var properties := ConvertModelProperties(m, show);
    p := PbDefinition(
      m.dataType, m.instruction, properties, items, m.model, m.processingOrder, PromptOf(m.systemPrompt), hashMap,
      m.textToSpeech, IfPresent(m.speechToText, SpeechToPb), m.image, IfPresent(m.req, ReqToPb), m.narrowFocus,
      m.selectFields,
      m.sendImage, m.stream, PromptOf(m.overridePrompt), m.priority, decisionPoint, scoringCriteria, recursiveLoop,
      Some(PbEpistemic(m.epistemic.active, Wrap32(m.epistemic.judges))), modelConfig, false, None);
  }

  method ConvertModelProperties(m: Definition, show: GoValue -> string) returns (properties: map<string, PbDefinition>)
    ensures properties == PropertiesToPb(m, show)
    decreases m, 0
  {
    properties := map[];
    if m.properties.NilProperties? { return; }
    var entries := m.properties.entries;
    var todo := entries.Keys;
    while todo != {}
      invariant todo <= entries.Keys && properties.Keys == entries.Keys - todo
      invariant forall k :: k in properties ==> properties[k] == ToPb(entries[k], show)
      decreases |todo|
    {
      var key :| key in todo;
      var d := ConvertModelDefinition(entries[key], show);
      properties := properties[key := d];
      todo := todo - {key};
    }
  }

  method ConvertModelToProtoHashMap(h: Option<HashMap>, show: GoValue -> string) returns (p: Option<PbHashMap>)
    ensures p == HashMapToPb(h, show)
    decreases h, 0
  {
    if h.None? { return None; }
    var fieldDefinition := ConvertModelToProto(h.value.fieldDefinition, show);
    p := Some(PbHashMap(h.value.keyInstruction, fieldDefinition));
  }

  method ConvertModelDecisionPoint(dp: Option<DecisionPoint>, show: GoValue -> string)
    returns (p: Option<PbDecisionPoint>)
    ensures p == PointToPb(dp, show)
    decreases dp, 0
  {
    if dp.None? { return None; }
    var branches: seq<PbBranch> := [];
    if dp.value.branches.Branches? {
      var bs := dp.value.branches.branches;
      for i := 0 to |bs|
        invariant |branches| == i
        invariant forall j :: 0 <= j < i ==> branches[j] == BranchToPb(bs[j], show)
      {
        var b := ConvertModelConditionalBranch(bs[i], show);
        branches := branches + [b];
      }
    }
    assert branches == BranchesToPb(dp.value.branches, show);
    p := Some(PbDecisionPoint(dp.value.name, dp.value.evaluationPrompt, branches, dp.value.strategy));
  }

  method ConvertModelConditionalBranch(cb: ConditionalBranch, show: GoValue -> string) returns (p: PbBranch)
    ensures p == BranchToPb(cb, show)
    decreases cb, 0
  {
    var conditions: seq<PbCondition> := [];
    if cb.conditions.Conditions? {
      var cs := cb.conditions.conditions;
      for i := 0 to |cs|
        invariant |conditions| == i
        invariant forall j :: 0 <= j < i ==> conditions[j] == ConditionToPb(cs[j], show)
      {
        conditions := conditions + [ConditionToPb(cs[i], show)];
      }
    }
    assert conditions == ConditionsToPb(cb.conditions, show);
    var logic := ConvertModelToProto(cb.logic, show);
    var thenDef := ConvertModelDefinition(cb.thenDef, show);
    p := PbBranch(cb.name, conditions, logic, Some(thenDef), Wrap32(cb.priority));
  }

  method ConvertModelScoringCriteria(sc: Option<ScoringCriteria>) returns (p: Option<PbScoringCriteria>)
    ensures p == IfPresent(sc, ScoringToPb)
  {
    if sc.None? { return None; }
    var dimensions: map<string, PbScoringDimension> := map[];
    if sc.value.dimensions.Some? {
      var ds := sc.value.dimensions.value;
      var todo := ds.Keys;
      while todo != {}
        invariant todo <= ds.Keys && dimensions.Keys == ds.Keys - todo
        invariant forall k :: k in dimensions ==> dimensions[k] == DimensionToPb(ds[k])
        decreases |todo|
      {
        var key :| key in todo;
        dimensions := dimensions[key := DimensionToPb(ds[key])];
        todo := todo - {key};
      }
    }
    assert dimensions == ScoringToPb(sc.value).dimensions;
    p := Some(PbScoringCriteria(dimensions, sc.value.evaluationModel, sc.value.aggregationMethod));
  }

  method ConvertModelRecursiveLoop(rl: Option<RecursiveLoop>, show: GoValue -> string)
    returns (p: Option<PbRecursiveLoop>)
    ensures p == LoopToPb(rl, show)
    decreases rl, 0
  {
    if rl.None? { return None; }
    var terminationPoint := ConvertModelDecisionPoint(rl.value.terminationPoint, show);
    p := Some(PbRecursiveLoop(Wrap32(rl.value.maxIterations), rl.value.selection, terminationPoint,
                              rl.value.feedbackPrompt, rl.value.includePreviousAttempts));
  }

  method ConvertModelModelConfig(mc: Option<ModelConfig>) returns (p: Option<PbModelConfig>)
    ensures p == IfPresent(mc, ConfigToPb)
  {
    if mc.None? { return None; }
    var c := mc.value;
    var logitBias: map<string, Int32> := map[];
    if c.logitBias.Some? {
      var bias := c.logitBias.value;
      var todo := bias.Keys;
      while todo != {}
        invariant todo <= bias.Keys && logitBias.Keys == bias.Keys - todo
        invariant forall k :: k in logitBias ==> logitBias[k] == Wrap32(bias[k])
        decreases |todo|
      {
        var key :| key in todo;
        logitBias := logitBias[key := Wrap32(bias[key])];
        todo := todo - {key};
      }
    }
    assert logitBias == ConfigToPb(c).logitBias;
    var seed: Int32 := if c.seed.Some? then Wrap32(c.seed.value) else 0;
    var chatTemplateKwargs := if c.chatTemplateKwargs.None? then None else NewStruct(c.chatTemplateKwargs.value);
    p := Some(PbModelConfig(
                Wrap32(c.maxCompletionTokens), c.temperature, c.topP, Wrap32(c.n), c.stream, c.stop, c.presencePenalty,
                seed, c.frequencyPenalty, logitBias, c.logProbs, Wrap32(c.topLogProbs), c.user, c.store,
                c.reasoningEffort, c.metadata, chatTemplateKwargs));
  }

  // ---------- Protobuf to model ----------

  method ConvertProtoToModel(o: Option<PbDefinition>) returns (m: Option<Definition>)
    requires OptionalHasThens(o)
    ensures m == OptionalToModel(o) && forall show: GoValue -> string :: OptionalMatches(m, o, show)
    decreases o, 1
  {
    forall show: GoValue -> string ensures OptionalMatches(OptionalToModel(o), o, show) {
      OptionalToModelMatches(o, show);
    }
    if o.None? { return None; }
    var d := ConvertProtoDefinition(o.value);
    m := Some(d);
  }

  method ConvertProtoDefinition(p: PbDefinition) returns (m: Definition)
    requires HasThens(p)
    ensures m == ToModel(p)
    decreases p, 1
  {
    var items := ConvertProtoToModel(p.items);
    var hashMap := ConvertProtoToHashMap(p.hashMap);
    var decisionPoint := ConvertProtoDecisionPoint(p.decisionPoint);
    var scoringCriteria := ConvertProtoScoringCriteria(p.scoringCriteria);
    var recursiveLoop := ConvertProtoRecursiveLoop(p.recursiveLoop);
    var modelConfig := ConvertProtoModelConfig(p.modelConfig);
    var properties := ConvertProtoProperties(p);
    m := Definition(
      p.dataType, p.instruction, properties, items, p.model, p.processingOrder, GetStringPointer(p.systemPrompt),
      hashMap,
      p.textToSpeech, IfPresent(p.speechToText, SpeechToModel), p.image, IfPresent(p.req, ReqToModel), p.narrowFocus,
      p.selectFields,
      p.sendImage, p.stream, GetStringPointer(p.overridePrompt), p.priority, decisionPoint, scoringCriteria,
      recursiveLoop,
      EpistemicToModel(p.epistemic), modelConfig, false, None);
  }

  method ConvertProtoProperties(p: PbDefinition) returns (properties: Properties)
    requires PropertiesHaveThens(p)
    ensures properties == PropertiesToModel(p)
    decreases p, 0
  {
    var entries: map<string, Definition> := map[];
    var todo := p.properties.Keys;
    while todo != {}
      invariant todo <= p.properties.Keys && entries.Keys == p.properties.Keys - todo
      invariant forall k :: k in entries ==> entries[k] == ToModel(p.properties[k])
      decreases |todo|
    {
      var key :| key in todo;
      var d := ConvertProtoDefinition(p.properties[key]);
      entries := entries[key := d];
      todo := todo - {key};
    }
    assert entries == PropertiesToModel(p).entries;
    properties := Properties(entries);
  }

  method ConvertProtoToHashMap(h: Option<PbHashMap>) returns (m: Option<HashMap>)
    requires HashMapHasThens(h)
    ensures m == HashMapToModel(h)
    decreases h, 0
  {
    if h.None? { return None; }
    var fieldDefinition := ConvertProtoToModel(h.value.fieldDefinition);
    m := Some(HashMap(h.value.keyInstruction, fieldDefinition));
  }

  method ConvertProtoDecisionPoint(dp: Option<PbDecisionPoint>) returns (m: Option<DecisionPoint>)
    requires PointHasThens(dp)
    ensures m == PointToModel(dp)
    decreases dp, 0
  {
    if dp.None? { return None; }
    var bs := dp.value.branches;
    var branches: seq<ConditionalBranch> := [];
    for i := 0 to |bs|
      invariant |branches| == i
      invariant forall j :: 0 <= j < i ==> branches[j] == BranchToModel(bs[j])
    {
      var b := ConvertProtoConditionalBranch(bs[i]);
      branches := branches + [b];
    }
    assert branches == PointToModel(dp).value.branches.branches;
    m := Some(DecisionPoint(dp.value.name, dp.value.evaluationPrompt, Branches(branches), dp.value.strategy));
  }

  method ConvertProtoConditionalBranch(cb: PbBranch) returns (m: ConditionalBranch)
    requires BranchHasThens(cb)
    ensures m == BranchToModel(cb)
    decreases cb, 0
  {
    var conditions: seq<Condition> := [];
    for i := 0 to |cb.conditions|
      invariant |conditions| == i
      invariant forall j :: 0 <= j < i ==> conditions[j] == ConditionToModel(cb.conditions[j])
    {
      conditions := conditions + [ConditionToModel(cb.conditions[i])];
    }
    assert conditions == ConditionsToModel(cb.conditions).conditions;
    var logic := ConvertProtoToModel(cb.logic);
    var thenDef := ConvertProtoDefinition(cb.thenDef.value);
    m := ConditionalBranch(cb.name, Conditions(conditions), logic, thenDef, cb.priority);
  }

  method ConvertProtoScoringCriteria(sc: Option<PbScoringCriteria>) returns (m: Option<ScoringCriteria>)
    ensures m == IfPresent(sc, ScoringToModel)
  {
    if sc.None? { return None; }
    var ds := sc.value.dimensions;
    var dimensions: map<string, ScoringDimension> := map[];
    var todo := ds.Keys;
    while todo != {}
      invariant todo <= ds.Keys && dimensions.Keys == ds.Keys - todo
      invariant forall k :: k in dimensions ==> dimensions[k] == DimensionToModel(ds[k])
      decreases |todo|
    {
      var key :| key in todo;
      dimensions := dimensions[key := DimensionToModel(ds[key])];
      todo := todo - {key};
    }
    assert dimensions == ScoringToModel(sc.value).dimensions.value;
    m := Some(ScoringCriteria(Some(dimensions), sc.value.evaluationModel, sc.value.aggregationMethod));
  }

  method ConvertProtoRecursiveLoop(rl: Option<PbRecursiveLoop>) returns (m: Option<RecursiveLoop>)
    requires LoopHasThens(rl)
    ensures m == LoopToModel(rl)
    decreases rl, 0
  {
    if rl.None? { return None; }
    var terminationPoint := ConvertProtoDecisionPoint(rl.value.terminationPoint);
    m := Some(RecursiveLoop(rl.value.maxIterations, rl.value.selection, terminationPoint,
                            rl.value.feedbackPrompt, rl.value.includePreviousAttempts));
  }

  method ConvertProtoModelConfig(mc: Option<PbModelConfig>) returns (m: Option<ModelConfig>)
    ensures m == IfPresent(mc, ConfigToModel)
  {
    if mc.None? { return None; }
    var c := mc.value;
    var logitBias: map<string, int> := map[];
    var todo := c.logitBias.Keys;
    while todo != {}
      invariant todo <= c.logitBias.Keys && logitBias.Keys == c.logitBias.Keys - todo
      invariant forall k :: k in logitBias ==> logitBias[k] == c.logitBias[k]
      decreases |todo|
    {
      var key :| key in todo;
      logitBias := logitBias[key := c.logitBias[key]];
      todo := todo - {key};
    }
    assert logitBias == ConfigToModel(c).logitBias.value;
    var seed: Option<int> := if c.seed != 0 then Some(c.seed) else None;
    var chatTemplateKwargs := if c.chatTemplateKwargs.Some? then Some(AsMap(c.chatTemplateKwargs)) else None;
    m := Some(ModelConfig(
                c.maxCompletionTokens, c.temperature, c.topP, c.n, c.stream, c.stop, c.presencePenalty, seed,
                c.frequencyPenalty, Some(logitBias), c.logProbs, c.topLogProbs, c.user, c.store, c.reasoningEffort,
                c.metadata, chatTemplateKwargs));
  }
}
