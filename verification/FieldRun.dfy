/**
 Running the fields of one object. The batches of the schedule run one after another, the
 remaining keys after them; the fields of one stage run concurrently and share a single
 context of generated values. An object inside another object uses the same context, so
 fields that run beside one of the objects around it write into it as well. The fields of a
 decision point's branch are stored in it too, after the value of the field that decides.
 Each channel or lock operation is one step, so a run is any sequence of steps, and the
 lemmas hold for every interleaving.

 Cancellation is not part of the model: every submitted field runs to its end.
 */
module FieldRun {
  import opened Wrappers
  import opened JsonSchema
  import opened Sequences
  import opened Scheduler

  // ---------- The shared context ----------

  /** The map of generated values, changed under a lock; copies are taken for array items. */
  class ExecutionContext {
    var generatedValues: map<string, GoValue>

    constructor ()
      ensures generatedValues == map[]
    {
      generatedValues := map[];
    }

    constructor Copy(values: map<string, GoValue>)
      ensures generatedValues == values
    {
      generatedValues := values;
    }

    method SetGeneratedValue(key: string, value: GoValue)
      modifies this
      ensures generatedValues == old(generatedValues)[key := value]
    {
      generatedValues := generatedValues[key := value];
    }

    method GetGeneratedValue(key: string) returns (value: Option<GoValue>)
      ensures value == if key in generatedValues then Some(generatedValues[key]) else None
    {
      value := if key in generatedValues then Some(generatedValues[key]) else None;
    }

    /** A new context that starts from a copy, entry by entry. */
    method WithParent() returns (child: ExecutionContext)
      ensures fresh(child) && child.generatedValues == generatedValues
    {
      var copied: map<string, GoValue> := map[];
      var left := generatedValues.Keys;
      while left != {}
        invariant left <= generatedValues.Keys
        invariant copied == map k | k in generatedValues && k !in left :: generatedValues[k]
      {
        var k :| k in left;
        copied := copied[k := generatedValues[k]];
        left := left - {k};
      }
      child := new ExecutionContext.Copy(copied);
    }
  }

  // ---------- Plans ----------

  /**
   The stages in order, for each field the names its nested fields store before its own value
   and the names its decision point stores after it, and the names that fields outside the
   object may store while it runs.
   */
  datatype Plan = Plan(
    stages: seq<seq<string>>, nested: map<string, set<string>>, branched: map<string, set<string>>,
    outside: set<string>) {
    ghost predicate Valid() {
      stages != [] && Distinct(Flatten(stages))
    }

    predicate InStage(i: int, key: string) {
      0 <= i < |stages| && key in stages[i]
    }

    function Nested(key: string): set<string> {
      if key in nested then nested[key] else {}
    }

    function Branched(key: string): set<string> {
      if key in branched then branched[key] else {}
    }

    /** The names besides its own that processing a field stores. */
    function Stores(key: string): set<string> {
      Nested(key) + Branched(key)
    }
  }

  lemma StagesDisjoint(p: Plan, i: int, j: int, key: string)
    requires p.Valid() && p.InStage(i, key) && p.InStage(j, key)
    ensures i == j
  {
    DistinctFlatten(p.stages, i, j, key);
  }

  // ---------- States and steps ----------

  datatype Status =
    | Waiting
    | Running
    | Written(value: GoValue)              // result stored in the context, decision point under way
    | Restored(value: GoValue)             // an ordered field has stored it once more
    | Finished(result: Option<GoValue>)
  {
    /** The value the field has produced so far. */
    function Produced(): Option<GoValue> {
      match this
      case Written(v) => Some(v)
      case Restored(v) => Some(v)
      case Finished(r) => r
      case _ => None
    }
  }

  datatype State = State(stage: nat, status: map<string, Status>, context: map<string, GoValue>)

  datatype Step =
    | Start(key: string)
    | WriteNested(key: string, name: string, value: GoValue)  // a field inside the object `key` stores its value
    | Write(key: string, value: GoValue)                      // the field stores its own value
    | Fail(key: string)                                       // the field ends without a result
    | WriteBranch(key: string, name: string, value: GoValue)  // a field of a branch `key` decided on stores its value
    | WriteOutside(name: string, value: GoValue)              // a field outside the object stores its value
    | Restore(key: string)                                    // an ordered field stores its value once more
    | Finish(key: string)
    | Advance                                                 // the wait group of the stage is done

  ghost predicate Enabled(p: Plan, s: State, step: Step) {
    && s.stage < |p.stages|
    && match step
       case Start(k) => p.InStage(s.stage, k) && k in s.status && s.status[k].Waiting?
       case WriteNested(k, name, _) => k in s.status && s.status[k].Running? && name in p.Nested(k)
       case Write(k, _) => k in s.status && s.status[k].Running?
       case WriteBranch(k, name, _) => k in s.status && (s.status[k].Written? || s.status[k].Restored?) &&
           name in p.Branched(k)
       case WriteOutside(name, _) => name in p.outside
       case Fail(k) => k in s.status && s.status[k].Running?
       case Restore(k) => s.stage < |p.stages| - 1 && k in s.status && s.status[k].Written?
       case Finish(k) =>
         k in s.status && if s.stage < |p.stages| - 1 then s.status[k].Restored? else s.status[k].Written?
       case Advance => forall k :: k in p.stages[s.stage] ==> k in s.status && s.status[k].Finished?
  }

  function Apply(p: Plan, s: State, step: Step): State {
    match step
    case Start(k) => s.(status := s.status[k := Running])
    case WriteNested(_, name, v) => s.(context := s.context[name := v])
    case Write(k, v) => s.(status := s.status[k := Written(v)], context := s.context[k := v])
    case WriteBranch(_, name, v) => s.(context := s.context[name := v])
    case WriteOutside(name, v) => s.(context := s.context[name := v])
    case Fail(k) => s.(status := s.status[k := Finished(None)])
    case Restore(k) =>
      if k in s.status && s.status[k].Written? then
        s.(status := s.status[k := Restored(s.status[k].value)], context := s.context[k := s.status[k].value])
      else s
    case Finish(k) =>
      if k in s.status && (s.status[k].Written? || s.status[k].Restored?) then
        s.(status := s.status[k := Finished(Some(s.status[k].value))])
      else s
    case Advance => s.(stage := s.stage + 1)
  }

  function Initial(p: Plan, context: map<string, GoValue>): State {
    State(0, map k | k in Range(Flatten(p.stages)) :: Waiting, context)
  }

  /** The state after a sequence of steps, if each was enabled in its turn. */
  ghost function Exec(p: Plan, s: State, steps: seq<Step>): Option<State>
    decreases |steps|
  {
    if steps == [] then Some(s)
    else if Enabled(p, s, steps[0]) then Exec(p, Apply(p, s, steps[0]), steps[1..])
    else None
  }

  ghost predicate Reaches(p: Plan, context: map<string, GoValue>, steps: seq<Step>, s: State) {
    Exec(p, Initial(p, context), steps) == Some(s)
  }

  // ---------- The invariant ----------

  /** A field other than `r`, started no earlier than `r`'s stage, that stores the same name. */
  ghost predicate Overwriter(p: Plan, s: State, r: string, j: int, c: string, m: int) {
    c != r && j <= m && p.InStage(m, c) && c in s.status && !s.status[c].Waiting? && r in p.Stores(c)
  }

  ghost predicate Overwritten(p: Plan, s: State, r: string, j: int) {
    exists c, m :: Overwriter(p, s, r, j, c, m)
  }

  /** Earlier stages are finished, later ones not begun. */
  ghost predicate StageInv(p: Plan, s: State) {
    && s.stage <= |p.stages|
    && (forall i, k :: p.InStage(i, k) ==>
         && k in s.status
         && (i < s.stage ==> s.status[k].Finished?)
         && (s.stage < i ==> s.status[k].Waiting?))
    && (forall k :: k in s.status ==> exists i :: p.InStage(i, k))
  }

  /** A produced value is in the context, and is still the one there unless it was overwritten. */
  ghost predicate Kept(p: Plan, s: State, j: int, r: string) {
    r in s.status && s.status[r].Produced().Some? ==>
      && r in s.context
      && (s.context[r] == s.status[r].Produced().value || Overwritten(p, s, r, j) || r in p.outside ||
          r in p.Branched(r))
  }

  ghost predicate ContextInv(p: Plan, s: State) {
    forall j, r {:trigger Kept(p, s, j, r)} {:trigger p.InStage(j, r)} :: p.InStage(j, r) ==> Kept(p, s, j, r)
  }

  lemma InitialInv(p: Plan, context: map<string, GoValue>)
    ensures StageInv(p, Initial(p, context)) && ContextInv(p, Initial(p, context))
  {
    var s := Initial(p, context);
    forall k ensures k in s.status <==> exists i :: p.InStage(i, k) {
      FlattenMember(p.stages, k);
      if i :| 0 <= i < |p.stages| && k in p.stages[i] { assert p.InStage(i, k); }
    }
  }

  /** A field that has started and not finished belongs to the current stage, and to no other. */
  lemma CurrentStage(p: Plan, s: State, k: string)
    requires p.Valid() && StageInv(p, s) && k in s.status
    requires s.status[k].Running? || s.status[k].Written? || s.status[k].Restored? || p.InStage(s.stage, k)
    ensures p.InStage(s.stage, k)
    ensures forall i :: p.InStage(i, k) ==> i == s.stage
  {
    var i :| p.InStage(i, k);
    forall j | p.InStage(j, k) ensures j == i { StagesDisjoint(p, i, j, k); }
  }

  lemma StepStageInv(p: Plan, s: State, step: Step)
    requires p.Valid() && StageInv(p, s) && Enabled(p, s, step)
    ensures StageInv(p, Apply(p, s, step))
  {
    if !step.Advance? && !step.WriteOutside? { CurrentStage(p, s, step.key); }
  }

  lemma StepKeeps(p: Plan, s: State, step: Step, j: int, r: string)
    requires p.Valid() && StageInv(p, s) && Enabled(p, s, step) && p.InStage(j, r) && Kept(p, s, j, r)
    ensures Kept(p, Apply(p, s, step), j, r)
  {
    var t := Apply(p, s, step);
    if Overwritten(p, s, r, j) {
      var c, m :| Overwriter(p, s, r, j, c, m);
      assert Overwriter(p, t, r, j, c, m);
    } else if (step.WriteNested? || step.WriteBranch?) && step.name == r && step.key != r {
      CurrentStage(p, s, step.key);
      assert s.status[r].Produced().Some? ==> Overwriter(p, t, r, j, step.key, s.stage);
    }
  }

  /** Every step keeps the invariant, and the context never loses a key. */
  lemma StepInv(p: Plan, s: State, step: Step)
    requires p.Valid() && StageInv(p, s) && ContextInv(p, s) && Enabled(p, s, step)
    ensures var t := Apply(p, s, step);
            StageInv(p, t) && ContextInv(p, t) && s.context.Keys <= t.context.Keys
  {
    StepStageInv(p, s, step);
    forall j, r | p.InStage(j, r) ensures Kept(p, Apply(p, s, step), j, r) {
      StepKeeps(p, s, step, j, r);
    }
  }

  lemma {:induction false} ExecInv(p: Plan, s: State, steps: seq<Step>)
    requires p.Valid() && StageInv(p, s) && ContextInv(p, s) && Exec(p, s, steps).Some?
    ensures var t := Exec(p, s, steps).value;
            StageInv(p, t) && ContextInv(p, t) && s.context.Keys <= t.context.Keys && s.stage <= t.stage
    decreases |steps|
  {
    if steps != [] {
      StepInv(p, s, steps[0]);
      ExecInv(p, Apply(p, s, steps[0]), steps[1..]);
    }
  }

  // ---------- What a starting field finds in the context ----------

  /**
   A field outside the object may store `r`, or a branch that `r` itself decides on, or another
   field that may run between the start of stage `j` and the start of `k`.
   */
  ghost predicate Clash(p: Plan, j: int, r: string, i: int, k: string) {
    || r in p.outside || r in p.Branched(r)
    || exists c, m :: c != r && c != k && j <= m <= i && p.InStage(m, c) && r in p.Stores(c)
  }

  /** In every run, `r` has ended when `k` can start. */
  ghost predicate AlwaysEnded(p: Plan, r: string, k: string) {
    forall context, steps, s :: Reaches(p, context, steps, s) && Enabled(p, s, Start(k)) ==>
      r in s.status && s.status[r].Finished?
  }

  ghost predicate Sees(s: State, r: string) {
    r in s.status && s.status[r].Finished? && s.status[r].result.Some? ==>
      r in s.context && s.context[r] == s.status[r].result.value
  }

  /** In every run, if `r` has ended with a value when `k` can start, the context has that value for it. */
  ghost predicate AlwaysSees(p: Plan, r: string, k: string) {
    forall context, steps, s :: Reaches(p, context, steps, s) && Enabled(p, s, Start(k)) ==>
      Sees(s, r)
  }

  /** In every run, if `r` has ended with a value when `k` can start, the context has some value for it. */
  ghost predicate AlwaysPresent(p: Plan, r: string, k: string) {
    forall context, steps, s :: Reaches(p, context, steps, s) && Enabled(p, s, Start(k)) ==>
      Present(s, r)
  }

  ghost predicate Present(s: State, r: string) {
    r in s.status && s.status[r].Finished? && s.status[r].result.Some? ==> r in s.context
  }

  lemma AtStart(
      p: Plan, context: map<string, GoValue>, steps: seq<Step>, s: State, k: string, i: int, r: string, j: int)
    requires p.Valid() && p.InStage(j, r) && p.InStage(i, k) && j < i
    requires Reaches(p, context, steps, s) && Enabled(p, s, Start(k))
    ensures s.stage == i && r in s.status && s.status[r].Finished?
    ensures s.status[r].result.Some? ==> r in s.context
    ensures s.status[r].result.Some? && !Clash(p, j, r, i, k) ==> s.context[r] == s.status[r].result.value
  {
    InitialInv(p, context);
    ExecInv(p, Initial(p, context), steps);
    StagesDisjoint(p, s.stage, i, k);
    assert Kept(p, s, j, r);
    if Overwritten(p, s, r, j) { OverwritersClash(p, s, r, j, k, i); }
  }

  lemma OverwritersClash(p: Plan, s: State, r: string, j: int, k: string, i: int)
    requires p.Valid() && StageInv(p, s) && s.stage == i && p.InStage(i, k) && k in s.status && s.status[k].Waiting?
    requires Overwritten(p, s, r, j)
    ensures Clash(p, j, r, i, k)
  {
    var c, m :| Overwriter(p, s, r, j, c, m);
    assert m <= i && c != k;
  }

  // ---------- Building runs ----------

  ghost predicate Quiet(s: State) {
    forall k :: k in s.status ==> s.status[k].Waiting? || s.status[k].Finished?
  }

  /** No field of the current stage has started. */
  ghost predicate Fresh(p: Plan, s: State) {
    forall x :: p.InStage(s.stage, x) ==> x in s.status && s.status[x].Waiting?
  }

  /** `steps` lead from the initial state to the quiet state `s`. */
  ghost predicate Rests(p: Plan, steps: seq<Step>, s: State) {
    Reaches(p, map[], steps, s) && StageInv(p, s) && Quiet(s)
  }

  lemma {:induction false} Extend(p: Plan, from: State, steps: seq<Step>, s: State, step: Step)
    requires Exec(p, from, steps) == Some(s) && Enabled(p, s, step)
    ensures Exec(p, from, steps + [step]) == Some(Apply(p, s, step))
    decreases |steps|
  {
    if steps == [] {
      assert steps + [step] == [step];
      assert [step][1..] == [];
    } else {
      assert (steps + [step])[1..] == steps[1..] + [step];
      Extend(p, Apply(p, from, steps[0]), steps[1..], s, step);
    }
  }

  lemma Take(p: Plan, steps: seq<Step>, s: State, step: Step) returns (steps': seq<Step>, s': State)
    requires p.Valid() && Reaches(p, map[], steps, s) && StageInv(p, s) && Enabled(p, s, step)
    ensures s' == Apply(p, s, step) && Reaches(p, map[], steps', s') && StageInv(p, s')
  {
    Extend(p, Initial(p, map[]), steps, s, step);
    StepStageInv(p, s, step);
    steps', s' := steps + [step], Apply(p, s, step);
  }

  /** Every field is at rest except that `x` is busy. */
  ghost predicate OnlyBusy(p: Plan, steps: seq<Step>, s: State, x: string, busy: Status) {
    && Reaches(p, map[], steps, s) && StageInv(p, s) && s.stage < |p.stages|
    && x in s.status && s.status[x] == busy
    && forall k :: k in s.status && k != x ==> s.status[k].Waiting? || s.status[k].Finished?
  }

  lemma StartField(p: Plan, steps: seq<Step>, s: State, x: string) returns (steps': seq<Step>, s': State)
    requires p.Valid() && Rests(p, steps, s) && p.InStage(s.stage, x) && s.status[x].Waiting?
    ensures OnlyBusy(p, steps', s', x, Running) && s' == s.(status := s.status[x := Running])
  {
    steps', s' := Take(p, steps, s, Start(x));
  }

  lemma WriteField(p: Plan, steps: seq<Step>, s: State, x: string) returns (steps': seq<Step>, s': State)
    requires p.Valid() && OnlyBusy(p, steps, s, x, Running)
    ensures OnlyBusy(p, steps', s', x, Written(GoNil))
    ensures s' == State(s.stage, s.status[x := Written(GoNil)], s.context[x := GoNil])
  {
    steps', s' := Take(p, steps, s, Write(x, GoNil));
  }

  /** After its own value the field stores `true` under a name of a branch, if asked to, and ends. */
  lemma EndField(p: Plan, steps: seq<Step>, s: State, x: string, name: Option<string>)
    returns (steps': seq<Step>, s': State)
    requires p.Valid() && OnlyBusy(p, steps, s, x, Written(GoNil)) && x in s.context && s.context[x] == GoNil
    requires name.Some? ==> name.value in p.Branched(x)
    ensures Rests(p, steps', s')
    ensures s' == State(s.stage, s.status[x := Finished(Some(GoNil))], Marked(s.context, name))
  {
    steps', s' := steps, s;
    if s.stage < |p.stages| - 1 {
      steps', s' := RestoreField(p, steps', s', x);
    }
    if name.Some? {
      steps', s' := BranchWrite(p, steps', s', x, s'.status[x], name.value);
    }
    var busy := s'.status[x];
    steps', s' := FinishField(p, steps', s', x, busy);
    Twice(s.status, x, busy, Finished(Some(GoNil)));
  }

  /** The context after `true` has been stored under the name, if there is one. */
  function Marked(context: map<string, GoValue>, name: Option<string>): map<string, GoValue> {
    if name.Some? then context[name.value := GoBool(true)] else context
  }

  lemma RestoreField(p: Plan, steps: seq<Step>, s: State, x: string) returns (steps': seq<Step>, s': State)
    requires p.Valid() && OnlyBusy(p, steps, s, x, Written(GoNil)) && x in s.context && s.context[x] == GoNil
    requires s.stage < |p.stages| - 1
    ensures OnlyBusy(p, steps', s', x, Restored(GoNil)) && s' == s.(status := s.status[x := Restored(GoNil)])
  {
    steps', s' := Take(p, steps, s, Restore(x));
    assert s.context[x := GoNil] == s.context;
  }

  lemma BranchWrite(p: Plan, steps: seq<Step>, s: State, x: string, busy: Status, name: string)
    returns (steps': seq<Step>, s': State)
    requires p.Valid() && OnlyBusy(p, steps, s, x, busy) && (busy.Written? || busy.Restored?) && name in p.Branched(x)
    ensures OnlyBusy(p, steps', s', x, busy) && s' == s.(context := s.context[name := GoBool(true)])
  {
    steps', s' := Take(p, steps, s, WriteBranch(x, name, GoBool(true)));
  }

  lemma FinishField(p: Plan, steps: seq<Step>, s: State, x: string, busy: Status) returns (steps': seq<Step>, s': State)
    requires p.Valid() && OnlyBusy(p, steps, s, x, busy)
    requires busy == if s.stage < |p.stages| - 1 then Restored(GoNil) else Written(GoNil)
    ensures Rests(p, steps', s') && s' == s.(status := s.status[x := Finished(Some(GoNil))])
  {
    steps', s' := Take(p, steps, s, Finish(x));
  }

  lemma NestedWrite(p: Plan, steps: seq<Step>, s: State, x: string, name: string) returns (steps': seq<Step>, s': State)
    requires p.Valid() && OnlyBusy(p, steps, s, x, Running) && name in p.Nested(x)
    ensures OnlyBusy(p, steps', s', x, Running) && s' == s.(context := s.context[name := GoBool(true)])
  {
    steps', s' := Take(p, steps, s, WriteNested(x, name, GoBool(true)));
  }

  /** Runs one waiting field to its end; if asked to, it stores `true` under a name besides its own. */
  lemma RunField(p: Plan, steps: seq<Step>, s: State, x: string, name: Option<string>)
    returns (steps': seq<Step>, s': State)
    requires p.Valid() && Rests(p, steps, s) && p.InStage(s.stage, x) && s.status[x].Waiting?
    requires name.Some? ==> name.value in p.Branched(x) || (name.value in p.Nested(x) && name.value != x)
    ensures Rests(p, steps', s')
    ensures s' == State(s.stage, s.status[x := Finished(Some(GoNil))], Marked(s.context[x := GoNil], name))
  {
    var late := if name.Some? && name.value in p.Branched(x) then name else None;
    steps', s' := RunToValue(p, steps, s, x, if late.Some? then None else name);
    steps', s' := EndField(p, steps', s', x, late);
    Twice(s.status, x, Written(GoNil), Finished(Some(GoNil)));
  }

  /** Runs a waiting field until it has stored its value. */
  lemma RunToValue(p: Plan, steps: seq<Step>, s: State, x: string, name: Option<string>)
    returns (steps': seq<Step>, s': State)
    requires p.Valid() && Rests(p, steps, s) && p.InStage(s.stage, x) && s.status[x].Waiting?
    requires name.Some? ==> name.value in p.Nested(x) && name.value != x
    ensures OnlyBusy(p, steps', s', x, Written(GoNil))
    ensures s' == State(s.stage, s.status[x := Written(GoNil)], Marked(s.context[x := GoNil], name))
  {
    steps', s' := StartField(p, steps, s, x);
    if name.Some? {
      steps', s' := NestedWrite(p, steps', s', x, name.value);
    }
    steps', s' := WriteField(p, steps', s', x);
    Twice(s.status, x, Running, Written(GoNil));
    MarkedEither(s.context, x, name);
  }

  lemma Twice<K, V>(m: map<K, V>, k: K, v: V, w: V)
    ensures m[k := v][k := w] == m[k := w]
  {
  }

  lemma MarkedEither(context: map<string, GoValue>, x: string, name: Option<string>)
    requires name.Some? ==> name.value != x
    ensures Marked(context, name)[x := GoNil] == Marked(context[x := GoNil], name)
  {
  }

  function WaitingIn(s: State): set<string> {
    set x | x in s.status && s.status[x].Waiting?
  }

  lemma WaitsNoMore(s: State, x: string, ended: Status, t: State)
    requires x in WaitingIn(s) && !ended.Waiting? && t.status == s.status[x := ended]
    ensures WaitingIn(t) == WaitingIn(s) - {x} && WaitingIn(t) < WaitingIn(s)
  {
  }

  lemma StageDone(p: Plan, s: State)
    requires StageInv(p, s) && Quiet(s) && s.stage < |p.stages|
    requires !exists x :: x in p.stages[s.stage] && x in s.status && s.status[x].Waiting?
    ensures Enabled(p, s, Advance)
  {
    forall x | x in p.stages[s.stage] ensures x in s.status && s.status[x].Finished? {
      assert p.InStage(s.stage, x);
    }
  }

  /** From a quiet state a run can go on to any later stage, leaving an ended field's value alone. */
  lemma Proceed(p: Plan, steps: seq<Step>, s: State, target: nat, r: string)
    returns (steps': seq<Step>, s': State)
    requires p.Valid() && Rests(p, steps, s) && s.stage <= target < |p.stages|
    ensures Rests(p, steps', s') && s'.stage == target
    ensures s.stage == target ==> s' == s
    ensures s.stage < target ==> Fresh(p, s')
    ensures forall x :: x in s.status && s.status[x].Finished? ==> x in s'.status && s'.status[x] == s.status[x]
    ensures r in s.status && s.status[r].Finished? && r in s.context ==>
              r in s'.context && s'.context[r] == s.context[r]
    decreases target - s.stage, WaitingIn(s)
  {
    if s.stage == target {
      steps', s' := steps, s;
    } else if x :| x in p.stages[s.stage] && x in s.status && s.status[x].Waiting? {
      assert p.InStage(s.stage, x);
      steps', s' := RunField(p, steps, s, x, None);
      WaitsNoMore(s, x, Finished(Some(GoNil)), s');
      steps', s' := Proceed(p, steps', s', target, r);
    } else {
      StageDone(p, s);
      steps', s' := Take(p, steps, s, Advance);
      steps', s' := Proceed(p, steps', s', target, r);
    }
  }

  lemma Begin(p: Plan) returns (s: State)
    ensures s == Initial(p, map[]) && Rests(p, [], s) && s.stage == 0 && Fresh(p, s)
  {
    InitialInv(p, map[]);
    s := Initial(p, map[]);
  }

  // ---------- The guarantees, exactly ----------

  /** A selected field is certain to have ended before `k` starts exactly when its stage is an earlier one. */
  lemma EndedIffEarlier(p: Plan, r: string, j: int, k: string, i: int)
    requires p.Valid() && p.InStage(j, r) && p.InStage(i, k)
    ensures AlwaysEnded(p, r, k) <==> j < i
  {
    if j < i {
      forall context, steps, s | Reaches(p, context, steps, s) && Enabled(p, s, Start(k))
        ensures r in s.status && s.status[r].Finished?
      {
        AtStart(p, context, steps, s, k, i, r, j);
      }
    } else {
      // Run to stage i at once: neither field has started there.
      var s0 := Begin(p);
      var steps, s := Proceed(p, [], s0, i, r);
      assert Enabled(p, s, Start(k));
      assert !s.status[r].Finished?;
    }
  }

  /**
   A field started in a later stage is certain to find `r`'s own result in the context
   exactly when no field outside the object may store that name, nor a branch `r` decides on,
   nor another field that may run in between.
   */
  lemma SeenIffNoClash(p: Plan, r: string, j: int, k: string, i: int)
    requires p.Valid() && p.InStage(j, r) && p.InStage(i, k) && j < i
    ensures AlwaysSees(p, r, k) <==> !Clash(p, j, r, i, k)
  {
    if !Clash(p, j, r, i, k) {
      forall context, steps, s | Reaches(p, context, steps, s) && Enabled(p, s, Start(k)) ensures Sees(s, r) {
        if r in s.status && s.status[r].Finished? { AtStart(p, context, steps, s, k, i, r, j); }
      }
    } else if r in p.outside {
      var steps, s := OverwrittenFromOutside(p, r, j, k, i);
      assert !Sees(s, r);
    } else if r in p.Branched(r) {
      var steps, s := OverwrittenByItsBranch(p, r, j, k, i);
      assert !Sees(s, r);
    } else {
      var c, m :| c != r && c != k && j <= m <= i && p.InStage(m, c) && r in p.Stores(c);
      var steps, s := OverwritingRun(p, r, j, c, m, k, i);
      assert !Sees(s, r);
    }
  }

  lemma OverwrittenByItsBranch(p: Plan, r: string, j: int, k: string, i: int) returns (steps: seq<Step>, s: State)
    requires p.Valid() && p.InStage(j, r) && p.InStage(i, k) && j < i && r in p.Branched(r)
    ensures Reaches(p, map[], steps, s) && Enabled(p, s, Start(k))
    ensures r in s.status && s.status[r] == Finished(Some(GoNil)) && r in s.context && s.context[r] == GoBool(true)
  {
    s := Begin(p);
    steps, s := Proceed(p, [], s, j, r);
    steps, s := RunField(p, steps, s, r, Some(r));
    steps, s := Proceed(p, steps, s, i, r);
  }

  lemma OverwrittenFromOutside(p: Plan, r: string, j: int, k: string, i: int) returns (steps: seq<Step>, s: State)
    requires p.Valid() && p.InStage(j, r) && p.InStage(i, k) && j < i && r in p.outside
    ensures Reaches(p, map[], steps, s) && Enabled(p, s, Start(k))
    ensures r in s.status && s.status[r] == Finished(Some(GoNil)) && r in s.context && s.context[r] == GoBool(true)
  {
    s := Begin(p);
    steps, s := Proceed(p, [], s, j, r);
    steps, s := RunField(p, steps, s, r, None);
    steps, s := Take(p, steps, s, WriteOutside(r, GoBool(true)));
    steps, s := Proceed(p, steps, s, i, r);
  }

  lemma OverwritingRun(p: Plan, r: string, j: int, c: string, m: int, k: string, i: int)
    returns (steps: seq<Step>, s: State)
    requires p.Valid() && p.InStage(j, r) && p.InStage(i, k) && p.InStage(m, c) && j <= m <= i && j < i
    requires c != r && c != k && r in p.Stores(c)
    ensures Reaches(p, map[], steps, s) && Enabled(p, s, Start(k))
    ensures r in s.status && s.status[r] == Finished(Some(GoNil)) && r in s.context && s.context[r] == GoBool(true)
  {
    s := Begin(p);
    steps, s := Proceed(p, [], s, j, r);
    steps, s := RunField(p, steps, s, r, None);
    steps, s := Proceed(p, steps, s, m, r);
    if k in p.stages[m] { StagesDisjoint(p, m, i, k); }
    steps, s := RunField(p, steps, s, c, Some(r));
    steps, s := Proceed(p, steps, s, i, r);
  }

  // ---------- The plan of a schema ----------

  /** An object without properties runs nothing. */
  function PlanOf(schema: Definition, remaining: seq<string>, outside: set<string>): Plan {
    if schema.properties.NilProperties? then Plan([[]], map[], map[], outside) else
      var stages := Batches(schema, schema.processingOrder) + [remaining];
      Plan(stages,
           map k | k in Range(Flatten(stages)) :: NestedNames(Property(schema, k)),
           map k | k in Range(Flatten(stages)) :: BranchNames(Property(schema, k)),
           outside)
  }

  /**
   Names written into the shared context by the fields nested in an object, at any depth. An
   object for structured output stores them when that fails and it is decomposed after all.
   */
  function NestedNames(d: Definition): set<string> {
    if !d.dataType.Object? || d.properties.NilProperties? then {} else
      d.properties.entries.Keys + Range(d.processingOrder) +
      set k, name | k in d.properties.entries &&
          name in NestedNames(d.properties.entries[k]) + BranchNames(d.properties.entries[k])
        :: name
  }

  /** Names written by the branches of a field's decision point, of which any that has conditions may be taken. */
  function BranchNames(d: Definition): set<string> {
    match d.decisionPoint
    case None => {}
    case Some(point) =>
      (match point.branches
       case NilBranches => {}
       case Branches(branches) =>
         set i, name | 0 <= i < |branches| && Conditional(branches[i].conditions) &&
             name in TopNames(branches[i].thenDef) :: name)
  }

  predicate Conditional(c: Conditions) {
    c.Conditions? && c.conditions != []
  }

  /** The keys of what a definition generates by itself: its fields, and those of the branches they decide on. */
  function TopNames(d: Definition): set<string> {
    if d.properties.NilProperties? then {} else
      d.properties.entries.Keys + Range(d.processingOrder) +
      set k, name | k in d.properties.entries && name in BranchNames(d.properties.entries[k]) :: name
  }

  /** What processing a field of this definition stores besides its own value. */
  function StoredInside(d: Definition): set<string> {
    NestedNames(d) + BranchNames(d)
  }

  lemma PlanValid(schema: Definition, remaining: seq<string>, outside: set<string>)
    requires Distinct(schema.processingOrder) && IsRemaining(schema, remaining)
    ensures PlanOf(schema, remaining, outside).Valid()
  {
    if schema.properties.NilProperties? {
      var stages: seq<seq<string>> := [[]];
      assert stages[1..] == [] && Flatten(stages) == [];
    } else {
      EverythingScheduledOnce(schema, remaining);
      FlattenAppend(Batches(schema, schema.processingOrder), remaining);
    }
  }

  /**
   A branch that `r` decides on stores `r`, or another field that may run after the start of
   batch `j` and before `k` starts stores it.
   */
  ghost predicate Disturbed(schema: Definition, j: int, r: string, i: int, k: string) {
    r in BranchNames(Property(schema, r)) || exists m, c :: Disturber(schema, j, r, i, k, m, c)
  }

  ghost predicate Disturber(schema: Definition, j: int, r: string, i: int, k: string, m: int, c: string) {
    var batches := Batches(schema, schema.processingOrder);
    j <= m <= i < |batches| && 0 <= m && c in batches[m] && c != r && c != k && r in StoredInside(Property(schema, c))
  }

  /** An object batch strictly between two batches with a nested field `r`. */
  ghost predicate ObjectBetween(schema: Definition, j: int, r: string, i: int) {
    exists m, c :: j < m < i && ObjectBatch(schema, m, c) && r in NestedNames(Property(schema, c))
  }

  ghost predicate ObjectBatch(schema: Definition, m: int, c: string) {
    0 <= m < |Batches(schema, schema.processingOrder)| && Batches(schema, schema.processingOrder)[m] == [c] &&
        IsObject(schema, c)
  }

  /** None of the object's own fields has a decision point with conditions. */
  ghost predicate Undecided(schema: Definition) {
    forall k :: k in schema.processingOrder ==> BranchNames(Property(schema, k)) == {}
  }

  /** Position `i` is a regular pass with key `k`, and `r`, which `k` selects, is in batch `j`. */
  ghost predicate Selects(schema: Definition, i: int, k: string, j: int, r: string) {
    var passes := Passes(schema, schema.processingOrder, {});
    && schema.properties.Properties?
    && 0 <= i < |passes| && passes[i].Regular? && k in passes[i].Keys() && r in Dependencies(schema, k)
    && 0 <= j < |passes| && r in passes[j].Keys()
  }

  lemma SelectedEarlier(
      schema: Definition, remaining: seq<string>, outside: set<string>, i: int, k: string, j: int, r: string)
    requires Distinct(schema.processingOrder) && IsRemaining(schema, remaining) && Selects(schema, i, k, j, r)
    ensures var p := PlanOf(schema, remaining, outside); p.Valid() && j < i && p.InStage(j, r) && p.InStage(i, k)
  {
    var passes := Passes(schema, schema.processingOrder, {});
    var p := PlanOf(schema, remaining, outside);
    PlanValid(schema, remaining, outside);
    PassesRespectDependencies(schema, schema.processingOrder, i);
    var n :| 0 <= n < i && r in passes[n].Keys();
    assert p.stages[n] == passes[n].Keys() && p.stages[j] == passes[j].Keys() && p.stages[i] == passes[i].Keys();
    StagesDisjoint(p, n, j, r);
  }

  lemma ClashOfSelection(
      schema: Definition, remaining: seq<string>, outside: set<string>, i: int, k: string, j: int, r: string)
    requires Distinct(schema.processingOrder) && IsRemaining(schema, remaining) && Selects(schema, i, k, j, r)
    ensures Clash(PlanOf(schema, remaining, outside), j, r, i, k) <==> r in outside || Disturbed(schema, j, r, i, k)
  {
    var p := PlanOf(schema, remaining, outside);
    SelectedEarlier(schema, remaining, outside, i, k, j, r);
    StoredByField(schema, remaining, outside, j, r);
    forall c, m | j <= m <= i
      ensures c != r && c != k && p.InStage(m, c) && r in p.Stores(c) <==> Disturber(schema, j, r, i, k, m, c)
    {
      StageIsBatch(schema, remaining, outside, m);
      if c in p.stages[m] { StoredByField(schema, remaining, outside, m, c); }
    }
    if Disturbed(schema, j, r, i, k) && r !in BranchNames(Property(schema, r)) {
      var m, c :| Disturber(schema, j, r, i, k, m, c);
      assert c != r && c != k && p.InStage(m, c) && r in p.Stores(c);
    }
  }

  lemma StoredByField(schema: Definition, remaining: seq<string>, outside: set<string>, m: int, c: string)
    requires schema.properties.Properties? && PlanOf(schema, remaining, outside).InStage(m, c)
    ensures var p := PlanOf(schema, remaining, outside);
            p.Branched(c) == BranchNames(Property(schema, c)) && p.Stores(c) == StoredInside(Property(schema, c))
  {
    FlattenMember(PlanOf(schema, remaining, outside).stages, c);
  }

  lemma StageIsBatch(schema: Definition, remaining: seq<string>, outside: set<string>, m: int)
    requires schema.properties.Properties? && 0 <= m < |Batches(schema, schema.processingOrder)|
    ensures var p := PlanOf(schema, remaining, outside);
            m < |p.stages| && p.stages[m] == Batches(schema, schema.processingOrder)[m]
  {
  }

  /** Without decision points, only an object in a batch between the two is in the way. */
  lemma DisturbedByObjectsOnly(schema: Definition, i: int, k: string, j: int, r: string)
    requires Distinct(schema.processingOrder) && Undecided(schema) && Selects(schema, i, k, j, r)
    ensures Disturbed(schema, j, r, i, k) <==> ObjectBetween(schema, j, r, i)
  {
    SelectedUndecided(schema, i, k, j, r);
    if m, c :| Disturber(schema, j, r, i, k, m, c) {
      DisturberIsObject(schema, i, k, j, r, m, c);
    } else if ObjectBetween(schema, j, r, i) {
      var m, c :| j < m < i && ObjectBatch(schema, m, c) && r in NestedNames(Property(schema, c));
      ObjectDisturbs(schema, i, k, j, r, m, c);
    }
  }

  lemma SelectedUndecided(schema: Definition, i: int, k: string, j: int, r: string)
    requires Distinct(schema.processingOrder) && Undecided(schema) && Selects(schema, i, k, j, r)
    ensures BranchNames(Property(schema, r)) == {}
  {
    SelectedBatches(schema, i, k, j, r);
    BatchKeys(schema, j, r);
  }

  lemma DisturberIsObject(schema: Definition, i: int, k: string, j: int, r: string, m: int, c: string)
    requires Distinct(schema.processingOrder) && Undecided(schema) && Selects(schema, i, k, j, r)
    requires Disturber(schema, j, r, i, k, m, c)
    ensures j < m < i && ObjectBatch(schema, m, c) && r in NestedNames(Property(schema, c))
  {
    BatchKeys(schema, m, c);
    OnlyObjectsNest(schema, c, r);
    SelectedBatches(schema, i, k, j, r);
    ObjectStrictlyBetween(schema, i, k, j, r, m, c);
  }

  lemma SelectedBatches(schema: Definition, i: int, k: string, j: int, r: string)
    requires Selects(schema, i, k, j, r)
    ensures var batches := Batches(schema, schema.processingOrder);
            0 <= i < |batches| && k in batches[i] && 0 <= j < |batches| && r in batches[j]
  {
  }

  lemma ObjectStrictlyBetween(schema: Definition, i: int, k: string, j: int, r: string, m: int, c: string)
    requires var batches := Batches(schema, schema.processingOrder);
             && 0 <= j <= m <= i < |batches|
             && k in batches[i] && r in batches[j] && c in batches[m] && c != r && c != k
    requires IsObject(schema, c)
    ensures j < m < i && ObjectBatch(schema, m, c)
  {
    AloneIfObject(schema, m, c);
    AloneBetween(Batches(schema, schema.processingOrder), i, k, j, r, m, c);
  }

  lemma AloneIfObject(schema: Definition, m: int, c: string)
    requires 0 <= m < |Batches(schema, schema.processingOrder)| && c in Batches(schema, schema.processingOrder)[m]
    requires IsObject(schema, c)
    ensures ObjectBatch(schema, m, c)
  {
    ObjectsAreAlone(schema, schema.processingOrder, m, c);
  }

  lemma {:induction false} AloneBetween(
      batches: seq<seq<string>>, i: int, k: string, j: int, r: string, m: int, c: string)
    requires 0 <= j <= m <= i < |batches| && k in batches[i] && r in batches[j] && c != r && c != k
    requires batches[m] == [c]
    ensures j < m < i
  {
    OnlyMember(batches[m], c, r);
    OnlyMember(batches[m], c, k);
  }

  lemma OnlyObjectsNest(schema: Definition, c: string, r: string)
    requires r in StoredInside(Property(schema, c)) && BranchNames(Property(schema, c)) == {}
    ensures IsObject(schema, c) && r in NestedNames(Property(schema, c))
  {
  }

  lemma ObjectDisturbs(schema: Definition, i: int, k: string, j: int, r: string, m: int, c: string)
    requires Distinct(schema.processingOrder) && Selects(schema, i, k, j, r)
    requires j < m < i && ObjectBatch(schema, m, c) && r in NestedNames(Property(schema, c))
    ensures Disturber(schema, j, r, i, k, m, c)
  {
    InOneBatch(schema, m, j, c, r);
    InOneBatch(schema, m, i, c, k);
  }

  lemma BatchKeys(schema: Definition, m: int, c: string)
    requires Distinct(schema.processingOrder)
    requires 0 <= m < |Batches(schema, schema.processingOrder)| && c in Batches(schema, schema.processingOrder)[m]
    ensures c in schema.processingOrder
  {
    var keys := schema.processingOrder;
    BatchesPermuteKeys(schema, keys);
    FlattenMember(Batches(schema, keys), c);
    SameMembers(Flatten(Batches(schema, keys)), keys);
  }

  lemma InOneBatch(schema: Definition, m: int, n: int, c: string, k: string)
    requires Distinct(schema.processingOrder) && m != n && ObjectBatch(schema, m, c)
    requires 0 <= n < |Batches(schema, schema.processingOrder)| && k in Batches(schema, schema.processingOrder)[n]
    ensures c != k
  {
    var batches := Batches(schema, schema.processingOrder);
    BatchesPermuteKeys(schema, schema.processingOrder);
    DistinctPermutes(schema.processingOrder, Flatten(batches));
    OnlyMember(batches[m], c, c);
    if c == k { DistinctFlatten(batches, m, n, c); }
  }

  lemma OnlyMember(batch: seq<string>, c: string, k: string)
    ensures batch == [c] && k in batch ==> k == c
  {
  }

  /**
   When a key of a regular batch starts, in any interleaving, every field it selects has
   ended, and a value that one of them produced is in the context. It is certain to be the
   value that field produced if and only if no field outside the object may store that name,
   no branch the field decides on does, and no other field processed in a batch from its own
   on stores it before the key starts.
   */
  lemma OrderedFieldFindsItsSelections(
    schema: Definition, remaining: seq<string>, outside: set<string>, i: int, k: string, j: int, r: string)
    requires Distinct(schema.processingOrder) && IsRemaining(schema, remaining) && Selects(schema, i, k, j, r)
    ensures var p := PlanOf(schema, remaining, outside);
            && AlwaysEnded(p, r, k)
            && (AlwaysSees(p, r, k) <==> r !in outside && !Disturbed(schema, j, r, i, k))
    ensures AlwaysPresent(PlanOf(schema, remaining, outside), r, k)
  {
    var p := PlanOf(schema, remaining, outside);
    SelectedEarlier(schema, remaining, outside, i, k, j, r);
    EndedIffEarlier(p, r, j, k, i);
    SeenIffNoClash(p, r, j, k, i);
    ClashOfSelection(schema, remaining, outside, i, k, j, r);
    forall context, steps, s | Reaches(p, context, steps, s) && Enabled(p, s, Start(k)) ensures Present(s, r) {
      AtStart(p, context, steps, s, k, i, r, j);
    }
  }

  /** The remaining keys start only after every ordered key has ended. */
  lemma RemainingStartLast(schema: Definition, remaining: seq<string>, outside: set<string>, k: string, r: string)
    requires Distinct(schema.processingOrder) && IsRemaining(schema, remaining)
    requires k in remaining && r in schema.processingOrder
    ensures AlwaysEnded(PlanOf(schema, remaining, outside), r, k)
    ensures AlwaysPresent(PlanOf(schema, remaining, outside), r, k)
  {
    var p := PlanOf(schema, remaining, outside);
    PlanValid(schema, remaining, outside);
    assert k in Range(remaining);
    var j := EveryKeyHasABatch(schema, schema.processingOrder, r);
    assert p.InStage(j, r) && p.InStage(|p.stages| - 1, k);
    EndedIffEarlier(p, r, j, k, |p.stages| - 1);
    forall context, steps, s | Reaches(p, context, steps, s) && Enabled(p, s, Start(k)) ensures Present(s, r) {
      AtStart(p, context, steps, s, k, |p.stages| - 1, r, j);
    }
  }
}
