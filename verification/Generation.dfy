/**
 A whole generation: the fields of the root schema run, their flat results arrive in any
 order, and the assembler puts them together.
 */
module Generation {
  import opened Wrappers
  import opened JsonSchema
  import Engine
  import Totals
  import P = PathAssembler
  import S = StructuredOutput

  /** Prompt and completion tokens that a leaf reports besides its total; the engine does not add them up. */
  type Split = string -> (int, int)

  /** What a field of the root hands on: its value under its own one-element path. */
  function FlatResult(f: Engine.FieldRun, split: Split): seq<Option<P.TaskResult>> {
    match Engine.Result(f.run)
    case NoResult => []
    case Got(v, m) =>
      var (prompt, completion) := split(f.slot);
      [Some(P.TaskResult(f.slot, [f.slot], v, Some(P.Metadata(m.tokens, prompt, completion, m.cost, 0)), None))]
  }

  /** The flat results in the order the fields were collected. */
  function FlatResults(fields: seq<Engine.FieldRun>, split: Split): seq<Option<P.TaskResult>> {
    if fields == [] then []
    else FlatResults(fields[..|fields| - 1], split) + FlatResult(fields[|fields| - 1], split)
  }

  /** The results can be assembled, into the collected object, with its totals and one count per value. */
  ghost predicate Gives(s: seq<P.Success>, c: Engine.Collected) {
    && P.Placed(s) && P.Writable(s) && P.Data(s) == c.results
    && P.Totals(s).tokens == c.metadata.tokens && P.Totals(s).cost == c.metadata.cost
    && P.Totals(s).fieldCount == |s|
  }

  lemma OneMoreGives(s: seq<P.Success>, c: Engine.Collected, key: string, v: GoValue, m: P.Metadata)
    requires Gives(s, c)
    ensures Gives(s + [P.Success([key], P.FieldResult(v, Some(m)))],
                  Engine.Collected(c.results[key := v], c.metadata.Add(Engine.Metadata(m.tokens, m.cost))))
  {
    var x := P.Success([key], P.FieldResult(v, Some(m)));
    P.OneMore(s, x);
    assert (s + [x])[..|s|] == s;
  }

  lemma FlatSuccess(f: Engine.FieldRun, split: Split)
    ensures var (prompt, completion) := split(f.slot);
            P.Successes(FlatResult(f, split)) ==
            match Engine.Result(f.run)
            case NoResult => []
            case Got(v, m) => [P.Success([f.slot],
                P.FieldResult(v, Some(P.Metadata(m.tokens, prompt, completion, m.cost, 0))))]
  {
    var r := FlatResult(f, split);
    if r != [] {
      assert r == [r[0]] && r[..0] == [];
      assert P.Successes(r) == P.Successes([]) + P.SuccessOf(r[0]);
    }
  }

  /** Assembling the flat results gives what collecting the fields gives. */
  lemma {:induction false} FlatAssembles(fields: seq<Engine.FieldRun>, split: Split)
    ensures Gives(P.Successes(FlatResults(fields, split)), Engine.Collect(fields))
    decreases |fields|
  {
    if fields != [] {
      var n := |fields| - 1;
      FlatAssembles(fields[..n], split);
      OneFieldMore(fields, split);
    }
  }

  lemma OneFieldMore(fields: seq<Engine.FieldRun>, split: Split)
    requires fields != []
    requires Gives(P.Successes(FlatResults(fields[..|fields| - 1], split)), Engine.Collect(fields[..|fields| - 1]))
    ensures Gives(P.Successes(FlatResults(fields, split)), Engine.Collect(fields))
  {
    var n := |fields| - 1;
    var f, before, c := fields[n], FlatResults(fields[..n], split), Engine.Collect(fields[..n]);
    P.SuccessesConcat(before, FlatResult(f, split));
    FlatSuccess(f, split);
    assert Engine.Collect(fields) == Engine.CollectOne(c, f.slot, Engine.Result(f.run));
    match Engine.Result(f.run)
    case NoResult => assert P.Successes(before) + [] == P.Successes(before);
    case Got(v, m) =>
      var (prompt, completion) := split(f.slot);
      OneMoreGives(P.Successes(before), c, f.slot, v, P.Metadata(m.tokens, prompt, completion, m.cost, 0));
  }

  /**
   For a complete schema, if every leaf has a value, then whatever the order of completion:
   assembling succeeds, its tree fits the JSON Schema of the same definition, and the reported
   tokens and cost, with what retried empty answers used, are the sums over all provider calls.
   */
  lemma GenerationIsSound(run: Engine.Run, d: Definition, split: Split)
    requires d.dataType.Object? && Engine.Supported(d) && Engine.Complete(d) && Engine.GoodRunOf(run, d)
    ensures var s := P.Successes(FlatResults(run.fields, split));
            && P.Writable(s)
            && S.Validates(GoMap(P.Data(s)), S.DefinitionToJSONSchema(d))
            && Engine.Metadata(P.Totals(s).tokens, P.Totals(s).cost).Add(Totals.Retried(run)) == Totals.Spent(run)
    ensures Totals.NoRetries(run) ==> Totals.Retried(run) == Engine.NoCost
  {
    FlatAssembles(run.fields, split);
    Totals.NothingLost(run, d);
    Engine.CompleteAgrees(run, d);
  }
}
