/**
 Generating a value field by field. A `Run` is one execution of the engine on a definition:
 a tree of calls that records, at every object and array, the order in which the results
 arrived. Nothing is assumed about that order, so the lemmas hold for every interleaving.

 Decision points, loops, byte fields and the structured-output shortcut are not part of it.
 */
module Engine {
  import opened Wrappers
  import opened JsonSchema
  import opened Sequences
  import opened StructuredOutput

  // ---------- Results ----------

  datatype Metadata = Metadata(tokens: int, cost: real) {
    function Add(other: Metadata): Metadata {
      Metadata(tokens + other.tokens, cost + other.cost)
    }
  }

  const NoCost := Metadata(0, 0.0)

  datatype Outcome =
    | NoResult                                   // the field yields nothing
    | Got(value: GoValue, metadata: Metadata)

  // ---------- Array sizes ----------

  /** What the sizing call of an array came to. */
  datatype Sizing =
    | SizingFailed
    | Listed(count: Option<int>, listIsEmpty: bool, numberedLines: nat)

  const MAX_ITEMS := 100
  const DEFAULT_ITEMS := 3

  function ArraySize(sizing: Sizing): (n: nat)
    ensures n <= MAX_ITEMS
  {
    match sizing
    case SizingFailed => DEFAULT_ITEMS
    case Listed(count, listIsEmpty, numberedLines) =>
      var numItems := if count.Some? then count.value else -1;
      var counted :=
        if numItems == -1 || (numItems > 0 && listIsEmpty) then
          if numberedLines > 0 then numberedLines else if numItems == -1 then DEFAULT_ITEMS else numItems
        else numItems;
      if counted < 0 then 0 else if counted > MAX_ITEMS then MAX_ITEMS else counted
  }

  // ---------- Leaves ----------

  /** How one provider call of a leaf ends, and what it used. */
  datatype Answer =
    | CallFailed
    | Empty(value: GoValue, used: Metadata)  // nothing, or a blank string: asked again
    | Full(value: GoValue, used: Metadata)

  const MAX_RETRIES := 3

  /** The calls of one leaf: it goes on while the answers are empty, at most three times more. */
  predicate IsAttempts(answers: seq<Answer>) {
    && 1 <= |answers| <= MAX_RETRIES + 1
    && (forall i :: 0 <= i < |answers| - 1 ==> answers[i].Empty?)
    && (|answers| <= MAX_RETRIES ==> !answers[|answers| - 1].Empty?)
  }

  /** The last call decides. */
  function LeafOutcome(answers: seq<Answer>): Outcome {
    if answers == [] || answers[|answers| - 1].CallFailed? then NoResult
    else Got(answers[|answers| - 1].value, answers[|answers| - 1].used)
  }

  /** The retry loop; `provider` are the answers it would get, of which it asks for `calls`. */
  method GenerateValue(provider: seq<Answer>) returns (outcome: Outcome, calls: nat)
    requires |provider| == MAX_RETRIES + 1
    ensures calls <= |provider| && IsAttempts(provider[..calls]) && outcome == LeafOutcome(provider[..calls])
    ensures 1 <= calls && forall i :: 0 <= i < calls - 1 ==> provider[i].Empty?
    ensures calls < |provider| ==> !provider[calls - 1].Empty?
    ensures outcome == match provider[calls - 1]
                       case CallFailed => NoResult
                       case Empty(value, used) => Got(value, used)
                       case Full(value, used) => Got(value, used)
  {
    outcome, calls := NoResult, 0;
    for attempt := 0 to MAX_RETRIES + 1
      invariant calls == attempt && forall i :: 0 <= i < attempt ==> provider[i].Empty?
      invariant attempt > 0 ==> outcome == LeafOutcome(provider[..attempt])
    {
      calls := attempt + 1;
      assert provider[..calls][attempt] == provider[attempt];
      if provider[attempt].CallFailed? { return NoResult, calls; }
      outcome := Got(provider[attempt].value, provider[attempt].used);
      if provider[attempt].Full? { return; }
    }
    assert provider[..calls] == provider;
  }

  // ---------- Runs ----------

  datatype Run =
    | LeafRun(answers: seq<Answer>)                     // the provider calls, in order
    | ObjectRun(fields: seq<FieldRun>)                  // in the order they were collected
    | ArrayRun(sizing: Sizing, arrivals: seq<ItemRun>)  // in the order they arrived
    | NoItemsRun                                        // an array without an item definition

  /** The run of one field under its key, or of one item under its index. */
  datatype Part<S> = Part(slot: S, run: Run)

  type FieldRun = Part<string>

  type ItemRun = Part<int>

  function Slots<S>(parts: seq<Part<S>>): seq<S> {
    seq(|parts|, i requires 0 <= i < |parts| => parts[i].slot)
  }

  /** The keys an object's fields are scheduled under. */
  function ScheduledKeys(d: Definition): set<string> {
    if d.properties.NilProperties? then {} else d.properties.entries.Keys + Range(d.processingOrder)
  }

  /** Each index below `n` arrives exactly once. */
  ghost predicate EachOnce(arrivals: seq<ItemRun>, n: nat) {
    Distinct(Slots(arrivals)) && forall i :: i in Slots(arrivals) <==> 0 <= i < n
  }

  /** What a primitive call returns once it is parsed. */
  predicate Parsed(t: DataType, v: GoValue) {
    match t
    case String => v.GoString?
    case Number => v.GoInt?
    case Integer => v.GoInt?
    case Boolean => v.GoBool?
    case _ => true
  }

  /** `run` is an execution of the engine on `d`: every scheduled field and every item runs once. */
  ghost predicate IsRunOf(run: Run, d: Definition) {
    match d.dataType
    case Object =>
      && run.ObjectRun?
      && Distinct(Slots(run.fields)) && Range(Slots(run.fields)) == ScheduledKeys(d)
      && forall f :: f in run.fields ==> IsRunOf(f.run, Property(d, f.slot))
    case Array =>
      if d.items.None? then run.NoItemsRun? else
        && run.ArrayRun?
        && EachOnce(run.arrivals, ArraySize(run.sizing))
        && forall a :: a in run.arrivals ==> IsRunOf(a.run, d.items.value)
    case t =>
      && run.LeafRun? && IsAttempts(run.answers)
      && var o := LeafOutcome(run.answers); (o.Got? ==> Parsed(t, o.value))
  }

  ghost predicate LeavesSucceed(run: Run) {
    match run
    case LeafRun(answers) => LeafOutcome(answers).Got?
    case ObjectRun(fields) => forall f :: f in fields ==> LeavesSucceed(f.run)
    case ArrayRun(_, arrivals) => forall a :: a in arrivals ==> LeavesSucceed(a.run)
    case NoItemsRun => true
  }

  // ---------- What a run produces ----------

  datatype Collected = Collected(results: map<string, GoValue>, metadata: Metadata)

  datatype Gathered =
    | ItemFailed
    | Gathered(values: seq<GoValue>, metadata: Metadata)

  function Result(run: Run): Outcome {
    match run
    case LeafRun(answers) => LeafOutcome(answers)
    case ObjectRun(fields) => var c := Collect(fields); Got(GoMap(c.results), c.metadata)
    case ArrayRun(sizing, arrivals) =>
      (match Gather(arrivals, ArraySize(sizing))
       case ItemFailed => NoResult
       case Gathered(values, metadata) => Got(GoList(values), metadata))
    case NoItemsRun => NoResult
  }

  function CollectOne(c: Collected, key: string, o: Outcome): Collected {
    match o
    case NoResult => c
    case Got(v, m) => Collected(c.results[key := v], c.metadata.Add(m))
  }

  /** The collector's map and totals after the fields in order. */
  function Collect(fields: seq<FieldRun>): Collected {
    if fields == [] then Collected(map[], NoCost) else
      var last := fields[|fields| - 1];
      assert last in fields && last.run < last;
      CollectOne(Collect(fields[..|fields| - 1]), last.slot, Result(last.run))
  }

  function GatherOne(g: Gathered, index: int, o: Outcome): Gathered {
    if g.ItemFailed? || o.NoResult? || !(0 <= index < |g.values|) then ItemFailed
    else Gathered(g.values[index := o.value], g.metadata.Add(o.metadata))
  }

  /** The collected items after the arrivals in order; the first failed item fails the array. */
  function Gather(arrivals: seq<ItemRun>, size: nat): (g: Gathered)
    ensures g.Gathered? ==> |g.values| == size
  {
    if arrivals == [] then Gathered(seq(size, _ => GoNil), NoCost) else
      var last := arrivals[|arrivals| - 1];
      assert last in arrivals && last.run < last;
      GatherOne(Gather(arrivals[..|arrivals| - 1], size), last.slot, Result(last.run))
  }

  // ---------- The collecting loops ----------

  datatype TaskResult = TaskResult(key: string, value: GoValue, metadata: Option<Metadata>)

  /** The collector of an object: a map and running totals, changed under a lock. */
  class MapCollector {
    var results: map<string, GoValue>
    var metadata: Metadata

    constructor ()
      ensures results == map[] && metadata == NoCost
    {
      results, metadata := map[], NoCost;
    }

    method Collect(batch: seq<Option<TaskResult>>)
      modifies this
      ensures Collected(results, metadata) == AfterAll(old(Collected(results, metadata)), batch)
    {
      for n := 0 to |batch|
        invariant Collected(results, metadata) == AfterAll(old(Collected(results, metadata)), batch[..n])
      {
        assert batch[..n + 1][..n] == batch[..n];
        if batch[n].Some? {
          var r := batch[n].value;
          results := results[r.key := r.value];
          if r.metadata.Some? {
            metadata := metadata.Add(r.metadata.value);
          }
        }
      }
      assert batch[..|batch|] == batch;
    }
  }

  function AfterAll(c: Collected, batch: seq<Option<TaskResult>>): Collected {
    if batch == [] then c else
      var before := AfterAll(c, batch[..|batch| - 1]);
      match batch[|batch| - 1]
      case None => before
      case Some(r) => Collected(before.results[r.key := r.value],
                                if r.metadata.Some? then before.metadata.Add(r.metadata.value) else before.metadata)
  }

  /** What a field hands to the collector. */
  function HandedOver(key: string, o: Outcome): seq<Option<TaskResult>> {
    match o
    case NoResult => []
    case Got(v, m) => [Some(TaskResult(key, v, Some(m)))]
  }

  /** Collecting the fields one after another, in any order of arrival, gives `Collect`. */
  method CollectFields(fields: seq<FieldRun>) returns (collector: MapCollector)
    ensures fresh(collector) && Collected(collector.results, collector.metadata) == Collect(fields)
  {
    collector := new MapCollector();
    for n := 0 to |fields|
      invariant fresh(collector) && Collected(collector.results, collector.metadata) == Collect(fields[..n])
    {
      assert fields[..n + 1][..n] == fields[..n];
      var batch := HandedOver(fields[n].slot, Result(fields[n].run));
      assert batch != [] ==> batch[..0] == [];
      collector.Collect(batch);
    }
    assert fields[..|fields|] == fields;
  }

  /** The fan-in loop of an array: a slot for each index, filled as items arrive. */
  method CollectItems(size: nat, arrivals: seq<ItemRun>) returns (outcome: Outcome)
    requires EachOnce(arrivals, size)
    ensures outcome == match Gather(arrivals, size) case ItemFailed => NoResult case Gathered(v, m) => Got(GoList(v), m)
  {
    var collectedResults := new GoValue[size](_ => GoNil);
    var total := NoCost;
    assert collectedResults[..] == seq(size, _ => GoNil);
    for n := 0 to |arrivals|
      invariant Gather(arrivals[..n], size) == Gathered(collectedResults[..], total)
    {
      assert arrivals[..n + 1][..n] == arrivals[..n];
      var item := arrivals[n];
      assert Slots(arrivals)[n] == item.slot && item.slot in Slots(arrivals);
      var o := Result(item.run);
      if o.NoResult? {
        GatherFails(size, arrivals, n + 1);
        return NoResult;
      }
      collectedResults[item.slot] := o.value;
      total := total.Add(o.metadata);
    }
    assert arrivals[..|arrivals|] == arrivals;
    outcome := Got(GoList(collectedResults[..]), total);
  }

  /** Once an item has failed, what arrives later changes nothing. */
  lemma {:induction false} GatherFails(size: nat, arrivals: seq<ItemRun>, n: nat)
    requires n <= |arrivals| && Gather(arrivals[..n], size).ItemFailed?
    ensures Gather(arrivals, size).ItemFailed?
    decreases |arrivals| - n
  {
    if n < |arrivals| {
      assert arrivals[..n + 1][..n] == arrivals[..n];
      GatherFails(size, arrivals, n + 1);
    } else {
      assert arrivals[..n] == arrivals;
    }
  }

  // ---------- What is collected, whatever the order ----------

  function MetadataOf(o: Outcome): Metadata {
    if o.Got? then o.metadata else NoCost
  }

  function Sum<S>(parts: seq<Part<S>>): Metadata {
    if parts == [] then NoCost
    else Sum(parts[..|parts| - 1]).Add(MetadataOf(Result(parts[|parts| - 1].run)))
  }

  /** The keys of the fields that produced a value. */
  function ProducedKeys(fields: seq<FieldRun>): set<string> {
    set f | f in fields && Result(f.run).Got? :: f.slot
  }

  lemma {:induction false} CollectKeys(fields: seq<FieldRun>)
    ensures Collect(fields).results.Keys == ProducedKeys(fields)
    ensures Collect(fields).metadata == Sum(fields)
    decreases |fields|
  {
    if fields != [] {
      var n := |fields| - 1;
      CollectKeys(fields[..n]);
      ProducedLast(fields);
    }
  }

  lemma ProducedLast(fields: seq<FieldRun>)
    requires fields != []
    ensures var last := fields[|fields| - 1];
            ProducedKeys(fields) == ProducedKeys(fields[..|fields| - 1]) +
                (if Result(last.run).Got? then {last.slot} else {})
  {
    var last := fields[|fields| - 1];
    assert fields == fields[..|fields| - 1] + [last];
    assert forall f :: f in fields <==> f in fields[..|fields| - 1] || f == last;
  }

  lemma {:induction false} CollectValues(fields: seq<FieldRun>, i: nat)
    requires Distinct(Slots(fields)) && i < |fields| && Result(fields[i].run).Got?
    ensures fields[i].slot in Collect(fields).results
    ensures Collect(fields).results[fields[i].slot] == Result(fields[i].run).value
    decreases |fields|
  {
    var n := |fields| - 1;
    if i < n {
      assert Slots(fields[..n]) == Slots(fields)[..n];
      assert Slots(fields)[i] != Slots(fields)[n];
      CollectValues(fields[..n], i);
    }
  }

  /** An object holds exactly the fields that produced a value, and the totals are their sums. */
  lemma CollectExact(fields: seq<FieldRun>)
    requires Distinct(Slots(fields))
    ensures var c := Collect(fields);
            && c.results.Keys == ProducedKeys(fields) && c.metadata == Sum(fields)
            && forall f :: f in fields && Result(f.run).Got? ==>
                 f.slot in c.results && c.results[f.slot] == Result(f.run).value
  {
    CollectKeys(fields);
    forall f | f in fields && Result(f.run).Got?
      ensures f.slot in Collect(fields).results && Collect(fields).results[f.slot] == Result(f.run).value
    {
      var i :| 0 <= i < |fields| && fields[i] == f;
      CollectValues(fields, i);
    }
  }

  /** If every item has a value the array holds item `i`'s value at position `i`; otherwise it fails. */
  lemma {:induction false} GatherExact(arrivals: seq<ItemRun>, size: nat)
    requires Distinct(Slots(arrivals)) && forall a :: a in arrivals ==> 0 <= a.slot < size
    ensures var g := Gather(arrivals, size);
            && (g.Gathered? <==> forall a :: a in arrivals ==> Result(a.run).Got?)
            && (g.Gathered? ==>
                 && g.metadata == Sum(arrivals)
                 && forall a :: a in arrivals ==> g.values[a.slot] == Result(a.run).value)
    decreases |arrivals|
  {
    if arrivals != [] {
      var n := |arrivals| - 1;
      assert Slots(arrivals[..n]) == Slots(arrivals)[..n];
      GatherExact(arrivals[..n], size);
      assert arrivals == arrivals[..n] + [arrivals[n]];
      var before, g := Gather(arrivals[..n], size), Gather(arrivals, size);
      if g.Gathered? {
        forall a | a in arrivals ensures g.values[a.slot] == Result(a.run).value {
          if a in arrivals[..n] {
            var i :| 0 <= i < n && arrivals[i] == a;
            assert Slots(arrivals)[i] != Slots(arrivals)[n];
          }
        }
      }
    }
  }

  /** A successful array has between 0 and 100 items, item `i`'s value at position `i`, in any order of arrival. */
  lemma ArrayKeepsPositions(run: Run, d: Definition)
    requires d.dataType.Array? && IsRunOf(run, d) && Result(run).Got?
    ensures run.ArrayRun? && Result(run).value.GoList?
    ensures |Result(run).value.items| == ArraySize(run.sizing) == |run.arrivals| <= MAX_ITEMS
    ensures forall a :: a in run.arrivals ==>
              0 <= a.slot < |Result(run).value.items| && Result(a.run).Got? &&
              Result(run).value.items[a.slot] == Result(a.run).value
  {
    var size := ArraySize(run.sizing);
    InRange(run.arrivals, size);
    GatherExact(run.arrivals, size);
  }

  lemma InRange(arrivals: seq<ItemRun>, size: nat)
    requires EachOnce(arrivals, size)
    ensures forall a :: a in arrivals ==> 0 <= a.slot < size
    ensures |arrivals| == size
  {
    forall a | a in arrivals ensures 0 <= a.slot < size {
      var i :| 0 <= i < |arrivals| && arrivals[i] == a;
      assert Slots(arrivals)[i] in Slots(arrivals);
    }
    DistinctRangeSize(Slots(arrivals));
    assert Range(Slots(arrivals)) == UpTo(size);
  }

  function UpTo(n: nat): (s: set<int>)
    ensures |s| == n && forall i :: i in s <==> 0 <= i < n
  {
    if n == 0 then {} else UpTo(n - 1) + {n - 1}
  }

  // ---------- The order of completion does not matter ----------

  /** The same fields collected in another order give the same object and the same totals. */
  lemma CollectAnyOrder(a: seq<FieldRun>, b: seq<FieldRun>)
    requires multiset(a) == multiset(b) && Distinct(Slots(a)) && Distinct(Slots(b))
    ensures Collect(a) == Collect(b)
  {
    CollectExact(a);
    CollectExact(b);
    SameMembers(a, b);
    SumAnyOrder(a, b);
    assert ProducedKeys(a) == ProducedKeys(b);
    assert Collect(a).results == Collect(b).results;
  }

  /** The same items arriving in another order give the same array and the same totals, or fail alike. */
  lemma GatherAnyOrder(a: seq<ItemRun>, b: seq<ItemRun>, size: nat)
    requires multiset(a) == multiset(b) && EachOnce(a, size) && EachOnce(b, size)
    ensures Gather(a, size) == Gather(b, size)
  {
    InRange(a, size);
    InRange(b, size);
    GatherExact(a, size);
    GatherExact(b, size);
    SameMembers(a, b);
    SumAnyOrder(a, b);
    if Gather(a, size).Gathered? {
      forall i | 0 <= i < size ensures Gather(a, size).values[i] == Gather(b, size).values[i] {
        assert i in Slots(a);
        var n :| 0 <= n < |a| && Slots(a)[n] == i;
        assert a[n] in a && a[n] in b;
      }
      assert Gather(a, size).values == Gather(b, size).values;
    }
  }

  lemma {:induction false} SumAnyOrder<L>(a: seq<Part<L>>, b: seq<Part<L>>)
    requires multiset(a) == multiset(b)
    ensures Sum(a) == Sum(b)
    decreases |a|
  {
    if a == [] {
      assert |multiset(b)| == 0;
    } else {
      var i := TakeOut(a, b);
      SumAnyOrder(a[..|a| - 1], b[..i] + b[i + 1..]);
      SumOneMore(a, b, i);
    }
  }

  lemma SumOneMore<L>(a: seq<Part<L>>, b: seq<Part<L>>, i: nat)
    requires a != [] && i < |b| && a[|a| - 1] == b[i] && Sum(a[..|a| - 1]) == Sum(b[..i] + b[i + 1..])
    ensures Sum(a) == Sum(b)
  {
    SumTakenOut(b, i);
    SumLast(a);
  }

  lemma SumLast<L>(a: seq<Part<L>>)
    requires a != []
    ensures Sum(a) == Sum(a[..|a| - 1]).Add(MetadataOf(Result(a[|a| - 1].run)))
  {
  }

  lemma SumTakenOut<L>(b: seq<Part<L>>, i: nat)
    requires i < |b|
    ensures Sum(b) == Sum(b[..i] + b[i + 1..]).Add(MetadataOf(Result(b[i].run)))
  {
    SplitAt(b, i);
    SumInsert(b[..i], b[i], b[i + 1..], b);
  }

  lemma {:induction false} SumInsert<L>(a: seq<Part<L>>, x: Part<L>, b: seq<Part<L>>, whole: seq<Part<L>>)
    requires whole == a + [x] + b
    ensures Sum(whole) == Sum(a + b).Add(MetadataOf(Result(x.run)))
    decreases |b|
  {
    if b == [] {
      assert whole[..|a|] == a && a + b == a;
    } else {
      var m := |b| - 1;
      assert whole[..|whole| - 1] == a + [x] + b[..m];
      assert (a + b)[..|a| + m] == a + b[..m];
      SumInsert(a, x, b[..m], whole[..|whole| - 1]);
    }
  }

  // ---------- The two paths agree on shape ----------

  /** The definitions this engine model covers: six types, a plain processing order, no other machinery. */
  ghost predicate Supported(d: Definition) {
    && (d.dataType.Object? || d.dataType.Array? || d.dataType.String? || d.dataType.Number? || d.dataType.Integer? ||
        d.dataType.Boolean?)
    && !d.structuredOutput && d.decisionPoint.None? && d.recursiveLoop.None?
    && d.textToSpeech.None? && d.speechToText.None? && d.image.None?
    && Distinct(d.processingOrder)
    && (d.properties.Properties? ==> forall k :: k in d.properties.entries ==> Supported(d.properties.entries[k]))
    && (d.items.Some? ==> Supported(d.items.value))
  }

  /** Every array that can be generated has an item definition, and every order names only properties. */
  ghost predicate Complete(d: Definition) {
    match d.dataType
    case Object =>
      (match d.properties
       case NilProperties => true
       case Properties(entries) =>
         && (forall k :: k in d.processingOrder ==> k in entries)
         && forall k :: k in entries ==> Complete(entries[k]))
    case Array => d.items.Some? && Complete(d.items.value)
    case _ => true
  }

  /** The generated value exists and fits the schema of the same definition. */
  ghost predicate Agrees(run: Run, d: Definition) {
    Result(run).Got? && Validates(Result(run).value, DefinitionToJSONSchema(d))
  }

  ghost predicate AlwaysAgrees(d: Definition) {
    forall run :: IsRunOf(run, d) && LeavesSucceed(run) ==> Agrees(run, d)
  }

  lemma {:induction false} CompleteAgrees(run: Run, d: Definition)
    requires Supported(d) && Complete(d) && IsRunOf(run, d) && LeavesSucceed(run)
    ensures Agrees(run, d)
    decreases run
  {
    match d.dataType
    case Object =>
      forall f | f in run.fields
        ensures f.slot in Entries(d.properties) && Agrees(f.run, Entries(d.properties)[f.slot])
      {
        var i :| 0 <= i < |run.fields| && run.fields[i] == f;
        assert Slots(run.fields)[i] in Range(Slots(run.fields));
        CompleteAgrees(f.run, Entries(d.properties)[f.slot]);
      }
      ObjectAgrees(run, d);
    case Array =>
      InRange(run.arrivals, ArraySize(run.sizing));
      forall a | a in run.arrivals ensures Agrees(a.run, d.items.value) {
        CompleteAgrees(a.run, d.items.value);
      }
      ArrayAgrees(run, d);
    case _ =>
  }

  /** An object whose fields all agree agrees. */
  lemma ObjectAgrees(run: Run, d: Definition)
    requires d.dataType.Object? && IsRunOf(run, d)
    requires forall f :: f in run.fields ==>
               f.slot in Entries(d.properties) && Agrees(f.run, Entries(d.properties)[f.slot])
    ensures Agrees(run, d)
  {
    var results := Collect(run.fields).results;
    forall k | k in ScheduledKeys(d) ensures k in results { AgreeingFieldPresent(run.fields, d, k); }
    forall k | k in results
      ensures k in Entries(d.properties) && Validates(results[k], DefinitionToJSONSchema(Entries(d.properties)[k]))
    {
      AgreeingFieldValid(run.fields, d, k);
    }
    ValidObject(results, d);
  }

  lemma AgreeingFieldPresent(fields: seq<FieldRun>, d: Definition, k: string)
    requires Distinct(Slots(fields)) && k in Range(Slots(fields))
    requires forall f :: f in fields ==> f.slot in Entries(d.properties) && Agrees(f.run, Entries(d.properties)[f.slot])
    ensures k in Collect(fields).results
  {
    CollectExact(fields);
    var f := HasField(fields, k);
    assert Agrees(f.run, Entries(d.properties)[f.slot]);
  }

  lemma AgreeingFieldValid(fields: seq<FieldRun>, d: Definition, k: string)
    requires Distinct(Slots(fields)) && k in Collect(fields).results
    requires forall f :: f in fields ==> f.slot in Entries(d.properties) && Agrees(f.run, Entries(d.properties)[f.slot])
    ensures k in Entries(d.properties)
    ensures Validates(Collect(fields).results[k], DefinitionToJSONSchema(Entries(d.properties)[k]))
  {
    CollectExact(fields);
    var f :| f in fields && Result(f.run).Got? && f.slot == k;
    assert Agrees(f.run, Entries(d.properties)[f.slot]);
  }

  /** A map with valid values under exactly the property names is valid. */
  lemma ValidObject(results: map<string, GoValue>, d: Definition)
    requires d.dataType.Object? && forall k :: k in ScheduledKeys(d) ==> k in results
    requires forall k :: k in results ==>
               k in Entries(d.properties) && Validates(results[k], DefinitionToJSONSchema(Entries(d.properties)[k]))
    ensures Validates(GoMap(results), DefinitionToJSONSchema(d))
  {
  }

  /** An array whose items all agree agrees. */
  lemma ArrayAgrees(run: Run, d: Definition)
    requires d.dataType.Array? && d.items.Some? && IsRunOf(run, d)
    requires forall a :: a in run.arrivals ==> Agrees(a.run, d.items.value)
    ensures Agrees(run, d)
  {
    var size := ArraySize(run.sizing);
    InRange(run.arrivals, size);
    GatherExact(run.arrivals, size);
    var values := Gather(run.arrivals, size).values;
    forall x | x in values ensures Validates(x, DefinitionToJSONSchema(d.items.value)) {
      var i :| 0 <= i < |values| && values[i] == x;
      assert i in Slots(run.arrivals);
      var n :| 0 <= n < |run.arrivals| && Slots(run.arrivals)[n] == i;
      assert run.arrivals[n] in run.arrivals;
    }
  }

  // Completeness is needed: an incomplete definition has a run that breaks its own schema.

  ghost predicate GoodRunOf(run: Run, d: Definition) {
    IsRunOf(run, d) && LeavesSucceed(run)
  }

  function ParsedValue(t: DataType): (v: GoValue)
    ensures Parsed(t, v)
  {
    match t
    case Number => GoInt(0)
    case Integer => GoInt(0)
    case Boolean => GoBool(false)
    case _ => GoString("")
  }

  function UsedIn(a: Answer): Metadata {
    if a.CallFailed? then NoCost else a.used
  }

  /** No leaf asks twice, and none uses anything. */
  ghost predicate Free(run: Run) {
    match run
    case LeafRun(answers) => |answers| == 1 && UsedIn(answers[0]) == NoCost
    case ObjectRun(fields) => forall f :: f in fields ==> Free(f.run)
    case ArrayRun(_, arrivals) => forall a :: a in arrivals ==> Free(a.run)
    case NoItemsRun => true
  }

  lemma FreeLeaf(t: DataType) returns (run: Run)
    ensures run == LeafRun([Full(ParsedValue(t), NoCost)]) && LeavesSucceed(run) && Free(run)
  {
    run := LeafRun([Full(ParsedValue(t), NoCost)]);
  }

  /** Some run on `d` in which every leaf succeeds at once and costs nothing. */
  lemma SomeRun(d: Definition) returns (run: Run)
    requires Supported(d)
    ensures GoodRunOf(run, d) && Free(run)
    decreases d, 1
  {
    match d.dataType
    case Object =>
      var fields := SomeFields(d, ScheduledKeys(d), map[]);
      run := ObjectRun(fields);
    case Array =>
      if d.items.None? {
        run := NoItemsRun;
      } else {
        var item := SomeRun(d.items.value);
        run := OneItem(d, item);
      }
    case t => run := FreeLeaf(t);
  }

  lemma OneItem(d: Definition, item: Run) returns (run: Run)
    requires d.dataType.Array? && d.items.Some? && IsRunOf(item, d.items.value)
    ensures run == ArrayRun(Listed(Some(1), false, 0), [Part(0, item)]) && IsRunOf(run, d)
    ensures LeavesSucceed(item) ==> LeavesSucceed(run)
    ensures Free(item) ==> Free(run)
  {
    run := ArrayRun(Listed(Some(1), false, 0), [Part(0, item)]);
    assert Slots([Part(0, item)]) == [0];
  }

  /** Runs of the fields `keys`, using the ones in `fixed` where there are any. */
  lemma SomeFields(d: Definition, keys: set<string>, fixed: map<string, Run>) returns (fields: seq<FieldRun>)
    requires Supported(d) && forall k :: k in fixed ==> IsRunOf(fixed[k], Property(d, k))
    ensures Distinct(Slots(fields)) && Range(Slots(fields)) == keys
    ensures forall f :: f in fields ==> IsRunOf(f.run, Property(d, f.slot))
    ensures forall f :: f in fields && f.slot in fixed ==> f.run == fixed[f.slot]
    ensures forall f :: f in fields && f.slot !in fixed ==> LeavesSucceed(f.run) && Free(f.run)
    decreases d, 0, keys
  {
    if keys == {} {
      fields := [];
    } else {
      var k :| k in keys;
      var rest := SomeFields(d, keys - {k}, fixed);
      var run: Run;
      if k in fixed {
        run := fixed[k];
      } else if d.properties.Properties? && k in d.properties.entries {
        run := SomeRun(d.properties.entries[k]);
      } else {
        run := FreeLeaf(OtherType(""));
      }
      fields := rest + [Part(k, run)];
      assert Slots(fields) == Slots(rest) + [k];
      assert k !in Range(Slots(rest));
      DistinctAppend(Slots(rest), k);
      RangeAppend(Slots(rest), k);
    }
  }

  lemma {:induction false} IncompleteDisagrees(d: Definition) returns (run: Run)
    requires Supported(d) && !Complete(d)
    ensures GoodRunOf(run, d) && !Agrees(run, d)
    decreases d
  {
    if d.dataType.Array? {
      if d.items.None? {
        run := NoItemsRun;
      } else {
        var item := IncompleteDisagrees(d.items.value);
        run := OneItem(d, item);
        OneItemDisagrees(d, item, run);
      }
    } else if k :| k in d.processingOrder && k !in d.properties.entries {
      run := ExtraKeyRun(d, k);
    } else {
      var k :| k in d.properties.entries && !Complete(d.properties.entries[k]);
      var bad := IncompleteDisagrees(d.properties.entries[k]);
      run := BadFieldRun(d, k, bad);
    }
  }

  lemma ExtraKeyRun(d: Definition, k: string) returns (run: Run)
    requires Supported(d) && d.dataType.Object? && d.properties.Properties?
    requires k in d.processingOrder && k !in d.properties.entries
    ensures GoodRunOf(run, d) && !Agrees(run, d)
  {
    var fields := SomeFields(d, ScheduledKeys(d), map[]);
    run := ObjectRun(fields);
    ExtraKeyDisagrees(d, fields, k);
  }

  lemma BadFieldRun(d: Definition, k: string, bad: Run) returns (run: Run)
    requires Supported(d) && d.dataType.Object? && d.properties.Properties? && k in d.properties.entries
    requires GoodRunOf(bad, d.properties.entries[k]) && !Agrees(bad, d.properties.entries[k])
    ensures GoodRunOf(run, d) && !Agrees(run, d)
  {
    var fields := SomeFields(d, ScheduledKeys(d), map[k := bad]);
    run := ObjectRun(fields);
    BadFieldDisagrees(d, fields, k, bad);
  }

  lemma {:induction false} OneItemGathered(arrivals: seq<ItemRun>, o: Outcome)
    requires |arrivals| == 1 && arrivals[0].slot == 0 && o == Result(arrivals[0].run)
    ensures var g := Gather(arrivals, 1);
            if o.NoResult? then g.ItemFailed? else g.Gathered? && g.values == [o.value]
  {
    assert arrivals[..0] == [];
    assert seq(1, _ => GoNil)[0 := GoNil] == [GoNil];
  }

  lemma ArrayResult(sizing: Sizing, arrivals: seq<ItemRun>, g: Gathered)
    requires g == Gather(arrivals, ArraySize(sizing))
    ensures Result(ArrayRun(sizing, arrivals)) == if g.ItemFailed? then NoResult else Got(GoList(g.values), g.metadata)
  {
  }

  lemma ArrayOfOne(sizing: Sizing, arrivals: seq<ItemRun>, o: Outcome)
    requires ArraySize(sizing) == 1 == |arrivals| && arrivals[0].slot == 0 && o == Result(arrivals[0].run)
    ensures var r := Result(ArrayRun(sizing, arrivals));
            if o.NoResult? then r.NoResult? else r.Got? && r.value == GoList([o.value])
  {
    OneItemGathered(arrivals, o);
    ArrayResult(sizing, arrivals, Gather(arrivals, 1));
  }

  lemma OneItemResult(item: Run)
    ensures var o := Result(ArrayRun(Listed(Some(1), false, 0), [Part(0, item)]));
            if Result(item).NoResult? then o.NoResult? else o.Got? && o.value == GoList([Result(item).value])
  {
    assert ArraySize(Listed(Some(1), false, 0)) == 1;
    ArrayOfOne(Listed(Some(1), false, 0), [Part(0, item)], Result(item));
  }

  lemma OneItemDisagrees(d: Definition, item: Run, run: Run)
    requires d.dataType.Array? && d.items.Some? && !Agrees(item, d.items.value)
    requires run == ArrayRun(Listed(Some(1), false, 0), [Part(0, item)])
    ensures !Agrees(run, d)
  {
    OneItemResult(item);
    if Result(item).Got? { InvalidItem(Result(item).value, d); }
  }

  lemma InvalidItem(v: GoValue, d: Definition)
    requires d.dataType.Array? && d.items.Some? && !Validates(v, DefinitionToJSONSchema(d.items.value))
    ensures !Validates(GoList([v]), DefinitionToJSONSchema(d))
  {
    assert v in [v];
  }

  lemma HasField(fields: seq<FieldRun>, k: string) returns (f: FieldRun)
    requires k in Range(Slots(fields))
    ensures f in fields && f.slot == k
  {
    var i :| 0 <= i < |fields| && Slots(fields)[i] == k;
    f := fields[i];
  }

  lemma ExtraKeyDisagrees(d: Definition, fields: seq<FieldRun>, k: string)
    requires d.dataType.Object? && d.properties.Properties? && k in d.processingOrder && k !in d.properties.entries
    requires GoodRunOf(ObjectRun(fields), d)
    ensures !Agrees(ObjectRun(fields), d)
  {
    var f := HasField(fields, k);
    assert Property(d, k) == ZeroDefinition;
    ZeroRunSucceeds(f.run);
    CollectKeys(fields);
    assert k in ProducedKeys(fields);
    ExtraKeyInvalid(Collect(fields).results, d, k);
  }

  lemma ZeroRunSucceeds(run: Run)
    requires GoodRunOf(run, ZeroDefinition)
    ensures Result(run).Got?
  {
  }

  lemma ExtraKeyInvalid(results: map<string, GoValue>, d: Definition, k: string)
    requires d.dataType.Object? && d.properties.Properties? && k !in d.properties.entries && k in results
    ensures !Validates(GoMap(results), DefinitionToJSONSchema(d))
  {
    var schema := DefinitionToJSONSchema(d);
    assert schema.closed && k !in schema.properties.entries;
  }

  lemma BadFieldDisagrees(d: Definition, fields: seq<FieldRun>, k: string, bad: Run)
    requires d.dataType.Object? && d.properties.Properties? && k in d.properties.entries
    requires GoodRunOf(ObjectRun(fields), d) && !Agrees(bad, d.properties.entries[k])
    requires forall f :: f in fields && f.slot == k ==> f.run == bad
    ensures !Agrees(ObjectRun(fields), d)
  {
    var f := HasField(fields, k);
    CollectExact(fields);
    BadValueInvalid(Collect(fields).results, d, k, bad);
  }

  /** An object that holds what a disagreeing run produced, or nothing if it produced nothing, is not valid. */
  lemma BadValueInvalid(results: map<string, GoValue>, d: Definition, k: string, bad: Run)
    requires d.dataType.Object? && d.properties.Properties? && k in d.properties.entries
    requires !Agrees(bad, d.properties.entries[k])
    requires if Result(bad).Got? then k in results && results[k] == Result(bad).value else k !in results
    ensures !Validates(GoMap(results), DefinitionToJSONSchema(d))
  {
    var schema := DefinitionToJSONSchema(d);
    assert k in schema.required && schema.properties.entries[k] == DefinitionToJSONSchema(d.properties.entries[k]);
  }

  /**
   Field decomposition always yields a value of the structured-output shape exactly when the
   definition is complete.
   */
  lemma PathsAgreeIffComplete(d: Definition)
    requires Supported(d)
    ensures AlwaysAgrees(d) <==> Complete(d)
  {
    if Complete(d) {
      forall run | IsRunOf(run, d) && LeavesSucceed(run) ensures Agrees(run, d) {
        CompleteAgrees(run, d);
      }
    } else {
      var run := IncompleteDisagrees(d);
    }
  }
}
