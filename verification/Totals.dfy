/**
 What a generation reports to have used, against what its provider calls used. A leaf asks
 again while its answer is empty and reports its last call only; an array that fails reports
 nothing of its items.
 */
module Totals {
  import opened JsonSchema
  import opened Sequences
  import opened Engine

  /** What all calls of a leaf used. */
  function UsedBy(answers: seq<Answer>): Metadata {
    if answers == [] then NoCost
    else UsedBy(answers[..|answers| - 1]).Add(UsedIn(answers[|answers| - 1]))
  }

  /** What all calls of a leaf but the last used. */
  function Discarded(answers: seq<Answer>): Metadata {
    if answers == [] then NoCost else UsedBy(answers[..|answers| - 1])
  }

  // ---------- Tokens and cost are conserved ----------

  /** What all calls of the leaves of the run used. */
  function Spent(run: Run): Metadata {
    match run
    case LeafRun(answers) => UsedBy(answers)
    case ObjectRun(fields) => SpentOn(fields)
    case ArrayRun(_, arrivals) => SpentOn(arrivals)
    case NoItemsRun => NoCost
  }

  function SpentOn<S>(parts: seq<Part<S>>): Metadata {
    if parts == [] then NoCost else
      var last := parts[|parts| - 1];
      assert last in parts && last.run < last;
      SpentOn(parts[..|parts| - 1]).Add(Spent(last.run))
  }

  /** What was used by empty answers that were asked again, and inside arrays that then failed. */
  function Lost(run: Run): Metadata {
    match run
    case LeafRun(answers) => Discarded(answers)
    case ObjectRun(fields) => LostOn(fields)
    case ArrayRun(_, arrivals) => if Result(run).Got? then LostOn(arrivals) else SpentOn(arrivals)
    case NoItemsRun => NoCost
  }

  function LostOn<S>(parts: seq<Part<S>>): Metadata {
    if parts == [] then NoCost else
      var last := parts[|parts| - 1];
      assert last in parts && last.run < last;
      LostOn(parts[..|parts| - 1]).Add(Lost(last.run))
  }

  ghost predicate Balanced(run: Run) {
    MetadataOf(Result(run)).Add(Lost(run)) == Spent(run)
  }

  /** The reported totals and what was lost are together what the successful calls of the leaves used. */
  lemma {:induction false} TotalsConserved(run: Run, d: Definition)
    requires IsRunOf(run, d)
    ensures Balanced(run)
    decreases run
  {
    match run
    case LeafRun(answers) => LeafBalanced(answers);
    case NoItemsRun => NoItemsBalanced();
    case ObjectRun(fields) =>
      forall f | f in fields ensures Balanced(f.run) { TotalsConserved(f.run, Property(d, f.slot)); }
      FieldsBalanced(fields);
    case ArrayRun(sizing, arrivals) =>
      forall a | a in arrivals ensures Balanced(a.run) { TotalsConserved(a.run, d.items.value); }
      ItemsBalanced(sizing, arrivals);
  }

  lemma LeafBalanced(answers: seq<Answer>)
    ensures Balanced(LeafRun(answers))
  {
    UnfoldLeaf(answers);
    LeafAddsUp(answers);
  }

  lemma UnfoldLeaf(answers: seq<Answer>)
    ensures var run := LeafRun(answers);
            Spent(run) == UsedBy(answers) && Lost(run) == Discarded(answers) == Retried(run) &&
                Result(run) == LeafOutcome(answers)
  {
  }

  lemma LeafAddsUp(answers: seq<Answer>)
    ensures MetadataOf(LeafOutcome(answers)).Add(Discarded(answers)) == UsedBy(answers)
  {
    if answers != [] {
      LastReported(answers);
      Swapped(UsedIn(answers[|answers| - 1]), Discarded(answers));
    }
  }

  lemma LastReported(answers: seq<Answer>)
    requires answers != []
    ensures MetadataOf(LeafOutcome(answers)) == UsedIn(answers[|answers| - 1])
    ensures UsedBy(answers) == Discarded(answers).Add(UsedIn(answers[|answers| - 1]))
  {
  }

  lemma Swapped(a: Metadata, b: Metadata)
    ensures a.Add(b) == b.Add(a)
  {
  }

  lemma NoItemsBalanced()
    ensures Balanced(NoItemsRun)
  {
    assert Result(NoItemsRun) == NoResult && Spent(NoItemsRun) == NoCost && Lost(NoItemsRun) == NoCost;
  }

  lemma FieldsBalanced(fields: seq<FieldRun>)
    requires forall f :: f in fields ==> Balanced(f.run)
    ensures Balanced(ObjectRun(fields))
  {
    PartsBalanced(fields);
    ObjectBalanced(fields);
  }

  lemma ItemsBalanced(sizing: Sizing, arrivals: seq<ItemRun>)
    requires EachOnce(arrivals, ArraySize(sizing)) && forall a :: a in arrivals ==> Balanced(a.run)
    ensures Balanced(ArrayRun(sizing, arrivals))
  {
    PartsBalanced(arrivals);
    ArrayMetadata(sizing, arrivals);
    ArrayBalanced(sizing, arrivals);
  }

  lemma ObjectBalanced(fields: seq<FieldRun>)
    requires Sum(fields).Add(LostOn(fields)) == SpentOn(fields)
    ensures Balanced(ObjectRun(fields))
  {
    UnfoldObject(fields);
    Combine(ObjectRun(fields), Sum(fields), LostOn(fields), SpentOn(fields));
  }

  lemma UnfoldObject(fields: seq<FieldRun>)
    ensures var run := ObjectRun(fields);
            && Spent(run) == SpentOn(fields) && Lost(run) == LostOn(fields) && Retried(run) == RetriedOn(fields)
            && Result(run).Got? && Result(run).metadata == Sum(fields)
  {
    CollectKeys(fields);
  }

  lemma ArrayBalanced(sizing: Sizing, arrivals: seq<ItemRun>)
    requires var o := Result(ArrayRun(sizing, arrivals)); o.Got? ==> o.metadata == Sum(arrivals)
    requires Sum(arrivals).Add(LostOn(arrivals)) == SpentOn(arrivals)
    ensures Balanced(ArrayRun(sizing, arrivals))
  {
    UnfoldArray(sizing, arrivals);
    Combine(ArrayRun(sizing, arrivals), Sum(arrivals), LostOn(arrivals), SpentOn(arrivals));
  }

  lemma UnfoldArray(sizing: Sizing, arrivals: seq<ItemRun>)
    ensures var run := ArrayRun(sizing, arrivals);
            && Spent(run) == SpentOn(arrivals) && Retried(run) == RetriedOn(arrivals)
            && Lost(run) == if Result(run).Got? then LostOn(arrivals) else SpentOn(arrivals)
  {
  }

  lemma Combine(run: Run, reported: Metadata, lost: Metadata, spent: Metadata)
    requires reported.Add(lost) == spent && Spent(run) == spent
    requires if Result(run).Got? then Result(run).metadata == reported && Lost(run) == lost else Lost(run) == spent
    ensures Balanced(run)
  {
  }

  lemma ArrayMetadata(sizing: Sizing, arrivals: seq<ItemRun>)
    requires EachOnce(arrivals, ArraySize(sizing))
    ensures var o := Result(ArrayRun(sizing, arrivals)); o.Got? ==> o.metadata == Sum(arrivals)
  {
    InRange(arrivals, ArraySize(sizing));
    GatherExact(arrivals, ArraySize(sizing));
  }

  lemma {:induction false} PartsBalanced<S>(parts: seq<Part<S>>)
    requires forall f :: f in parts ==> Balanced(f.run)
    ensures Sum(parts).Add(LostOn(parts)) == SpentOn(parts)
  {
    if parts != [] {
      var init, last := parts[..|parts| - 1], parts[|parts| - 1];
      assert last in parts;
      PartsBalanced(init);
      AddUp(Sum(init), LostOn(init), MetadataOf(Result(last.run)), Lost(last.run));
    }
  }

  lemma AddUp(a: Metadata, b: Metadata, c: Metadata, d: Metadata)
    ensures a.Add(c).Add(b.Add(d)) == a.Add(b).Add(c.Add(d))
  {
  }

  // ---------- When the totals are complete ----------

  /** What empty answers used that were asked again. */
  function Retried(run: Run): Metadata {
    match run
    case LeafRun(answers) => Discarded(answers)
    case ObjectRun(fields) => RetriedOn(fields)
    case ArrayRun(_, arrivals) => RetriedOn(arrivals)
    case NoItemsRun => NoCost
  }

  function RetriedOn<S>(parts: seq<Part<S>>): Metadata {
    if parts == [] then NoCost else
      var last := parts[|parts| - 1];
      assert last in parts && last.run < last;
      RetriedOn(parts[..|parts| - 1]).Add(Retried(last.run))
  }

  /** No leaf asks twice. */
  ghost predicate NoRetries(run: Run) {
    match run
    case LeafRun(answers) => |answers| == 1
    case ObjectRun(fields) => forall f :: f in fields ==> NoRetries(f.run)
    case ArrayRun(_, arrivals) => forall a :: a in arrivals ==> NoRetries(a.run)
    case NoItemsRun => true
  }

  lemma OneCall(answers: seq<Answer>)
    requires |answers| == 1
    ensures UsedBy(answers) == UsedIn(answers[0]) && Discarded(answers) == NoCost
  {
    LastReported(answers);
    NothingFirst(answers[..0]);
    assert Discarded(answers) == UsedBy(answers[..0]);
    AddToNothing(UsedIn(answers[0]));
  }

  lemma AddToNothing(m: Metadata)
    ensures NoCost.Add(m) == m
  {
  }

  lemma NothingFirst(answers: seq<Answer>)
    requires answers == []
    ensures UsedBy(answers) == NoCost
  {
  }

  lemma OneCallCounts(a: Answer)
    ensures Spent(LeafRun([a])) == UsedIn(a) && Lost(LeafRun([a])) == Retried(LeafRun([a])) == NoCost
  {
    UnfoldLeaf([a]);
    OneCall([a]);
  }

  ghost predicate CostsNothing(run: Run) {
    Spent(run) == NoCost && Lost(run) == NoCost && Retried(run) == NoCost
  }

  lemma {:induction false} FreeCostsNothing(run: Run)
    requires Free(run)
    ensures CostsNothing(run) && NoRetries(run)
    decreases run
  {
    match run
    case LeafRun(answers) =>
      assert answers == [answers[0]];
      OneCallCounts(answers[0]);
    case NoItemsRun =>
    case ObjectRun(fields) =>
      forall f | f in fields ensures CostsNothing(f.run) && NoRetries(f.run) { FreeCostsNothing(f.run); }
      NothingOn(fields);
      UnfoldObject(fields);
    case ArrayRun(sizing, arrivals) =>
      forall a | a in arrivals ensures CostsNothing(a.run) && NoRetries(a.run) { FreeCostsNothing(a.run); }
      NothingOn(arrivals);
      UnfoldArray(sizing, arrivals);
  }

  /** Whether generating `d` can end without a value. */
  predicate CanFail(d: Definition) {
    match d.dataType
    case Object => false
    case Array => d.items.None? || CanFail(d.items.value)
    case _ => true
  }

  /** Whether generating `d` can involve a leaf. */
  predicate CanSpend(d: Definition) {
    match d.dataType
    case Object =>
      (match d.properties
       case NilProperties => false
       case Properties(entries) =>
         (exists k :: k in d.processingOrder && k !in entries) || exists k :: k in entries && CanSpend(entries[k]))
    case Array => d.items.Some? && CanSpend(d.items.value)
    case _ => true
  }

  /** No array that can be generated has items that can fail and can spend. */
  predicate Lossless(d: Definition) {
    match d.dataType
    case Object =>
      (match d.properties
       case NilProperties => true
       case Properties(entries) => forall k :: k in entries ==> Lossless(entries[k]))
    case Array => d.items.Some? ==> Lossless(d.items.value) && !(CanFail(d.items.value) && CanSpend(d.items.value))
    case _ => true
  }

  /** The totals of the result are all that the leaves' successful calls used. */
  ghost predicate ReportsAll(run: Run) {
    MetadataOf(Result(run)) == Spent(run)
  }

  lemma ReportsAllIff(run: Run)
    requires Balanced(run)
    ensures ReportsAll(run) <==> Lost(run) == NoCost
  {
    NothingAdded(MetadataOf(Result(run)), Lost(run), Spent(run));
  }

  lemma NothingAdded(a: Metadata, b: Metadata, sum: Metadata)
    requires a.Add(b) == sum
    ensures a == sum <==> b == NoCost
  {
  }

  lemma {:induction false} FailureNeedsCanFail(run: Run, d: Definition)
    requires IsRunOf(run, d) && Result(run).NoResult?
    ensures CanFail(d)
    decreases run
  {
    if d.dataType.Array? && d.items.Some? {
      InRange(run.arrivals, ArraySize(run.sizing));
      GatherExact(run.arrivals, ArraySize(run.sizing));
      var a :| a in run.arrivals && Result(a.run).NoResult?;
      FailureNeedsCanFail(a.run, d.items.value);
    }
  }

  lemma {:induction false} SpendingNeedsCanSpend(run: Run, d: Definition)
    requires IsRunOf(run, d) && !CanSpend(d)
    ensures CostsNothing(run)
    decreases run
  {
    match run
    case LeafRun(_) => assert false;
    case NoItemsRun =>
    case ObjectRun(fields) =>
      forall f | f in fields ensures CostsNothing(f.run) {
        ScheduledSlot(fields, d, f);
        SpendingNeedsCanSpend(f.run, Property(d, f.slot));
      }
      NothingOn(fields);
      UnfoldObject(fields);
    case ArrayRun(sizing, arrivals) =>
      forall a | a in arrivals ensures CostsNothing(a.run) {
        SpendingNeedsCanSpend(a.run, d.items.value);
      }
      NothingOn(arrivals);
      UnfoldArray(sizing, arrivals);
  }

  lemma ScheduledSlot(fields: seq<FieldRun>, d: Definition, f: FieldRun)
    requires IsRunOf(ObjectRun(fields), d) && f in fields
    ensures f.slot in ScheduledKeys(d) && d.properties.Properties?
    ensures f.slot in d.properties.entries || (f.slot in d.processingOrder && Property(d, f.slot) == ZeroDefinition)
  {
    var i :| 0 <= i < |fields| && fields[i] == f;
    assert Slots(fields)[i] in Range(Slots(fields));
  }

  lemma {:induction false} NothingOn<S>(parts: seq<Part<S>>)
    requires forall f :: f in parts ==> CostsNothing(f.run)
    ensures SpentOn(parts) == NoCost && LostOn(parts) == NoCost && RetriedOn(parts) == NoCost
  {
    if parts != [] {
      assert parts[|parts| - 1] in parts;
      NothingOn(parts[..|parts| - 1]);
    }
  }

  lemma {:induction false} LossesOn<S>(parts: seq<Part<S>>)
    requires forall f :: f in parts ==> Lost(f.run) == Retried(f.run)
    ensures LostOn(parts) == RetriedOn(parts)
  {
    if parts != [] {
      assert parts[|parts| - 1] in parts;
      LossesOn(parts[..|parts| - 1]);
    }
  }

  /** On a lossless definition only retried empty answers are lost, whatever fails. */
  lemma {:induction false} LosslessLosesOnlyRetries(run: Run, d: Definition)
    requires IsRunOf(run, d) && Lossless(d)
    ensures Lost(run) == Retried(run)
    decreases run
  {
    match run
    case LeafRun(_) =>
    case NoItemsRun =>
    case ObjectRun(fields) =>
      forall f | f in fields ensures Lost(f.run) == Retried(f.run) {
        ScheduledSlot(fields, d, f);
        LosslessLosesOnlyRetries(f.run, Property(d, f.slot));
      }
      LossesOn(fields);
      UnfoldObject(fields);
    case ArrayRun(sizing, arrivals) =>
      forall a | a in arrivals ensures Lost(a.run) == Retried(a.run) { LosslessLosesOnlyRetries(a.run, d.items.value); }
      LossesOn(arrivals);
      if Result(run).NoResult? { NothingToLose(run, d); }
      UnfoldArray(sizing, arrivals);
  }

  /** If an array can fail although it is lossless, its items spend nothing. */
  lemma NothingToLose(run: Run, d: Definition)
    requires IsRunOf(run, d) && Lossless(d) && run.ArrayRun? && Result(run).NoResult?
    ensures SpentOn(run.arrivals) == NoCost && RetriedOn(run.arrivals) == NoCost
  {
    FailureNeedsCanFail(run, d);
    assert !CanSpend(d.items.value);
    forall a | a in run.arrivals ensures CostsNothing(a.run) {
      SpendingNeedsCanSpend(a.run, d.items.value);
    }
    NothingOn(run.arrivals);
  }

  /** If every leaf of a complete definition succeeds, only retried empty answers are lost. */
  lemma {:induction false} GoodRunLosesOnlyRetries(run: Run, d: Definition)
    requires Supported(d) && Complete(d) && GoodRunOf(run, d)
    ensures Lost(run) == Retried(run)
    decreases run
  {
    match run
    case LeafRun(_) =>
    case NoItemsRun =>
    case ObjectRun(fields) =>
      forall f | f in fields ensures Lost(f.run) == Retried(f.run) {
        ScheduledSlot(fields, d, f);
        GoodRunLosesOnlyRetries(f.run, Property(d, f.slot));
      }
      LossesOn(fields);
      UnfoldObject(fields);
    case ArrayRun(sizing, arrivals) =>
      CompleteYields(run, d);
      forall a | a in arrivals ensures Lost(a.run) == Retried(a.run) { GoodRunLosesOnlyRetries(a.run, d.items.value); }
      LossesOn(arrivals);
      UnfoldArray(sizing, arrivals);
  }

  lemma CompleteYields(run: Run, d: Definition)
    requires Supported(d) && Complete(d) && GoodRunOf(run, d)
    ensures Result(run).Got?
  {
    CompleteAgrees(run, d);
  }

  /**
   With a complete definition and successful leaves, the reported totals together with what
   retried empty answers used are the sum over all calls of the leaves.
   */
  lemma NothingLost(run: Run, d: Definition)
    requires Supported(d) && Complete(d) && GoodRunOf(run, d)
    ensures Result(run).Got? && Result(run).metadata.Add(Retried(run)) == Spent(run)
    ensures NoRetries(run) ==> Retried(run) == NoCost
  {
    CompleteYields(run, d);
    TotalsConserved(run, d);
    GoodRunLosesOnlyRetries(run, d);
    if NoRetries(run) { NoRetriesNothingRetried(run); }
  }

  lemma {:induction false} NoRetriesNothingRetried(run: Run)
    requires NoRetries(run)
    ensures Retried(run) == NoCost
    decreases run
  {
    match run
    case LeafRun(answers) =>
      assert answers == [answers[0]];
      OneCallCounts(answers[0]);
    case NoItemsRun =>
    case ObjectRun(fields) =>
      forall f | f in fields ensures Retried(f.run) == NoCost { NoRetriesNothingRetried(f.run); }
      RetriedNothingOn(fields);
    case ArrayRun(_, arrivals) =>
      forall a | a in arrivals ensures Retried(a.run) == NoCost { NoRetriesNothingRetried(a.run); }
      RetriedNothingOn(arrivals);
  }

  lemma {:induction false} RetriedNothingOn<S>(parts: seq<Part<S>>)
    requires forall f :: f in parts ==> Retried(f.run) == NoCost
    ensures RetriedOn(parts) == NoCost
  {
    if parts != [] {
      assert parts[|parts| - 1] in parts;
      RetriedNothingOn(parts[..|parts| - 1]);
    }
  }

  // Runs that lose something.

  /** A run of an object that is free but for one field. */
  lemma ObjectWith(d: Definition, k: string, sub: Run) returns (run: Run)
    requires Supported(d) && d.dataType.Object? && k in ScheduledKeys(d) && IsRunOf(sub, Property(d, k))
    ensures IsRunOf(run, d) && Spent(run) == Spent(sub) && Lost(run) == Lost(sub)
    ensures NoRetries(sub) ==> NoRetries(run)
  {
    var fields := SomeFields(d, ScheduledKeys(d), map[k := sub]);
    run := ObjectRun(fields);
    var f := HasField(fields, k);
    var i :| 0 <= i < |fields| && fields[i] == f;
    forall j | 0 <= j < |fields| && j != i ensures CostsNothing(fields[j].run) && NoRetries(fields[j].run) {
      assert Slots(fields)[j] != Slots(fields)[i] && fields[j] in fields;
      FreeCostsNothing(fields[j].run);
    }
    assert OnlyCostly(fields, i);
    OneCounts(fields, i);
    UnfoldObject(fields);
  }

  /** Only part `i` costs anything. */
  ghost predicate OnlyCostly<S>(parts: seq<Part<S>>, i: nat) {
    forall j :: 0 <= j < |parts| && j != i ==> CostsNothing(parts[j].run)
  }

  lemma {:induction false} OneCounts<S>(parts: seq<Part<S>>, i: nat)
    requires i < |parts| && OnlyCostly(parts, i)
    ensures SpentOn(parts) == Spent(parts[i].run) && LostOn(parts) == Lost(parts[i].run)
  {
    var n := |parts| - 1;
    OthersCostNothing(parts, i);
    if i < n {
      OneCounts(parts[..n], i);
      OneFreeMore(parts);
    } else {
      NothingBefore(parts[..n]);
      OnlyLast(parts);
    }
  }

  lemma OthersCostNothing<S>(parts: seq<Part<S>>, i: nat)
    requires i < |parts| && OnlyCostly(parts, i)
    ensures var n := |parts| - 1;
            if i < n then CostsNothing(parts[n].run) && OnlyCostly(parts[..n], i) && parts[..n][i] == parts[i]
            else forall f :: f in parts[..n] ==> CostsNothing(f.run)
  {
  }

  lemma NothingBefore<S>(parts: seq<Part<S>>)
    requires forall f :: f in parts ==> CostsNothing(f.run)
    ensures SpentOn(parts) == LostOn(parts) == NoCost
  {
    NothingOn(parts);
  }

  lemma OneFreeMore<S>(parts: seq<Part<S>>)
    requires parts != [] && CostsNothing(parts[|parts| - 1].run)
    ensures SpentOn(parts) == SpentOn(parts[..|parts| - 1]) && LostOn(parts) == LostOn(parts[..|parts| - 1])
  {
  }

  lemma OnlyLast<S>(parts: seq<Part<S>>)
    requires parts != [] && SpentOn(parts[..|parts| - 1]) == LostOn(parts[..|parts| - 1]) == NoCost
    ensures SpentOn(parts) == Spent(parts[|parts| - 1].run) && LostOn(parts) == Lost(parts[|parts| - 1].run)
  {
  }

  lemma OneItemCounts(item: Run)
    ensures var run := ArrayRun(Listed(Wrappers.Some(1), false, 0), [Part(0, item)]);
            Spent(run) == Spent(item) && Lost(run) == if Result(item).Got? then Lost(item) else Spent(item)
  {
    var arrivals: seq<ItemRun> := [Part(0, item)];
    assert OnlyCostly(arrivals, 0);
    OneCounts(arrivals, 0);
    OneItemResult(item);
    UnfoldArray(Listed(Wrappers.Some(1), false, 0), arrivals);
  }

  lemma OneItemRetries(item: Run)
    requires NoRetries(item)
    ensures NoRetries(ArrayRun(Listed(Wrappers.Some(1), false, 0), [Part(0, item)]))
  {
  }

  /** A run without a value that costs nothing. */
  lemma FailingRun(d: Definition) returns (run: Run)
    requires CanFail(d)
    ensures IsRunOf(run, d) && Result(run).NoResult? && Free(run)
  {
    if d.dataType.Array? {
      if d.items.None? {
        run := NoItemsRun;
      } else {
        var item := FailingRun(d.items.value);
        run := OneItem(d, item);
        OneItemResult(item);
      }
    } else {
      run := LeafRun([CallFailed]);
    }
  }

  /** Uses a token, in an empty answer that is asked again if `retry`. */
  ghost predicate Spends(run: Run, retry: bool) {
    Spent(run).tokens > 0 && if retry then Lost(run).tokens > 0 else NoRetries(run)
  }

  lemma SpendingLeaf(d: Definition, retry: bool) returns (run: Run)
    requires !d.dataType.Object? && !d.dataType.Array?
    ensures IsRunOf(run, d) && Spends(run, retry) && Result(run).Got?
  {
    var v, token := ParsedValue(d.dataType), Metadata(1, 0.0);
    if retry {
      run := LeafRun([Empty(v, token), Full(v, NoCost)]);
      LeafOf(d, run.answers);
      TwoCallsCount(v, token);
    } else {
      run := LeafRun([Full(v, token)]);
      LeafOf(d, run.answers);
      OneCallSpends(v, token);
    }
  }

  lemma LeafOf(d: Definition, answers: seq<Answer>)
    requires !d.dataType.Object? && !d.dataType.Array? && IsAttempts(answers)
    requires LeafOutcome(answers).Got? && Parsed(d.dataType, LeafOutcome(answers).value)
    ensures IsRunOf(LeafRun(answers), d) && Result(LeafRun(answers)).Got?
  {
  }

  lemma OneCallSpends(v: GoValue, used: Metadata)
    ensures var run := LeafRun([Full(v, used)]); Spent(run) == used && NoRetries(run)
  {
    OneCallCounts(Full(v, used));
  }

  lemma TwoCallsCount(v: GoValue, used: Metadata)
    ensures var run := LeafRun([Empty(v, used), Full(v, NoCost)]); Spent(run) == Lost(run) == used
  {
    var answers := [Empty(v, used), Full(v, NoCost)];
    UnfoldLeaf(answers);
    TwoCalls(answers[0], answers[1]);
  }

  lemma TwoCalls(a: Answer, b: Answer)
    ensures UsedBy([a, b]) == UsedIn(a).Add(UsedIn(b)) && Discarded([a, b]) == UsedIn(a)
  {
    assert [a, b][..1] == [a];
    LastReported([a, b]);
    OneCall([a]);
  }

  lemma SpendingRun(d: Definition, retry: bool) returns (run: Run)
    requires Supported(d) && CanSpend(d)
    ensures IsRunOf(run, d) && Spends(run, retry) && Result(run).Got?
  {
    if d.dataType.Array? {
      var item := SpendingRun(d.items.value, retry);
      run := OneItem(d, item);
      OneItemCounts(item);
      OneItemResult(item);
      if !retry { OneItemRetries(item); }
    } else if d.dataType.Object? {
      var entries := d.properties.entries;
      if k :| k in d.processingOrder && k !in entries {
        var sub := SpendingLeaf(ZeroDefinition, retry);
        run := ObjectWith(d, k, sub);
      } else {
        var k :| k in entries && CanSpend(entries[k]);
        var sub := SpendingRun(entries[k], retry);
        run := ObjectWith(d, k, sub);
      }
      UnfoldObject(run.fields);
    } else {
      run := SpendingLeaf(d, retry);
    }
  }

  /** One item spends, the other fails: the array fails and what was spent is lost. */
  lemma SpentBesideFailure(sizing: Sizing, arrivals: seq<ItemRun>)
    requires InTwo(sizing, arrivals) && NoRetries(arrivals[0].run)
    requires Result(arrivals[1].run).NoResult? && Free(arrivals[1].run)
    ensures var run := ArrayRun(sizing, arrivals); NoRetries(run) && Lost(run) == Spent(run) == Spent(arrivals[0].run)
  {
    FreeCostsNothing(arrivals[1].run);
    TwoItemsCount(sizing, arrivals);
    TwoItemsRetries(sizing, arrivals);
  }

  lemma TwoItemsRetries(sizing: Sizing, arrivals: seq<ItemRun>)
    requires |arrivals| == 2 && NoRetries(arrivals[0].run) && NoRetries(arrivals[1].run)
    ensures NoRetries(ArrayRun(sizing, arrivals))
  {
  }

  ghost predicate InTwo(sizing: Sizing, arrivals: seq<ItemRun>) {
    ArraySize(sizing) == 2 == |arrivals| && arrivals[0].slot == 0 && arrivals[1].slot == 1
  }

  lemma TwoItems(d: Definition, sizing: Sizing, arrivals: seq<ItemRun>)
    requires d.dataType.Array? && d.items.Some? && InTwo(sizing, arrivals)
    requires IsRunOf(arrivals[0].run, d.items.value) && IsRunOf(arrivals[1].run, d.items.value)
    ensures IsRunOf(ArrayRun(sizing, arrivals), d)
  {
    assert Slots(arrivals) == [0, 1];
    assert forall a :: a in arrivals ==> a == arrivals[0] || a == arrivals[1];
  }

  lemma TwoItemsCount(sizing: Sizing, arrivals: seq<ItemRun>)
    requires InTwo(sizing, arrivals) && Result(arrivals[1].run).NoResult? && CostsNothing(arrivals[1].run)
    ensures var run := ArrayRun(sizing, arrivals); Lost(run) == Spent(run) == Spent(arrivals[0].run)
  {
    FirstCounts(arrivals);
    SecondFails(sizing, arrivals);
    AllIsLost(sizing, arrivals);
  }

  lemma FirstCounts(arrivals: seq<ItemRun>)
    requires |arrivals| == 2 && CostsNothing(arrivals[1].run)
    ensures SpentOn(arrivals) == Spent(arrivals[0].run)
  {
    assert OnlyCostly(arrivals, 0);
    OneCounts(arrivals, 0);
  }

  lemma AllIsLost(sizing: Sizing, arrivals: seq<ItemRun>)
    requires Result(ArrayRun(sizing, arrivals)).NoResult?
    ensures var run := ArrayRun(sizing, arrivals); Lost(run) == Spent(run) == SpentOn(arrivals)
  {
    UnfoldArray(sizing, arrivals);
  }

  lemma SecondFails(sizing: Sizing, arrivals: seq<ItemRun>)
    requires InTwo(sizing, arrivals) && Result(arrivals[1].run).NoResult?
    ensures Result(ArrayRun(sizing, arrivals)).NoResult?
  {
    assert Gather(arrivals, 2).ItemFailed?;
    ArrayResult(sizing, arrivals, ItemFailed);
  }

  lemma {:induction false} LosingRun(d: Definition) returns (run: Run)
    requires Supported(d) && !Lossless(d)
    ensures IsRunOf(run, d) && NoRetries(run) && Lost(run).tokens > 0 && Spent(run).tokens > 0
    decreases d
  {
    if d.dataType.Object? {
      var k :| k in d.properties.entries && !Lossless(d.properties.entries[k]);
      var sub := LosingRun(d.properties.entries[k]);
      run := ObjectWith(d, k, sub);
    } else if !Lossless(d.items.value) {
      var item := LosingRun(d.items.value);
      run := OneItem(d, item);
      OneItemCounts(item);
      OneItemRetries(item);
    } else {
      var spending := SpendingRun(d.items.value, false);
      var failing := FailingRun(d.items.value);
      var sizing := Listed(Wrappers.Some(2), false, 0);
      var arrivals: seq<ItemRun> := [Part(0, spending), Part(1, failing)];
      run := ArrayRun(sizing, arrivals);
      TwoItems(d, sizing, arrivals);
      SpentBesideFailure(sizing, arrivals);
    }
  }

  /**
   Every run without retries reports all that it spent, if and only if no array that can be
   generated has items that can fail and can spend.
   */
  lemma TotalsCompleteIffLossless(d: Definition)
    requires Supported(d)
    ensures AllReported(d) <==> Lossless(d)
  {
    if Lossless(d) {
      forall run | IsRunOf(run, d) && NoRetries(run) ensures ReportsAll(run) {
        NoRetriesNothingRetried(run);
        ReportsAllIffNothingRetried(run, d);
      }
    } else {
      var run := LosingRun(d);
      LossNotReported(run, d);
    }
  }

  ghost predicate AllReported(d: Definition) {
    forall run :: IsRunOf(run, d) && NoRetries(run) ==> ReportsAll(run)
  }

  lemma LossNotReported(run: Run, d: Definition)
    requires IsRunOf(run, d) && Lost(run).tokens > 0
    ensures !ReportsAll(run)
  {
    TotalsConserved(run, d);
    ReportsAllIff(run);
  }

  /** Counting retries too, every run reports all that it spent if and only if no leaf can be reached. */
  lemma TotalsCompleteIffNoLeaf(d: Definition)
    requires Supported(d)
    ensures (forall run :: IsRunOf(run, d) ==> ReportsAll(run)) <==> !CanSpend(d)
  {
    if CanSpend(d) {
      var run := SpendingRun(d, true);
      LossNotReported(run, d);
    } else {
      forall run | IsRunOf(run, d) ensures ReportsAll(run) {
        TotalsConserved(run, d);
        SpendingNeedsCanSpend(run, d);
        ReportsAllIff(run);
      }
    }
  }

  /** A run of a lossless definition reports all that it spent if and only if its retried answers used nothing. */
  lemma ReportsAllIffNothingRetried(run: Run, d: Definition)
    requires IsRunOf(run, d) && Lossless(d)
    ensures ReportsAll(run) <==> Retried(run) == NoCost
  {
    TotalsConserved(run, d);
    LosslessLosesOnlyRetries(run, d);
    ReportsAllIff(run);
  }
}
