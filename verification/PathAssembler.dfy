/**
 The path-based assembler and the field-path resolver.

 `Assemble` writes successful results into nested maps, `ResolveFieldPath` reads such maps
 by dotted path. On paths without dots of which none leads through another, resolving the
 key of a result gives back its value, whatever order the results were assembled in.
 */
module PathAssembler {
  import opened Wrappers
  import opened JsonSchema
  import opened Assembly
  import opened GoStrings
  import opened Sequences
  import NestedMaps

  datatype Metadata = Metadata(tokens: int, promptTokens: int, completionTokens: int, cost: real, fieldCount: int)

  datatype TaskResult = TaskResult(
    key: string, path: Path, value: GoValue, metadata: Option<Metadata>, err: Option<string>)

  datatype FieldResult = FieldResult(value: GoValue, metadata: Option<Metadata>)

  datatype GenerationResult = GenerationResult(
    data: Tree, detailedData: map<string, FieldResult>, metadata: Metadata)

  // ---------- What assembling amounts to ----------

  /** A successful result; one without a path is placed at the root under its key. */
  datatype Success = Success(path: Path, result: FieldResult)

  /** Where a result goes: its path, or its key at the root. */
  function Place(r: TaskResult): (p: Path)
    ensures p != []
  {
    if r.path == [] then [r.key] else r.path
  }

  /** Every success has a place in the tree. */
  predicate Placed(s: seq<Success>) {
    forall x :: x in s ==> x.path != []
  }

  function Successes(results: seq<Option<TaskResult>>): (s: seq<Success>)
    ensures Placed(s)
  {
    if results == [] then [] else Successes(results[..|results| - 1]) + SuccessOf(results[|results| - 1])
  }

  function SuccessOf(r: Option<TaskResult>): (s: seq<Success>)
    ensures Placed(s)
  {
    match r
    case None => []
    case Some(TaskResult(key, path, value, metadata, err)) =>
      if err.Some? then [] else [Success(Place(r.value), FieldResult(value, metadata))]
  }

  function Writes(s: seq<Success>): (w: seq<Write>)
    requires Placed(s)
    ensures forall x :: x in w ==> x.path != []
  {
    seq(|s|, i requires 0 <= i < |s| => Write(s[i].path, s[i].result.value))
  }

  function Data(s: seq<Success>): Tree
    requires Placed(s)
  {
    PutAll(Writes(s))
  }

  /** No success needs a map where an earlier one left something else. */
  ghost predicate Writable(s: seq<Success>)
    requires Placed(s)
  {
    forall i :: 0 <= i < |s| ==> Clear(Data(s[..i]), s[i].path)
  }

  function Details(s: seq<Success>): map<string, FieldResult> {
    if s == [] then map[] else
      var last := s[|s| - 1];
      Details(s[..|s| - 1])[Join(last.path, '.') := last.result]
  }

  function Count(total: Metadata, m: Option<Metadata>): Metadata {
    match m
    case None => total
    case Some(n) => Metadata(total.tokens + n.tokens, total.promptTokens + n.promptTokens,
                             total.completionTokens + n.completionTokens, total.cost + n.cost, total.fieldCount + 1)
  }

  function Totals(s: seq<Success>): Metadata {
    if s == [] then Metadata(0, 0, 0, 0.0, 0)
    else Count(Totals(s[..|s| - 1]), s[|s| - 1].result.metadata)
  }

  /** The sum of one number over the results that carry metadata. */
  function SumOf(s: seq<Success>, number: Metadata -> real): real {
    if s == [] then 0.0 else
      var m := s[|s| - 1].result.metadata;
      SumOf(s[..|s| - 1], number) + if m.Some? then number(m.value) else 0.0
  }

  function Tokens(m: Metadata): real { m.tokens as real }

  function PromptTokens(m: Metadata): real { m.promptTokens as real }

  function CompletionTokens(m: Metadata): real { m.completionTokens as real }

  function Cost(m: Metadata): real { m.cost }

  function One(m: Metadata): real { 1.0 }

  /** Each total is the sum of that number over the results, and the field count is how many there are. */
  lemma {:induction false} TotalsAddUp(s: seq<Success>)
    ensures Totals(s).tokens as real == SumOf(s, Tokens) && Totals(s).promptTokens as real == SumOf(s, PromptTokens)
    ensures Totals(s).completionTokens as real == SumOf(s, CompletionTokens) && Totals(s).cost == SumOf(s, Cost)
    ensures Totals(s).fieldCount as real == SumOf(s, One)
  {
    if s != [] { TotalsAddUp(s[..|s| - 1]); }
  }

  /** Position `i` holds the last of the results that are filed under the key. */
  ghost predicate LastUnder(s: seq<Success>, key: string, i: int) {
    && 0 <= i < |s| && Join(s[i].path, '.') == key
    && forall j :: i < j < |s| ==> Join(s[j].path, '.') != key
  }

  /** The detailed data has, under each key, the last result filed there, with its metadata. */
  lemma {:induction false} DetailsAreLast(s: seq<Success>, key: string)
    ensures key in Details(s) <==> exists i :: LastUnder(s, key, i)
    ensures forall i :: LastUnder(s, key, i) ==> key in Details(s) && Details(s)[key] == s[i].result
  {
    if s != [] {
      var n := |s| - 1;
      var before := s[..n];
      DetailsAreLast(before, key);
      if Join(s[n].path, '.') == key {
        assert LastUnder(s, key, n);
      } else {
        forall i ensures LastUnder(s, key, i) <==> LastUnder(before, key, i) { SameUnder(s, key, i); }
      }
    }
  }

  lemma {:induction false} SameUnder(s: seq<Success>, key: string, i: int)
    requires s != [] && Join(s[|s| - 1].path, '.') != key
    ensures LastUnder(s, key, i) <==> LastUnder(s[..|s| - 1], key, i)
  {
    var before := s[..|s| - 1];
    assert forall j :: 0 <= j < |before| ==> before[j] == s[j];
  }

  // ---------- The loops ----------

  method BuildPathKey(path: Path) returns (key: string)
    ensures key == Join(path, '.')
  {
    key := "";
    for i := 0 to |path|
      invariant key == Join(path[..i], '.')
    {
      assert path[..i + 1] == path[..i] + [path[i]];
      if i > 0 {
        JoinAppend(path[..i], path[i], '.');
        key := key + ".";
      }
      key := key + path[i];
    }
    assert path[..|path|] == path;
  }

  lemma OneMore(s: seq<Success>, x: Success)
    requires Placed(s + [x])
    ensures Placed(s) && Data(s + [x]) == Put(Data(s), x.path, x.result.value)
    ensures Writable(s + [x]) <==> Writable(s) && Clear(Data(s), x.path)
  {
    assert x in s + [x] && forall y :: y in s ==> y in s + [x];
    assert Writes(s + [x]) == Writes(s) + [Write(x.path, x.result.value)];
    PutAllLast(Writes(s), Write(x.path, x.result.value));
    assert (s + [x])[..|s|] == s;
    forall i | 0 <= i < |s| ensures (s + [x])[..i] == s[..i] && (s + [x])[i] == s[i] {}
    if Writable(s + [x]) {
      assert Clear(Data((s + [x])[..|s|]), (s + [x])[|s|].path);
      forall i | 0 <= i < |s| ensures Clear(Data(s[..i]), s[i].path) {
        assert Clear(Data((s + [x])[..i]), (s + [x])[i].path);
      }
    }
  }

  /** Writes one result into the tree and gives the key of its detailed data. */
  method Store(root: NestedMaps.NestedMaps, result: TaskResult) returns (r: Result<string>)
    requires root.Valid()
    modifies root
    ensures root.Valid()
    ensures r.Ok? <==> Clear(old(root.Root()), Place(result))
    ensures r.Ok? ==> root.Root() == Put(old(root.Root()), Place(result), result.value)
    ensures r.Ok? ==> r.value == Join(Place(result), '.')
  {
    if |result.path| == 0 {
      root.SetRoot(result.key, result.value);
      return Ok(result.key);
    }
    var err := root.SetNestedValue(result.path, result.value);
    if err.Some? { return Err("failed to set nested value at path: " + err.value); }
    var pathKey := BuildPathKey(result.path);
    r := Ok(pathKey);
  }

  lemma Further(results: seq<Option<TaskResult>>, n: nat)
    requires n < |results|
    ensures var before, after := Successes(results[..n]), Successes(results[..n + 1]);
            if results[n].None? || results[n].value.err.Some? then after == before else
              var r := results[n].value;
              && Data(after) == Put(Data(before), Place(r), r.value)
              && (Writable(after) <==> Writable(before) && Clear(Data(before), Place(r)))
              && Details(after) == Details(before)[Join(Place(r), '.') := FieldResult(r.value, r.metadata)]
              && Totals(after) == Count(Totals(before), r.metadata)
  {
    assert results[..n + 1][..n] == results[..n];
    var before := Successes(results[..n]);
    if results[n].None? || results[n].value.err.Some? {
      assert before + [] == before;
    } else {
      var r := results[n].value;
      OneMore(before, Success(Place(r), FieldResult(r.value, r.metadata)));
    }
  }

  /** A failed write is never made good later. */
  lemma {:induction false} StaysUnwritable(results: seq<Option<TaskResult>>, n: nat)
    requires n <= |results| && !Writable(Successes(results[..n]))
    ensures !Writable(Successes(results))
    decreases |results| - n
  {
    if n < |results| {
      Further(results, n);
      StaysUnwritable(results, n + 1);
    } else {
      assert results[..n] == results;
    }
  }

  method Assemble(results: seq<Option<TaskResult>>) returns (r: Result<GenerationResult>)
    ensures r.Ok? <==> Writable(Successes(results))
    ensures r.Ok? ==> r.value.data == Data(Successes(results))
    ensures r.Ok? ==> r.value.detailedData == Details(Successes(results))
    ensures r.Ok? ==> r.value.metadata == Totals(Successes(results))
  {
    var root := new NestedMaps.NestedMaps();
    var detailedData: map<string, FieldResult> := map[];
    var metadata := Metadata(0, 0, 0, 0.0, 0);
    for n := 0 to |results|
      invariant fresh(root) && root.Valid()
      invariant Writable(Successes(results[..n]))
      invariant root.Root() == Data(Successes(results[..n]))
      invariant detailedData == Details(Successes(results[..n]))
      invariant metadata == Totals(Successes(results[..n]))
    {
      Further(results, n);
      if results[n].None? || results[n].value.err.Some? { continue; }
      var result := results[n].value;
      metadata := Count(metadata, result.metadata);
      var stored := Store(root, result);
      if stored.Err? {
        StaysUnwritable(results, n + 1);
        return Err(stored.error);
      }
      detailedData := detailedData[stored.value := FieldResult(result.value, result.metadata)];
    }
    assert results[..|results|] == results;
    r := Ok(GenerationResult(root.Root(), detailedData, metadata));
  }

  // ---------- Resolving a dotted path ----------

  /** The value of a field in each item that is a map holding it, in order. */
  function Extract(items: seq<GoValue>, field: string): seq<GoValue> {
    if items == [] then [] else
      var last := items[|items| - 1];
      Extract(items[..|items| - 1], field) +
      if last.GoMap? && field in last.entries then [last.entries[field]] else []
  }

  /** The value `parts` lead to from `current`, and whether there is one. */
  function Navigate(current: GoValue, parts: seq<string>): (GoValue, bool)
    decreases |parts|
  {
    if parts == [] then (current, true) else
      match current
      case GoMap(entries) => if parts[0] in entries then Navigate(entries[parts[0]], parts[1..]) else (GoNil, false)
      case GoList(items) =>
        if |parts| == 1 then (GoList(Extract(items, parts[0])), Extract(items, parts[0]) != []) else (GoNil, false)
      case _ => (GoNil, false)
  }

  method ResolveFieldPath(fieldPath: string, generatedValues: Tree) returns (value: GoValue, ok: bool)
    ensures (value, ok) == Navigate(GoMap(generatedValues), Split(fieldPath, '.'))
  {
    var parts := Split(fieldPath, '.');
    if |parts| == 0 { return GoNil, false; }
    if parts[0] !in generatedValues { return GoNil, false; }
    var current := generatedValues[parts[0]];
    if |parts| == 1 { return current, true; }
    for i := 1 to |parts|
      invariant Navigate(current, parts[i..]) == Navigate(GoMap(generatedValues), parts)
    {
      var part := parts[i];
      assert parts[i..][1..] == parts[i + 1..];
      match current {
        case GoMap(val) =>
          if part !in val { return GoNil, false; }
          current := val[part];
        case GoList(val) =>
          var results := [];
          for n := 0 to |val|
            invariant results == Extract(val[..n], part)
          {
            assert val[..n + 1][..n] == val[..n];
            if val[n].GoMap? && part in val[n].entries {
              results := results + [val[n].entries[part]];
            }
          }
          assert val[..|val|] == val;
          if i == |parts| - 1 { return GoList(results), |results| > 0; }
          return GoNil, false;
        case _ => return GoNil, false;
      }
    }
    value, ok := current, true;
  }

  /** What is in the tree at a path is what the path resolves to. */
  lemma {:induction false} NavigateLooksUp(root: Tree, parts: Path)
    requires parts != [] && Lookup(root, parts).Some?
    ensures Navigate(GoMap(root), parts) == (Lookup(root, parts).value, true)
    decreases |parts|
  {
    if |parts| > 1 { NavigateLooksUp(root[parts[0]].entries, parts[1..]); }
  }

  /** A path that ends inside an array collects the field from every item. */
  lemma {:induction false} ArrayFieldResolves(root: Tree, path: Path, items: seq<GoValue>, field: string)
    requires path != [] && Lookup(root, path) == Some(GoList(items))
    ensures Navigate(GoMap(root), path + [field]) == (GoList(Extract(items, field)), Extract(items, field) != [])
    decreases |path|
  {
    assert (path + [field])[1..] == path[1..] + [field];
    if |path| == 1 {
      assert path[1..] + [field] == [field];
      assert Navigate(GoList(items), [field]) == (GoList(Extract(items, field)), Extract(items, field) != []);
    } else {
      ArrayFieldResolves(root[path[0]].entries, path[1..], items, field);
    }
  }

  /** When every item has the field, the collected values line up with the items. */
  lemma {:induction false} ExtractAligned(items: seq<GoValue>, field: string)
    requires forall x :: x in items ==> x.GoMap? && field in x.entries
    ensures |Extract(items, field)| == |items|
    ensures forall i :: 0 <= i < |items| ==> Extract(items, field)[i] == items[i].entries[field]
  {
    if items != [] { ExtractAligned(items[..|items| - 1], field); }
  }

  /** Item `n` is a map that has the field. */
  predicate Holds(items: seq<GoValue>, field: string, n: nat) {
    n < |items| && items[n].GoMap? && field in items[n].entries
  }

  /** The positions of the items that are maps with the field, in rising order. */
  function Holders(items: seq<GoValue>, field: string): (at: seq<nat>)
    ensures forall i :: 0 <= i < |at| ==> Holds(items, field, at[i])
    ensures forall i, j :: 0 <= i < j < |at| ==> at[i] < at[j]
  {
    if items == [] then [] else
      var n := |items| - 1;
      var before := Holders(items[..n], field);
      assert forall i :: 0 <= i < |before| ==> Holds(items[..n], field, before[i]);
      if Holds(items, field, n) then before + [n] else before
  }

  lemma {:induction false} HoldersAll(items: seq<GoValue>, field: string, m: nat)
    requires Holds(items, field, m)
    ensures m in Holders(items, field)
  {
    var n := |items| - 1;
    if m < n {
      HoldersAll(items[..n], field, m);
    }
  }

  /** The values are those of the field in the items at the positions. */
  predicate Picks(items: seq<GoValue>, field: string, at: seq<nat>, values: seq<GoValue>) {
    |values| == |at| &&
        forall i :: 0 <= i < |at| ==> Holds(items, field, at[i]) && values[i] == items[at[i]].entries[field]
  }

  lemma PicksLonger(items: seq<GoValue>, n: nat, field: string, at: seq<nat>, values: seq<GoValue>)
    requires n <= |items| && Picks(items[..n], field, at, values)
    ensures Picks(items, field, at, values)
  {
    forall i | 0 <= i < |at|
      ensures Holds(items, field, at[i]) && values[i] == items[at[i]].entries[field]
    {
      assert Holds(items[..n], field, at[i]) && items[..n][at[i]] == items[at[i]];
    }
  }

  lemma PicksOneMore(items: seq<GoValue>, n: nat, field: string, at: seq<nat>, values: seq<GoValue>)
    requires Picks(items, field, at, values) && Holds(items, field, n)
    ensures Picks(items, field, at + [n], values + [items[n].entries[field]])
  {
  }

  lemma {:induction false} ExtractAt(items: seq<GoValue>, field: string)
    ensures Picks(items, field, Holders(items, field), Extract(items, field))
  {
    if items != [] {
      var n := |items| - 1;
      var at, values := Holders(items[..n], field), Extract(items[..n], field);
      ExtractAt(items[..n], field);
      PicksLonger(items, n, field, at, values);
      if Holds(items, field, n) {
        PicksOneMore(items, n, field, at, values);
      } else {
        assert values + [] == values;
      }
    }
  }

  /**
   What is collected from a list: position by position the values of the field in the items
   that are maps with it, in the order of the items and leaving none out.
   */
  lemma ExtractExact(items: seq<GoValue>, field: string) returns (at: seq<nat>)
    ensures Picks(items, field, at, Extract(items, field))
    ensures forall i, j :: 0 <= i < j < |at| ==> at[i] < at[j]
    ensures forall n :: Holds(items, field, n) ==> n in at
  {
    at := Holders(items, field);
    ExtractAt(items, field);
    forall n | Holds(items, field, n) ensures n in at {
      HoldersAll(items, field, n);
    }
  }

  // ---------- Assembling and resolving undo each other ----------

  ghost predicate DotFree(s: seq<Success>) {
    forall x :: x in s ==> forall i :: 0 <= i < |x.path| ==> '.' !in x.path[i]
  }

  /** Pairwise, no path leads through another. */
  ghost predicate Independent(s: seq<Success>)
    requires Placed(s)
  {
    PrefixFree(Writes(s))
  }

  lemma {:induction false} IndependentWritable(s: seq<Success>)
    requires Placed(s) && Independent(s)
    ensures Writable(s)
  {
    forall i | 0 <= i < |s| ensures Clear(Data(s[..i]), s[i].path) {
      var w := Writes(s);
      assert Writes(s[..i]) == w[..i];
      forall x | x in w[..i] ensures Apart(x.path, s[i].path) {
        var j :| 0 <= j < i && w[j] == x;
        assert Apart(w[j].path, w[i].path);
      }
      forall m, n | 0 <= m < n < i ensures Apart(w[..i][m].path, w[..i][n].path) {
        assert Apart(w[m].path, w[n].path);
      }
      StaysClear(w[..i], s[i].path);
    }
  }

  /** The key under which a result's details are filed resolves to the result's value. */
  lemma AssembledResolves(s: seq<Success>, i: nat)
    requires Placed(s) && Independent(s) && DotFree(s) && i < |s|
    ensures Writable(s)
    ensures Navigate(GoMap(Data(s)), Split(Join(s[i].path, '.'), '.')) == (s[i].result.value, true)
  {
    IndependentWritable(s);
    assert s[i] in s;
    SplitJoin(s[i].path, '.');
    AllFound(Writes(s), i);
    NavigateLooksUp(Data(s), s[i].path);
  }

  /** The tree holds nothing but the results and the maps on the way to them. */
  lemma {:induction false} NothingElse(s: seq<Success>, q: Path)
    requires Placed(s) && Writable(s) && q != [] && Lookup(Data(s), q).Some?
    ensures exists x :: x in s && (x.path <= q || q <= x.path)
    decreases |s|
  {
    if s == [] {
      LookupEmpty(q);
    } else {
      var n := |s| - 1;
      assert s == s[..n] + [s[n]];
      OneMore(s[..n], s[n]);
      if Apart(s[n].path, q) {
        PutElsewhere(Data(s[..n]), s[n].path, s[n].result.value, q);
        NothingElse(s[..n], q);
        var x :| x in s[..n] && (x.path <= q || q <= x.path);
        assert x in s;
      } else {
        assert s[n] in s;
      }
    }
  }

  // ---------- The order of the results does not matter ----------

  lemma {:induction false} SuccessesConcat(a: seq<Option<TaskResult>>, b: seq<Option<TaskResult>>)
    ensures Successes(a + b) == Successes(a) + Successes(b)
    decreases |b|
  {
    if b == [] {
      assert a + b == a;
    } else {
      var n := |b| - 1;
      assert (a + b)[..|a + b| - 1] == a + b[..n];
      SuccessesConcat(a, b[..n]);
    }
  }

  lemma SuccessesInsert(a: seq<Option<TaskResult>>, x: Option<TaskResult>, b: seq<Option<TaskResult>>)
    ensures multiset(Successes(a + [x] + b)) == multiset(Successes(a + b)) + multiset(SuccessOf(x))
  {
    SuccessesConcat(a, b);
    SuccessesConcat(a + [x], b);
    assert (a + [x])[..|a|] == a;
  }

  lemma SuccessesStep(
      a: seq<Option<TaskResult>>, p: seq<Option<TaskResult>>, x: Option<TaskResult>, q: seq<Option<TaskResult>>)
    requires multiset(Successes(a)) == multiset(Successes(p + q))
    ensures multiset(Successes(a + [x])) == multiset(Successes(p + [x] + q))
  {
    SuccessesInsert(p, x, q);
    assert (a + [x])[..|a|] == a;
  }

  lemma {:induction false} SuccessesPermute(a: seq<Option<TaskResult>>, b: seq<Option<TaskResult>>)
    requires multiset(a) == multiset(b)
    ensures multiset(Successes(a)) == multiset(Successes(b))
    decreases |a|
  {
    if a == [] {
      assert |multiset(b)| == 0;
    } else {
      var n := |a| - 1;
      var i := TakeOut(a, b);
      assert a == a[..n] + [b[i]] && b == b[..i] + [b[i]] + b[i + 1..];
      SuccessesPermute(a[..n], b[..i] + b[i + 1..]);
      SuccessesStep(a[..n], b[..i], b[i], b[i + 1..]);
    }
  }

  lemma {:induction false} TotalsInsert(a: seq<Success>, x: Success, b: seq<Success>)
    ensures Totals(a + [x] + b) == Count(Totals(a + b), x.result.metadata)
    decreases |b|
  {
    if b == [] {
      assert a + [x] + b == a + [x] && a + b == a && (a + [x])[..|a|] == a;
    } else {
      var n := |b| - 1;
      assert (a + [x] + b)[..|a| + 1 + n] == a + [x] + b[..n] && (a + b)[..|a| + n] == a + b[..n];
      TotalsInsert(a, x, b[..n]);
    }
  }

  lemma {:induction false} TotalsPermute(a: seq<Success>, b: seq<Success>)
    requires multiset(a) == multiset(b)
    ensures Totals(a) == Totals(b)
    decreases |a|
  {
    if a == [] {
      assert |multiset(b)| == 0;
    } else {
      var i := TakeOut(a, b);
      TotalsPermute(a[..|a| - 1], b[..i] + b[i + 1..]);
      assert b == b[..i] + [b[i]] + b[i + 1..];
      TotalsInsert(b[..i], b[i], b[i + 1..]);
    }
  }

  /** Different dot-free paths have different keys. */
  lemma KeysDiffer(s: seq<Success>, i: nat, j: nat)
    requires Placed(s) && Independent(s) && DotFree(s) && i < j < |s|
    ensures Join(s[i].path, '.') != Join(s[j].path, '.')
  {
    assert s[i] in s && s[j] in s;
    SplitJoin(s[i].path, '.');
    SplitJoin(s[j].path, '.');
    assert Apart(Writes(s)[i].path, Writes(s)[j].path);
  }

  /** Some result is filed under the key. */
  ghost predicate Filed(s: seq<Success>, key: string) {
    exists x :: x in s && key == Join(x.path, '.')
  }

  lemma FiledMore(s: seq<Success>, x: Success, key: string)
    ensures Filed(s + [x], key) <==> Filed(s, key) || key == Join(x.path, '.')
  {
    assert x in s + [x];
    if y :| y in s && key == Join(y.path, '.') { assert y in s + [x]; }
  }

  lemma {:induction false} DetailsExact(s: seq<Success>)
    requires Placed(s) && Independent(s) && DotFree(s)
    ensures forall k :: k in Details(s) <==> Filed(s, k)
    ensures forall i :: 0 <= i < |s| ==>
              Filed(s, Join(s[i].path, '.')) && Details(s)[Join(s[i].path, '.')] == s[i].result
    decreases |s|
  {
    forall i | 0 <= i < |s| ensures Filed(s, Join(s[i].path, '.')) { assert s[i] in s; }
    if s != [] {
      var n := |s| - 1;
      assert s == s[..n] + [s[n]];
      IndependentFirst(s, n);
      DetailsExact(s[..n]);
      forall k ensures k in Details(s) <==> Filed(s, k) { FiledMore(s[..n], s[n], k); }
      forall i | 0 <= i < n ensures Details(s)[Join(s[i].path, '.')] == s[i].result {
        KeysDiffer(s, i, n);
        assert s[..n][i] == s[i];
      }
    }
  }

  lemma IndependentFirst(s: seq<Success>, n: nat)
    requires Placed(s) && Independent(s) && n <= |s|
    ensures Independent(s[..n])
    ensures DotFree(s) ==> DotFree(s[..n])
  {
    var w := Writes(s);
    assert Writes(s[..n]) == w[..n];
    forall i, j | 0 <= i < j < n ensures Apart(w[..n][i].path, w[..n][j].path) {
      assert Apart(w[i].path, w[j].path);
    }
  }

  lemma WritesInsert(a: seq<Success>, x: Success, b: seq<Success>)
    requires Placed(a + [x] + b) && Placed(a + b)
    ensures multiset(Writes(a + [x] + b)) == multiset(Writes(a + b)) + multiset{Write(x.path, x.result.value)}
  {
    var w := Writes(a + [x] + b);
    assert w[|a|] == Write(x.path, x.result.value);
    assert Writes(a + b) == w[..|a|] + w[|a| + 1..];
    MultisetWithout(w, |a|);
  }

  lemma {:induction false} WritesPermute(a: seq<Success>, b: seq<Success>)
    requires Placed(a) && Placed(b) && multiset(a) == multiset(b)
    ensures multiset(Writes(a)) == multiset(Writes(b))
    decreases |a|
  {
    if a == [] {
      assert |multiset(b)| == 0;
    } else {
      var n := |a| - 1;
      var i := TakeOut(a, b);
      var p, q := b[..i], b[i + 1..];
      assert a == a[..n] + [b[i]] + [] && a[..n] == a[..n] + [] && b == p + [b[i]] + q;
      WritesPermute(a[..n], p + q);
      WritesInsert(a[..n], b[i], []);
      WritesInsert(p, b[i], q);
    }
  }

  lemma IndependentPermutes(a: seq<Success>, b: seq<Success>)
    requires Placed(a) && Placed(b) && Independent(a) && multiset(a) == multiset(b)
    ensures Independent(b)
  {
    WritesPermute(a, b);
    PrefixFreePermutes(Writes(a), Writes(b));
  }

  /**
   Assembling the same results in another order succeeds as well and gives the same tree,
   the same details and the same totals.
   */
  lemma AssemblyIgnoresOrder(a: seq<Option<TaskResult>>, b: seq<Option<TaskResult>>)
    requires multiset(a) == multiset(b) && Independent(Successes(a)) && DotFree(Successes(a))
    ensures Writable(Successes(a)) && Writable(Successes(b))
    ensures Data(Successes(a)) == Data(Successes(b))
    ensures Details(Successes(a)) == Details(Successes(b))
    ensures Totals(Successes(a)) == Totals(Successes(b))
  {
    var s, t := Successes(a), Successes(b);
    SuccessesPermute(a, b);
    IndependentPermutes(s, t);
    IndependentWritable(s);
    IndependentWritable(t);
    WritesPermute(s, t);
    PutAllAnyOrder(Writes(s), Writes(t));
    TotalsPermute(s, t);
    SameDetails(s, t);
  }

  lemma SameDetails(s: seq<Success>, t: seq<Success>)
    requires Placed(s) && Independent(s) && DotFree(s) && Placed(t) && Independent(t) && multiset(s) == multiset(t)
    ensures Details(s) == Details(t)
  {
    SameDotFree(s, t);
    forall k | k in Details(s) ensures k in Details(t) && Details(t)[k] == Details(s)[k] {
      var x := DetailFrom(s, k);
      DetailAt(t, x);
    }
    forall k | k in Details(t) ensures k in Details(s) {
      var x := DetailFrom(t, k);
      DetailAt(s, x);
    }
  }

  lemma SameDotFree(s: seq<Success>, t: seq<Success>)
    requires multiset(s) == multiset(t)
    ensures forall x :: x in s <==> x in t
    ensures DotFree(s) ==> DotFree(t)
  {
    SameMembers(s, t);
  }

  lemma DetailFrom(s: seq<Success>, k: string) returns (x: Success)
    requires Placed(s) && Independent(s) && DotFree(s) && k in Details(s)
    ensures x in s && k == Join(x.path, '.') && Details(s)[k] == x.result
  {
    DetailsExact(s);
    assert Filed(s, k);
    x :| x in s && k == Join(x.path, '.');
    var i :| 0 <= i < |s| && s[i] == x;
  }

  lemma DetailAt(s: seq<Success>, x: Success)
    requires Placed(s) && Independent(s) && DotFree(s) && x in s
    ensures Join(x.path, '.') in Details(s) && Details(s)[Join(x.path, '.')] == x.result
  {
    DetailsExact(s);
    var i :| 0 <= i < |s| && s[i] == x;
    assert Filed(s, Join(s[i].path, '.'));
  }
}
