/**
 The dependency scheduler of the field engine: which properties are processed in the
 declared order, which are left over, and how the ordered ones are cut into batches.

 `Batches` describes the outcome pass by pass; `AnalyzeFieldDependencies` is the loop
 that computes it. The lemmas say what the outcome means.
 */
module Scheduler {
  import opened Wrappers
  import opened JsonSchema
  import opened Sequences

  // ---------- Dependencies ----------

  /** "car.color" -> "car" */
  function RootFieldName(path: string): (root: string)
    ensures root <= path && '.' !in root
    ensures root == path || path[|root|] == '.'
  {
    if path == "" || path[0] == '.' then "" else
      var rest := RootFieldName(path[1..]);
      assert [path[0]] + rest <= path;
      [path[0]] + rest
  }

  /** The roots a field selects, other than itself. */
  function Dependencies(schema: Definition, key: string): set<string> {
    Roots(Property(schema, key).selectFields, key)
  }

  function Roots(paths: seq<string>, key: string): set<string> {
    set p | p in paths && RootFieldName(p) != "" && RootFieldName(p) != key :: RootFieldName(p)
  }

  lemma RootsAppend(paths: seq<string>, p: string, key: string)
    ensures var root := RootFieldName(p);
            Roots(paths + [p], key) == Roots(paths, key) + (if root != "" && root != key then {root} else {})
  {
    forall r ensures r in Roots(paths + [p], key) <==>
                     r in Roots(paths, key) || (r == RootFieldName(p) && r != "" && r != key) {
      if r == RootFieldName(p) { assert p in paths + [p]; }
      if r in Roots(paths, key) {
        var q :| q in paths && RootFieldName(q) == r;
        assert q in paths + [p];
      }
    }
  }

  predicate Ready(schema: Definition, key: string, processed: set<string>) {
    Dependencies(schema, key) <= processed
  }

  predicate IsObject(schema: Definition, key: string) {
    Property(schema, key).dataType.Object?
  }

  // ---------- The passes of the batching loop ----------

  const MAX_BATCH := 5

  /** What one scan over `keys` adds to `batch`. */
  function Scan(schema: Definition, keys: seq<string>, processed: set<string>, batch: seq<string>): seq<string> {
    if keys == [] then batch
    else if keys[0] in processed || !Ready(schema, keys[0], processed) then Scan(schema, keys[1..], processed, batch)
    else if IsObject(schema, keys[0]) then (if batch == [] then [keys[0]] else batch)
    else if |batch| >= MAX_BATCH then batch
    else Scan(schema, keys[1..], processed, batch + [keys[0]])
  }

  /** The first key not yet processed, if any. */
  function FirstUnprocessed(keys: seq<string>, processed: set<string>): Option<string> {
    if keys == [] then None
    else if keys[0] !in processed then Some(keys[0])
    else FirstUnprocessed(keys[1..], processed)
  }

  datatype Pass =
    | Regular(batch: seq<string>)  // some key was ready
    | Fallback(key: string)        // none was: the first unprocessed key goes anyway
    | Idle                         // nothing left to add
  {
    function Keys(): seq<string> {
      match this
      case Regular(batch) => batch
      case Fallback(key) => [key]
      case Idle => []
    }
  }

  function NextPass(schema: Definition, keys: seq<string>, processed: set<string>): Pass {
    var batch := Scan(schema, keys, processed, []);
    if batch != [] then Regular(batch)
    else match FirstUnprocessed(keys, processed)
      case Some(key) => Fallback(key)
      case None => Idle
  }

  lemma {:induction false} ScanSound(schema: Definition, keys: seq<string>, processed: set<string>, batch: seq<string>)
    requires |batch| <= MAX_BATCH
    ensures batch <= Scan(schema, keys, processed, batch)
    ensures |Scan(schema, keys, processed, batch)| <= MAX_BATCH
    ensures forall i :: |batch| <= i < |Scan(schema, keys, processed, batch)| ==>
              var key := Scan(schema, keys, processed, batch)[i];
              key in keys && key !in processed && Ready(schema, key, processed)
  {
    if keys != [] {
      if keys[0] in processed || !Ready(schema, keys[0], processed) {
        ScanSound(schema, keys[1..], processed, batch);
      } else if !IsObject(schema, keys[0]) && |batch| < MAX_BATCH {
        ScanSound(schema, keys[1..], processed, batch + [keys[0]]);
        assert Scan(schema, keys, processed, batch) == Scan(schema, keys[1..], processed, batch + [keys[0]]);
      }
    }
  }

  lemma {:induction false} ScanDistinct(
      schema: Definition, keys: seq<string>, processed: set<string>, batch: seq<string>)
    requires Distinct(keys) && Distinct(batch) && forall k :: k in keys ==> k !in batch
    ensures Distinct(Scan(schema, keys, processed, batch))
  {
    if keys != [] {
      assert keys[0] in keys && forall k :: k in keys[1..] ==> k in keys;
      if keys[0] in processed || !Ready(schema, keys[0], processed) {
        ScanDistinct(schema, keys[1..], processed, batch);
      } else if !IsObject(schema, keys[0]) && |batch| < MAX_BATCH {
        assert forall k :: k in keys[1..] ==> k != keys[0];
        ScanDistinct(schema, keys[1..], processed, batch + [keys[0]]);
      }
    }
  }

  lemma {:induction false} ScanEmpty(schema: Definition, keys: seq<string>, processed: set<string>)
    ensures Scan(schema, keys, processed, []) == [] <==>
            forall k :: k in keys && k !in processed ==> !Ready(schema, k, processed)
  {
    if keys != [] {
      assert keys == [keys[0]] + keys[1..];
      if keys[0] in processed || !Ready(schema, keys[0], processed) {
        ScanEmpty(schema, keys[1..], processed);
      } else if !IsObject(schema, keys[0]) {
        ScanSound(schema, keys[1..], processed, [keys[0]]);
        assert [] + [keys[0]] == [keys[0]];
      }
    }
  }

  /** An object-typed key that is scanned into a batch is the whole batch. */
  lemma {:induction false} ScanObjectAlone(
      schema: Definition, keys: seq<string>, processed: set<string>, batch: seq<string>)
    requires forall k :: k in batch ==> !IsObject(schema, k)
    ensures var r := Scan(schema, keys, processed, batch);
            forall k :: k in r && IsObject(schema, k) ==> r == [k]
  {
    if keys != [] {
      if keys[0] in processed || !Ready(schema, keys[0], processed) {
        ScanObjectAlone(schema, keys[1..], processed, batch);
      } else if !IsObject(schema, keys[0]) && |batch| < MAX_BATCH {
        ScanObjectAlone(schema, keys[1..], processed, batch + [keys[0]]);
      }
    }
  }

  ghost predicate IsFirstUnprocessed(keys: seq<string>, processed: set<string>, key: string) {
    && key !in processed
    && exists i :: 0 <= i < |keys| && keys[i] == key && forall j :: 0 <= j < i ==> keys[j] in processed
  }

  lemma {:induction false} FirstUnprocessedSound(keys: seq<string>, processed: set<string>)
    ensures match FirstUnprocessed(keys, processed)
            case None => forall k :: k in keys ==> k in processed
            case Some(key) => IsFirstUnprocessed(keys, processed, key)
  {
    if keys != [] {
      if keys[0] !in processed {
        assert keys[0] == FirstUnprocessed(keys, processed).value;
      } else {
        FirstUnprocessedSound(keys[1..], processed);
        match FirstUnprocessed(keys, processed)
        case None =>
        case Some(key) =>
          var i :| 0 <= i < |keys[1..]| && keys[1..][i] == key && forall j :: 0 <= j < i ==> keys[1..][j] in processed;
          assert keys[i + 1] == key;
          assert forall j :: 0 <= j < i + 1 ==> keys[j] in processed by {
            forall j | 0 <= j < i + 1 ensures keys[j] in processed {
              if j > 0 { assert keys[j] == keys[1..][j - 1]; }
            }
          }
      }
    }
  }

  /** A pass adds only unprocessed keys, at least one while any is left, and at most five. */
  lemma PassProgress(schema: Definition, keys: seq<string>, processed: set<string>)
    ensures var added := NextPass(schema, keys, processed).Keys();
            && (forall k :: k in added ==> k in keys && k !in processed)
            && |added| <= MAX_BATCH
            && (added == [] <==> Range(keys) <= processed)
  {
    ScanSound(schema, keys, processed, []);
    FirstUnprocessedSound(keys, processed);
    var pass := NextPass(schema, keys, processed);
    if pass.Regular? {
      assert pass.batch[0] in keys && pass.batch[0] !in processed;
    }
  }

  // ---------- The whole schedule ----------

  function Passes(schema: Definition, keys: seq<string>, processed: set<string>): seq<Pass>
    decreases Range(keys) - processed
  {
    if Range(keys) <= processed then [] else
      var pass := NextPass(schema, keys, processed);
      PassProgress(schema, keys, processed);
      assert pass.Keys()[0] in Range(keys) - processed;
      [pass] + Passes(schema, keys, processed + Range(pass.Keys()))
  }

  function KeysOf(passes: seq<Pass>): (batches: seq<seq<string>>)
    ensures |batches| == |passes|
    ensures forall i :: 0 <= i < |passes| ==> batches[i] == passes[i].Keys()
  {
    if passes == [] then [] else [passes[0].Keys()] + KeysOf(passes[1..])
  }

  function Batches(schema: Definition, keys: seq<string>): seq<seq<string>> {
    KeysOf(Passes(schema, keys, {}))
  }

  /** The keys of the first `n` batches. */
  ghost function KeysBefore(passes: seq<Pass>, n: nat): set<string>
    requires n <= |passes|
  {
    set i, k | 0 <= i < n && k in passes[i].Keys() :: k
  }

  /** Pass `i` is the pass taken with everything scheduled before it processed. */
  lemma {:induction false} PassAt(schema: Definition, keys: seq<string>, processed: set<string>, i: nat)
    requires i < |Passes(schema, keys, processed)|
    ensures var passes := Passes(schema, keys, processed);
            && passes[i] == NextPass(schema, keys, processed + KeysBefore(passes, i))
            && !(Range(keys) <= processed + KeysBefore(passes, i))
    decreases i
  {
    var passes := Passes(schema, keys, processed);
    if i == 0 {
      assert KeysBefore(passes, 0) == {};
      assert processed + KeysBefore(passes, 0) == processed;
    } else {
      var now := processed + Range(passes[0].Keys());
      var rest := passes[1..];
      assert rest == Passes(schema, keys, now);
      PassAt(schema, keys, now, i - 1);
      KeysBeforeShift(passes, i);
      assert processed + KeysBefore(passes, i) == now + KeysBefore(rest, i - 1);
    }
  }

  lemma KeysBeforeShift(passes: seq<Pass>, n: nat)
    requires 0 < n <= |passes|
    ensures KeysBefore(passes, n) == Range(passes[0].Keys()) + KeysBefore(passes[1..], n - 1)
  {
    var rest := passes[1..];
    forall k ensures k in KeysBefore(passes, n) <==> k in Range(passes[0].Keys()) + KeysBefore(rest, n - 1) {
      if k in KeysBefore(passes, n) {
        var i :| 0 <= i < n && k in passes[i].Keys();
        if i > 0 { assert k in rest[i - 1].Keys(); }
      }
      if k in KeysBefore(rest, n - 1) {
        var i :| 0 <= i < n - 1 && k in rest[i].Keys();
        assert k in passes[i + 1].Keys();
      }
    }
  }

  // ---------- What a schedule guarantees ----------

  lemma UnfoldPasses(schema: Definition, keys: seq<string>, processed: set<string>)
    requires !(Range(keys) <= processed)
    ensures var added := NextPass(schema, keys, processed).Keys();
            var after := processed + Range(added);
            && KeysOf(Passes(schema, keys, processed)) == [added] + KeysOf(Passes(schema, keys, after))
            && Range(keys) - after < Range(keys) - processed
  {
    PassProgress(schema, keys, processed);
    var added := NextPass(schema, keys, processed).Keys();
    assert added[0] in Range(keys) - processed;
    assert added[0] in Range(added);
  }

  lemma {:induction false} RemainingScheduledOnce(schema: Definition, keys: seq<string>, processed: set<string>)
    requires Distinct(keys)
    ensures var scheduled := Flatten(KeysOf(Passes(schema, keys, processed)));
            Distinct(scheduled) && Range(scheduled) == Range(keys) - processed
    decreases Range(keys) - processed
  {
    if !(Range(keys) <= processed) {
      PassProgress(schema, keys, processed);
      ScanDistinct(schema, keys, processed, []);
      UnfoldPasses(schema, keys, processed);
      var added := NextPass(schema, keys, processed).Keys();
      var after := processed + Range(added);
      RemainingScheduledOnce(schema, keys, after);
      var rest := Flatten(KeysOf(Passes(schema, keys, after)));
      assert Flatten([added] + KeysOf(Passes(schema, keys, after))) == added + rest;
      RangeConcat(added, rest);
      DistinctConcat(added, rest);
    }
  }

  /** Every ordered key is scheduled exactly once, in a nonempty batch of at most five keys. */
  lemma BatchesPermuteKeys(schema: Definition, keys: seq<string>)
    requires Distinct(keys)
    ensures multiset(Flatten(Batches(schema, keys))) == multiset(keys)
    ensures forall batch :: batch in Batches(schema, keys) ==> 1 <= |batch| <= MAX_BATCH
  {
    RemainingScheduledOnce(schema, keys, {});
    DistinctMultiset(Flatten(Batches(schema, keys)), keys);
    var passes := Passes(schema, keys, {});
    forall i | 0 <= i < |passes| ensures 1 <= |passes[i].Keys()| <= MAX_BATCH {
      PassAt(schema, keys, {}, i);
      PassProgress(schema, keys, {} + KeysBefore(passes, i));
    }
  }

  /** An object-typed key never shares its batch. */
  lemma ObjectsAreAlone(schema: Definition, keys: seq<string>, i: nat, key: string)
    requires i < |Batches(schema, keys)| && key in Batches(schema, keys)[i] && IsObject(schema, key)
    ensures Batches(schema, keys)[i] == [key]
  {
    var passes := Passes(schema, keys, {});
    PassAt(schema, keys, {}, i);
    ScanObjectAlone(schema, keys, {} + KeysBefore(passes, i), []);
  }

  /**
   In a regular pass every dependency of every key lies in a strictly earlier batch. A
   fallback pass happens only when no unprocessed key is ready, and takes the first of them.
   */
  lemma PassesRespectDependencies(schema: Definition, keys: seq<string>, i: nat)
    requires i < |Passes(schema, keys, {})|
    ensures var passes := Passes(schema, keys, {});
            var before := KeysBefore(passes, i);
            match passes[i]
            case Regular(batch) => forall k :: k in batch ==> Dependencies(schema, k) <= before
            case Fallback(key) =>
              && IsFirstUnprocessed(keys, before, key)
              && (forall k :: k in keys && k !in before ==> !Ready(schema, k, before))
            case Idle => false
  {
    var passes := Passes(schema, keys, {});
    var before := KeysBefore(passes, i);
    PassAt(schema, keys, {}, i);
    assert {} + before == before;
    PassProgress(schema, keys, before);
    ScanSound(schema, keys, before, []);
    ScanEmpty(schema, keys, before);
    FirstUnprocessedSound(keys, before);
    assert Range(keys) <= before <==> forall k :: k in keys ==> k in before;
  }

  // ---------- When the fallback is needed ----------

  ghost predicate NoFallback(schema: Definition, keys: seq<string>) {
    forall i :: 0 <= i < |Passes(schema, keys, {})| ==> Passes(schema, keys, {})[i].Regular?
  }

  /** A ring of keys, each depending on the next and the last on the first. */
  ghost predicate IsCycle(schema: Definition, keys: seq<string>, ring: seq<string>) {
    && ring != []
    && forall i :: 0 <= i < |ring| ==> ring[i] in keys && ring[Next(ring, i)] in Dependencies(schema, ring[i])
  }

  /** The position after `i`, going round. */
  function Next(ring: seq<string>, i: nat): nat {
    if i + 1 < |ring| then i + 1 else 0
  }

  ghost predicate DependenciesWithin(schema: Definition, keys: seq<string>) {
    forall k :: k in keys ==> Dependencies(schema, k) <= Range(keys)
  }

  ghost predicate Acyclic(schema: Definition, keys: seq<string>) {
    forall ring :: !IsCycle(schema, keys, ring)
  }

  ghost predicate IsWalk(schema: Definition, walk: seq<string>) {
    forall i :: 0 <= i < |walk| - 1 ==> walk[i + 1] in Dependencies(schema, walk[i])
  }

  ghost predicate Blocked(schema: Definition, key: string, waiting: set<string>) {
    exists d :: d in Dependencies(schema, key) && d in waiting
  }

  /** Keys all waiting for one another hold a cycle. */
  lemma StuckKeysCycle(schema: Definition, keys: seq<string>, waiting: set<string>) returns (ring: seq<string>)
    requires waiting != {} && waiting <= Range(keys)
    requires forall k {:trigger Blocked(schema, k, waiting)} :: k in waiting ==> Blocked(schema, k, waiting)
    ensures IsCycle(schema, keys, ring)
  {
    var walk := LongWalk(schema, waiting, |waiting| + 1);
    var i, j := Pigeonhole(walk, waiting);
    ring := walk[i..j];
    forall n | 0 <= n < |ring| ensures ring[n] in keys && ring[Next(ring, n)] in Dependencies(schema, ring[n]) {
      assert ring[n] == walk[i + n] && walk[i + n] in walk;
      assert walk[i + n + 1] in Dependencies(schema, walk[i + n]);
    }
  }

  lemma {:induction false} LongWalk(schema: Definition, waiting: set<string>, n: nat) returns (walk: seq<string>)
    requires waiting != {} && n > 0
    requires forall k {:trigger Blocked(schema, k, waiting)} :: k in waiting ==> Blocked(schema, k, waiting)
    ensures |walk| == n && IsWalk(schema, walk) && forall x :: x in walk ==> x in waiting
  {
    if n == 1 {
      var k :| k in waiting;
      walk := [k];
    } else {
      var shorter := LongWalk(schema, waiting, n - 1);
      var last := shorter[n - 2];
      assert last in waiting && Blocked(schema, last, waiting);
      var d :| d in Dependencies(schema, last) && d in waiting;
      walk := shorter + [d];
    }
  }

  /** The batch a key is scheduled in. */
  ghost predicate InBatch(passes: seq<Pass>, i: nat, key: string) {
    i < |passes| && key in passes[i].Keys()
  }

  lemma EveryKeyHasABatch(schema: Definition, keys: seq<string>, key: string) returns (i: nat)
    requires Distinct(keys) && key in keys
    ensures InBatch(Passes(schema, keys, {}), i, key)
  {
    RemainingScheduledOnce(schema, keys, {});
    var batches := Batches(schema, keys);
    assert key in Range(Flatten(batches));
    FlattenMember(batches, key);
    i :| 0 <= i < |batches| && key in batches[i];
  }

  /** The fallback is never used exactly when the dependencies stay within the keys and have no cycle. */
  lemma NoFallbackIffAcyclic(schema: Definition, keys: seq<string>)
    requires Distinct(keys)
    ensures NoFallback(schema, keys) <==> DependenciesWithin(schema, keys) && Acyclic(schema, keys)
  {
    if NoFallback(schema, keys) {
      NoFallbackWithin(schema, keys);
      forall ring ensures !IsCycle(schema, keys, ring) {
        if IsCycle(schema, keys, ring) {
          CycleForcesFallback(schema, keys, ring);
        }
      }
    } else if DependenciesWithin(schema, keys) {
      var ring := FallbackHasCycle(schema, keys);
    }
  }

  lemma FallbackHasCycle(schema: Definition, keys: seq<string>) returns (ring: seq<string>)
    requires DependenciesWithin(schema, keys) && !NoFallback(schema, keys)
    ensures IsCycle(schema, keys, ring)
  {
    var passes := Passes(schema, keys, {});
    var i :| 0 <= i < |passes| && !passes[i].Regular?;
    PassesRespectDependencies(schema, keys, i);
    var before := KeysBefore(passes, i);
    var waiting := Range(keys) - before;
    forall k {:trigger Blocked(schema, k, waiting)} | k in waiting ensures Blocked(schema, k, waiting) {
      assert !Ready(schema, k, before);
      var d :| d in Dependencies(schema, k) && d !in before;
      assert d in Range(keys);
    }
    assert passes[i].key in waiting;
    ring := StuckKeysCycle(schema, keys, waiting);
  }

  lemma NoFallbackWithin(schema: Definition, keys: seq<string>)
    requires Distinct(keys) && NoFallback(schema, keys)
    ensures DependenciesWithin(schema, keys)
  {
    var passes := Passes(schema, keys, {});
    forall k, d | k in keys && d in Dependencies(schema, k) ensures d in Range(keys) {
      var i := EveryKeyHasABatch(schema, keys, k);
      PassesRespectDependencies(schema, keys, i);
      var j :| 0 <= j < i && d in passes[j].Keys();
      PassAt(schema, keys, {}, j);
      PassProgress(schema, keys, {} + KeysBefore(passes, j));
    }
  }

  /** Around a cycle the batch number would have to fall at every step. */
  lemma CycleForcesFallback(schema: Definition, keys: seq<string>, ring: seq<string>)
    requires Distinct(keys) && IsCycle(schema, keys, ring)
    ensures !NoFallback(schema, keys)
  {
    if NoFallback(schema, keys) {
      var passes := Passes(schema, keys, {});
      // Follow the ring: from any position whose key is in batch b, the next key is in a batch below b.
      var at := 0;
      var b := EveryKeyHasABatch(schema, keys, ring[0]);
      while true
        invariant 0 <= at < |ring| && InBatch(passes, b, ring[at])
        decreases b
      {
        PassesRespectDependencies(schema, keys, b);
        var next := Next(ring, at);
        assert ring[next] in Dependencies(schema, ring[at]);
        assert ring[next] in KeysBefore(passes, b);
        var c :| 0 <= c < b && ring[next] in passes[c].Keys();
        at, b := next, c;
      }
    }
  }

  // ---------- When the batching loop ends ----------

  /** The processed set after `n` turns of the loop, whatever the keys. */
  ghost function After(schema: Definition, keys: seq<string>, n: nat): set<string> {
    if n == 0 then {} else
      var before := After(schema, keys, n - 1);
      before + Range(NextPass(schema, keys, before).Keys())
  }

  /** The loop stops after `n` turns when its guard `len(processed) < len(orderedKeys)` fails. */
  ghost predicate StopsAfter(schema: Definition, keys: seq<string>, n: nat) {
    |After(schema, keys, n)| >= |keys|
  }

  lemma {:induction false} AfterGrows(schema: Definition, keys: seq<string>, n: nat)
    ensures After(schema, keys, n) <= Range(keys)
    ensures |After(schema, keys, n)| >= if n < |Range(keys)| then n else |Range(keys)|
  {
    if n > 0 {
      AfterGrows(schema, keys, n - 1);
      var before := After(schema, keys, n - 1);
      PassProgress(schema, keys, before);
      GrowsByOne(before, NextPass(schema, keys, before).Keys(), Range(keys));
    }
  }

  lemma GrowsByOne<T>(before: set<T>, added: seq<T>, all: set<T>)
    requires before <= all && forall k :: k in added ==> k in all && k !in before
    requires added == [] ==> all <= before
    ensures before + Range(added) <= all
    ensures before != all ==> |before + Range(added)| > |before|
    ensures before == all ==> before + Range(added) == all
  {
    var after := before + Range(added);
    if before != all {
      assert added[0] in after && added[0] !in before;
      SubsetSize(before, after);
    }
    SubsetSize(before, all);
  }

  /** The guard counts distinct processed keys against listed keys, so a repeated key never lets it stop. */
  lemma LoopStopsIffKeysDistinct(schema: Definition, keys: seq<string>)
    ensures (exists n: nat :: StopsAfter(schema, keys, n)) <==> Distinct(keys)
  {
    DistinctRangeSize(keys);
    if n: nat :| StopsAfter(schema, keys, n) {
      AfterGrows(schema, keys, n);
      SubsetSize(After(schema, keys, n), Range(keys));
    }
    if Distinct(keys) {
      AfterGrows(schema, keys, |keys|);
      assert StopsAfter(schema, keys, |keys|);
    }
  }

  /** The smallest input on which it hangs. */
  lemma RepeatedKeyNeverStops(schema: Definition, n: nat)
    ensures !StopsAfter(schema, ["a", "a"], n)
  {
    LoopStopsIffKeysDistinct(schema, ["a", "a"]);
    assert ["a", "a"][0] == ["a", "a"][1];
  }


  // ---------- The schedule, batch by batch ----------

  /** The keys that could be taken now, in the order they are declared. */
  function ReadyKeys(schema: Definition, keys: seq<string>, processed: set<string>): seq<string> {
    if keys == [] then []
    else if keys[0] !in processed && Dependencies(schema, keys[0]) <= processed then
      [keys[0]] + ReadyKeys(schema, keys[1..], processed)
    else ReadyKeys(schema, keys[1..], processed)
  }

  /**
   A batch takes the ready keys in order. An object that comes first is taken alone; otherwise
   the batch ends with the fifth key, with the last ready key or before the next object.
   */
  ghost predicate FirstOf(schema: Definition, ready: seq<string>, batch: seq<string>) {
    && batch != [] && batch <= ready
    && if IsObject(schema, ready[0]) then |batch| == 1 else
         && (forall k :: k in batch ==> !IsObject(schema, k)) && |batch| <= 5
         && (|batch| == 5 || |batch| == |ready| || IsObject(schema, ready[|batch|]))
  }

  /** What comes after the keys in `processed`: the first of the ready keys, or, without any, the first key left. */
  ghost predicate IsNext(schema: Definition, keys: seq<string>, processed: set<string>, batch: seq<string>) {
    var ready := ReadyKeys(schema, keys, processed);
    if ready != [] then FirstOf(schema, ready, batch)
    else |batch| == 1 && IsFirstUnprocessed(keys, processed, batch[0])
  }

  ghost function Earlier(batches: seq<seq<string>>, n: nat): set<string>
    requires n <= |batches|
  {
    set i, k | 0 <= i < n && k in batches[i] :: k
  }

  /** Each batch is the next after the ones before it, and nothing is left at the end. */
  ghost predicate IsSchedule(schema: Definition, keys: seq<string>, batches: seq<seq<string>>) {
    && (forall n :: 0 <= n < |batches| ==> IsNext(schema, keys, Earlier(batches, n), batches[n]))
    && Range(keys) <= Earlier(batches, |batches|)
  }

  lemma {:induction false} ReadyMember(schema: Definition, keys: seq<string>, processed: set<string>)
    ensures forall k :: k in ReadyKeys(schema, keys, processed) <==>
                        k in keys && k !in processed && Dependencies(schema, k) <= processed
  {
    if keys != [] {
      assert keys == [keys[0]] + keys[1..];
      ReadyMember(schema, keys[1..], processed);
    }
  }

  lemma {:induction false} ScanTakesFirst(
      schema: Definition, keys: seq<string>, processed: set<string>, batch: seq<string>)
    requires |batch| <= 5 && forall k :: k in batch ==> !IsObject(schema, k)
    ensures var all := batch + ReadyKeys(schema, keys, processed);
            var taken := Scan(schema, keys, processed, batch);
            if all == [] then taken == [] else |batch| <= |taken| && FirstOf(schema, all, taken)
    decreases |keys|
  {
    var ready := ReadyKeys(schema, keys, processed);
    if keys == [] {
      assert batch + [] == batch;
    } else {
      var later := ReadyKeys(schema, keys[1..], processed);
      if keys[0] in processed || !Ready(schema, keys[0], processed) {
        ScanTakesFirst(schema, keys[1..], processed, batch);
      } else if IsObject(schema, keys[0]) || |batch| == 5 {
        assert ready == [keys[0]] + later && (batch + ready)[|batch|] == keys[0];
        StopsHere(schema, batch, ready);
      } else {
        ScanTakesFirst(schema, keys[1..], processed, batch + [keys[0]]);
        assert batch + ready == batch + [keys[0]] + later;
      }
    }
  }

  lemma {:induction false} StopsHere(schema: Definition, batch: seq<string>, ready: seq<string>)
    requires |batch| <= 5 && (forall k :: k in batch ==> !IsObject(schema, k))
    requires ready != [] && (IsObject(schema, ready[0]) || |batch| == 5)
    ensures FirstOf(schema, batch + ready, if batch == [] then [ready[0]] else batch)
  {
    if batch == [] {
      assert batch + ready == ready;
    } else {
      assert (batch + ready)[0] == batch[0] && batch[0] in batch && (batch + ready)[|batch|] == ready[0];
    }
  }

  lemma PassIsNext(schema: Definition, keys: seq<string>, processed: set<string>)
    requires !(Range(keys) <= processed)
    ensures IsNext(schema, keys, processed, NextPass(schema, keys, processed).Keys())
  {
    var ready := ReadyKeys(schema, keys, processed);
    assert [] + ready == ready;
    ScanTakesFirst(schema, keys, processed, []);
    FirstUnprocessedSound(keys, processed);
    assert Range(keys) <= processed <==> forall k :: k in keys ==> k in processed;
  }

  lemma EarlierBatches(passes: seq<Pass>, n: nat)
    requires n <= |passes|
    ensures Earlier(KeysOf(passes), n) == KeysBefore(passes, n)
  {
    var batches := KeysOf(passes);
    forall k ensures k in Earlier(batches, n) <==> k in KeysBefore(passes, n) {
      if i :| 0 <= i < n && k in batches[i] { assert k in passes[i].Keys(); }
      if i :| 0 <= i < n && k in passes[i].Keys() { assert k in batches[i]; }
    }
  }

  lemma {:induction false} TakesAll(schema: Definition, keys: seq<string>, processed: set<string>)
    ensures var passes := Passes(schema, keys, processed); Range(keys) <= processed + KeysBefore(passes, |passes|)
    decreases Range(keys) - processed
  {
    var passes := Passes(schema, keys, processed);
    if !(Range(keys) <= processed) {
      UnfoldPasses(schema, keys, processed);
      TakesAll(schema, keys, processed + Range(passes[0].Keys()));
      assert passes[1..] == Passes(schema, keys, processed + Range(passes[0].Keys()));
      KeysBeforeShift(passes, |passes|);
    }
  }

  lemma BatchesAreSchedule(schema: Definition, keys: seq<string>)
    ensures IsSchedule(schema, keys, Batches(schema, keys))
  {
    var passes := Passes(schema, keys, {});
    var batches := Batches(schema, keys);
    forall n | 0 <= n < |batches| ensures IsNext(schema, keys, Earlier(batches, n), batches[n]) {
      PassAt(schema, keys, {}, n);
      EarlierBatches(passes, n);
      assert {} + KeysBefore(passes, n) == KeysBefore(passes, n);
      PassIsNext(schema, keys, KeysBefore(passes, n));
    }
    TakesAll(schema, keys, {});
    EarlierBatches(passes, |passes|);
    assert {} + KeysBefore(passes, |passes|) == KeysBefore(passes, |passes|);
  }

  /** There is only one next batch. */
  lemma {:induction false} NextUnique(
      schema: Definition, keys: seq<string>, processed: set<string>, a: seq<string>, b: seq<string>)
    requires IsNext(schema, keys, processed, a) && IsNext(schema, keys, processed, b)
    ensures a == b
  {
    var ready := ReadyKeys(schema, keys, processed);
    if ready != [] {
      PrefixUnique(schema, ready, a, b);
      PrefixUnique(schema, ready, b, a);
      assert a == ready[..|a|] && b == ready[..|b|];
    } else {
      SameFirst(keys, processed, a[0], b[0]);
    }
  }

  lemma {:induction false} PrefixUnique(schema: Definition, ready: seq<string>, a: seq<string>, b: seq<string>)
    requires FirstOf(schema, ready, a) && FirstOf(schema, ready, b)
    ensures |a| >= |b|
  {
    assert forall i :: 0 <= i < |b| ==> b[i] == ready[i] && b[i] in b;
  }

  lemma {:induction false} SameFirst(keys: seq<string>, processed: set<string>, a: string, b: string)
    requires IsFirstUnprocessed(keys, processed, a) && IsFirstUnprocessed(keys, processed, b)
    ensures a == b
  {
    var i :| 0 <= i < |keys| && keys[i] == a && forall j :: 0 <= j < i ==> keys[j] in processed;
    var m :| 0 <= m < |keys| && keys[m] == b && forall j :: 0 <= j < m ==> keys[j] in processed;
    assert i == m;
  }

  lemma {:induction false} SameEarlier(a: seq<seq<string>>, b: seq<seq<string>>, n: nat)
    requires n <= |a| && n <= |b| && a[..n] == b[..n]
    ensures Earlier(a, n) == Earlier(b, n)
  {
    assert forall i :: 0 <= i < n ==> a[i] == a[..n][i] && b[i] == b[..n][i];
    forall k ensures k in Earlier(a, n) <==> k in Earlier(b, n) {
      if i :| 0 <= i < n && k in a[i] { assert k in b[i]; }
      if i :| 0 <= i < n && k in b[i] { assert k in a[i]; }
    }
  }

  lemma {:induction false} SameUpTo(
      schema: Definition, keys: seq<string>, a: seq<seq<string>>, b: seq<seq<string>>, n: nat)
    requires IsSchedule(schema, keys, a) && IsSchedule(schema, keys, b) && n <= |a| && n <= |b|
    ensures a[..n] == b[..n]
  {
    if n > 0 {
      SameUpTo(schema, keys, a, b, n - 1);
      SameNext(schema, keys, a, b, n - 1);
      OneLonger(a, b, n - 1);
    }
  }

  lemma {:induction false} SameNext(
      schema: Definition, keys: seq<string>, a: seq<seq<string>>, b: seq<seq<string>>, n: nat)
    requires IsSchedule(schema, keys, a) && IsSchedule(schema, keys, b) && n < |a| && n < |b| && a[..n] == b[..n]
    ensures a[n] == b[n]
  {
    SameEarlier(a, b, n);
    NextUnique(schema, keys, Earlier(a, n), a[n], b[n]);
  }

  lemma {:induction false} OneLonger(a: seq<seq<string>>, b: seq<seq<string>>, n: nat)
    requires n < |a| && n < |b| && a[..n] == b[..n] && a[n] == b[n]
    ensures a[..n + 1] == b[..n + 1]
  {
    assert a[..n + 1] == a[..n] + [a[n]] && b[..n + 1] == b[..n] + [b[n]];
  }

  /** A schedule does not go on once all keys are taken. */
  lemma NextIsNew(schema: Definition, keys: seq<string>, processed: set<string>, batch: seq<string>)
    requires IsNext(schema, keys, processed, batch)
    ensures !(Range(keys) <= processed)
  {
    ReadyMember(schema, keys, processed);
    if ReadyKeys(schema, keys, processed) != [] {
      var k := ReadyKeys(schema, keys, processed)[0];
      assert k in Range(keys);
    } else {
      assert batch[0] in Range(keys);
    }
  }

  lemma NoShorter(schema: Definition, keys: seq<string>, a: seq<seq<string>>, b: seq<seq<string>>)
    requires IsSchedule(schema, keys, a) && IsSchedule(schema, keys, b)
    ensures |a| >= |b|
  {
    if |a| < |b| {
      SameUpTo(schema, keys, a, b, |a|);
      SameEarlier(a, b, |a|);
      NextIsNew(schema, keys, Earlier(b, |a|), b[|a|]);
    }
  }

  /**
   The batches are the one schedule in which every batch takes the first of the keys that are
   ready after the ones before it.
   */
  lemma ScheduleIff(schema: Definition, keys: seq<string>, batches: seq<seq<string>>)
    ensures IsSchedule(schema, keys, batches) <==> batches == Batches(schema, keys)
  {
    var mine := Batches(schema, keys);
    BatchesAreSchedule(schema, keys);
    if IsSchedule(schema, keys, batches) {
      NoShorter(schema, keys, mine, batches);
      NoShorter(schema, keys, batches, mine);
      SameUpTo(schema, keys, batches, mine, |mine|);
      assert batches[..|mine|] == batches && mine[..|mine|] == mine;
    }
  }

  // ---------- The loops of the source ----------

  /** `dependencies` has an entry exactly for the keys that depend on something. */
  ghost predicate DependencyTable(schema: Definition, keys: set<string>, table: map<string, set<string>>) {
    && table.Keys == (set k | k in keys && Dependencies(schema, k) != {})
    && forall k :: k in table ==> table[k] == Dependencies(schema, k)
  }

  method CollectDependencies(schema: Definition, orderedKeys: seq<string>)
    returns (dependencies: map<string, set<string>>)
    ensures DependencyTable(schema, Range(orderedKeys), dependencies)
  {
    dependencies := map[];
    for n := 0 to |orderedKeys|
      invariant DependencyTable(schema, Range(orderedKeys[..n]), dependencies)
    {
      var key := orderedKeys[n];
      var paths := Property(schema, key).selectFields;
      var deps: set<string> := {};
      for i := 0 to |paths|
        invariant deps == Roots(paths[..i], key)
      {
        assert paths[..i + 1] == paths[..i] + [paths[i]];
        RootsAppend(paths[..i], paths[i], key);
        var root := RootFieldName(paths[i]);
        if root != "" && root != key {
          deps := deps + {root};
        }
      }
      assert paths[..|paths|] == paths;
      if deps != {} {
        dependencies := dependencies[key := deps];
      }
      assert Range(orderedKeys[..n + 1]) == Range(orderedKeys[..n]) + {key};
    }
    assert orderedKeys[..|orderedKeys|] == orderedKeys;
  }

  method CanProcess(key: string, dependencies: map<string, set<string>>, processed: set<string>) returns (ok: bool)
    ensures ok <==> (key in dependencies ==> dependencies[key] <= processed)
  {
    ok := true;
    if key in dependencies {
      var unseen := dependencies[key];
      while unseen != {}
        invariant unseen <= dependencies[key] && dependencies[key] - unseen <= processed
      {
        var dep :| dep in unseen;
        if dep !in processed { return false; }
        unseen := unseen - {dep};
      }
    }
  }

  method CollectBatch(
      schema: Definition, orderedKeys: seq<string>, dependencies: map<string, set<string>>, processed: set<string>)
    returns (currentBatch: seq<string>)
    requires DependencyTable(schema, Range(orderedKeys), dependencies)
    ensures currentBatch == Scan(schema, orderedKeys, processed, [])
    ensures var ready := ReadyKeys(schema, orderedKeys, processed);
            if ready == [] then currentBatch == [] else FirstOf(schema, ready, currentBatch)
  {
    ScanTakesFirst(schema, orderedKeys, processed, []);
    assert [] + ReadyKeys(schema, orderedKeys, processed) == ReadyKeys(schema, orderedKeys, processed);
    currentBatch := [];
    var n := 0;
    assert orderedKeys[0..] == orderedKeys;
    while n < |orderedKeys|
      invariant 0 <= n <= |orderedKeys|
      invariant Scan(schema, orderedKeys[n..], processed, currentBatch) == Scan(schema, orderedKeys, processed, [])
    {
      var key := orderedKeys[n];
      assert key in Range(orderedKeys);
      n := n + 1;
      if key in processed { continue; }
      var canProcess := CanProcess(key, dependencies, processed);
      if !canProcess { continue; }
      if Property(schema, key).dataType.Object? {
        if |currentBatch| > 0 { return; }
        currentBatch := currentBatch + [key];
        return;
      }
      if |currentBatch| >= MAX_BATCH { return; }
      currentBatch := currentBatch + [key];
    }
  }

  method FindUnprocessed(orderedKeys: seq<string>, processed: set<string>) returns (key: Option<string>)
    ensures key == FirstUnprocessed(orderedKeys, processed)
  {
    assert orderedKeys[0..] == orderedKeys;
    for n := 0 to |orderedKeys|
      invariant FirstUnprocessed(orderedKeys[n..], processed) == FirstUnprocessed(orderedKeys, processed)
    {
      if orderedKeys[n] !in processed {
        return Some(orderedKeys[n]);
      }
    }
    return None;
  }

  lemma PassStep(schema: Definition, keys: seq<string>, processed: set<string>)
    requires processed <= Range(keys) && |processed| < |Range(keys)|
    ensures var added := NextPass(schema, keys, processed).Keys();
            var after := processed + Range(added);
            && KeysOf(Passes(schema, keys, processed)) == [added] + KeysOf(Passes(schema, keys, after))
            && after <= Range(keys)
            && Range(keys) - after < Range(keys) - processed
  {
    assert processed != Range(keys);
    PassProgress(schema, keys, processed);
    UnfoldPasses(schema, keys, processed);
  }

  /** One turn of the loop: the batch it appends, empty when there is nothing to append. */
  method TakePass(
      schema: Definition, orderedKeys: seq<string>, dependencies: map<string, set<string>>, processed: set<string>)
    returns (batch: seq<string>)
    requires DependencyTable(schema, Range(orderedKeys), dependencies)
    ensures batch == NextPass(schema, orderedKeys, processed).Keys()
  {
    batch := CollectBatch(schema, orderedKeys, dependencies, processed);
    if |batch| == 0 {
      var key := FindUnprocessed(orderedKeys, processed);
      if key.Some? { batch := [key.value]; }
    }
  }

  /** `batches` have been taken, and the passes from `processed` on are still to come. */
  ghost predicate Underway(schema: Definition, keys: seq<string>, batches: seq<seq<string>>, processed: set<string>) {
    && processed <= Range(keys)
    && batches + KeysOf(Passes(schema, keys, processed)) == Batches(schema, keys)
  }

  lemma UnderwayOn(schema: Definition, keys: seq<string>, batches: seq<seq<string>>, processed: set<string>)
    requires Underway(schema, keys, batches, processed) && |processed| < |Range(keys)|
    ensures var added := NextPass(schema, keys, processed).Keys();
            && Underway(schema, keys, batches + [added], processed + Range(added))
            && Range(keys) - (processed + Range(added)) < Range(keys) - processed
  {
    PassStep(schema, keys, processed);
    var added := NextPass(schema, keys, processed).Keys();
    var left := KeysOf(Passes(schema, keys, processed + Range(added)));
    assert batches + ([added] + left) == batches + [added] + left;
  }

  lemma UnderwayDone(schema: Definition, keys: seq<string>, batches: seq<seq<string>>, processed: set<string>)
    requires Underway(schema, keys, batches, processed) && |processed| >= |Range(keys)|
    ensures batches == Batches(schema, keys)
  {
    SubsetSize(processed, Range(keys));
  }

  method AnalyzeFieldDependencies(orderedKeys: seq<string>, schema: Definition) returns (batches: seq<seq<string>>)
    requires Distinct(orderedKeys)
    ensures batches == Batches(schema, orderedKeys) && IsSchedule(schema, orderedKeys, batches)
  {
    BatchesAreSchedule(schema, orderedKeys);
    batches := [];
    if |orderedKeys| == 0 { return; }
    var dependencies := CollectDependencies(schema, orderedKeys);
    var processed: set<string> := {};
    DistinctRangeSize(orderedKeys);
    assert [] + Batches(schema, orderedKeys) == Batches(schema, orderedKeys);
    while |processed| < |orderedKeys|
      invariant Underway(schema, orderedKeys, batches, processed)
      decreases Range(orderedKeys) - processed
    {
      UnderwayOn(schema, orderedKeys, batches, processed);
      var batch := TakePass(schema, orderedKeys, dependencies, processed);
      batches := batches + [batch];
      processed := processed + Range(batch);
    }
    UnderwayDone(schema, orderedKeys, batches, processed);
  }

  /** Splits the properties into the declared order and the rest; the rest comes in any order. */
  method GetOrderedKeys(schema: Definition) returns (ordered: seq<string>, remaining: seq<string>)
    ensures ordered == schema.processingOrder
    ensures IsRemaining(schema, remaining)
  {
    var allKeys := Entries(schema.properties).Keys;
    for n := 0 to |schema.processingOrder|
      invariant allKeys == Entries(schema.properties).Keys - Range(schema.processingOrder[..n])
    {
      allKeys := allKeys - {schema.processingOrder[n]};
      assert Range(schema.processingOrder[..n + 1]) == Range(schema.processingOrder[..n]) + {schema.processingOrder[n]};
    }
    assert schema.processingOrder[..|schema.processingOrder|] == schema.processingOrder;
    ordered, remaining := schema.processingOrder, [];
    ghost var left := allKeys;
    while allKeys != {}
      invariant Range(remaining) == left - allKeys && allKeys <= left && Distinct(remaining)
    {
      var key :| key in allKeys;
      assert key !in Range(remaining);
      DistinctAppend(remaining, key);
      RangeAppend(remaining, key);
      remaining := remaining + [key];
      allKeys := allKeys - {key};
    }
  }

  ghost predicate IsRemaining(schema: Definition, remaining: seq<string>) {
    Distinct(remaining) && Range(remaining) == Entries(schema.properties).Keys - Range(schema.processingOrder)
  }

  /**
   Together the batches and the remaining keys schedule every key of the order and every
   property exactly once; they are exactly the properties if and only if the order names
   only properties.
   */
  lemma EverythingScheduledOnce(schema: Definition, remaining: seq<string>)
    requires Distinct(schema.processingOrder) && IsRemaining(schema, remaining)
    ensures var all := Flatten(Batches(schema, schema.processingOrder)) + remaining;
            && Distinct(all)
            && Range(all) == Range(schema.processingOrder) + Entries(schema.properties).Keys
            && (Range(all) == Entries(schema.properties).Keys <==>
                Range(schema.processingOrder) <= Entries(schema.properties).Keys)
  {
    RemainingScheduledOnce(schema, schema.processingOrder, {});
    var scheduled := Flatten(Batches(schema, schema.processingOrder));
    DistinctConcat(scheduled, remaining);
    RangeConcat(scheduled, remaining);
  }
}
