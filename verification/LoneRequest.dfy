/**
 A request that has the pool to itself, on a machine with one worker for each shard. The
 round robin then brings a closure of every object with at least as many fields as there are
 shards back to the shard of the object's own closure, whose only worker waits for it.
 */
module LoneRequest {
  import opened Wrappers
  import opened JsonSchema
  import opened Sequences
  import opened PoolWaits
  import Scheduler
  import WorkerPool

  // ---------- The schema and the runs ----------

  predicate Leaf(d: Definition) {
    !d.dataType.Object? && !ObjectsInside(d)
  }

  /** An object whose fields have no order and no fields of their own, at least one for each shard. */
  ghost predicate Wide(c: Config, d: Definition) {
    && d.dataType.Object? && d.properties.Properties? && d.processingOrder == []
    && |d.properties.entries| >= Shards(c)
    && forall k :: k in d.properties.entries ==> Leaf(d.properties.entries[k])
  }

  /** The root has a wide object as its only property. */
  ghost predicate WideRoot(c: Config, f: string, d: Definition) {
    && c.root.dataType.Object? && c.root.processingOrder == []
    && c.root.properties == Properties(map[f := d]) && Wide(c, d)
  }

  function Shards(c: Config): int {
    WorkerPool.Shard(c.maxWorkers).numShards
  }

  /** Enough workers to submit the remaining keys beside a busy one, but one for each shard. */
  predicate OneEach(c: Config) {
    11 <= c.maxWorkers < 64
  }

  lemma OneEachIff(c: Config)
    requires c.maxWorkers > 0
    ensures OneEach(c) <==> WorkerPool.Shard(c.maxWorkers).workersPerShard == 1 && c.RoomBeside(1)
  {
  }

  /** There is one request, and the counter that picks the shards stands at `start` when it comes. */
  ghost predicate Lone(c: Config, start: nat, s: State, steps: seq<Step>)
    decreases |steps|
  {
    steps == [] ||
    (&& Enabled(c, s, steps[0])
     && (steps[0].Request? ==> s == [])
     && (steps[0].Submit? ==> Shards(c) > 0 && steps[0].shard == (start + |s|) % Shards(c))
     && Lone(c, start, Apply(c, s, steps[0]), steps[1..]))
  }

  // ---------- What such a run comes to ----------

  /** The shard of the process with this number. */
  function ShardOf(c: Config, start: nat, p: nat): nat
    requires Shards(c) > 0
  {
    (start + p) % Shards(c)
  }

  ghost predicate AllLeaves(ds: seq<Definition>) {
    forall e :: e in ds ==> Leaf(e)
  }

  /** The closure of the object has not been submitted yet. */
  ghost predicate Before(c: Config, d: Definition, s: State) {
    && |s| == 1 && s[0].place == Beside(None)
    && (s[0].todo == [Field(c.root)] || s[0].todo == [Rest([d])] || s[0].todo == [Wait([d], {})])
  }

  /** The closure of the object, before it looks at the counters. */
  ghost predicate Unbegun(c: Config, d: Definition, s: State) {
    && |s| == 2
    && (s[1].todo == [Field(d)] ||
        (|s[1].todo| == 1 && s[1].todo[0].Rest? && |s[1].todo[0].ds| >= Shards(c) && AllLeaves(s[1].todo[0].ds)))
  }

  /** It submits its fields and waits for them. */
  ghost predicate Submitting(c: Config, s: State) {
    && |s| >= 2 && |s[1].todo| == 1 && s[1].todo[0].Wait?
    && s[1].todo[0].ids == NewIds(2, |s| - 2) && AllLeaves(s[1].todo[0].submit)
    && |s| - 2 + |s[1].todo[0].submit| >= Shards(c)
  }

  ghost predicate ObjectAt(c: Config, start: nat, d: Definition, s: State)
    requires Shards(c) > 0 && |s| >= 2
  {
    || (|s| == 2 && s[1] == Process([Field(d)], Queued(ShardOf(c, start, 1))))
    || (s[1].place == On(WorkerPool.Worker(ShardOf(c, start, 1), 0)) && (Unbegun(c, d, s) || Submitting(c, s)))
  }

  /** A field is queued in its shard, or has been taken there, but not in the shard of the object. */
  ghost predicate LeafAt(c: Config, start: nat, s: State, q: nat)
    requires Shards(c) > 0 && q < |s|
  {
    && (s[q].todo == [] || (|s[q].todo| == 1 && s[q].todo[0].Field? && Leaf(s[q].todo[0].d)))
    && match s[q].place
       case Queued(shard) => shard == ShardOf(c, start, q)
       case On(w) => ShardOf(c, start, q) != ShardOf(c, start, 1)
       case Beside(_) => false
       case Ended => ShardOf(c, start, q) != ShardOf(c, start, 1)
  }

  ghost predicate After(c: Config, start: nat, d: Definition, s: State) {
    && Shards(c) > 0 && |s| >= 2 && s[0] == Process([Wait([], {1})], Beside(None))
    && ObjectAt(c, start, d, s) && forall q :: 2 <= q < |s| ==> LeafAt(c, start, s, q)
  }

  ghost predicate Inv(c: Config, start: nat, d: Definition, s: State) {
    s == [] || Before(c, d, s) || After(c, start, d, s)
  }

  lemma SomeShards(c: Config)
    requires c.maxWorkers > 0
    ensures Shards(c) > 0
  {
    WorkerPool.ShardingFits(c.maxWorkers);
  }

  lemma OnlyWorker(c: Config, w: Worker)
    requires OneEach(c) && c.IsWorker(w)
    ensures w.k == 0
  {
    OneEachIff(c);
  }

  /** The field that comes back to the object's shard. */
  lemma SameShard(c: Config, start: nat)
    requires Shards(c) > 0
    ensures ShardOf(c, start, 1 + Shards(c)) == ShardOf(c, start, 1)
  {
    var n := Shards(c);
    assert (start + 1 + n) % n == (start + 1) % n by { AddedOnce(start + 1, n); }
  }

  lemma AddedOnce(m: nat, n: nat)
    requires n > 0
    ensures (m + n) % n == m % n
  {
    assert m + n == n * (m / n + 1) + m % n;
    UniqueRemainder(m + n, n, m / n + 1, m % n);
  }

  lemma UniqueRemainder(a: nat, n: nat, q: nat, r: nat)
    requires 0 < n && r < n && a == n * q + r
    ensures a % n == r
  {
    var x := a / n - q;
    assert n * x == r - a % n;
    assert x >= 1 ==> n * x >= n;
    assert x <= -1 ==> n * x + n <= 0;
  }

  // ---------- Every step keeps it ----------

  predicate InTurn(c: Config, start: nat, s: State, step: Step) {
    !step.Request? && (step.Submit? ==> Shards(c) > 0 && step.shard == ShardOf(c, start, |s|))
  }

  /** An object without an order turns into its keys, in the order of the map. */
  lemma {:induction false} Unordered(d: Definition, remaining: seq<string>)
    requires d.processingOrder == [] && Scheduler.IsRemaining(d, remaining) && remaining != []
    ensures TasksOf(d, remaining) == [Rest(Definitions(d, remaining))]
  {
    assert remaining[0] in Range(remaining);
    assert Scheduler.Batches(d, []) == [];
  }

  lemma {:induction false} OnlyKey(c: Config, f: string, d: Definition, remaining: seq<string>)
    requires WideRoot(c, f, d) && Scheduler.IsRemaining(c.root, remaining)
    ensures TasksOf(c.root, remaining) == [Rest([d])]
  {
    assert f in Range(remaining);
    DistinctRangeSize(remaining);
    assert Range(remaining) == {f};
    assert remaining == [f];
    Unordered(c.root, remaining);
    assert Definitions(c.root, remaining) == [d];
  }

  lemma {:induction false} BeforeStep(c: Config, start: nat, f: string, d: Definition, s: State, step: Step)
    requires OneEach(c) && WideRoot(c, f, d) && Before(c, d, s) && Enabled(c, s, step) && InTurn(c, start, s, step)
    ensures Inv(c, start, d, Apply(c, s, step)) && Apply(c, s, step) != []
  {
    SomeShards(c);
    assert Busy(s) == {};
    if step.Expand? { OnlyKey(c, f, d, step.remaining); }
    if step.Submit? {
      var t := Apply(c, s, step);
      assert [d][1..] == [] && {} + {1} == {1};
      assert t[0].todo == [Wait([], {1})];
      assert After(c, start, d, t);
    } else {
      assert Before(c, d, Apply(c, s, step));
    }
  }

  /** The keys of a wide object are leaves. */
  lemma {:induction false} WideTasks(c: Config, d: Definition, remaining: seq<string>)
    requires Wide(c, d) && Shards(c) > 0 && Scheduler.IsRemaining(d, remaining)
    ensures TasksOf(d, remaining) == [Rest(Definitions(d, remaining))]
    ensures |Definitions(d, remaining)| >= Shards(c) && AllLeaves(Definitions(d, remaining))
  {
    DistinctRangeSize(remaining);
    assert Range(remaining) == d.properties.entries.Keys;
    Unordered(d, remaining);
    forall e | e in Definitions(d, remaining) ensures Leaf(e) {
      var i :| 0 <= i < |remaining| && Property(d, remaining[i]) == e;
      assert remaining[i] in Range(remaining);
    }
  }

  /** The object's closure is the only one that runs when it looks at the counters. */
  lemma {:induction false} AloneLooks(c: Config, s: State, w: Worker)
    requires OneEach(c) && |s| == 2 && !s[0].place.On? && s[1].place == On(w)
    ensures Room(c, s)
  {
    assert Busy(s) == {1};
  }

  /** While it waits, the field that came back to its shard has not ended. */
  lemma {:induction false} NoResume(c: Config, start: nat, d: Definition, s: State)
    requires After(c, start, d, s) && Submitting(c, s)
    ensures !Enabled(c, s, Resume(1))
  {
    if s[1].todo[0].submit == [] {
      var q := 1 + Shards(c);
      SameShard(c, start);
      assert q in s[1].todo[0].ids && LeafAt(c, start, s, q);
    }
  }

  lemma {:induction false} NextId(n: nat)
    requires n >= 2
    ensures NewIds(2, n - 2) + {n} == NewIds(2, n - 1)
  {
  }

  /** A step of the object's closure. */
  lemma {:induction false} ObjectStep(c: Config, start: nat, d: Definition, s: State, step: Step)
    requires OneEach(c) && Wide(c, d) && After(c, start, d, s)
    requires Enabled(c, s, step) && InTurn(c, start, s, step) && step.id == 1
    ensures After(c, start, d, Apply(c, s, step))
  {
    var t := Apply(c, s, step);
    if step.Submit? {
      SubmitLeaf(c, start, d, s, step.shard);
    } else {
      match step {
        case Pop(w, _) => OnlyWorker(c, w);
        case Expand(_, remaining) => WideTasks(c, d, remaining);
        case Look(_) => AloneLooks(c, s, s[1].place.worker);
        case Resume(_) => NoResume(c, start, d, s);
        case _ =>
      }
      assert |t| == |s| && t[0] == s[0] && ObjectAt(c, start, d, t);
    }
    forall q | 2 <= q < |t| ensures LeafAt(c, start, t, q) {
      if q < |s| { assert LeafAt(c, start, s, q) && t[q] == s[q]; }
    }
  }

  lemma {:induction false} SubmitLeaf(c: Config, start: nat, d: Definition, s: State, shard: nat)
    requires After(c, start, d, s) && Enabled(c, s, Submit(1, shard)) && shard == ShardOf(c, start, |s|)
    ensures var t := Apply(c, s, Submit(1, shard));
            |t| == |s| + 1 && t[0] == s[0] && ObjectAt(c, start, d, t) && LeafAt(c, start, t, |s|)
  {
    assert Submitting(c, s);
    NextId(|s|);
    var t := Apply(c, s, Submit(1, shard));
    assert t[1].place == s[1].place && Submitting(c, t);
  }

  /** A step of one of the fields. */
  lemma {:induction false} LeafStep(c: Config, start: nat, d: Definition, s: State, step: Step)
    requires OneEach(c) && After(c, start, d, s)
    requires Enabled(c, s, step) && InTurn(c, start, s, step) && step.id >= 2
    ensures After(c, start, d, Apply(c, s, step))
  {
    var p := step.id;
    var t := Apply(c, s, step);
    assert LeafAt(c, start, s, p);
    if step.Pop? { NotThatShard(c, start, d, s, step.w, p); }
    assert t[0] == s[0] && t[1] == s[1] && |t| == |s|;
    forall q | 2 <= q < |t| ensures LeafAt(c, start, t, q) {
      assert LeafAt(c, start, s, q);
    }
  }

  lemma {:induction false} NotThatShard(c: Config, start: nat, d: Definition, s: State, w: Worker, p: nat)
    requires OneEach(c) && After(c, start, d, s) && Enabled(c, s, Pop(w, p)) && 2 <= p
    ensures ShardOf(c, start, p) != ShardOf(c, start, 1)
  {
    assert LeafAt(c, start, s, p);
    OnlyWorker(c, w);
    assert s[1].place == On(WorkerPool.Worker(ShardOf(c, start, 1), 0)) && s[1].place != On(w);
  }

  lemma {:induction false} LoneStep(c: Config, start: nat, f: string, d: Definition, s: State, step: Step)
    requires OneEach(c) && WideRoot(c, f, d) && Inv(c, start, d, s) && s != []
    requires Enabled(c, s, step) && InTurn(c, start, s, step)
    ensures Inv(c, start, d, Apply(c, s, step)) && Apply(c, s, step) != []
  {
    if Before(c, d, s) {
      BeforeStep(c, start, f, d, s, step);
    } else if step.id == 1 {
      ObjectStep(c, start, d, s, step);
    } else {
      assert step.id >= 2;
      LeafStep(c, start, d, s, step);
    }
  }

  lemma {:induction false} LoneRun(
      c: Config, start: nat, f: string, d: Definition, s: State, steps: seq<Step>, t: State)
    requires OneEach(c) && WideRoot(c, f, d) && Inv(c, start, d, s)
    requires Lone(c, start, s, steps) && Exec(c, s, steps) == Some(t)
    ensures Inv(c, start, d, t)
    decreases |steps|
  {
    if steps != [] {
      var u := Apply(c, s, steps[0]);
      if s == [] {
        assert steps[0].Request?;
        assert Before(c, d, u);
      } else {
        LoneStep(c, start, f, d, s, steps[0]);
      }
      LoneRun(c, start, f, d, u, steps[1..], t);
    }
  }

  /**
   In every run of a request that has the pool to itself the request never ends. Once as many
   fields have been submitted as there are shards, the shard of the object's closure is locked,
   and nothing that comes later changes that.
   */
  lemma LoneRequestStarves(c: Config, start: nat, f: string, d: Definition, steps: seq<Step>, s: State)
    requires OneEach(c) && WideRoot(c, f, d) && Lone(c, start, [], steps) && Exec(c, [], steps) == Some(s)
    ensures s != [] ==> !s[0].place.Ended?
    ensures |s| >= 2 + Shards(c) ==> NeverEnds(c, s, 0) && NeverEnds(c, s, 1)
  {
    LoneRun(c, start, f, d, [], steps, s);
    if |s| >= 2 + Shards(c) { CameBack(c, start, d, s); }
  }

  lemma {:induction false} CameBack(c: Config, start: nat, d: Definition, s: State)
    requires OneEach(c) && After(c, start, d, s) && |s| >= 2 + Shards(c)
    ensures NeverEnds(c, s, 0) && NeverEnds(c, s, 1)
  {
    var q := 1 + Shards(c);
    var shard := ShardOf(c, start, 1);
    SameShard(c, start);
    assert LeafAt(c, start, s, q) && q in s[1].todo[0].ids;
    assert Waits(s, q, shard) && Waits(s, 1, shard);
    assert 1 in s[0].todo[0].ids && Waits(s, 0, shard);
    forall w: Worker | c.IsWorker(w) && w.shard == shard ensures Blocked(s, w) {
      OnlyWorker(c, w);
      assert s[1].place == On(w);
    }
    LockedNeverEnds(c, s, 0, shard);
    LockedNeverEnds(c, s, 1, shard);
  }
}
