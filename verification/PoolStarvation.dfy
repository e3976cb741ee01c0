/**
 When the pool can starve. If some closure that a request submits is one that submits again,
 a run can fill a shard with closures that all wait for closures in the queue of that shard,
 and none of them ever ends. Otherwise, whatever state a run has come to, all that has begun
 can be brought to its end.
 */
module PoolStarvation {
  import opened Wrappers
  import opened JsonSchema
  import opened Sequences
  import opened PoolWaits
  import opened Submissions
  import opened PoolRuns
  import ObjectTree
  import Scheduler
  import WorkerPool

  // ---------- A run that fills a shard ----------

  /** Requests one after another, each driven to a closure that submits again. */
  lemma {:induction false} Fill(c: Config, n: nat) returns (s: State, qs: seq<nat>)
    requires c.maxWorkers > 0 && Plain(c.root) && Nests(c, c.root)
    ensures Reachable(c, s) && Busy(s) == {}
    ensures |qs| == n && Distinct(qs) && forall q :: q in qs ==> Ripe(c, s, q)
  {
    if n == 0 {
      s, qs := [], [];
      Stays(c, []);
    } else {
      s, qs := Fill(c, n - 1);
      var before := s;
      var begun := s + [Process([Field(c.root)], Beside(None))];
      ThenStep(c, [], s, Request);
      assert Busy(begun) == {};
      assert [Field(c.root)] + [] == [Field(c.root)];
      var q: nat;
      s, q := DriveField(c, begun, |before|, c.root, []);
      Then(c, [], begun, s);
      DrivenIdle(begun, s, |before|);
      StillRipe(c, before, begun, s, qs);
      DistinctAppend(qs, q);
      qs := qs + [q];
    }
  }

  lemma {:induction false} StillRipe(c: Config, before: State, begun: State, s: State, qs: seq<nat>)
    requires |begun| == |before| + 1 && begun[..|before|] == before && Driven(begun, s, |before|)
    requires forall q :: q in qs ==> Ripe(c, before, q)
    ensures forall q :: q in qs ==> q < |before| && Ripe(c, s, q)
  {
    forall q | q in qs ensures q < |before| && Ripe(c, s, q) {
      assert s[q] == begun[q] == before[q];
    }
  }

  /** If only `q` has moved on, and waits, then whatever waited before still does. */
  lemma {:induction false} StillWaits(s: State, t: State, q: nat, p: nat, shard: nat)
    requires |s| <= |t| && (forall x :: 0 <= x < |s| && x != q ==> t[x] == s[x])
    requires Waits(t, q, shard) && Waits(s, p, shard)
    ensures Waits(t, p, shard)
    decreases |s| - p
  {
    if p != q && !s[p].place.Queued? {
      var x :| p < x < |s| && x in s[p].todo[0].ids && Waits(s, x, shard);
      StillWaits(s, t, q, x, shard);
    }
  }

  /** The first `k` workers of the first shard are blocked and no other is busy. */
  ghost predicate Taken(s: State, k: nat) {
    && |Busy(s)| == k
    && (forall p :: 0 <= p < |s| && s[p].place.On? ==> s[p].place.worker.shard == 0 && s[p].place.worker.k < k)
    && forall i: nat :: i < k ==> Blocked(s, WorkerPool.Worker(0, i))
  }

  lemma AsAlone(c: Config, k: nat)
    requires c.maxWorkers > 0 && 1 <= k <= WorkerPool.Shard(c.maxWorkers).workersPerShard
    ensures c.RoomBeside(k) == c.RoomBeside(1)
  {
  }

  /** Another worker of the shard takes a ripe closure. */
  lemma {:induction false} PopRipe(c: Config, s: State, k: nat, q: nat) returns (t: State)
    requires c.maxWorkers > 0 && k < WorkerPool.Shard(c.maxWorkers).workersPerShard && Taken(s, k) && Ripe(c, s, q)
    ensures Leads(c, s, t) && t == Placed(s, q, On(WorkerPool.Worker(0, k))) && |Busy(t)| == k + 1
  {
    var w := WorkerPool.Worker(0, k);
    NextFree(c, s, k);
    t := Placed(s, q, On(w));
    OneStep(c, s, Pop(w, q));
    OneMoreBusy(s, q, w);
  }

  lemma NextFree(c: Config, s: State, k: nat)
    requires c.maxWorkers > 0 && k < WorkerPool.Shard(c.maxWorkers).workersPerShard && Taken(s, k)
    ensures c.IsWorker(WorkerPool.Worker(0, k)) && Free(s, WorkerPool.Worker(0, k))
  {
    FirstIsWorker(c);
  }

  lemma {:induction false} OneMoreBusy(s: State, q: nat, w: Worker)
    requires q < |s| && !s[q].place.On?
    ensures |Busy(Placed(s, q, On(w)))| == |Busy(s)| + 1
  {
    assert Busy(Placed(s, q, On(w))) == Busy(s) + {q};
  }

  /** Having taken it, the worker comes to wait for the shard's queue. */
  lemma {:induction false} TakeOne(c: Config, s: State, k: nat, q: nat) returns (t: State)
    requires c.maxWorkers > 0 && k < WorkerPool.Shard(c.maxWorkers).workersPerShard && Taken(s, k) && Ripe(c, s, q)
    ensures Leads(c, s, t) && Taken(t, k + 1) && |s| <= |t|
    ensures forall p :: 0 <= p < |s| && p != q ==> t[p] == s[p]
  {
    var taken := PopRipe(c, s, k, q);
    AsAlone(c, k + 1);
    assert s[q].todo == [Field(s[q].todo[0].d)] + [];
    t := ClosureField(c, taken, q, s[q].todo[0].d, []);
    Then(c, s, taken, t);
    DrivenIdle(taken, t, q);
    OneMoreTaken(s, t, k, q);
  }

  lemma {:induction false} OneMoreTaken(s: State, t: State, k: nat, q: nat)
    requires Taken(s, k) && q < |s| && s[q].place.Queued? && Driven(Placed(s, q, On(WorkerPool.Worker(0, k))), t, q)
    requires Waits(t, q, 0) && |Busy(t)| == k + 1
    ensures Taken(t, k + 1)
  {
    forall i: nat | i <= k ensures Blocked(t, WorkerPool.Worker(0, i)) {
      StillBlocked(s, t, q, k, i);
    }
    forall p | 0 <= p < |t| && t[p].place.On?
      ensures t[p].place.worker.shard == 0 && t[p].place.worker.k < k + 1
    {
      assert p < |s| && (p != q ==> t[p] == s[p]);
    }
  }

  lemma {:induction false} StillBlocked(s: State, t: State, q: nat, k: nat, i: nat)
    requires Taken(s, k) && |s| <= |t| && (forall x :: 0 <= x < |s| && x != q ==> t[x] == s[x])
    requires q < |s| && s[q].place.Queued? && Waits(t, q, 0) && t[q].place == On(WorkerPool.Worker(0, k)) && i <= k
    ensures Blocked(t, WorkerPool.Worker(0, i))
  {
    if i < k {
      var w := WorkerPool.Worker(0, i);
      assert Blocked(s, w);
      var p :| 0 <= p < |s| && s[p].place == On(w) && Waits(s, p, w.shard);
      StillWaits(s, t, q, p, 0);
    }
  }

  lemma {:induction false} TakeAll(c: Config, s: State, qs: seq<nat>, k: nat) returns (t: State)
    requires c.maxWorkers > 0 && k <= |qs| <= WorkerPool.Shard(c.maxWorkers).workersPerShard
    requires Busy(s) == {} && Distinct(qs) && forall q :: q in qs ==> Ripe(c, s, q)
    ensures Leads(c, s, t) && Taken(t, k) && forall q :: q in qs[k..] ==> Ripe(c, t, q)
  {
    if k == 0 {
      t := s;
      Stays(c, s);
      assert forall p :: 0 <= p < |s| && s[p].place.On? ==> p in Busy(s);
    } else {
      var u := TakeAll(c, s, qs, k - 1);
      var q := qs[k - 1];
      assert q in qs[k - 1..];
      t := TakeOne(c, u, k - 1, q);
      Then(c, s, u, t);
      forall x | x in qs[k..] ensures Ripe(c, t, x) {
        assert x in qs[k - 1..] && x != q;
      }
    }
  }

  /** A run that locks the first shard. */
  lemma LockingRun(c: Config) returns (s: State, p: nat)
    requires c.maxWorkers > 0 && Plain(c.root) && Nests(c, c.root)
    ensures Reachable(c, s) && c.IsShard(0) && Locked(c, s, 0) && Waits(s, p, 0)
  {
    var per := WorkerPool.Shard(c.maxWorkers).workersPerShard;
    WorkerPool.ShardingFits(c.maxWorkers);
    var filled, qs := Fill(c, per);
    s := TakeAll(c, filled, qs, per);
    Then(c, [], filled, s);
    forall w: Worker | c.IsWorker(w) && w.shard == 0 ensures Blocked(s, w) {
      assert w == WorkerPool.Worker(0, w.k);
    }
    assert Blocked(s, FIRST);
    p :| 0 <= p < |s| && s[p].place == On(FIRST) && Waits(s, p, FIRST.shard);
  }

  // ---------- Runs in which no closure submits ----------

  ghost predicate AllPlain(task: Task) {
    forall e :: e in Inside(task) ==> Plain(e)
  }

  /** A task of a closure that submits nothing. */
  ghost predicate QuietTask(c: Config, task: Task) {
    AllPlain(task) && if task.Wait? then task.submit == [] else !TaskSubmits(task, c.RoomBeside(1))
  }

  /** A task of a request none of whose closures submits. */
  ghost predicate MildTask(c: Config, task: Task) {
    AllPlain(task) && !TaskNests(c, task)
  }

  /** Waits only for processes begun later; a closure, and what runs beside it, only for array items beside it. */
  ghost predicate WaitsFor(s: State, p: nat, task: Task)
    requires p < |s|
  {
    task.Wait? ==> forall q :: q in task.ids ==>
      p < q < |s| && (s[p].Host().Some? ==> s[q].place.Ended? || s[q].place == Beside(s[p].Host()))
  }

  /** Someone at the same worker waits for `p`. */
  ghost predicate Awaited(s: State, p: nat)
    requires p < |s|
  {
    exists q :: AwaitedBy(s, p, q)
  }

  ghost predicate AwaitedBy(s: State, p: nat, q: nat)
    requires p < |s|
  {
    q < p && HasNext(s, q) && s[q].Host() == s[p].Host() && s[q].todo[0].Wait? && p in s[q].todo[0].ids
  }

  ghost predicate ProcessInv(c: Config, s: State, p: nat)
    requires p < |s|
  {
    match s[p].place
    case Ended => true
    case Queued(shard) =>
      c.IsShard(shard) && |s[p].todo| == 1 && s[p].todo[0].Field? && QuietTask(c, s[p].todo[0])
    case On(_) => forall task :: task in s[p].todo ==> QuietTask(c, task) && WaitsFor(s, p, task)
    case Beside(host) =>
      (forall task :: task in s[p].todo ==>
         (if host.Some? then QuietTask(c, task) else MildTask(c, task)) && WaitsFor(s, p, task))
      && (host.Some? ==> Awaited(s, p))
  }

  ghost predicate Inv(c: Config, s: State) {
    forall p :: 0 <= p < |s| ==> ProcessInv(c, s, p)
  }

  /** What runs beside a worker finds that worker busy. */
  lemma {:induction false} HostBusy(c: Config, s: State, p: nat)
    requires Inv(c, s) && p < |s| && s[p].Runs() && s[p].Host().Some?
    ensures Room(c, s) ==> c.RoomBeside(1)
  {
    if s[p].place.On? {
      OnWorker(c, s, p, s[p].place.worker);
    } else {
      assert ProcessInv(c, s, p);
      var q :| AwaitedBy(s, p, q);
      HostBusy(c, s, q);
    }
  }

  // ---------- Every step keeps this ----------

  /** A process a step has nothing to do with. */
  lemma {:induction false} OtherInv(c: Config, s: State, step: Step, p: nat)
    requires Inv(c, s) && Enabled(c, s, step) && p < |s| && (step.Request? || step.id != p)
    ensures p < |Apply(c, s, step)| && ProcessInv(c, Apply(c, s, step), p)
  {
    var t := Apply(c, s, step);
    Untouched(c, s, step, p);
    assert ProcessInv(c, s, p);
    forall task | task in s[p].todo && WaitsFor(s, p, task) ensures WaitsFor(t, p, task) {
      StillWaitsFor(c, s, step, p, task);
    }
    if s[p].place.Beside? && s[p].place.host.Some? { StillAwaited(c, s, step, p); }
  }

  lemma {:induction false} StillWaitsFor(c: Config, s: State, step: Step, p: nat, task: Task)
    requires Enabled(c, s, step) && p < |s| && (step.Request? || step.id != p) && WaitsFor(s, p, task)
    ensures p < |Apply(c, s, step)| && WaitsFor(Apply(c, s, step), p, task)
  {
    var t := Apply(c, s, step);
    Untouched(c, s, step, p);
    if task.Wait? {
      forall q | q in task.ids
        ensures p < q < |t| && (t[p].Host().Some? ==> t[q].place.Ended? || t[q].place == Beside(t[p].Host()))
      {
        PlaceAfter(c, s, step, q);
      }
    }
  }

  /** A step ends a process or leaves it where it is, unless it was queued. */
  lemma {:induction false} PlaceAfter(c: Config, s: State, step: Step, q: nat)
    requires Enabled(c, s, step) && q < |s|
    ensures var t := Apply(c, s, step);
            |s| <= |t| && (t[q].place == s[q].place || t[q].place.Ended? || s[q].place.Queued?)
  {
  }

  lemma {:induction false} StillAwaited(c: Config, s: State, step: Step, p: nat)
    requires Enabled(c, s, step) && p < |s| && (step.Request? || step.id != p) && Awaited(s, p) && s[p].place.Beside?
    ensures p < |Apply(c, s, step)| && Awaited(Apply(c, s, step), p)
  {
    var t := Apply(c, s, step);
    Untouched(c, s, step, p);
    var q :| AwaitedBy(s, p, q);
    if !step.Request? && step.id == q {
      WaitingStep(c, s, step, q, p);
    } else {
      Untouched(c, s, step, q);
    }
    assert AwaitedBy(t, p, q);
  }

  lemma {:induction false} TailInv(c: Config, s: State, p: nat)
    requires HasNext(s, p) && ProcessInv(c, s, p)
    ensures forall task :: task in s[p].todo[1..] ==>
              WaitsFor(s, p, task) && if s[p].Host().Some? then QuietTask(c, task) else MildTask(c, task)
  {
  }

  /** The process that has taken a step, if it still runs: its tasks were there, or take the place of the first. */
  lemma {:induction false} ReplacedInv(c: Config, s: State, t: State, p: nat, tasks: seq<Task>)
    requires p < |s| <= |t| && ProcessInv(c, s, p) && HasNext(s, p)
    requires t[p] == Replace(s, p, tasks)[p]
    requires forall q :: 0 <= q < |s| ==> t[q].place == s[q].place
    requires forall task :: task in tasks ==>
               WaitsFor(t, p, task) && if s[p].Host().Some? then QuietTask(c, task) else MildTask(c, task)
    requires s[p].place.Beside? && s[p].place.host.Some? ==> Awaited(t, p)
    ensures ProcessInv(c, t, p)
  {
    TailInv(c, s, p);
    forall task | task in t[p].todo ensures WaitsFor(t, p, task) {
      if task in s[p].todo[1..] { SamePlaces(s, t, p, task); }
    }
  }

  lemma {:induction false} SamePlaces(s: State, t: State, p: nat, task: Task)
    requires p < |s| <= |t| && WaitsFor(s, p, task)
    requires forall q :: 0 <= q < |s| ==> t[q].place == s[q].place
    ensures WaitsFor(t, p, task)
  {
  }

  /** What the step puts in place of the first task. */
  ghost function NewTasks(c: Config, s: State, step: Step): seq<Task>
    requires Enabled(c, s, step) && !step.Request? && !step.Pop? && !step.End?
  {
    var h := s[step.id].todo[0];
    match step
    case Expand(_, remaining) => TasksOf(h.d, remaining)
    case GoItems(_, n) => [Wait([], NewIds(|s|, n))]
    case Look(_) => if Room(c, s) then [Wait(h.ds, {})] else Fields(h.ds)
    case Submit(_, _) => [Wait(h.submit[1..], h.ids + {|s|})]
    case _ => []
  }

  predicate Works(step: Step) {
    !step.Request? && !step.Pop? && !step.End?
  }

  /** A task that fits a closure, or a request. */
  ghost predicate Fits(c: Config, host: Option<Worker>, task: Task) {
    if host.Some? then QuietTask(c, task) else MildTask(c, task)
  }

  lemma {:induction false} HeadFits(c: Config, s: State, p: nat)
    requires HasNext(s, p) && ProcessInv(c, s, p)
    ensures Fits(c, s[p].Host(), s[p].todo[0]) && WaitsFor(s, p, s[p].todo[0])
  {
  }

  lemma {:induction false} ExpandedFits(
    c: Config, host: Option<Worker>, d: Definition, remaining: seq<string>, task: Task)
    requires d.dataType.Object? && Scheduler.IsRemaining(d, remaining)
    requires Fits(c, host, Field(d)) && task in TasksOf(d, remaining)
    ensures Fits(c, host, task)
  {
    HeadPlain(d);
    ExpandedPlain(d, remaining, task);
    if host.Some? {
      ExpandedQuiet(c, d, remaining, task);
    } else {
      ExpandedMild(c, d, remaining, task);
    }
  }

  lemma {:induction false} HeadPlain(d: Definition)
    ensures AllPlain(Field(d)) ==> Plain(d)
  {
    assert d in Inside(Field(d));
  }

  lemma {:induction false} ExpandedPlain(d: Definition, remaining: seq<string>, task: Task)
    requires Plain(d) && task in TasksOf(d, remaining)
    ensures AllPlain(task)
  {
    TasksOver(d, remaining);
    forall e | e in Inside(task) ensures Plain(e) { assert PlainBelow(d, e); }
  }

  lemma {:induction false} ExpandedQuiet(c: Config, d: Definition, remaining: seq<string>, task: Task)
    requires d.dataType.Object? && Plain(d) && Scheduler.IsRemaining(d, remaining) && task in TasksOf(d, remaining)
    requires !MaySubmit(d, c.RoomBeside(1))
    ensures !TaskSubmits(task, c.RoomBeside(1))
  {
    SubmitsIff(d, remaining, c.RoomBeside(1));
  }

  lemma {:induction false} ExpandedMild(c: Config, d: Definition, remaining: seq<string>, task: Task)
    requires d.dataType.Object? && Plain(d) && Scheduler.IsRemaining(d, remaining) && task in TasksOf(d, remaining)
    requires !Nests(c, d)
    ensures !TaskNests(c, task)
  {
    NestsIff(c, d, remaining);
  }

  lemma {:induction false} LookedFits(c: Config, s: State, host: Option<Worker>, ds: seq<Definition>, task: Task)
    requires Fits(c, host, Rest(ds)) && (host.Some? && Room(c, s) ==> c.RoomBeside(1))
    requires task in if Room(c, s) then [Wait(ds, {})] else Fields(ds)
    ensures Fits(c, host, task)
  {
    if Room(c, s) {
      NoneSubmits(c, s, ds);
    } else {
      assert task.Field? && task.d in Inside(Rest(ds));
    }
  }

  lemma {:induction false} SubmittedFits(c: Config, host: Option<Worker>, h: Task, ids: set<nat>)
    requires h.Wait? && h.submit != [] && Fits(c, host, h)
    ensures host.None? && Fits(c, host, Wait(h.submit[1..], ids)) && QuietTask(c, Field(h.submit[0]))
  {
    assert forall e :: e in h.submit[1..] ==> e in Inside(h);
    assert h.submit[0] in Inside(h);
  }

  /** What a step puts in place of a fitting task fits. */
  lemma {:induction false} NewFits(c: Config, s: State, step: Step, task: Task)
    requires Enabled(c, s, step) && Works(step) && Inv(c, s) && task in NewTasks(c, s, step)
    ensures Fits(c, s[step.id].Host(), task)
  {
    var p := step.id;
    var h := s[p].todo[0];
    assert ProcessInv(c, s, p);
    HeadFits(c, s, p);
    match step {
      case Expand(_, remaining) => ExpandedFits(c, s[p].Host(), h.d, remaining, task);
      case Look(_) =>
        if s[p].Host().Some? { HostBusy(c, s, p); }
        LookedFits(c, s, s[p].Host(), h.ds, task);
      case Submit(_, _) => SubmittedFits(c, s[p].Host(), h, h.ids + {|s|});
      case _ =>
    }
  }

  lemma {:induction false} NewWaitsFor(c: Config, s: State, step: Step, task: Task)
    requires Enabled(c, s, step) && Works(step) && Inv(c, s) && task in NewTasks(c, s, step)
    ensures var t := Apply(c, s, step); step.id < |t| && WaitsFor(t, step.id, task)
  {
    var p := step.id;
    assert ProcessInv(c, s, p);
    HeadFits(c, s, p);
    match step {
      case Expand(_, remaining) => TasksUnsubmitted(s[p].todo[0].d, remaining);
      case Submit(_, _) => SubmittedFits(c, s[p].Host(), s[p].todo[0], {});
      case _ =>
    }
  }

  lemma {:induction false} WorkedOn(c: Config, s: State, step: Step)
    requires Enabled(c, s, step) && Works(step)
    ensures var t := Apply(c, s, step);
            && step.id < |s| <= |t| && HasNext(s, step.id) &&
                t[step.id] == Replace(s, step.id, NewTasks(c, s, step))[step.id]
            && forall q :: 0 <= q < |s| ==> t[q].place == s[q].place
  {
  }

  lemma {:induction false} ActorAwaited(c: Config, s: State, step: Step)
    requires Enabled(c, s, step) && Works(step) && step.id < |s| && Awaited(s, step.id)
    ensures step.id < |Apply(c, s, step)| && Awaited(Apply(c, s, step), step.id)
  {
    var q :| AwaitedBy(s, step.id, q);
    WorkedOn(c, s, step);
    Untouched(c, s, step, q);
    assert AwaitedBy(Apply(c, s, step), step.id, q);
  }

  /** The process that takes the step. */
  lemma {:induction false} ActorInv(c: Config, s: State, step: Step)
    requires Inv(c, s) && Enabled(c, s, step) && !step.Request?
    ensures step.id < |Apply(c, s, step)| && ProcessInv(c, Apply(c, s, step), step.id)
  {
    var p := step.id;
    assert ProcessInv(c, s, p);
    if Works(step) {
      var t := Apply(c, s, step);
      WorkedOn(c, s, step);
      forall task | task in NewTasks(c, s, step) ensures WaitsFor(t, p, task) && Fits(c, s[p].Host(), task) {
        NewFits(c, s, step, task);
        NewWaitsFor(c, s, step, task);
      }
      if s[p].place.Beside? && s[p].place.host.Some? { ActorAwaited(c, s, step); }
      ReplacedInv(c, s, t, p, NewTasks(c, s, step));
    }
  }

  /** A process that the step has begun. */
  lemma {:induction false} BegunInv(c: Config, s: State, step: Step, p: nat)
    requires Inv(c, s) && Enabled(c, s, step) && |s| <= p < |Apply(c, s, step)|
    requires Plain(c.root) && !Nests(c, c.root)
    ensures ProcessInv(c, Apply(c, s, step), p)
  {
    if step.GoItems? {
      ItemInv(c, s, step.id, step.n, p);
    } else if step.Submit? {
      assert ProcessInv(c, s, step.id);
      HeadFits(c, s, step.id);
      SubmittedFits(c, s[step.id].Host(), s[step.id].todo[0], {});
    }
  }

  lemma {:induction false} ItemInv(c: Config, s: State, id: nat, n: nat, p: nat)
    requires Inv(c, s) && Enabled(c, s, GoItems(id, n)) && |s| <= p < |s| + n
    ensures p < |Apply(c, s, GoItems(id, n))| && ProcessInv(c, Apply(c, s, GoItems(id, n)), p)
  {
    var t := Apply(c, s, GoItems(id, n));
    var d := s[id].todo[0].d;
    assert ProcessInv(c, s, id);
    HeadFits(c, s, id);
    assert d in Inside(Field(d));
    assert t[p] == Process([Field(d.items.value)], Beside(s[id].Host()));
    assert AwaitedBy(t, p, id);
  }

  lemma {:induction false} StepInv(c: Config, s: State, step: Step)
    requires Inv(c, s) && Enabled(c, s, step) && Plain(c.root) && !Nests(c, c.root)
    ensures Inv(c, Apply(c, s, step))
  {
    var t := Apply(c, s, step);
    forall p | 0 <= p < |t| ensures ProcessInv(c, t, p) {
      if p >= |s| {
        BegunInv(c, s, step, p);
      } else if !step.Request? && step.id == p {
        ActorInv(c, s, step);
      } else {
        OtherInv(c, s, step, p);
      }
    }
  }

  lemma {:induction false} ExecInv(c: Config, s: State, steps: seq<Step>, t: State)
    requires Inv(c, s) && Exec(c, s, steps) == Some(t) && Plain(c.root) && !Nests(c, c.root)
    ensures Inv(c, t)
    decreases |steps|
  {
    if steps != [] {
      StepInv(c, s, steps[0]);
      ExecInv(c, Apply(c, s, steps[0]), steps[1..], t);
    }
  }

  lemma LeadsInv(c: Config, s: State, t: State)
    requires Inv(c, s) && Leads(c, s, t) && Plain(c.root) && !Nests(c, c.root)
    ensures Inv(c, t)
  {
    var steps :| Exec(c, s, steps) == Some(t);
    ExecInv(c, s, steps, t);
  }

  // ---------- Bringing everything to its end ----------

  ghost predicate WaitsOver(s: State, todo: seq<Task>) {
    forall task :: task in todo && task.Wait? ==> AllEnded(s, task.ids)
  }

  /** A closure's tasks are run through in place. */
  lemma {:induction false} QuietTodo(c: Config, s: State, id: nat, todo: seq<Task>)
    requires Has(s, id, todo) && WaitsOver(s, todo) && (Room(c, s) ==> c.RoomBeside(1))
    requires forall task :: task in todo ==> QuietTask(c, task)
    ensures Leads(c, s, SetTodo(s, id, []))
    decreases Weight(todo)
  {
    if todo == [] {
      assert SetTodo(s, id, []) == s;
      Stays(c, s);
    } else {
      var next := InPlace(c, s, todo[0]) + todo[1..];
      var u := SetTodo(s, id, next);
      QuietHead(c, s, id, todo);
      QuietLeft(c, s, todo);
      SameBusy(s, id, next);
      StillOver(s, id, next);
      QuietTodo(c, u, id, next);
      SetTwice(s, id, next, []);
      Then(c, s, u, SetTodo(s, id, []));
    }
  }

  lemma {:induction false} StillOver(s: State, id: nat, todo: seq<Task>)
    requires id < |s| && WaitsOver(s, todo)
    ensures WaitsOver(SetTodo(s, id, todo), todo)
  {
  }

  lemma {:induction false} QuietHead(c: Config, s: State, id: nat, todo: seq<Task>)
    requires todo != [] && Has(s, id, todo) && WaitsOver(s, todo) && (Room(c, s) ==> c.RoomBeside(1))
    requires QuietTask(c, todo[0])
    ensures Leads(c, s, SetTodo(s, id, InPlace(c, s, todo[0]) + todo[1..]))
  {
    var rest := todo[1..];
    assert todo == [todo[0]] + rest && [] + rest == rest;
    match todo[0]
    case Field(e) =>
      assert e in Inside(todo[0]);
      QuietField(c, s, id, e, rest, c.RoomBeside(1));
    case Rest(ds) => LookStep(c, s, id, ds, rest);
    case Wait(ds, ids) => ResumeStep(c, s, id, ids, rest);
  }

  lemma {:induction false} QuietLeft(c: Config, s: State, todo: seq<Task>)
    requires todo != [] && WaitsOver(s, todo) && (forall task :: task in todo ==> QuietTask(c, task))
    ensures var next := InPlace(c, s, todo[0]) + todo[1..];
            && WaitsOver(s, next) && (forall task :: task in next ==> QuietTask(c, task)) && Weight(next) < Weight(todo)
  {
    assert [] + todo[1..] == todo[1..];
    if todo[0].Rest? {
      WeightFields(todo[0].ds, todo[1..]);
      forall task | task in Fields(todo[0].ds) ensures task.Field? && QuietTask(c, task) {
        assert QuietTask(c, todo[0]) && task.Field? && task.d in Inside(todo[0]);
      }
    }
  }

  /** From number `n` on no closure runs, nor an item beside one. */
  ghost predicate Settled(s: State, n: nat) {
    forall p :: n <= p < |s| ==> !(s[p].Runs() && s[p].Host().Some?)
  }

  /** Everything that runs at a worker ends, the youngest first. */
  lemma {:induction false} Settle(c: Config, s: State, n: nat) returns (t: State)
    requires Inv(c, s) && Plain(c.root) && !Nests(c, c.root) && n <= |s| && Settled(s, n)
    ensures Leads(c, s, t) && Inv(c, t) && |t| == |s| && Settled(t, 0)
    decreases n
  {
    if n == 0 {
      t := s;
      Stays(c, s);
    } else {
      var p := n - 1;
      var u := s;
      Stays(c, s);
      if s[p].Runs() && s[p].Host().Some? { u := EndHosted(c, s, p); }
      LeadsInv(c, s, u);
      t := Settle(c, u, p);
      Then(c, s, u, t);
    }
  }

  lemma {:induction false} EndHosted(c: Config, s: State, p: nat) returns (t: State)
    requires Inv(c, s) && p < |s| && Settled(s, p + 1) && s[p].Runs() && s[p].Host().Some?
    ensures Leads(c, s, t) && t == s[p := Process([], Ended)]
  {
    assert ProcessInv(c, s, p);
    forall task | task in s[p].todo && task.Wait? ensures AllEnded(s, task.ids) {
      assert WaitsFor(s, p, task);
    }
    HostBusy(c, s, p);
    QuietTodo(c, s, p, s[p].todo);
    t := EndStep(c, s, p);
  }

  lemma {:induction false} EndStep(c: Config, s: State, p: nat) returns (t: State)
    requires p < |s| && s[p].Runs() && Leads(c, s, SetTodo(s, p, []))
    ensures Leads(c, s, t) && t == s[p := Process([], Ended)]
  {
    var u := SetTodo(s, p, []);
    ThenStep(c, s, u, End(p));
    t := Apply(c, u, End(p));
    assert u[p].(place := Ended) == Process([], Ended);
  }

  ghost predicate NoneQueued(s: State, n: nat) {
    forall p :: n <= p < |s| ==> !s[p].place.Queued?
  }

  lemma {:induction false} SettledFree(s: State, w: Worker)
    requires Settled(s, 0)
    ensures Free(s, w)
  {
  }

  /** The queues are emptied. */
  lemma {:induction false} EmptyQueues(c: Config, s: State, n: nat) returns (t: State)
    requires Inv(c, s) && Plain(c.root) && !Nests(c, c.root) && c.maxWorkers > 0
    requires n <= |s| && Settled(s, 0) && NoneQueued(s, n)
    ensures Leads(c, s, t) && Inv(c, t) && |t| == |s| && Settled(t, 0) && NoneQueued(t, 0)
    decreases n
  {
    if n == 0 {
      t := s;
      Stays(c, s);
    } else {
      var p := n - 1;
      var u := s;
      Stays(c, s);
      if s[p].place.Queued? { u := EndQueued(c, s, p); }
      LeadsInv(c, s, u);
      t := EmptyQueues(c, u, p);
      Then(c, s, u, t);
    }
  }

  lemma {:induction false} EndQueued(c: Config, s: State, p: nat) returns (t: State)
    requires Inv(c, s) && c.maxWorkers > 0 && p < |s| && Settled(s, 0) && s[p].place.Queued?
    ensures Leads(c, s, t) && t == s[p := Process([], Ended)]
  {
    assert ProcessInv(c, s, p);
    var w := WorkerPool.Worker(s[p].place.shard, 0);
    WorkerPool.ShardingFits(c.maxWorkers);
    SettledFree(s, w);
    var e := s[p].todo[0].d;
    assert e in Inside(s[p].todo[0]) && s[p] == Process([Field(e)], Queued(w.shard));
    RunClosure(c, s, p, w, e);
    t := s[p := Process([], Ended)];
  }

  /** A request's tasks are run through with everything they submit. */
  lemma {:induction false} MildTodo(c: Config, s: State, id: nat, todo: seq<Task>) returns (t: State)
    requires c.maxWorkers > 0 && Has(s, id, todo) && WaitsOver(s, todo) && Free(s, FIRST)
    requires forall task :: task in todo ==> MildTask(c, task)
    ensures Leads(c, s, t) && Ran(s, t, id, [])
    decreases Weight(todo)
  {
    if todo == [] {
      t := s;
      Stays(c, s);
    } else {
      var next := InPlace(c, s, todo[0]) + todo[1..];
      var u := MildHead(c, s, id, todo);
      MildLeft(c, s, todo);
      RanFree(s, u, id, next, FIRST);
      StillOverAfter(s, u, id, next);
      t := MildTodo(c, u, id, next);
      Then(c, s, u, t);
      RanOn(s, u, t, id, next, []);
    }
  }

  lemma {:induction false} StillOverAfter(s: State, t: State, id: nat, todo: seq<Task>)
    requires Ran(s, t, id, todo) && WaitsOver(s, todo) && s[id].Runs()
    ensures WaitsOver(t, todo)
  {
    forall task, q | task in todo && task.Wait? && q in task.ids ensures q < |t| && t[q].place.Ended? {
      assert AllEnded(s, task.ids);
    }
  }

  lemma {:induction false} MildHead(c: Config, s: State, id: nat, todo: seq<Task>) returns (t: State)
    requires c.maxWorkers > 0 && todo != [] && Has(s, id, todo) && WaitsOver(s, todo) && Free(s, FIRST)
    requires MildTask(c, todo[0])
    ensures Leads(c, s, t) && Ran(s, t, id, InPlace(c, s, todo[0]) + todo[1..])
  {
    var rest := todo[1..];
    assert todo == [todo[0]] + rest && [] + rest == rest;
    if todo[0].Field? && (todo[0].d.dataType.Object? || ObjectsInside(todo[0].d)) {
      assert todo[0].d in Inside(todo[0]);
      t := RequestField(c, s, id, todo[0].d, rest);
    } else {
      t := RequestTask(c, s, id, todo[0], rest);
    }
  }

  lemma {:induction false} MildLeft(c: Config, s: State, todo: seq<Task>)
    requires todo != [] && WaitsOver(s, todo) && (forall task :: task in todo ==> MildTask(c, task))
    ensures var next := InPlace(c, s, todo[0]) + todo[1..];
            && WaitsOver(s, next) && (forall task :: task in next ==> MildTask(c, task)) && Weight(next) < Weight(todo)
  {
    assert [] + todo[1..] == todo[1..];
    if todo[0].Rest? {
      WeightFields(todo[0].ds, todo[1..]);
      forall task | task in Fields(todo[0].ds) ensures task.Field? && MildTask(c, task) {
        assert MildTask(c, todo[0]) && task.Field? && task.d in Inside(todo[0]);
      }
    }
  }

  /** From number `n` on everything has ended. */
  ghost predicate EndedFrom(s: State, n: nat) {
    forall p :: n <= p < |s| ==> s[p].place.Ended?
  }

  /** The requests end, the youngest process first. */
  lemma {:induction false} EndRequests(c: Config, s: State, n: nat) returns (t: State)
    requires Inv(c, s) && Plain(c.root) && !Nests(c, c.root) && c.maxWorkers > 0
    requires n <= |s| && Settled(s, 0) && NoneQueued(s, 0) && EndedFrom(s, n)
    ensures Leads(c, s, t) && |s| <= |t| && EndedFrom(t, 0)
    decreases n
  {
    if n == 0 {
      t := s;
      Stays(c, s);
    } else {
      var p := n - 1;
      var u := s;
      Stays(c, s);
      if !s[p].place.Ended? { u := EndRequest(c, s, p); }
      LeadsInv(c, s, u);
      t := EndRequests(c, u, p);
      Then(c, s, u, t);
    }
  }

  lemma {:induction false} EndRequest(c: Config, s: State, p: nat) returns (t: State)
    requires Inv(c, s) && c.maxWorkers > 0 && p < |s| && s[p].place == Beside(None)
    requires Settled(s, 0) && NoneQueued(s, 0) && EndedFrom(s, p + 1)
    ensures Leads(c, s, t) && |s| <= |t| && Settled(t, 0) && NoneQueued(t, 0) && EndedFrom(t, p)
  {
    assert ProcessInv(c, s, p);
    forall task | task in s[p].todo && task.Wait? ensures AllEnded(s, task.ids) {
      assert WaitsFor(s, p, task);
    }
    SettledFree(s, FIRST);
    var u := MildTodo(c, s, p, s[p].todo);
    ThenStep(c, s, u, End(p));
    t := Apply(c, u, End(p));
  }

  /** Where no submitted closure submits again, everything can be brought to its end. */
  lemma Drain(c: Config, s: State) returns (t: State)
    requires c.maxWorkers > 0 && Plain(c.root) && !Nests(c, c.root) && Reachable(c, s)
    ensures Leads(c, s, t) && |s| <= |t| && EndedFrom(t, 0)
  {
    LeadsInv(c, [], s);
    var settled := Settle(c, s, |s|);
    var emptied := EmptyQueues(c, settled, |s|);
    t := EndRequests(c, emptied, |s|);
    Then(c, s, settled, emptied);
    Then(c, s, emptied, t);
  }

  // ---------- When the pool can starve ----------

  /** Some run comes to a state with a process that never ends. */
  ghost predicate CanStarve(c: Config) {
    exists s, p: nat :: Reachable(c, s) && NeverEnds(c, s, p)
  }

  /**
   With any number of requests for one schema, some process can come to wait for ever if and
   only if the requests submit a closure that submits closures itself. The test for free
   workers before the remaining keys does not prevent it, for it counts the workers of all
   shards and the closures of a shard wait for that shard's own.
   */
  lemma StarvesIff(c: Config)
    requires c.maxWorkers > 0 && c.root.dataType.Object? && Plain(c.root)
    ensures CanStarve(c) <==> Nests(c, c.root)
  {
    if Nests(c, c.root) {
      var s, p := LockingRun(c);
      LockedNeverEnds(c, s, p, 0);
    } else {
      forall s: State, p: nat | Reachable(c, s) && p < |s| ensures !NeverEnds(c, s, p) {
        var t := Drain(c, s);
        assert t[p].place.Ended?;
      }
    }
  }

  /** From eleven workers on it takes no more than an unordered property that is an object with one. */
  lemma {:induction false} ObjectInsideObjectStarves(c: Config, f: string)
    requires c.maxWorkers >= 11 && Plain(c.root) && c.root.dataType.Object? && f in ObjectTree.RemainingKeys(c.root)
    requires Property(c.root, f).dataType.Object? && ObjectTree.RemainingKeys(Property(c.root, f)) != {}
    ensures CanStarve(c)
  {
    var d := c.root.properties.entries[f];
    assert c.RoomBeside(0) && c.RoomBeside(1);
    assert d.properties.Properties?;
    assert MaySubmit(d, true);
    assert Submitted(c, c.root, f);
    StarvesIff(c);
  }
}
