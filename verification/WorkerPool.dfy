/**
 The global worker pool and the per-request pools in front of it. A request pool takes a
 slot of its semaphore, counts itself active, and hands a closure to one shard of the
 global pool; the worker that runs the closure undoes both in two separate steps.

 Every channel operation, atomic addition and lock region is one step, and a run is any
 sequence of enabled steps. A closure that is skipped because its context was cancelled
 never runs its deferred release, so it keeps its slot: it counts as dropped.
 */
module WorkerPool {
  import opened Sequences

  type Id = nat
  type Pool = nat

  // ---------- Sharding ----------

  const SHARDS := 32

  datatype Sharding = Sharding(numShards: int, workersPerShard: int)

  function Shard(maxWorkers: int): Sharding {
    if maxWorkers / SHARDS < 1 then Sharding(maxWorkers, 1) else Sharding(SHARDS, maxWorkers / SHARDS)
  }

  lemma ShardingFits(maxWorkers: int)
    requires maxWorkers > 0
    ensures var p := Shard(maxWorkers);
            p.numShards >= 1 && p.workersPerShard >= 1 && p.numShards * p.workersPerShard <= maxWorkers
  {
  }

  // ---------- States ----------

  datatype Worker = Worker(shard: nat, k: nat)

  datatype Config = Config(maxWorkers: int, quota: map<Pool, nat>) {
    function Quota(p: Pool): nat { if p in quota then quota[p] else 0 }

    predicate IsWorker(w: Worker) {
      w.shard < Shard(maxWorkers).numShards && w.k < Shard(maxWorkers).workersPerShard
    }
  }

  /** A submission that no worker has taken yet. */
  datatype Phase =
    | Acquired                // has its slot
    | Counted                 // and is counted active
    | Checked                 // the global pool has seen its context alive once
    | Queued(shard: nat)
    | Refused                 // turned away by the global pool, still counted active
    | RefusedUncounted        // only the slot is left to give back

  datatype Submission = Submission(pool: Pool, phase: Phase)

  datatype Stage =
    | Popped                  // off the heap, context not looked at yet
    | Running
    | Uncounted               // closure done, no longer counted active
    | Released                // slot given back

  datatype Busy = Busy(id: Id, pool: Pool, stage: Stage)

  datatype State = State(
    next: Id,
    submissions: map<Id, Submission>,
    busy: map<Worker, Busy>,
    cancelled: set<Id>,
    active: map<Pool, int>,          // the atomic counter of a request pool
    slots: map<Pool, int>,           // slots taken from its semaphore
    dropped: map<Pool, int>,         // closures that will never run
    activeWorkers: map<nat, int>)    // the atomic counter of a shard

  function Get<K>(m: map<K, int>, k: K): int {
    if k in m then m[k] else 0
  }

  function Add<K>(m: map<K, int>, k: K, n: int): map<K, int> {
    m[k := Get(m, k) + n]
  }

  const InitialState := State(0, map[], map[], {}, map[], map[], map[], map[])

  // ---------- Steps ----------

  datatype Step =
    | Cancel(id: Id)
    | Acquire(pool: Pool)
    | CountActive(id: Id)
    | Check(id: Id)
    | Refuse(id: Id)                     // the context is done at that check
    | UncountRefused(id: Id)
    | ReleaseRefused(id: Id)
    | DropAtSubmit(id: Id)               // done at the second check: returns without queueing
    | Enqueue(id: Id, shard: nat)        // alive at the second check
    | Pop(w: Worker, id: Id)
    | Skip(w: Worker)                    // done when the worker looks
    | Begin(w: Worker)
    | UncountActive(w: Worker)
    | Release(w: Worker)
    | End(w: Worker)

  predicate InPhase(s: State, id: Id, phase: Phase) {
    id in s.submissions && s.submissions[id].phase == phase
  }

  predicate InStage(s: State, w: Worker, stage: Stage) {
    w in s.busy && s.busy[w].stage == stage
  }

  predicate Enabled(c: Config, s: State, step: Step) {
    match step
    case Cancel(id) => id < s.next
    case Acquire(p) => Get(s.slots, p) < c.Quota(p)
    case CountActive(id) => InPhase(s, id, Acquired)
    case Check(id) => InPhase(s, id, Counted) && id !in s.cancelled
    case Refuse(id) => InPhase(s, id, Counted) && id in s.cancelled
    case UncountRefused(id) => InPhase(s, id, Refused)
    case ReleaseRefused(id) => InPhase(s, id, RefusedUncounted)
    case DropAtSubmit(id) => InPhase(s, id, Checked) && id in s.cancelled
    case Enqueue(id, shard) => InPhase(s, id, Checked) && id !in s.cancelled && shard < Shard(c.maxWorkers).numShards
    case Pop(w, id) => c.IsWorker(w) && w !in s.busy && InPhase(s, id, Queued(w.shard))
    case Skip(w) => InStage(s, w, Popped) && s.busy[w].id in s.cancelled
    case Begin(w) => InStage(s, w, Popped) && s.busy[w].id !in s.cancelled
    case UncountActive(w) => InStage(s, w, Running)
    case Release(w) => InStage(s, w, Uncounted)
    case End(w) => InStage(s, w, Released)
  }

  function To(s: State, id: Id, phase: Phase): map<Id, Submission>
    requires id in s.submissions
  {
    s.submissions[id := Submission(s.submissions[id].pool, phase)]
  }

  function Apply(c: Config, s: State, step: Step): State
    requires Enabled(c, s, step)
  {
    match step
    case Cancel(id) => s.(cancelled := s.cancelled + {id})
    case Acquire(p) =>
      s.(next := s.next + 1, submissions := s.submissions[s.next := Submission(p, Acquired)],
          slots := Add(s.slots, p, 1))
    case CountActive(id) => s.(submissions := To(s, id, Counted), active := Add(s.active, s.submissions[id].pool, 1))
    case Check(id) => s.(submissions := To(s, id, Checked))
    case Refuse(id) => s.(submissions := To(s, id, Refused))
    case UncountRefused(id) =>
      s.(submissions := To(s, id, RefusedUncounted), active := Add(s.active, s.submissions[id].pool, -1))
    case ReleaseRefused(id) => s.(submissions := s.submissions - {id},
        slots := Add(s.slots, s.submissions[id].pool, -1))
    case DropAtSubmit(id) => s.(submissions := s.submissions - {id},
        dropped := Add(s.dropped, s.submissions[id].pool, 1))
    case Enqueue(id, shard) => s.(submissions := To(s, id, Queued(shard)))
    case Pop(w, id) =>
      s.(submissions := s.submissions - {id}, busy := s.busy[w := Busy(id, s.submissions[id].pool, Popped)])
    case Skip(w) => s.(busy := s.busy - {w}, dropped := Add(s.dropped, s.busy[w].pool, 1))
    case Begin(w) =>
      s.(busy := s.busy[w := s.busy[w].(stage := Running)], activeWorkers := Add(s.activeWorkers, w.shard, 1))
    case UncountActive(w) =>
      s.(busy := s.busy[w := s.busy[w].(stage := Uncounted)], active := Add(s.active, s.busy[w].pool, -1))
    case Release(w) =>
      s.(busy := s.busy[w := s.busy[w].(stage := Released)], slots := Add(s.slots, s.busy[w].pool, -1))
    case End(w) => s.(busy := s.busy - {w}, activeWorkers := Add(s.activeWorkers, w.shard, -1))
  }

  // ---------- What the counters count ----------

  /** Does the submission count for pool `p`: for its slots, or only while counted active? */
  predicate Counts(x: Submission, p: Pool, activeOnly: bool) {
    x.pool == p && (activeOnly ==> x.phase.Counted? || x.phase.Checked? || x.phase.Queued? || x.phase.Refused?)
  }

  predicate BusyCounts(x: Busy, p: Pool, activeOnly: bool) {
    x.pool == p && (x.stage.Popped? || x.stage.Running? || (x.stage.Uncounted? && !activeOnly))
  }

  function Submitted(m: map<Id, Submission>, p: Pool, activeOnly: bool): set<Id> {
    set id | id in m && Counts(m[id], p, activeOnly)
  }

  function Hosted(m: map<Worker, Busy>, p: Pool, activeOnly: bool): set<Worker> {
    set w | w in m && BusyCounts(m[w], p, activeOnly)
  }

  function Working(m: map<Worker, Busy>, shard: nat): set<Worker> {
    set w | w in m && w.shard == shard && !m[w].stage.Popped?
  }

  function One(b: bool): int { if b then 1 else 0 }

  /** Two sets that differ at most in `x`. */
  lemma SizeChange<T>(before: set<T>, after: set<T>, x: T)
    requires forall y :: y != x ==> (y in before <==> y in after)
    ensures |after| == |before| - One(x in before) + One(x in after)
  {
    var rest := before - {x};
    assert after - {x} == rest;
    SizeOf(before, x);
    SizeOf(after, x);
  }

  lemma SizeOf<T>(s: set<T>, x: T)
    ensures |s| == |s - {x}| + One(x in s)
  {
    if x in s {
      assert s == (s - {x}) + {x};
    } else {
      assert s == s - {x};
    }
  }

  lemma PutSubmission(m: map<Id, Submission>, id: Id, x: Submission, p: Pool, a: bool)
    ensures |Submitted(m[id := x], p, a)| ==
            |Submitted(m, p, a)| - One(id in m && Counts(m[id], p, a)) + One(Counts(x, p, a))
  {
    SizeChange(Submitted(m, p, a), Submitted(m[id := x], p, a), id);
  }

  lemma RemoveSubmission(m: map<Id, Submission>, id: Id, p: Pool, a: bool)
    requires id in m
    ensures |Submitted(m - {id}, p, a)| == |Submitted(m, p, a)| - One(Counts(m[id], p, a))
  {
    SizeChange(Submitted(m, p, a), Submitted(m - {id}, p, a), id);
  }

  lemma PutBusy(m: map<Worker, Busy>, w: Worker, x: Busy, p: Pool, a: bool)
    ensures |Hosted(m[w := x], p, a)| == |Hosted(m, p, a)| - One(w in m && BusyCounts(m[w], p, a)) +
            One(BusyCounts(x, p, a))
  {
    SizeChange(Hosted(m, p, a), Hosted(m[w := x], p, a), w);
  }

  lemma RemoveBusy(m: map<Worker, Busy>, w: Worker, p: Pool, a: bool)
    requires w in m
    ensures |Hosted(m - {w}, p, a)| == |Hosted(m, p, a)| - One(BusyCounts(m[w], p, a))
  {
    SizeChange(Hosted(m, p, a), Hosted(m - {w}, p, a), w);
  }

  lemma PutWorking(m: map<Worker, Busy>, w: Worker, x: Busy, shard: nat)
    ensures |Working(m[w := x], shard)| ==
            |Working(m, shard)| - One(w in m && w.shard == shard && !m[w].stage.Popped?) +
                One(w.shard == shard && !x.stage.Popped?)
  {
    SizeChange(Working(m, shard), Working(m[w := x], shard), w);
  }

  lemma RemoveWorking(m: map<Worker, Busy>, w: Worker, shard: nat)
    requires w in m
    ensures |Working(m - {w}, shard)| == |Working(m, shard)| - One(w.shard == shard && !m[w].stage.Popped?)
  {
    SizeChange(Working(m, shard), Working(m - {w}, shard), w);
  }

  // ---------- The invariant ----------

  /** Slots and active count are exactly what is under way, plus what was dropped. */
  ghost predicate PoolInv(c: Config, s: State, p: Pool) {
    && Get(s.slots, p) == |Submitted(s.submissions, p, false)| + |Hosted(s.busy, p, false)| + Get(s.dropped, p)
    && Get(s.active, p) == |Submitted(s.submissions, p, true)| + |Hosted(s.busy, p, true)| + Get(s.dropped, p)
    && 0 <= Get(s.dropped, p) && Get(s.slots, p) <= c.Quota(p)
    && (s.cancelled == {} ==> Get(s.dropped, p) == 0)
  }

  ghost predicate ShardInv(s: State, shard: nat) {
    Get(s.activeWorkers, shard) == |Working(s.busy, shard)|
  }

  ghost predicate Inv(c: Config, s: State) {
    && (forall id :: id in s.submissions ==> id < s.next)
    && (forall w :: w in s.busy ==> c.IsWorker(w))
    && (forall p :: PoolInv(c, s, p))
    && (forall shard :: ShardInv(s, shard))
  }

  /** How many slots, or active places, of the pool are accounted for. */
  function UnderWay(s: State, p: Pool, activeOnly: bool): int {
    |Submitted(s.submissions, p, activeOnly)| + |Hosted(s.busy, p, activeOnly)| + Get(s.dropped, p)
  }

  /** Each step changes what is under way by exactly what it adds to the counter. */
  lemma StepUnderWay(c: Config, s: State, step: Step, p: Pool, a: bool)
    requires Enabled(c, s, step) && (forall id :: id in s.submissions ==> id < s.next)
    ensures var t := Apply(c, s, step);
            UnderWay(t, p, a) - UnderWay(s, p, a) ==
            if a then Get(t.active, p) - Get(s.active, p) else Get(t.slots, p) - Get(s.slots, p)
  {
    match step {
      case Pop(w, id) => PopUnderWay(c, s, w, id, p, a);
      case Skip(_) => BusyUnderWay(c, s, step, p, a);
      case Begin(_) => BusyUnderWay(c, s, step, p, a);
      case UncountActive(_) => BusyUnderWay(c, s, step, p, a);
      case Release(_) => BusyUnderWay(c, s, step, p, a);
      case End(_) => BusyUnderWay(c, s, step, p, a);
      case _ => SubmissionUnderWay(c, s, step, p, a);
    }
  }

  lemma PopUnderWay(c: Config, s: State, w: Worker, id: Id, p: Pool, a: bool)
    requires Enabled(c, s, Pop(w, id))
    ensures UnderWay(Apply(c, s, Pop(w, id)), p, a) == UnderWay(s, p, a)
  {
    RemoveSubmission(s.submissions, id, p, a);
    PutBusy(s.busy, w, Busy(id, s.submissions[id].pool, Popped), p, a);
  }

  lemma SubmissionUnderWay(c: Config, s: State, step: Step, p: Pool, a: bool)
    requires Enabled(c, s, step) && (forall id :: id in s.submissions ==> id < s.next)
    requires step.Cancel? || step.Acquire? || step.CountActive? || step.Check? || step.Refuse? || step.UncountRefused?
             || step.ReleaseRefused? || step.DropAtSubmit? || step.Enqueue?
    ensures var t := Apply(c, s, step);
            UnderWay(t, p, a) - UnderWay(s, p, a) ==
            if a then Get(t.active, p) - Get(s.active, p) else Get(t.slots, p) - Get(s.slots, p)
  {
    var t := Apply(c, s, step);
    match step {
      case Cancel(_) =>
      case Acquire(q) => PutSubmission(s.submissions, s.next, Submission(q, Acquired), p, a);
      case ReleaseRefused(id) => RemoveSubmission(s.submissions, id, p, a);
      case DropAtSubmit(id) => RemoveSubmission(s.submissions, id, p, a);
      case CountActive(id) => PutSubmission(s.submissions, id, t.submissions[id], p, a);
      case Check(id) => PutSubmission(s.submissions, id, t.submissions[id], p, a);
      case Refuse(id) => PutSubmission(s.submissions, id, t.submissions[id], p, a);
      case UncountRefused(id) => PutSubmission(s.submissions, id, t.submissions[id], p, a);
      case Enqueue(id, _) => PutSubmission(s.submissions, id, t.submissions[id], p, a);
      case _ =>
    }
  }

  lemma BusyUnderWay(c: Config, s: State, step: Step, p: Pool, a: bool)
    requires Enabled(c, s, step)
    requires step.Skip? || step.Begin? || step.UncountActive? || step.Release? || step.End?
    ensures var t := Apply(c, s, step);
            UnderWay(t, p, a) - UnderWay(s, p, a) ==
            if a then Get(t.active, p) - Get(s.active, p) else Get(t.slots, p) - Get(s.slots, p)
  {
    if step.Skip? || step.End? {
      RemoveBusy(s.busy, step.w, p, a);
    } else {
      PutBusy(s.busy, step.w, Apply(c, s, step).busy[step.w], p, a);
    }
  }

  lemma StepPoolInv(c: Config, s: State, step: Step, p: Pool)
    requires Inv(c, s) && Enabled(c, s, step)
    ensures PoolInv(c, Apply(c, s, step), p)
  {
    assert PoolInv(c, s, p);
    StepUnderWay(c, s, step, p, false);
    StepUnderWay(c, s, step, p, true);
  }

  lemma StepShardInv(c: Config, s: State, step: Step, shard: nat)
    requires Inv(c, s) && Enabled(c, s, step)
    ensures ShardInv(Apply(c, s, step), shard)
  {
    assert ShardInv(s, shard);
    var t := Apply(c, s, step);
    match step {
      case Pop(w, id) => PutWorking(s.busy, w, t.busy[w], shard);
      case Skip(w) => RemoveWorking(s.busy, w, shard);
      case Begin(w) => PutWorking(s.busy, w, t.busy[w], shard);
      case UncountActive(w) => PutWorking(s.busy, w, t.busy[w], shard);
      case Release(w) => PutWorking(s.busy, w, t.busy[w], shard);
      case End(w) => RemoveWorking(s.busy, w, shard);
      case _ =>
    }
  }

  lemma StepInv(c: Config, s: State, step: Step)
    requires Inv(c, s) && Enabled(c, s, step)
    ensures Inv(c, Apply(c, s, step))
  {
    var t := Apply(c, s, step);
    forall p ensures PoolInv(c, t, p) { StepPoolInv(c, s, step, p); }
    forall shard ensures ShardInv(t, shard) { StepShardInv(c, s, step, shard); }
    assert forall w :: w in t.busy ==> w in s.busy || (step.Pop? && w == step.w);
  }

  // ---------- What every run guarantees ----------

  ghost predicate IsRun(c: Config, states: seq<State>, steps: seq<Step>) {
    && |states| == |steps| + 1 && states[0] == InitialState
    && forall n {:trigger steps[n]} :: 0 <= n < |steps| ==>
         Enabled(c, states[n], steps[n]) && states[n + 1] == Apply(c, states[n], steps[n])
  }

  lemma {:induction false} RunInv(c: Config, states: seq<State>, steps: seq<Step>, n: nat)
    requires IsRun(c, states, steps) && n < |states|
    ensures Inv(c, states[n])
  {
    if n == 0 {
      assert forall p, a :: Submitted(map[], p, a) == {} && Hosted(map[], p, a) == {};
      assert forall shard :: Working(map[], shard) == {};
    } else {
      RunInv(c, states, steps, n - 1);
      assert Enabled(c, states[n - 1], steps[n - 1]);
      StepInv(c, states[n - 1], steps[n - 1]);
    }
  }

  /**
   At every step of every run the active count is at most the slots held, and those at most
   the quota. The slots are held by the submissions and closures that have not given theirs
   back, and by the dropped closures for ever; nothing is dropped unless something was
   cancelled.
   */
  lemma QuotaHolds(c: Config, states: seq<State>, steps: seq<Step>, n: nat, p: Pool)
    requires IsRun(c, states, steps) && n < |states|
    ensures var s := states[n];
            && 0 <= Get(s.dropped, p) <= Get(s.active, p) <= Get(s.slots, p) <= c.Quota(p)
            && Get(s.slots, p) == |Submitted(s.submissions, p, false)| + |Hosted(s.busy, p, false)| + Get(s.dropped, p)
            && (s.cancelled == {} ==> Get(s.dropped, p) == 0)
  {
    RunInv(c, states, steps, n);
    var s := states[n];
    assert PoolInv(c, s, p);
    SubsetSize(Submitted(s.submissions, p, true), Submitted(s.submissions, p, false));
    SubsetSize(Hosted(s.busy, p, true), Hosted(s.busy, p, false));
  }

  /** Nothing of the pool is under way. */
  ghost predicate Idle(s: State, p: Pool) {
    && (forall id :: id in s.submissions ==> s.submissions[id].pool != p)
    && forall w :: w in s.busy ==> s.busy[w].pool != p
  }

  lemma IdleSlots(c: Config, s: State, p: Pool)
    requires Inv(c, s) && Idle(s, p)
    ensures Get(s.slots, p) == Get(s.active, p) == Get(s.dropped, p) >= 0
  {
    assert PoolInv(c, s, p);
    assert forall a :: Submitted(s.submissions, p, a) == {} && Hosted(s.busy, p, a) == {};
  }

  /** When every submission has ended, the pool's slots are free again except for the dropped ones. */
  lemma IdlePoolKeepsOnlyDroppedSlots(c: Config, states: seq<State>, steps: seq<Step>, n: nat, p: Pool)
    requires IsRun(c, states, steps) && n < |states| && Idle(states[n], p)
    ensures Get(states[n].slots, p) == Get(states[n].active, p) == Get(states[n].dropped, p)
  {
    RunInv(c, states, steps, n);
    IdleSlots(c, states[n], p);
  }

  /** A shard never counts more workers active than it has. */
  lemma ShardWithinItsWorkers(c: Config, states: seq<State>, steps: seq<Step>, n: nat, shard: nat)
    requires c.maxWorkers > 0 && IsRun(c, states, steps) && n < |states|
    ensures 0 <= Get(states[n].activeWorkers, shard) <= Shard(c.maxWorkers).workersPerShard
  {
    RunInv(c, states, steps, n);
    var s := states[n];
    assert ShardInv(s, shard);
    var per := Shard(c.maxWorkers).workersPerShard;
    AllWorkers(shard, per);
    forall w | w in Working(s.busy, shard) ensures w in WorkersOf(shard, per) {
      assert w == Worker(shard, w.k);
    }
    SubsetSize(Working(s.busy, shard), WorkersOf(shard, per));
  }

  function WorkersOf(shard: nat, n: nat): set<Worker> {
    set k: nat | 0 <= k < n :: Worker(shard, k)
  }

  lemma {:induction false} AllWorkers(shard: nat, n: nat)
    ensures |WorkersOf(shard, n)| == n
  {
    if n == 0 {
      assert WorkersOf(shard, n) == {};
    } else {
      AllWorkers(shard, n - 1);
      assert WorkersOf(shard, n) == WorkersOf(shard, n - 1) + {Worker(shard, n - 1)};
    }
  }

  function Sum(xs: seq<int>): int {
    if xs == [] then 0 else xs[0] + Sum(xs[1..])
  }

  lemma {:induction false} SumBound(xs: seq<int>, per: int)
    requires forall x :: x in xs ==> 0 <= x <= per
    ensures 0 <= Sum(xs) <= |xs| * per
  {
    if xs != [] {
      assert xs[0] in xs && forall x :: x in xs[1..] ==> x in xs;
      SumBound(xs[1..], per);
      assert |xs| * per == |xs[1..]| * per + per;
    }
  }

  /** Adds up the shards' counters one by one, while the workers go on: shard `i` is read at time `at[i]`. */
  method AvailableWorkers(
      c: Config, ghost states: seq<State>, ghost steps: seq<Step>, ghost at: seq<nat>, loads: seq<int>)
    returns (available: int)
    requires c.maxWorkers > 0 && IsRun(c, states, steps)
    requires |at| == |loads| == Shard(c.maxWorkers).numShards
    requires forall i :: 0 <= i < |at| ==> at[i] < |states| && loads[i] == Get(states[at[i]].activeWorkers, i)
    ensures 0 <= available <= c.maxWorkers && available == c.maxWorkers - Sum(loads)
  {
    var active := 0;
    assert loads[0..] == loads;
    for i := 0 to |loads|
      invariant active + Sum(loads[i..]) == Sum(loads)
    {
      active := active + loads[i];
    }
    forall x | x in loads ensures 0 <= x <= Shard(c.maxWorkers).workersPerShard {
      var i :| 0 <= i < |loads| && loads[i] == x;
      ShardWithinItsWorkers(c, states, steps, at[i], i);
    }
    SumBound(loads, Shard(c.maxWorkers).workersPerShard);
    ShardingFits(c.maxWorkers);
    available := c.maxWorkers - active;
  }
}
