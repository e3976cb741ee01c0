/**
 Closures that wait for closures. A worker that processes an object may submit the object's
 fields to the same pool and wait for them, keeping its place meanwhile. A process is a
 request, a submitted closure, or an array item in a goroutine of its own, with the list of
 what it has left to do; every submission, look at the counters and wake-up is one step.

 A shard runs its own queue only. Which shard a submission goes to is left open, for the
 submissions of other requests move the round robin. Jobs all have one priority, so any job
 of the queue may be the next. Cancellation is not part of it: a wait group does not look at
 the context. (An array that waits for its items does.)
 */
module PoolWaits {
  import opened Wrappers
  import opened JsonSchema
  import opened Scheduler
  import Engine
  import WorkerPool

  type Worker = WorkerPool.Worker

  // ---------- What a process has left to do ----------

  datatype Task =
    | Field(d: Definition)
    | Rest(ds: seq<Definition>)                     // the keys without an order: submitted, if workers are free
    | Wait(submit: seq<Definition>, ids: set<nat>)  // fields to submit yet, and the processes to wait for

  /** One key is processed in place, several are submitted. */
  function BatchTask(d: Definition, batch: seq<string>): Task {
    if |batch| == 1 then Field(Property(d, batch[0])) else Wait(Definitions(d, batch), {})
  }

  function Definitions(d: Definition, keys: seq<string>): seq<Definition> {
    seq(|keys|, i requires 0 <= i < |keys| => Property(d, keys[i]))
  }

  function Fields(ds: seq<Definition>): seq<Task> {
    seq(|ds|, i requires 0 <= i < |ds| => Field(ds[i]))
  }

  function BatchTasks(d: Definition, batches: seq<seq<string>>): seq<Task> {
    seq(|batches|, i requires 0 <= i < |batches| => BatchTask(d, batches[i]))
  }

  /** The tasks of an object whose remaining keys come in this order. */
  function TasksOf(d: Definition, remaining: seq<string>): seq<Task> {
    if d.properties.NilProperties? then [] else
      BatchTasks(d, Batches(d, d.processingOrder)) + if remaining == [] then [] else [Rest(Definitions(d, remaining))]
  }

  /** An array of objects, or of arrays of objects at any depth: only these run fields. */
  predicate ObjectsInside(d: Definition) {
    d.dataType.Array? && d.items.Some? && (d.items.value.dataType.Object? || ObjectsInside(d.items.value))
  }

  // ---------- States and steps ----------

  datatype Place =
    | Queued(shard: nat)            // a closure that no worker has taken yet
    | On(worker: Worker)            // a closure that a worker runs
    | Beside(host: Option<Worker>)  // a goroutine: a request, or an item of an array that `host` processes
    | Ended

  datatype Process = Process(todo: seq<Task>, place: Place) {
    predicate Runs() {
      place.On? || place.Beside?
    }

    /** The worker that is taken up by this process, or waits for it. */
    function Host(): Option<Worker> {
      match place
      case On(w) => Some(w)
      case Beside(host) => host
      case _ => None
    }
  }

  /** The processes by number. */
  type State = seq<Process>

  datatype Config = Config(root: Definition, maxWorkers: int) {
    predicate IsShard(shard: nat) {
      shard < WorkerPool.Shard(maxWorkers).numShards
    }

    predicate IsWorker(w: Worker) {
      IsShard(w.shard) && w.k < WorkerPool.Shard(maxWorkers).workersPerShard
    }

    /** With so many workers busy, are enough free to submit the remaining keys? */
    predicate RoomBeside(busy: nat) {
      maxWorkers - busy >= if maxWorkers / 10 < 10 then 10 else maxWorkers / 10
    }
  }

  function Busy(s: State): set<nat> {
    set p: nat | p < |s| && s[p].place.On?
  }

  predicate Free(s: State, w: Worker) {
    forall p :: 0 <= p < |s| ==> s[p].place != On(w)
  }

  datatype Step =
    | Request                                     // another request for the root
    | Expand(id: nat, remaining: seq<string>)     // an object, its remaining keys in the order of the map
    | GoItems(id: nat, n: nat)                    // an array of `n` items that run fields
    | Call(id: nat)                               // any other field: provider calls only
    | Look(id: nat)                               // the counters of the pool
    | Submit(id: nat, shard: nat)
    | Resume(id: nat)                             // the wait group is done
    | Pop(w: Worker, id: nat)
    | End(id: nat)

  predicate HasNext(s: State, id: nat) {
    id < |s| && s[id].Runs() && s[id].todo != []
  }

  ghost predicate Enabled(c: Config, s: State, step: Step) {
    match step
    case Request => true
    case Expand(id, remaining) =>
      HasNext(s, id) && var h := s[id].todo[0]; h.Field? && h.d.dataType.Object? && IsRemaining(h.d, remaining)
    case GoItems(id, n) =>
      HasNext(s, id) && var h := s[id].todo[0]; h.Field? && ObjectsInside(h.d) && n <= Engine.MAX_ITEMS
    case Call(id) =>
      HasNext(s, id) && var h := s[id].todo[0]; h.Field? && !h.d.dataType.Object? && !ObjectsInside(h.d)
    case Look(id) => HasNext(s, id) && s[id].todo[0].Rest?
    case Submit(id, shard) => HasNext(s, id) && s[id].todo[0].Wait? && s[id].todo[0].submit != [] && c.IsShard(shard)
    case Resume(id) =>
      HasNext(s, id) && var h := s[id].todo[0];
      h.Wait? && h.submit == [] && forall q :: q in h.ids ==> q < |s| && s[q].place.Ended?
    case Pop(w, id) => c.IsWorker(w) && Free(s, w) && id < |s| && s[id].place == Queued(w.shard)
    case End(id) => id < |s| && s[id].Runs() && s[id].todo == []
  }

  /** The process with its next task replaced by these. */
  function Replace(s: State, id: nat, tasks: seq<Task>): State
    requires HasNext(s, id)
  {
    s[id := s[id].(todo := tasks + s[id].todo[1..])]
  }

  function Placed(s: State, id: nat, place: Place): State
    requires id < |s|
  {
    s[id := s[id].(place := place)]
  }

  function NewIds(from: nat, n: nat): (ids: set<nat>)
    ensures forall q :: q in ids <==> from <= q < from + n
  {
    if n == 0 then {} else NewIds(from, n - 1) + {from + n - 1}
  }

  function Copies(p: Process, n: nat): seq<Process> {
    seq(n, _ => p)
  }

  function Room(c: Config, s: State): bool {
    c.RoomBeside(|Busy(s)|)
  }

  ghost function Apply(c: Config, s: State, step: Step): State
    requires Enabled(c, s, step)
  {
    match step
    case Request => s + [Process([Field(c.root)], Beside(None))]
    case Expand(id, remaining) => Replace(s, id, TasksOf(s[id].todo[0].d, remaining))
    case GoItems(id, n) =>
      Replace(s, id, [Wait([], NewIds(|s|, n))]) +
      Copies(Process([Field(s[id].todo[0].d.items.value)], Beside(s[id].Host())), n)
    case Call(id) => Replace(s, id, [])
    case Look(id) =>
      Replace(s, id, if Room(c, s) then [Wait(s[id].todo[0].ds, {})] else Fields(s[id].todo[0].ds))
    case Submit(id, shard) =>
      var h := s[id].todo[0];
      Replace(s, id, [Wait(h.submit[1..], h.ids + {|s|})]) + [Process([Field(h.submit[0])], Queued(shard))]
    case Resume(id) => Replace(s, id, [])
    case Pop(w, id) => Placed(s, id, On(w))
    case End(id) => Placed(s, id, Ended)
  }

  ghost function Exec(c: Config, s: State, steps: seq<Step>): Option<State>
    decreases |steps|
  {
    if steps == [] then Some(s)
    else if Enabled(c, s, steps[0]) then Exec(c, Apply(c, s, steps[0]), steps[1..])
    else None
  }

  ghost predicate Leads(c: Config, s: State, t: State) {
    exists steps :: Exec(c, s, steps) == Some(t)
  }

  ghost predicate Reachable(c: Config, s: State) {
    Leads(c, [], s)
  }

  lemma Stays(c: Config, s: State)
    ensures Leads(c, s, s)
  {
    assert Exec(c, s, []) == Some(s);
  }

  lemma {:induction false} ExecConcat(c: Config, s: State, steps: seq<Step>, t: State, more: seq<Step>)
    requires Exec(c, s, steps) == Some(t)
    ensures Exec(c, s, steps + more) == Exec(c, t, more)
    decreases |steps|
  {
    if steps == [] {
      assert steps + more == more;
    } else {
      assert (steps + more)[1..] == steps[1..] + more;
      ExecConcat(c, Apply(c, s, steps[0]), steps[1..], t, more);
    }
  }

  lemma Then(c: Config, s: State, t: State, u: State)
    requires Leads(c, s, t) && Leads(c, t, u)
    ensures Leads(c, s, u)
  {
    var steps :| Exec(c, s, steps) == Some(t);
    var more :| Exec(c, t, more) == Some(u);
    ExecConcat(c, s, steps, t, more);
  }

  lemma ThenStep(c: Config, s: State, t: State, step: Step)
    requires Leads(c, s, t) && Enabled(c, t, step)
    ensures Leads(c, s, Apply(c, t, step))
  {
    var steps :| Exec(c, s, steps) == Some(t);
    ExecConcat(c, s, steps, t, [step]);
    assert [step][1..] == [];
    assert Exec(c, t, [step]) == Exec(c, Apply(c, t, step), []);
  }

  // ---------- Shards that are locked ----------

  /** The process waits, itself or through array items it waits for, for a closure in the queue of the shard. */
  ghost predicate Waits(s: State, p: nat, shard: nat)
    decreases |s| - p
  {
    p < |s| &&
    match s[p].place
    case Queued(h) => h == shard
    case Ended => false
    case _ => s[p].todo != [] && s[p].todo[0].Wait? &&
              exists q :: p < q < |s| && q in s[p].todo[0].ids && Waits(s, q, shard)
  }

  ghost predicate Blocked(s: State, w: Worker) {
    exists p :: 0 <= p < |s| && s[p].place == On(w) && Waits(s, p, w.shard)
  }

  /** Every worker of the shard runs a closure that waits for one in the shard's own queue. */
  ghost predicate Locked(c: Config, s: State, shard: nat) {
    forall w: Worker :: c.IsWorker(w) && w.shard == shard ==> Blocked(s, w)
  }

  ghost predicate NeverEnds(c: Config, s: State, p: nat) {
    p < |s| && forall t: State :: Leads(c, s, t) ==> p < |t| && !t[p].place.Ended?
  }

  /** A step leaves every other process as it is. */
  lemma Untouched(c: Config, s: State, step: Step, p: nat)
    requires Enabled(c, s, step) && p < |s| && (step.Request? || step.id != p)
    ensures var t := Apply(c, s, step); p < |t| && t[p] == s[p]
  {
  }

  /** What a waiting process may do: submit what is left to submit. */
  lemma WaitingStep(c: Config, s: State, step: Step, p: nat, q: nat)
    requires Enabled(c, s, step) && !step.Request? && step.id == p < |s|
    requires s[p].Runs() && s[p].todo != [] && s[p].todo[0].Wait? && q in s[p].todo[0].ids
    requires q < |s| && !s[q].place.Ended?
    ensures var t := Apply(c, s, step);
            && |s| <= |t| && t[p].place == s[p].place
            && t[p].todo != [] && t[p].todo[0].Wait? && s[p].todo[0].ids <= t[p].todo[0].ids
  {
    assert step.Submit?;
  }

  lemma NoneFree(c: Config, s: State, shard: nat)
    requires Locked(c, s, shard)
    ensures forall w: Worker :: c.IsWorker(w) && w.shard == shard ==> !Free(s, w)
  {
    forall w: Worker | c.IsWorker(w) && w.shard == shard ensures !Free(s, w) {
      assert Blocked(s, w);
    }
  }

  lemma StaysQueued(c: Config, s: State, step: Step, p: nat, shard: nat)
    requires Locked(c, s, shard) && Enabled(c, s, step) && p < |s| && s[p].place == Queued(shard)
    ensures var t := Apply(c, s, step); p < |t| && t[p] == s[p]
  {
    NoneFree(c, s, shard);
    Untouched(c, s, step, p);
  }

  lemma {:induction false} StaysWaiting(c: Config, s: State, step: Step, p: nat, shard: nat)
    requires Locked(c, s, shard) && Enabled(c, s, step) && Waits(s, p, shard)
    ensures var t := Apply(c, s, step); p < |t| && t[p].place == s[p].place && Waits(t, p, shard)
    decreases |s| - p
  {
    var t := Apply(c, s, step);
    if s[p].place.Queued? {
      StaysQueued(c, s, step, p, shard);
    } else {
      var q :| p < q < |s| && q in s[p].todo[0].ids && Waits(s, q, shard);
      StaysWaiting(c, s, step, q, shard);
      if !step.Request? && step.id == p {
        WaitingStep(c, s, step, p, q);
      } else {
        Untouched(c, s, step, p);
      }
    }
  }

  lemma StaysLocked(c: Config, s: State, step: Step, shard: nat)
    requires Locked(c, s, shard) && Enabled(c, s, step)
    ensures Locked(c, Apply(c, s, step), shard)
  {
    forall w: Worker | c.IsWorker(w) && w.shard == shard ensures Blocked(Apply(c, s, step), w) {
      assert Blocked(s, w);
      var p :| 0 <= p < |s| && s[p].place == On(w) && Waits(s, p, w.shard);
      StaysWaiting(c, s, step, p, shard);
    }
  }

  lemma {:induction false} LockedForever(c: Config, s: State, steps: seq<Step>, t: State, p: nat, shard: nat)
    requires Locked(c, s, shard) && Waits(s, p, shard) && Exec(c, s, steps) == Some(t)
    ensures Locked(c, t, shard) && Waits(t, p, shard)
    decreases |steps|
  {
    if steps != [] {
      StaysLocked(c, s, steps[0], shard);
      StaysWaiting(c, s, steps[0], p, shard);
      LockedForever(c, Apply(c, s, steps[0]), steps[1..], t, p, shard);
    }
  }

  /** In a locked shard nothing that waits for the shard's queue ever ends, whatever else happens. */
  lemma LockedNeverEnds(c: Config, s: State, p: nat, shard: nat)
    requires Locked(c, s, shard) && Waits(s, p, shard)
    ensures NeverEnds(c, s, p)
    ensures forall t: State :: Leads(c, s, t) ==> Locked(c, t, shard)
  {
    forall t: State | Leads(c, s, t) ensures p < |t| && !t[p].place.Ended? && Locked(c, t, shard) {
      var steps :| Exec(c, s, steps) == Some(t);
      LockedForever(c, s, steps, t, p, shard);
    }
  }
}
