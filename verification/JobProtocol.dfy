/**
 The life of a job between submission and its result: the bridge routes it to the priority
 queue or to the batch manager, the queue manager moves it through a bounded channel, a
 worker calls the provider and sends a result, or puts the job back.

 Every lock region and channel operation is one step, and a run is any sequence of enabled
 steps, so everything below holds for every interleaving. What the provider answers, what
 the rate limiters say and how a flush ends are free choices of the step.
 */
module JobProtocol {
  type Job = nat

  datatype Config = Config(
    workers: nat,               // size of the worker pool, and capacity of the channel
    maxTransientRetries: int,
    batching: bool,             // batch processing enabled and a batch manager present
    threshold: int,             // jobs below this priority are batched
    priority: map<Job, int>)
  {
    function Priority(j: Job): int { if j in priority then priority[j] else 0 }

    predicate Batched(j: Job) { batching && Priority(j) < threshold }

    function RetryBound(): int { if maxTransientRetries < 0 then 0 else maxTransientRetries }
  }

  datatype Worker =
    | Idle
    | Taken(job: Job)    // off the channel, waiting for the limiters
    | Calling(job: Job)  // inside the provider call
    | Retrying(job: Job) // sleeping before the job is put back

  /** What has happened to a job so far. */
  datatype Record = Record(
    retries: int,            // the field Retries of the job
    rateLimitRequeues: int,
    calls: int,              // provider calls begun
    concluded: bool,         // the last call decided the job's fate
    sent: int,               // results put on its Result channel by a worker
    responded: bool,         // such a result is the provider's response, not nil
    batched: bool)           // went to the batch manager

  const NewRecord := Record(0, 0, 0, false, 0, false, false)

  datatype State = State(
    records: map<Job, Record>,     // the accepted jobs
    bridge: seq<Job>,              // read by the bridge, not routed yet
    heap: seq<Job>,
    hand: seq<Job>,                // dequeued by the manager, not sent yet
    channel: seq<Job>,
    workers: seq<Worker>,
    pending: seq<Job>,             // waiting in the batch manager
    flushing: seq<seq<Job>>,       // snapshots being sent as a batch
    inFlight: seq<seq<Job>>,       // batches the provider is working on
    dropped: seq<Job>,             // lost in a flush that failed after conversion
    finished: seq<Job>,
    stopped: bool)                 // the manager has closed the channel

  function Initial(c: Config): State {
    State(map[], [], [], [], [], seq(c.workers, _ => Idle), [], [], [], [], [], false)
  }

  // ---------- Steps ----------

  datatype Answer = Success | RateLimited | Transient | Permanent

  datatype QueueStep =
    | Accept(job: Job)                 // a new job arrives at the bridge
    | RouteToQueue                     // real-time routing, or fallback after AddJob failed
    | RouteToBatch
    | ManagerTake(n: nat)
    | ManagerSend
    | ManagerStop

  datatype WorkerAction =
    | Take
    | RequestLimiterError              // the job is queued again without a call
    | TokenLimiterError                // an empty result is sent
    | Call
    | Answered(answer: Answer)
    | PutBack                          // after the backoff of a transient error

  datatype BatchStep =
    | Snapshot                         // a flush takes all pending jobs
    | FlushRestore(i: nat)             // conversion failed: the jobs are pending again
    | FlushDrop(i: nat)                // a later part of the flush failed
    | FlushSent(i: nat)
    | BatchDone(i: nat)                // the monitor has dealt with every job of the batch

  datatype Step = Queue(queueStep: QueueStep) | Work(w: nat, action: WorkerAction) | Batch(batchStep: BatchStep)

  ghost predicate QueueEnabled(c: Config, s: State, step: QueueStep) {
    match step
    case Accept(j) => j !in s.records && s.bridge == []
    case RouteToQueue => |s.bridge| == 1
    case RouteToBatch => |s.bridge| == 1 && c.Batched(s.bridge[0])
    case ManagerTake(n) =>
      && !s.stopped && s.hand == [] && n < |s.heap|
      && forall j :: j in s.heap ==> c.Priority(j) <= c.Priority(s.heap[n])
    case ManagerSend => |s.hand| == 1 && |s.channel| < c.workers
    case ManagerStop => !s.stopped && s.hand == []
  }

  predicate WorkEnabled(s: State, w: nat, action: WorkerAction) {
    && w < |s.workers|
    && match action
       case Take => s.workers[w].Idle? && s.channel != []
       case Answered(_) => s.workers[w].Calling?
       case PutBack => s.workers[w].Retrying?
       case _ => s.workers[w].Taken?
  }

  predicate BatchEnabled(s: State, step: BatchStep) {
    match step
    case Snapshot => s.pending != []
    case BatchDone(i) => i < |s.inFlight|
    case FlushRestore(i) => i < |s.flushing|
    case FlushDrop(i) => i < |s.flushing|
    case FlushSent(i) => i < |s.flushing|
  }

  ghost predicate Enabled(c: Config, s: State, step: Step) {
    match step
    case Queue(q) => QueueEnabled(c, s, q)
    case Work(w, action) => WorkEnabled(s, w, action)
    case Batch(b) => BatchEnabled(s, b)
  }

  function RecordOf(s: State, j: Job): Record {
    if j in s.records then s.records[j] else NewRecord
  }

  function Without<T>(s: seq<T>, i: nat): seq<T>
    requires i < |s|
  {
    s[..i] + s[i + 1..]
  }

  /** The worker drops what it holds and the job goes back to the queue. */
  function Requeue(s: State, w: nat, r: Record): State
    requires w < |s.workers| && !s.workers[w].Idle?
  {
    var j := s.workers[w].job;
    s.(workers := s.workers[w := Idle], heap := s.heap + [j], records := s.records[j := r])
  }

  /** A result, possibly empty, goes on the job's channel and the worker is free. */
  function Conclude(s: State, w: nat, r: Record): State
    requires w < |s.workers| && !s.workers[w].Idle?
  {
    var j := s.workers[w].job;
    s.(workers := s.workers[w := Idle], finished := s.finished + [j],
       records := s.records[j := r.(sent := r.sent + 1)])
  }

  /** The worker goes on with the job in another way. */
  function KeepOn(s: State, w: nat, x: Worker, r: Record): State
    requires w < |s.workers| && !x.Idle?
  {
    s.(workers := s.workers[w := x], records := s.records[x.job := r])
  }

  function AfterAnswer(c: Config, s: State, w: nat, answer: Answer): State
    requires w < |s.workers| && s.workers[w].Calling?
  {
    var j := s.workers[w].job;
    var r := RecordOf(s, j);
    match answer
    case RateLimited => Requeue(s, w, r.(rateLimitRequeues := r.rateLimitRequeues + 1))
    case Transient =>
      if r.retries < c.maxTransientRetries then
        KeepOn(s, w, Retrying(j), r.(retries := r.retries + 1))
      else Conclude(s, w, r.(concluded := true))
    case Permanent => Conclude(s, w, r.(concluded := true))
    case Success => Conclude(s, w, r.(concluded := true, responded := true))
  }

  ghost function ApplyQueue(c: Config, s: State, step: QueueStep): State
    requires QueueEnabled(c, s, step)
  {
    match step
    case Accept(j) => s.(records := s.records[j := NewRecord], bridge := [j])
    case RouteToQueue => s.(bridge := [], heap := s.heap + s.bridge)
    case RouteToBatch =>
      var j := s.bridge[0];
      s.(bridge := [], pending := s.pending + s.bridge, records := s.records[j := RecordOf(s, j).(batched := true)])
    case ManagerTake(n) => s.(heap := Without(s.heap, n), hand := [s.heap[n]])
    case ManagerSend => s.(hand := [], channel := s.channel + s.hand)
    case ManagerStop => s.(stopped := true)
  }

  function ApplyWork(c: Config, s: State, w: nat, action: WorkerAction): State
    requires WorkEnabled(s, w, action)
  {
    match action
    case Take => s.(channel := s.channel[1..], workers := s.workers[w := Taken(s.channel[0])])
    case RequestLimiterError => Requeue(s, w, RecordOf(s, s.workers[w].job))
    case TokenLimiterError => Conclude(s, w, RecordOf(s, s.workers[w].job))
    case Call =>
      var r := RecordOf(s, s.workers[w].job);
      KeepOn(s, w, Calling(s.workers[w].job), r.(calls := r.calls + 1))
    case Answered(answer) => AfterAnswer(c, s, w, answer)
    case PutBack => Requeue(s, w, RecordOf(s, s.workers[w].job))
  }

  function ApplyBatch(s: State, step: BatchStep): State
    requires BatchEnabled(s, step)
  {
    match step
    case Snapshot => s.(pending := [], flushing := s.flushing + [s.pending])
    case FlushRestore(i) => s.(flushing := Without(s.flushing, i), pending := s.pending + s.flushing[i])
    case FlushDrop(i) => s.(flushing := Without(s.flushing, i), dropped := s.dropped + s.flushing[i])
    case FlushSent(i) => s.(flushing := Without(s.flushing, i), inFlight := s.inFlight + [s.flushing[i]])
    case BatchDone(i) => s.(inFlight := Without(s.inFlight, i), finished := s.finished + s.inFlight[i])
  }

  ghost function Apply(c: Config, s: State, step: Step): State
    requires Enabled(c, s, step)
  {
    match step
    case Queue(q) => ApplyQueue(c, s, q)
    case Work(w, action) => ApplyWork(c, s, w, action)
    case Batch(b) => ApplyBatch(s, b)
  }

  ghost predicate IsRun(c: Config, states: seq<State>, steps: seq<Step>) {
    && |states| == |steps| + 1 && states[0] == Initial(c)
    && forall n {:trigger steps[n]} :: 0 <= n < |steps| ==>
         Enabled(c, states[n], steps[n]) && states[n + 1] == Apply(c, states[n], steps[n])
  }

  // ---------- Where the jobs are ----------

  function Count(jobs: seq<Job>, j: Job): nat {
    if jobs == [] then 0 else (if jobs[0] == j then 1 else 0) + Count(jobs[1..], j)
  }

  function CountHeld(workers: seq<Worker>, j: Job): nat {
    if workers == [] then 0
    else (if !workers[0].Idle? && workers[0].job == j then 1 else 0) + CountHeld(workers[1..], j)
  }

  function CountAll(batches: seq<seq<Job>>, j: Job): nat {
    if batches == [] then 0 else Count(batches[0], j) + CountAll(batches[1..], j)
  }

  /** In how many places a job is, counting every occurrence. */
  function Occurrences(s: State, j: Job): nat {
    Count(s.bridge, j) + Count(s.heap, j) + Count(s.hand, j) + Count(s.channel, j) + CountHeld(s.workers, j) +
    Count(s.pending, j) + CountAll(s.flushing, j) + CountAll(s.inFlight, j) + Count(s.dropped, j) + Count(s.finished, j)
  }

  /** Each accepted job is in exactly one place, once, and nothing else is anywhere. */
  ghost predicate Conserved(s: State) {
    forall j :: Occurrences(s, j) == if j in s.records then 1 else 0
  }

  lemma {:induction false} CountConcat(a: seq<Job>, b: seq<Job>, j: Job)
    ensures Count(a + b, j) == Count(a, j) + Count(b, j)
  {
    if a == [] {
      assert a + b == b;
    } else {
      assert (a + b)[1..] == a[1..] + b;
      CountConcat(a[1..], b, j);
    }
  }

  lemma CountOne(k: Job, j: Job)
    ensures Count([k], j) == if k == j then 1 else 0
  {
    assert [k][1..] == [];
  }

  lemma {:induction false} CountMember(jobs: seq<Job>, j: Job)
    ensures Count(jobs, j) > 0 <==> j in jobs
  {
    if jobs != [] { CountMember(jobs[1..], j); }
  }

  lemma CountWithout(jobs: seq<Job>, i: nat, j: Job)
    requires i < |jobs|
    ensures Count(Without(jobs, i), j) + Count([jobs[i]], j) == Count(jobs, j)
  {
    assert jobs == jobs[..i] + ([jobs[i]] + jobs[i + 1..]);
    CountConcat(jobs[..i], [jobs[i]] + jobs[i + 1..], j);
    CountConcat([jobs[i]], jobs[i + 1..], j);
    CountConcat(jobs[..i], jobs[i + 1..], j);
  }

  lemma {:induction false} CountAllAppend(batches: seq<seq<Job>>, batch: seq<Job>, j: Job)
    ensures CountAll(batches + [batch], j) == CountAll(batches, j) + Count(batch, j)
  {
    if batches == [] {
      assert batches + [batch] == [batch];
    } else {
      assert (batches + [batch])[1..] == batches[1..] + [batch];
      CountAllAppend(batches[1..], batch, j);
    }
  }

  lemma {:induction false} CountAllWithout(batches: seq<seq<Job>>, i: nat, j: Job)
    requires i < |batches|
    ensures CountAll(Without(batches, i), j) + Count(batches[i], j) == CountAll(batches, j)
  {
    if i > 0 {
      assert Without(batches, i)[1..] == Without(batches[1..], i - 1);
      CountAllWithout(batches[1..], i - 1, j);
    } else {
      assert Without(batches, i) == batches[1..];
    }
  }

  function Holding(w: Worker, j: Job): nat {
    if !w.Idle? && w.job == j then 1 else 0
  }

  lemma {:induction false} CountHeldUpdate(workers: seq<Worker>, w: nat, x: Worker, j: Job)
    requires w < |workers|
    ensures CountHeld(workers[w := x], j) + Holding(workers[w], j) == CountHeld(workers, j) + Holding(x, j)
  {
    if w > 0 {
      assert workers[w := x][1..] == workers[1..][w - 1 := x];
      CountHeldUpdate(workers[1..], w - 1, x, j);
    } else {
      assert workers[w := x][1..] == workers[1..];
    }
  }

  lemma {:induction false} CountHeldBy(workers: seq<Worker>, w: nat)
    requires w < |workers| && !workers[w].Idle?
    ensures CountHeld(workers, workers[w].job) > 0
  {
    if w > 0 { CountHeldBy(workers[1..], w - 1); }
  }

  /** What a worker holds has been accepted, is not finished, and no other worker holds it. */
  lemma HeldOnce(s: State, w: nat)
    requires Conserved(s) && w < |s.workers| && !s.workers[w].Idle?
    ensures s.workers[w].job in s.records && s.workers[w].job !in s.finished
    ensures forall v :: 0 <= v < |s.workers| && v != w && !s.workers[v].Idle? ==> s.workers[v].job != s.workers[w].job
  {
    var j := s.workers[w].job;
    assert Occurrences(s, j) <= 1;
    CountHeldBy(s.workers, w);
    CountMember(s.finished, j);
    forall v | 0 <= v < |s.workers| && v != w && !s.workers[v].Idle? ensures s.workers[v].job != j {
      if s.workers[v].job == j { HeldTwice(s.workers, v, w); }
    }
  }

  lemma HeldTwice(workers: seq<Worker>, v: nat, w: nat)
    requires v < |workers| && w < |workers| && v != w
    requires !workers[v].Idle? && !workers[w].Idle? && workers[v].job == workers[w].job
    ensures CountHeld(workers, workers[w].job) >= 2
  {
    var j := workers[w].job;
    CountHeldUpdate(workers, v, Idle, j);
    assert workers[v := Idle][w] == workers[w];
    CountHeldBy(workers[v := Idle], w);
  }

  // ---------- Each step conserves ----------

  lemma QueueStepConserves(c: Config, s: State, step: QueueStep)
    requires Conserved(s) && QueueEnabled(c, s, step)
    ensures Conserved(ApplyQueue(c, s, step))
  {
    var t := ApplyQueue(c, s, step);
    forall j ensures Occurrences(t, j) == if j in t.records then 1 else 0 {
      assert Occurrences(s, j) == if j in s.records then 1 else 0;
      match step {
        case Accept(k) => CountOne(k, j);
        case RouteToQueue => CountConcat(s.heap, s.bridge, j);
        case RouteToBatch =>
          CountConcat(s.pending, s.bridge, j);
          assert s.bridge == [s.bridge[0]];
          CountOne(s.bridge[0], j);
        case ManagerTake(n) => CountWithout(s.heap, n, j);
        case ManagerSend => CountConcat(s.channel, s.hand, j);
        case ManagerStop =>
      }
    }
  }

  lemma BatchStepConserves(s: State, step: BatchStep)
    requires Conserved(s) && BatchEnabled(s, step)
    ensures Conserved(ApplyBatch(s, step))
  {
    var t := ApplyBatch(s, step);
    forall j ensures Occurrences(t, j) == if j in t.records then 1 else 0 {
      assert Occurrences(s, j) == if j in s.records then 1 else 0;
      match step {
        case Snapshot => CountAllAppend(s.flushing, s.pending, j);
        case FlushRestore(i) =>
          CountAllWithout(s.flushing, i, j);
          CountConcat(s.pending, s.flushing[i], j);
        case FlushDrop(i) =>
          CountAllWithout(s.flushing, i, j);
          CountConcat(s.dropped, s.flushing[i], j);
        case FlushSent(i) =>
          CountAllWithout(s.flushing, i, j);
          CountAllAppend(s.inFlight, s.flushing[i], j);
        case BatchDone(i) =>
          CountAllWithout(s.inFlight, i, j);
          CountConcat(s.finished, s.inFlight[i], j);
      }
    }
  }

  // ---------- Which way a job went ----------

  predicate Among(batches: seq<seq<Job>>, j: Job) {
    exists i :: 0 <= i < |batches| && j in batches[i]
  }

  predicate InBatching(s: State, j: Job) {
    j in s.pending || j in s.dropped || Among(s.flushing, j) || Among(s.inFlight, j)
  }

  predicate InRealTime(s: State, j: Job) {
    j in s.heap || j in s.hand || j in s.channel || exists w :: 0 <= w < |s.workers| && Holding(s.workers[w], j) == 1
  }

  /** Batched jobs are in the batch manager's places, all others in the queue's and the workers'. */
  ghost predicate RouteOk(s: State, j: Job) {
    var r := RecordOf(s, j);
    && (j in s.bridge ==> r == NewRecord)
    && (InBatching(s, j) ==> r.batched)
    && (InRealTime(s, j) ==> !r.batched)
    && (r.batched ==> r.calls == 0 && r.sent == 0)
    && (j in s.finished ==> r.batched || r.sent == 1)
  }

  lemma {:induction false} CountAllMember(batches: seq<seq<Job>>, i: nat, j: Job)
    requires i < |batches| && j in batches[i]
    ensures CountAll(batches, j) > 0
  {
    CountMember(batches[0], j);
    if i > 0 { CountAllMember(batches[1..], i - 1, j); }
  }

  /** A job at the bridge is nowhere else. */
  lemma AtBridgeOnly(s: State, j: Job)
    requires Conserved(s) && j in s.bridge
    ensures j in s.records && !InRealTime(s, j) && !InBatching(s, j) && j !in s.finished
  {
    assert Occurrences(s, j) <= 1;
    CountMember(s.bridge, j);
    Elsewhere(s, j);
  }

  /** A job that was never accepted is nowhere. */
  lemma NotAcceptedNowhere(s: State, j: Job)
    requires Conserved(s) && j !in s.records
    ensures j !in s.bridge && !InRealTime(s, j) && !InBatching(s, j) && j !in s.finished
  {
    assert Occurrences(s, j) == 0;
    CountMember(s.bridge, j);
    Elsewhere(s, j);
  }

  lemma Elsewhere(s: State, j: Job)
    requires Occurrences(s, j) == Count(s.bridge, j)
    ensures !InRealTime(s, j) && !InBatching(s, j) && j !in s.finished
  {
    CountMember(s.heap, j);
    CountMember(s.hand, j);
    CountMember(s.channel, j);
    CountMember(s.pending, j);
    CountMember(s.dropped, j);
    CountMember(s.finished, j);
    forall w | 0 <= w < |s.workers| ensures Holding(s.workers[w], j) == 0 {
      if Holding(s.workers[w], j) == 1 { CountHeldBy(s.workers, w); }
    }
    forall i | 0 <= i < |s.flushing| ensures j !in s.flushing[i] {
      if j in s.flushing[i] { CountAllMember(s.flushing, i, j); }
    }
    forall i | 0 <= i < |s.inFlight| ensures j !in s.inFlight[i] {
      if j in s.inFlight[i] { CountAllMember(s.inFlight, i, j); }
    }
  }

  lemma QueueStepRoutes(c: Config, s: State, step: QueueStep, j: Job)
    requires Conserved(s) && QueueEnabled(c, s, step) && RouteOk(s, j)
    ensures RouteOk(ApplyQueue(c, s, step), j)
  {
    match step
    case Accept(k) => if j == k { NotAcceptedNowhere(s, j); }
    case RouteToQueue =>
    case RouteToBatch => if j == s.bridge[0] { AtBridgeOnly(s, j); }
    case ManagerTake(n) => assert j in Without(s.heap, n) ==> j in s.heap;
    case ManagerSend =>
    case ManagerStop =>
  }

  lemma BatchStepRoutes(s: State, step: BatchStep, j: Job)
    requires BatchEnabled(s, step) && RouteOk(s, j)
    ensures RouteOk(ApplyBatch(s, step), j)
  {
    var t := ApplyBatch(s, step);
    if InBatching(t, j) || (j in t.finished && j !in s.finished) {
      InBatchingBefore(s, step, j);
    }
  }

  /** A batch step brings a job into a place of the batch manager, or to its end, only from another such place. */
  lemma InBatchingBefore(s: State, step: BatchStep, j: Job)
    requires BatchEnabled(s, step)
    requires InBatching(ApplyBatch(s, step), j) || (j in ApplyBatch(s, step).finished && j !in s.finished)
    ensures InBatching(s, j)
  {
    match step {
      case Snapshot => LastAmong(s.flushing, s.pending, j);
      case FlushRestore(i) => AmongWithout(s.flushing, i, j);
      case FlushDrop(i) => AmongWithout(s.flushing, i, j);
      case FlushSent(i) =>
        AmongWithout(s.flushing, i, j);
        LastAmong(s.inFlight, s.flushing[i], j);
      case BatchDone(i) => AmongWithout(s.inFlight, i, j);
    }
  }

  lemma LastAmong(batches: seq<seq<Job>>, b: seq<Job>, j: Job)
    ensures Among(batches + [b], j) ==> j in b || Among(batches, j)
  {
    if i :| 0 <= i < |batches + [b]| && j in (batches + [b])[i] {
      if i < |batches| { assert j in batches[i]; }
    }
  }

  lemma AmongWithout(batches: seq<seq<Job>>, i: nat, j: Job)
    requires i < |batches|
    ensures Among(Without(batches, i), j) || j in batches[i] ==> Among(batches, j)
  {
    if k :| 0 <= k < |Without(batches, i)| && j in Without(batches, i)[k] {
      assert Without(batches, i)[k] == batches[if k < i then k else k + 1];
    }
  }

  /** What a worker does with the job it holds. */
  datatype Outcome = ToHeap | ToFinished | Kept(x: Worker)

  function After(s: State, w: nat, o: Outcome, r: Record): State
    requires w < |s.workers| && !s.workers[w].Idle?
  {
    match o
    case ToHeap => Requeue(s, w, r)
    case ToFinished => Conclude(s, w, r)
    case Kept(x) => if !x.Idle? then KeepOn(s, w, x, r) else s
  }

  lemma OutcomeConserves(s: State, w: nat, o: Outcome, r: Record)
    requires Conserved(s) && w < |s.workers| && !s.workers[w].Idle?
    requires o.Kept? ==> !o.x.Idle? && o.x.job == s.workers[w].job
    ensures Conserved(After(s, w, o, r))
  {
    HeldOnce(s, w);
    var t := After(s, w, o, r);
    var k := s.workers[w].job;
    forall j ensures Occurrences(t, j) == if j in t.records then 1 else 0 {
      assert Occurrences(s, j) == if j in s.records then 1 else 0;
      CountHeldUpdate(s.workers, w, t.workers[w], j);
      CountConcat(s.heap, [k], j);
      CountConcat(s.finished, [k], j);
      CountOne(k, j);
    }
  }

  lemma TakeConserves(s: State, w: nat)
    requires Conserved(s) && w < |s.workers| && s.workers[w].Idle? && s.channel != []
    ensures Conserved(s.(channel := s.channel[1..], workers := s.workers[w := Taken(s.channel[0])]))
  {
    var t := s.(channel := s.channel[1..], workers := s.workers[w := Taken(s.channel[0])]);
    forall j ensures Occurrences(t, j) == if j in t.records then 1 else 0 {
      assert Occurrences(s, j) == if j in s.records then 1 else 0;
      CountHeldUpdate(s.workers, w, Taken(s.channel[0]), j);
    }
  }

  lemma TakeRoutes(s: State, w: nat, j: Job)
    requires RouteOk(s, j) && w < |s.workers| && s.workers[w].Idle? && s.channel != []
    ensures RouteOk(s.(channel := s.channel[1..], workers := s.workers[w := Taken(s.channel[0])]), j)
  {
    var t := s.(channel := s.channel[1..], workers := s.workers[w := Taken(s.channel[0])]);
    if v :| 0 <= v < |t.workers| && Holding(t.workers[v], j) == 1 {
      if v == w { assert j in s.channel; } else { assert Holding(s.workers[v], j) == 1; }
    }
  }

  lemma OutcomeRoutes(s: State, w: nat, o: Outcome, r: Record, j: Job)
    requires Conserved(s) && RouteOk(s, j) && w < |s.workers| && !s.workers[w].Idle?
    requires o.Kept? ==> !o.x.Idle? && o.x.job == s.workers[w].job
    requires r.batched == RecordOf(s, s.workers[w].job).batched
    requires o.ToFinished? && j == s.workers[w].job ==> r.sent == 0
    ensures RouteOk(After(s, w, o, r), j)
  {
    var t := After(s, w, o, r);
    HeldOnce(s, w);
    assert Holding(s.workers[w], s.workers[w].job) == 1;
    if j == s.workers[w].job {
      assert InRealTime(s, j);
      NotAlsoAtBridge(s, w);
    } else if v :| 0 <= v < |t.workers| && Holding(t.workers[v], j) == 1 {
      assert Holding(s.workers[v], j) == 1;
    }
  }

  lemma NotAlsoAtBridge(s: State, w: nat)
    requires Conserved(s) && w < |s.workers| && !s.workers[w].Idle?
    ensures s.workers[w].job !in s.bridge
  {
    assert Holding(s.workers[w], s.workers[w].job) == 1;
    if s.workers[w].job in s.bridge { AtBridgeOnly(s, s.workers[w].job); }
  }

  /** Every action but Take is one of the outcomes, with a record that the action determines. */
  lemma ActionOutcome(c: Config, s: State, w: nat, action: WorkerAction) returns (o: Outcome, r: Record)
    requires WorkEnabled(s, w, action) && !action.Take?
    ensures ApplyWork(c, s, w, action) == After(s, w, o, r)
    ensures o.Kept? ==> !o.x.Idle? && o.x.job == s.workers[w].job
    ensures r.batched == RecordOf(s, s.workers[w].job).batched
    ensures var before := RecordOf(s, s.workers[w].job);
            match o
            case ToHeap =>
              if s.workers[w].Calling? then r == before.(rateLimitRequeues := before.rateLimitRequeues + 1)
              else r == before
            case ToFinished =>
              r == before.(concluded := s.workers[w].Calling? || before.concluded,
                           responded := action == Answered(Success) || before.responded)
            case Kept(x) =>
              || (x.Calling? && !s.workers[w].Calling? && r == before.(calls := before.calls + 1))
              || (x.Retrying? && s.workers[w].Calling? && before.retries < c.maxTransientRetries &&
                  r == before.(retries := before.retries + 1))
  {
    var before := RecordOf(s, s.workers[w].job);
    match action {
      case RequestLimiterError => o, r := ToHeap, before;
      case TokenLimiterError => o, r := ToFinished, before;
      case Call => o, r := Kept(Calling(s.workers[w].job)), before.(calls := before.calls + 1);
      case PutBack => o, r := ToHeap, before;
      case Answered(answer) =>
        match answer {
          case RateLimited => o, r := ToHeap, before.(rateLimitRequeues := before.rateLimitRequeues + 1);
          case Transient =>
            if before.retries < c.maxTransientRetries {
              o, r := Kept(Retrying(s.workers[w].job)), before.(retries := before.retries + 1);
            } else {
              o, r := ToFinished, before.(concluded := true);
            }
          case Permanent => o, r := ToFinished, before.(concluded := true);
          case Success => o, r := ToFinished, before.(concluded := true, responded := true);
        }
    }
  }

  // ---------- What is kept about each job ----------

  ghost predicate BeingCalled(s: State, j: Job) {
    exists w :: 0 <= w < |s.workers| && s.workers[w] == Calling(j)
  }

  /** How many results a job has been sent, and how its calls are accounted for. */
  ghost predicate RecordOk(c: Config, s: State, j: Job) {
    var r := RecordOf(s, j);
    && 0 <= r.retries <= c.RetryBound() && 0 <= r.rateLimitRequeues
    && r.calls == r.retries + r.rateLimitRequeues + (if r.concluded then 1 else 0) +
        (if BeingCalled(s, j) then 1 else 0)
    && (r.concluded ==> r.sent == 1)
    && 0 <= r.sent <= 1
    && (r.sent == 1 ==> j in s.finished)
    && RouteOk(s, j)
  }

  ghost predicate Inv(c: Config, s: State) {
    && Conserved(s) && |s.workers| == c.workers && |s.channel| <= c.workers
    && |s.bridge| <= 1 && |s.hand| <= 1 && (s.stopped ==> s.hand == [])
    && forall j :: RecordOk(c, s, j)
  }

  /** A step that leaves `j`'s record and its calls alone keeps what is known about it. */
  lemma UntouchedRecord(c: Config, s: State, t: State, j: Job)
    requires RecordOk(c, s, j) && RecordOf(t, j) == RecordOf(s, j) && BeingCalled(t, j) == BeingCalled(s, j)
    requires (j in s.finished ==> j in t.finished) && RouteOk(t, j)
    ensures RecordOk(c, t, j)
  {
  }

  /** A step of worker `w` changes who is being called only through `w` itself. */
  lemma OnlyHolderCalls(s: State, t: State, w: nat, j: Job)
    requires w < |s.workers| && w < |t.workers| && t.workers == s.workers[w := t.workers[w]]
    requires s.workers[w] != Calling(j) && t.workers[w] != Calling(j)
    ensures BeingCalled(t, j) == BeingCalled(s, j)
  {
    if BeingCalled(s, j) {
      var v :| 0 <= v < |s.workers| && s.workers[v] == Calling(j);
      assert t.workers[v] == Calling(j);
    }
    if BeingCalled(t, j) {
      var v :| 0 <= v < |t.workers| && t.workers[v] == Calling(j);
      assert s.workers[v] == Calling(j);
    }
  }

  /** Only `w` can be calling for the job it holds. */
  lemma HolderCalls(s: State, t: State, w: nat)
    requires Conserved(s) && w < |s.workers| && !s.workers[w].Idle?
    requires w < |t.workers| && t.workers == s.workers[w := t.workers[w]]
    ensures BeingCalled(s, s.workers[w].job) == s.workers[w].Calling?
    ensures BeingCalled(t, s.workers[w].job) == (t.workers[w] == Calling(s.workers[w].job))
  {
    HeldOnce(s, w);
  }

  lemma ActionKeepsRecord(c: Config, s: State, w: nat, action: WorkerAction, j: Job)
    requires Inv(c, s) && WorkEnabled(s, w, action) && !action.Take?
    ensures RecordOk(c, ApplyWork(c, s, w, action), j)
  {
    var o, r := ActionOutcome(c, s, w, action);
    var t := After(s, w, o, r);
    assert RecordOk(c, s, j);
    if j == s.workers[w].job {
      HeldOnce(s, w);
      OutcomeRoutes(s, w, o, r, j);
      HolderCalls(s, t, w);
      assert o.ToFinished? ==> j in t.finished;
    } else {
      OutcomeRoutes(s, w, o, r, j);
      OnlyHolderCalls(s, t, w, j);
      UntouchedRecord(c, s, t, j);
    }
  }

  lemma WorkInv(c: Config, s: State, w: nat, action: WorkerAction)
    requires Inv(c, s) && WorkEnabled(s, w, action)
    ensures Inv(c, ApplyWork(c, s, w, action))
  {
    var t := ApplyWork(c, s, w, action);
    if action.Take? {
      TakeConserves(s, w);
      forall j ensures RecordOk(c, t, j) {
        assert RecordOk(c, s, j);
        TakeRoutes(s, w, j);
        OnlyHolderCalls(s, t, w, j);
        UntouchedRecord(c, s, t, j);
      }
    } else {
      var o, r := ActionOutcome(c, s, w, action);
      OutcomeConserves(s, w, o, r);
      forall j ensures RecordOk(c, t, j) { ActionKeepsRecord(c, s, w, action, j); }
    }
  }

  lemma QueueKeepsRecord(c: Config, s: State, step: QueueStep, j: Job)
    requires Inv(c, s) && QueueEnabled(c, s, step)
    ensures RecordOk(c, ApplyQueue(c, s, step), j)
  {
    var t := ApplyQueue(c, s, step);
    assert RecordOk(c, s, j);
    QueueStepRoutes(c, s, step, j);
    assert BeingCalled(t, j) == BeingCalled(s, j);
    if step.RouteToBatch? && j == s.bridge[0] {
      assert RecordOf(t, j) == RecordOf(s, j).(batched := true);
    } else {
      UntouchedRecord(c, s, t, j);
    }
  }

  lemma QueueInv(c: Config, s: State, step: QueueStep)
    requires Inv(c, s) && QueueEnabled(c, s, step)
    ensures Inv(c, ApplyQueue(c, s, step))
  {
    QueueStepConserves(c, s, step);
    forall j ensures RecordOk(c, ApplyQueue(c, s, step), j) { QueueKeepsRecord(c, s, step, j); }
  }

  lemma BatchInv(c: Config, s: State, step: BatchStep)
    requires Inv(c, s) && BatchEnabled(s, step)
    ensures Inv(c, ApplyBatch(s, step))
  {
    var t := ApplyBatch(s, step);
    BatchStepConserves(s, step);
    forall j ensures RecordOk(c, t, j) {
      assert RecordOk(c, s, j);
      BatchStepRoutes(s, step, j);
      assert BeingCalled(t, j) == BeingCalled(s, j);
      UntouchedRecord(c, s, t, j);
    }
  }

  lemma StepInv(c: Config, s: State, step: Step)
    requires Inv(c, s) && Enabled(c, s, step)
    ensures Inv(c, Apply(c, s, step))
  {
    match step
    case Queue(q) => QueueInv(c, s, q);
    case Work(w, action) => WorkInv(c, s, w, action);
    case Batch(b) => BatchInv(c, s, b);
  }

  lemma {:induction false} NothingHeldAtFirst(n: nat, j: Job)
    ensures CountHeld(seq(n, _ => Idle), j) == 0
  {
    if n > 0 {
      assert seq(n, _ => Idle)[1..] == seq(n - 1, _ => Idle);
      NothingHeldAtFirst(n - 1, j);
    }
  }

  lemma {:induction false} RunInv(c: Config, states: seq<State>, steps: seq<Step>, n: nat)
    requires IsRun(c, states, steps) && n < |states|
    ensures Inv(c, states[n])
  {
    if n == 0 {
      forall j ensures Occurrences(Initial(c), j) == 0 { NothingHeldAtFirst(c.workers, j); }
    } else {
      RunInv(c, states, steps, n - 1);
      assert Enabled(c, states[n - 1], steps[n - 1]);
      StepInv(c, states[n - 1], steps[n - 1]);
    }
  }

  // ---------- What every run guarantees ----------

  /**
   In every state of every run each accepted job is in exactly one place; a worker has sent
   it at most one result, and exactly one if it has ended without being batched; its retries
   are bounded; and it has cost at most one call more than its retries and its rate-limit
   requeues together, or none at all if it was batched.
   */
  lemma EveryRunAccountsForJobs(c: Config, states: seq<State>, steps: seq<Step>, n: nat, j: Job)
    requires IsRun(c, states, steps) && n < |states| && j in states[n].records
    ensures var s := states[n];
            && Occurrences(s, j) == 1
            && s.records[j].sent <= 1
            && s.records[j].retries <= c.RetryBound()
            && s.records[j].calls <= c.RetryBound() + 1 + s.records[j].rateLimitRequeues
            && (j in s.finished ==> s.records[j].sent == if s.records[j].batched then 0 else 1)
            && (s.records[j].batched ==> s.records[j].calls == 0)
  {
    RunInv(c, states, steps, n);
    var s := states[n];
    assert RecordOk(c, s, j);
    if BeingCalled(s, j) {
      var w :| 0 <= w < |s.workers| && s.workers[w] == Calling(j);
      HeldOnce(s, w);
    }
  }

  /**
   Whenever a worker is about to send a result, none has been sent for the job: its
   one-place result channel is empty, so the send neither blocks nor drops the result.
   */
  lemma SendNeverBlocksOrDrops(c: Config, states: seq<State>, steps: seq<Step>, n: nat, w: nat)
    requires IsRun(c, states, steps) && n < |states|
    requires w < |states[n].workers| && !states[n].workers[w].Idle?
    ensures RecordOf(states[n], states[n].workers[w].job).sent == 0
  {
    RunInv(c, states, steps, n);
    HeldOnce(states[n], w);
    assert RecordOk(c, states[n], states[n].workers[w].job);
  }

  /** A finished job is nowhere else. */
  lemma FinishedOnly(s: State, j: Job)
    requires Conserved(s) && j in s.finished
    ensures j !in s.bridge && !InRealTime(s, j) && !InBatching(s, j)
  {
    assert Occurrences(s, j) <= 1;
    CountMember(s.finished, j);
    CountMember(s.bridge, j);
    CountMember(s.heap, j);
    CountMember(s.hand, j);
    CountMember(s.channel, j);
    CountMember(s.pending, j);
    CountMember(s.dropped, j);
    forall w | 0 <= w < |s.workers| ensures Holding(s.workers[w], j) == 0 {
      if Holding(s.workers[w], j) == 1 { CountHeldBy(s.workers, w); }
    }
    forall i | 0 <= i < |s.flushing| ensures j !in s.flushing[i] {
      if j in s.flushing[i] { CountAllMember(s.flushing, i, j); }
    }
    forall i | 0 <= i < |s.inFlight| ensures j !in s.inFlight[i] {
      if j in s.inFlight[i] { CountAllMember(s.inFlight, i, j); }
    }
  }

  lemma OutcomeKeepsOthers(s: State, w: nat, o: Outcome, r: Record, j: Job)
    requires w < |s.workers| && !s.workers[w].Idle? && j != s.workers[w].job
    requires o.Kept? ==> !o.x.Idle? && o.x.job == s.workers[w].job
    ensures RecordOf(After(s, w, o, r), j) == RecordOf(s, j)
  {
  }

  lemma WorkKeepsSent(c: Config, s: State, w: nat, action: WorkerAction, j: Job)
    requires Conserved(s) && WorkEnabled(s, w, action) && j in s.finished
    ensures RecordOf(ApplyWork(c, s, w, action), j) == RecordOf(s, j)
  {
    if !action.Take? {
      HeldOnce(s, w);
      var o, r := ActionOutcome(c, s, w, action);
      OutcomeKeepsOthers(s, w, o, r, j);
    }
  }

  lemma QueueKeepsSent(c: Config, s: State, step: QueueStep, j: Job)
    requires QueueEnabled(c, s, step) && j in s.records
    ensures RecordOf(ApplyQueue(c, s, step), j).sent == RecordOf(s, j).sent
  {
  }

  lemma SentIsFinished(c: Config, s: State, j: Job)
    requires Inv(c, s) && RecordOf(s, j).sent == 1
    ensures j in s.records && j in s.finished
  {
    assert RecordOk(c, s, j);
  }

  /** No step takes a result back or sends a second one. */
  lemma StepKeepsSent(c: Config, s: State, step: Step, j: Job)
    requires Inv(c, s) && Enabled(c, s, step) && RecordOf(s, j).sent == 1
    ensures RecordOf(Apply(c, s, step), j).sent == 1
  {
    SentIsFinished(c, s, j);
    match step
    case Queue(q) => QueueKeepsSent(c, s, q, j);
    case Work(w, action) => WorkKeepsSent(c, s, w, action, j);
    case Batch(_) =>
  }

  lemma {:induction false} SentStays(c: Config, states: seq<State>, steps: seq<Step>, n: nat, m: nat, j: Job)
    requires IsRun(c, states, steps) && n <= m < |states| && RecordOf(states[n], j).sent == 1
    ensures RecordOf(states[m], j).sent == 1
    decreases m
  {
    if n < m {
      SentStays(c, states, steps, n, m - 1, j);
      RunInv(c, states, steps, m - 1);
      assert Enabled(c, states[m - 1], steps[m - 1]);
      StepKeepsSent(c, states[m - 1], steps[m - 1], j);
    }
  }

  /**
   Once a worker has answered for a job, the job is finished in this and every later state:
   it has that one result, and neither the bridge, the queue, the manager's hand, the channel,
   a worker, nor any place of the batch manager has it.
   */
  lemma AnsweredJobIsGone(c: Config, states: seq<State>, steps: seq<Step>, n: nat, m: nat, j: Job)
    requires IsRun(c, states, steps) && n <= m < |states| && RecordOf(states[n], j).sent == 1
    ensures RecordOf(states[m], j).sent == 1 && j in states[m].finished && Occurrences(states[m], j) == 1
    ensures j !in states[m].bridge && !InRealTime(states[m], j) && !InBatching(states[m], j)
  {
    RunInv(c, states, steps, m);
    SentStays(c, states, steps, n, m, j);
    SentIsFinished(c, states[m], j);
    FinishedOnly(states[m], j);
  }
}
