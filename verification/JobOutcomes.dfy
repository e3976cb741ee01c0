/**
 What happens to a job, told by what has happened: where every step takes it, how often it was
 called and what its calls were answered, and what it is sent in the end.
 */
module JobOutcomes {
  import opened JobProtocol

  // ---------- Where a step takes a job ----------

  /** The job keeps its record and its place. */
  ghost predicate Undisturbed(s: State, t: State, j: Job) {
    && RecordOf(t, j) == RecordOf(s, j) && |t.workers| == |s.workers|
    && (j in t.bridge <==> j in s.bridge) && (j in t.heap <==> j in s.heap) && (j in t.hand <==> j in s.hand)
    && (j in t.channel <==> j in s.channel) && (j in t.pending <==> j in s.pending)
    && (Among(t.flushing, j) <==> Among(s.flushing, j)) && (Among(t.inFlight, j) <==> Among(s.inFlight, j))
    && (j in t.dropped <==> j in s.dropped) && (j in t.finished <==> j in s.finished)
    && forall w :: 0 <= w < |s.workers| && (Holds(s, w, j) || Holds(t, w, j)) ==> t.workers[w] == s.workers[w]
  }

  predicate Holds(s: State, w: nat, j: Job) {
    w < |s.workers| && !s.workers[w].Idle? && s.workers[w].job == j
  }

  /** The worker is free and the job waits for another turn; nothing has been sent. */
  ghost predicate Requeued(t: State, w: nat, j: Job) {
    w < |t.workers| && t.workers[w].Idle? && j in t.heap && RecordOf(t, j).sent == 0
  }

  /** The worker is free and has sent the job's one result: the response, or nil. */
  ghost predicate Told(t: State, w: nat, j: Job, response: bool) {
    && w < |t.workers| && t.workers[w].Idle? && j in t.finished
    && RecordOf(t, j).sent == 1 && RecordOf(t, j).responded == response
  }

  ghost predicate NowWith(t: State, w: nat, x: Worker) {
    w < |t.workers| && t.workers[w] == x && !x.Idle? && RecordOf(t, x.job).sent == 0
  }

  /** What a worker's action leads to for the job it holds, after so many transient errors. */
  ghost predicate LeadsTo(c: Config, t: State, w: nat, action: WorkerAction, j: Job, transient: nat) {
    match action
    case Take => NowWith(t, w, Taken(j))
    case RequestLimiterError => Requeued(t, w, j)
    case TokenLimiterError => Told(t, w, j, false)
    case Call => NowWith(t, w, Calling(j))
    case PutBack => Requeued(t, w, j)
    case Answered(Success) => Told(t, w, j, true)
    case Answered(RateLimited) => Requeued(t, w, j)
    case Answered(Permanent) => Told(t, w, j, false)
    case Answered(Transient) =>
      if transient < c.maxTransientRetries then NowWith(t, w, Retrying(j)) else Told(t, w, j, false)
  }

  // ---------- What is known from what has happened ----------

  function Min(a: int, b: int): int {
    if a < b then a else b
  }

  /** So many answers of each kind, refusals of the token limiter, and calls. */
  datatype Tally = Tally(success: nat, limited: nat, transient: nat, permanent: nat, refused: nat, calls: nat)

  function Plus(y: Tally, action: WorkerAction): Tally {
    match action
    case Answered(Success) => y.(success := y.success + 1)
    case Answered(RateLimited) => y.(limited := y.limited + 1)
    case Answered(Transient) => y.(transient := y.transient + 1)
    case Answered(Permanent) => y.(permanent := y.permanent + 1)
    case TokenLimiterError => y.(refused := y.refused + 1)
    case Call => y.(calls := y.calls + 1)
    case _ => y
  }

  /** What the workers have done with the job in the first `n` steps. */
  ghost function TallyOf(states: seq<State>, steps: seq<Step>, n: nat, j: Job): Tally
    requires n <= |steps| < |states|
  {
    if n == 0 then Tally(0, 0, 0, 0, 0, 0) else
      NextTally(TallyOf(states, steps, n - 1, j), states[n - 1], steps[n - 1], j)
  }

  function NextTally(y: Tally, s: State, step: Step, j: Job): Tally {
    if step.Work? && Holds(s, step.w, j) then Plus(y, step.action) else y
  }

  /** The record says what has happened, and what has been sent follows from it. */
  ghost predicate Accounts(c: Config, r: Record, y: Tally, called: bool) {
    && r.calls == y.calls == y.success + y.limited + y.transient + y.permanent + (if called then 1 else 0)
    && r.rateLimitRequeues == y.limited
    && r.retries == Min(y.transient, c.RetryBound()) && y.transient <= c.RetryBound() + 1
    && r.sent == y.success + y.permanent + y.refused + (if y.transient > c.RetryBound() then 1 else 0)
    && (r.responded <==> y.success > 0)
  }

  /** The record of the held job after an action. */
  function NextRecord(c: Config, r: Record, action: WorkerAction): Record {
    match action
    case Call => r.(calls := r.calls + 1)
    case TokenLimiterError => r.(sent := r.sent + 1)
    case Answered(Success) => r.(sent := r.sent + 1, concluded := true, responded := true)
    case Answered(Permanent) => r.(sent := r.sent + 1, concluded := true)
    case Answered(RateLimited) => r.(rateLimitRequeues := r.rateLimitRequeues + 1)
    case Answered(Transient) =>
      if r.retries < c.maxTransientRetries then r.(retries := r.retries + 1)
      else r.(sent := r.sent + 1, concluded := true)
    case _ => r
  }

  lemma HolderRecord(c: Config, s: State, w: nat, action: WorkerAction)
    requires WorkEnabled(s, w, action) && !action.Take?
    ensures var j := s.workers[w].job;
            RecordOf(ApplyWork(c, s, w, action), j) == NextRecord(c, RecordOf(s, j), action)
  {
  }

  lemma NextAccounts(c: Config, r: Record, y: Tally, action: WorkerAction)
    requires !action.Take? && Accounts(c, r, y, action.Answered?) && r.sent == 0
    ensures Accounts(c, NextRecord(c, r, action), Plus(y, action), action.Call?)
  {
  }

  lemma HolderCalled(c: Config, s: State, w: nat, action: WorkerAction)
    requires Inv(c, s) && WorkEnabled(s, w, action) && !action.Take?
    ensures var j := s.workers[w].job; var t := ApplyWork(c, s, w, action);
            && RecordOf(s, j).sent == 0
            && BeingCalled(s, j) == action.Answered? && BeingCalled(t, j) == action.Call?
  {
    var t := ApplyWork(c, s, w, action);
    HeldOnce(s, w);
    HolderCalls(s, t, w);
    assert RecordOk(c, s, s.workers[w].job);
  }

  lemma HolderAccounts(c: Config, s: State, w: nat, action: WorkerAction, y: Tally)
    requires Inv(c, s) && WorkEnabled(s, w, action) && !action.Take?
    requires var j := s.workers[w].job; Accounts(c, RecordOf(s, j), y, BeingCalled(s, j))
    ensures var j := s.workers[w].job; var t := ApplyWork(c, s, w, action);
            Accounts(c, RecordOf(t, j), Plus(y, action), BeingCalled(t, j))
  {
    HolderCalled(c, s, w, action);
    HolderRecord(c, s, w, action);
    NextAccounts(c, RecordOf(s, s.workers[w].job), y, action);
  }

  lemma WorkKeepsOthers(c: Config, s: State, w: nat, action: WorkerAction, j: Job)
    requires WorkEnabled(s, w, action) && !Holds(s, w, j)
    ensures var t := ApplyWork(c, s, w, action);
            RecordOf(t, j) == RecordOf(s, j) && BeingCalled(t, j) == BeingCalled(s, j)
  {
    var t := ApplyWork(c, s, w, action);
    if !action.Take? {
      var o, r := ActionOutcome(c, s, w, action);
      OutcomeKeepsOthers(s, w, o, r, j);
      OutcomeKeepsCalled(s, w, o, r, j);
    } else {
      OnlyHolderCalls(s, t, w, j);
    }
  }

  lemma OutcomeKeepsCalled(s: State, w: nat, o: Outcome, r: Record, j: Job)
    requires w < |s.workers| && !s.workers[w].Idle? && j != s.workers[w].job
    requires o.Kept? ==> !o.x.Idle? && o.x.job == s.workers[w].job
    ensures BeingCalled(After(s, w, o, r), j) == BeingCalled(s, j)
  {
    OnlyHolderCalls(s, After(s, w, o, r), w, j);
  }

  lemma QueueKeepsRecords(c: Config, s: State, step: QueueStep, j: Job)
    requires QueueEnabled(c, s, step)
    ensures var t := ApplyQueue(c, s, step);
            SameButRoute(RecordOf(s, j), RecordOf(t, j)) && BeingCalled(t, j) == BeingCalled(s, j)
  {
    assert ApplyQueue(c, s, step).workers == s.workers;
  }

  lemma BatchKeepsRecords(s: State, step: BatchStep, j: Job)
    requires BatchEnabled(s, step)
    ensures var t := ApplyBatch(s, step);
            SameButRoute(RecordOf(s, j), RecordOf(t, j)) && BeingCalled(t, j) == BeingCalled(s, j)
  {
    assert ApplyBatch(s, step).workers == s.workers;
  }

  /** The records differ at most in whether the job was batched. */
  predicate SameButRoute(r: Record, x: Record) {
    x.(batched := r.batched) == r
  }

  lemma StillAccounts(c: Config, r: Record, x: Record, y: Tally, called: bool)
    requires SameButRoute(r, x) && Accounts(c, r, y, called)
    ensures Accounts(c, x, y, called)
  {
  }

  lemma OtherStep(c: Config, s: State, step: Step, j: Job)
    requires Enabled(c, s, step) && !(step.Work? && Holds(s, step.w, j))
    ensures var t := Apply(c, s, step);
            SameButRoute(RecordOf(s, j), RecordOf(t, j)) && BeingCalled(t, j) == BeingCalled(s, j)
  {
    match step
    case Queue(q) => QueueKeepsRecords(c, s, q, j);
    case Batch(b) => BatchKeepsRecords(s, b, j);
    case Work(w, action) => WorkKeepsOthers(c, s, w, action, j);
  }

  lemma OtherAccounts(c: Config, s: State, step: Step, j: Job, y: Tally)
    requires Enabled(c, s, step) && !(step.Work? && Holds(s, step.w, j))
    requires Accounts(c, RecordOf(s, j), y, BeingCalled(s, j))
    ensures Accounts(c, RecordOf(Apply(c, s, step), j), y, BeingCalled(Apply(c, s, step), j))
  {
    OtherStep(c, s, step, j);
    StillAccounts(c, RecordOf(s, j), RecordOf(Apply(c, s, step), j), y, BeingCalled(s, j));
  }

  lemma RunStep(c: Config, states: seq<State>, steps: seq<Step>, n: nat)
    requires IsRun(c, states, steps) && n < |steps|
    ensures Inv(c, states[n]) && Enabled(c, states[n], steps[n]) && states[n + 1] == Apply(c, states[n], steps[n])
  {
    RunInv(c, states, steps, n);
    assert Enabled(c, states[n], steps[n]);
  }

  ghost predicate AccountsAt(c: Config, s: State, j: Job, y: Tally) {
    Accounts(c, RecordOf(s, j), y, BeingCalled(s, j))
  }

  lemma NothingYet(c: Config, j: Job)
    ensures AccountsAt(c, Initial(c), j, Tally(0, 0, 0, 0, 0, 0))
  {
    assert forall w :: 0 <= w < c.workers ==> Initial(c).workers[w] == Idle;
  }

  lemma OneStepMore(c: Config, states: seq<State>, steps: seq<Step>, n: nat, j: Job, y: Tally)
    requires IsRun(c, states, steps) && n < |steps| && AccountsAt(c, states[n], j, y)
    ensures AccountsAt(c, states[n + 1], j, NextTally(y, states[n], steps[n], j))
  {
    RunStep(c, states, steps, n);
    StepAccounts(c, states[n], steps[n], j, y);
  }

  lemma {:induction false} RunAccounts(c: Config, states: seq<State>, steps: seq<Step>, n: nat, j: Job)
    requires IsRun(c, states, steps) && n < |states|
    ensures AccountsAt(c, states[n], j, TallyOf(states, steps, n, j))
  {
    if n == 0 {
      NothingYet(c, j);
    } else {
      RunAccounts(c, states, steps, n - 1, j);
      OneStepMore(c, states, steps, n - 1, j, TallyOf(states, steps, n - 1, j));
    }
  }

  lemma StepAccounts(c: Config, s: State, step: Step, j: Job, y: Tally)
    requires Inv(c, s) && Enabled(c, s, step) && Accounts(c, RecordOf(s, j), y, BeingCalled(s, j))
    ensures var t := Apply(c, s, step); Accounts(c, RecordOf(t, j), NextTally(y, s, step, j), BeingCalled(t, j))
  {
    if step.Work? && Holds(s, step.w, j) {
      HolderAccounts(c, s, step.w, step.action, y);
    } else {
      OtherAccounts(c, s, step, j, y);
    }
  }

  /**
   At every point of every run the counters of a job tell what has happened to it. It has been
   sent exactly one result once a call has succeeded, or failed for good, or failed with one
   transient error more than are retried, or the token limiter has refused it, and none before
   that; the result is the provider's response if and only if a call has succeeded.
   */
  lemma CountersTell(c: Config, states: seq<State>, steps: seq<Step>, n: nat, j: Job)
    requires IsRun(c, states, steps) && n < |states|
    ensures var r, y := RecordOf(states[n], j), TallyOf(states, steps, n, j);
            && r.rateLimitRequeues == y.limited && r.retries == Min(y.transient, c.RetryBound())
            && r.calls == y.success + y.limited + y.transient + y.permanent +
                (if BeingCalled(states[n], j) then 1 else 0)
            && r.sent == y.success + y.permanent + y.refused + (if y.transient > c.RetryBound() then 1 else 0) <= 1
            && (r.responded <==> y.success == 1)
  {
    RunAccounts(c, states, steps, n, j);
    RunInv(c, states, steps, n);
    assert RecordOk(c, states[n], j);
  }

  // ---------- Every step ----------

  /** What a step of the bridge or of the manager does to the jobs. */
  ghost predicate QueueLeadsTo(c: Config, s: State, t: State, step: QueueStep) {
    match step
    case Accept(j) => j in t.bridge && OnlyMoves(s, t, [j])
    case RouteToQueue => (forall j :: j in s.bridge ==> j in t.heap) && OnlyMoves(s, t, s.bridge)
    case RouteToBatch =>
      && (forall j :: j in s.bridge ==> c.Batched(j) && j in t.pending && RecordOf(t, j).batched)
      && OnlyMoves(s, t, s.bridge)
    case ManagerTake(_) =>
      |t.hand| == 1 && OnlyMoves(s, t, t.hand) && forall j :: j in s.heap ==> c.Priority(j) <= c.Priority(t.hand[0])
    case ManagerSend => (forall j :: j in s.hand ==> j in t.channel) && OnlyMoves(s, t, s.hand)
    case ManagerStop => t.stopped && OnlyMoves(s, t, [])
  }

  /** What a step of the batch manager does to the jobs. */
  ghost predicate BatchLeadsTo(s: State, t: State, step: BatchStep) {
    match step
    case Snapshot => (forall j :: j in s.pending ==> Among(t.flushing, j)) && OnlyMoves(s, t, s.pending)
    case FlushRestore(i) =>
      i < |s.flushing| && (forall j :: j in s.flushing[i] ==> j in t.pending) && OnlyMoves(s, t, s.flushing[i])
    case FlushDrop(i) =>
      i < |s.flushing| && (forall j :: j in s.flushing[i] ==> j in t.dropped) && OnlyMoves(s, t, s.flushing[i])
    case FlushSent(i) =>
      i < |s.flushing| && (forall j :: j in s.flushing[i] ==> Among(t.inFlight, j)) && OnlyMoves(s, t, s.flushing[i])
    case BatchDone(i) =>
      i < |s.inFlight| && (forall j :: j in s.inFlight[i] ==> j in t.finished) && OnlyMoves(s, t, s.inFlight[i])
  }

  ghost predicate OnlyMoves(s: State, t: State, jobs: seq<Job>) {
    forall j :: j !in jobs ==> Undisturbed(s, t, j)
  }

  /** The job a worker's action is about: the one it holds, or takes off the channel. */
  ghost function Subject(s: State, w: nat): Job
    requires w < |s.workers| && (s.workers[w].Idle? ==> s.channel != [])
  {
    if s.workers[w].Idle? then s.channel[0] else s.workers[w].job
  }

  lemma QueueStepLeads(c: Config, s: State, step: QueueStep)
    requires QueueEnabled(c, s, step)
    ensures QueueLeadsTo(c, s, ApplyQueue(c, s, step), step)
  {
    var t := ApplyQueue(c, s, step);
    if step.ManagerTake? { ManagerTakes(c, s, step.n); }
  }

  lemma ManagerTakes(c: Config, s: State, n: nat)
    requires QueueEnabled(c, s, ManagerTake(n))
    ensures OnlyMoves(s, ApplyQueue(c, s, ManagerTake(n)), [s.heap[n]])
  {
    var t := ApplyQueue(c, s, ManagerTake(n));
    assert s.heap == s.heap[..n] + [s.heap[n]] + s.heap[n + 1..];
    forall j | j !in [s.heap[n]] ensures Undisturbed(s, t, j) {
      assert j in t.heap <==> j in s.heap;
    }
  }

  lemma AmongLast(batches: seq<seq<Job>>, b: seq<Job>, j: Job)
    ensures Among(batches + [b], j) <==> j in b || Among(batches, j)
  {
    var all := batches + [b];
    if j in b { assert j in all[|batches|]; }
    if i :| 0 <= i < |batches| && j in batches[i] { assert j in all[i]; }
    LastAmong(batches, b, j);
  }

  lemma AmongOthers(batches: seq<seq<Job>>, i: nat, j: Job)
    requires i < |batches| && j !in batches[i]
    ensures Among(Without(batches, i), j) <==> Among(batches, j)
  {
    var rest := Without(batches, i);
    AmongWithout(batches, i, j);
    if k :| 0 <= k < |batches| && j in batches[k] { assert j in rest[if k < i then k else k - 1]; }
  }

  lemma BatchStepLeads(s: State, step: BatchStep)
    requires BatchEnabled(s, step)
    ensures BatchLeadsTo(s, ApplyBatch(s, step), step)
  {
    var t := ApplyBatch(s, step);
    match step {
      case Snapshot =>
        forall j ensures j in s.pending ==> Among(t.flushing, j)
          ensures j !in s.pending ==> Undisturbed(s, t, j)
        {
          AmongLast(s.flushing, s.pending, j);
        }
      case FlushRestore(i) => FlushLeads(s, t, i);
      case FlushDrop(i) => FlushLeads(s, t, i);
      case FlushSent(i) =>
        FlushLeads(s, t, i);
        forall j ensures Among(t.inFlight, j) <==> j in s.flushing[i] || Among(s.inFlight, j) {
          AmongLast(s.inFlight, s.flushing[i], j);
        }
      case BatchDone(i) =>
        forall j | j !in s.inFlight[i] ensures Undisturbed(s, t, j) { AmongOthers(s.inFlight, i, j); }
    }
  }

  lemma FlushLeads(s: State, t: State, i: nat)
    requires i < |s.flushing| && t.flushing == Without(s.flushing, i)
    ensures forall j :: j !in s.flushing[i] ==> (Among(t.flushing, j) <==> Among(s.flushing, j))
  {
    forall j | j !in s.flushing[i] ensures Among(t.flushing, j) <==> Among(s.flushing, j) {
      AmongOthers(s.flushing, i, j);
    }
  }

  lemma OutcomeUndisturbed(s: State, w: nat, o: Outcome, r: Record, j: Job)
    requires w < |s.workers| && !s.workers[w].Idle? && j != s.workers[w].job
    requires o.Kept? ==> !o.x.Idle? && o.x.job == s.workers[w].job
    ensures Undisturbed(s, After(s, w, o, r), j)
  {
  }

  lemma TakeUndisturbed(c: Config, s: State, w: nat, j: Job)
    requires WorkEnabled(s, w, Take) && j != s.channel[0]
    ensures Undisturbed(s, ApplyWork(c, s, w, Take), j)
  {
    assert s.channel == [s.channel[0]] + s.channel[1..];
  }

  lemma WorkUndisturbed(c: Config, s: State, w: nat, action: WorkerAction, j: Job)
    requires WorkEnabled(s, w, action) && j != Subject(s, w)
    ensures Undisturbed(s, ApplyWork(c, s, w, action), j)
  {
    if action.Take? {
      TakeUndisturbed(c, s, w, j);
    } else {
      var o, r := ActionOutcome(c, s, w, action);
      OutcomeUndisturbed(s, w, o, r, j);
    }
  }

  lemma TakeLeads(c: Config, s: State, w: nat)
    requires Inv(c, s) && WorkEnabled(s, w, Take)
    ensures NowWith(ApplyWork(c, s, w, Take), w, Taken(s.channel[0]))
  {
    var j := s.channel[0];
    assert j in s.channel && RecordOk(c, s, j);
    if j in s.finished { FinishedOnly(s, j); }
  }

  lemma WorkStepLeads(c: Config, s: State, w: nat, action: WorkerAction, y: Tally)
    requires Inv(c, s) && WorkEnabled(s, w, action)
    requires Accounts(c, RecordOf(s, Subject(s, w)), y, BeingCalled(s, Subject(s, w)))
    ensures LeadsTo(c, ApplyWork(c, s, w, action), w, action, Subject(s, w), y.transient)
  {
    if action.Take? {
      TakeLeads(c, s, w);
    } else {
      HolderCalled(c, s, w, action);
      HolderRecord(c, s, w, action);
      RetriesTell(c, RecordOf(s, s.workers[w].job), y, action);
      HolderPlace(c, s, w, action, y.transient);
    }
  }

  /** The job is retried as long as fewer transient errors have happened than are retried. */
  lemma RetriesTell(c: Config, r: Record, y: Tally, action: WorkerAction)
    requires Accounts(c, r, y, action.Answered?) && r.sent == 0
    ensures r.retries < c.maxTransientRetries <==> y.transient < c.maxTransientRetries
    ensures !r.responded
  {
  }

  lemma HolderPlace(c: Config, s: State, w: nat, action: WorkerAction, transient: nat)
    requires WorkEnabled(s, w, action) && !action.Take?
    requires var r := RecordOf(s, s.workers[w].job);
             r.sent == 0 && !r.responded && (r.retries < c.maxTransientRetries <==> transient < c.maxTransientRetries)
    requires var j := s.workers[w].job;
             RecordOf(ApplyWork(c, s, w, action), j) == NextRecord(c, RecordOf(s, j), action)
    ensures LeadsTo(c, ApplyWork(c, s, w, action), w, action, s.workers[w].job, transient)
  {
  }

  /** What a step leads to, and that it leaves all other jobs alone. */
  ghost predicate StepLeads(c: Config, s: State, t: State, step: Step, y: Tally) {
    match step
    case Queue(q) => QueueLeadsTo(c, s, t, q)
    case Batch(b) => BatchLeadsTo(s, t, b)
    case Work(w, action) =>
      && w < |s.workers| && (s.workers[w].Idle? ==> s.channel != [])
      && LeadsTo(c, t, w, action, Subject(s, w), y.transient) && OnlyMoves(s, t, [Subject(s, w)])
  }

  /** The tally of the job that step `n` is about, if a worker takes it. */
  ghost function SubjectTally(states: seq<State>, steps: seq<Step>, n: nat): Tally
    requires n < |steps| < |states|
  {
    var s := states[n];
    if steps[n].Work? && steps[n].w < |s.workers| && (s.workers[steps[n].w].Idle? ==> s.channel != []) then
      TallyOf(states, steps, n, Subject(s, steps[n].w))
    else Tally(0, 0, 0, 0, 0, 0)
  }

  /**
   In every run each step takes its job where the protocol says: after a success, a permanent
   error, a refusal of the token limiter or one transient error too many the job is finished
   with its one result; after a rate limit, an error of the request limiter or a backoff it is
   in the queue again; and every other job stays where it is, with its counters.
   */
  lemma EveryStepLeads(c: Config, states: seq<State>, steps: seq<Step>, n: nat)
    requires IsRun(c, states, steps) && n < |steps|
    ensures StepLeads(c, states[n], states[n + 1], steps[n], SubjectTally(states, steps, n))
  {
    var s := states[n];
    RunStep(c, states, steps, n);
    match steps[n]
    case Queue(q) => QueueStepLeads(c, s, q);
    case Batch(b) => BatchStepLeads(s, b);
    case Work(w, action) =>
      RunAccounts(c, states, steps, n, Subject(s, w));
      WorkStepLeads(c, s, w, action, TallyOf(states, steps, n, Subject(s, w)));
      forall j | j !in [Subject(s, w)] ensures Undisturbed(s, states[n + 1], j) {
        WorkUndisturbed(c, s, w, action, j);
      }
  }
}
