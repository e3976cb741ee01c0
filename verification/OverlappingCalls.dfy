/**
 Calls of the batch manager that overlap. `AddJob` gives its lock up while it flushes: it
 decides in one region, takes the snapshot in another, and appends in a third; a failed
 conversion puts the snapshot back in one more. A run is any sequence of such regions.
 */
module OverlappingCalls {
  import opened Wrappers
  import opened Sequences
  import opened BatchManager

  // ---------- The machine ----------

  /** A call that is between two regions. */
  datatype Phase =
    | MustSnapshot(entry: Entry)                              // an `AddJob` that decided to flush
    | Flushing(waiting: Option<Entry>, snapshot: seq<Entry>)  // a flush that holds a snapshot, for an `AddJob` or alone
    | Adding(entry: Entry)                                    // an `AddJob` that has flushed

  datatype Machine = Machine(
    pending: seq<Entry>, memory: int, queued: nat, batched: seq<seq<Entry>>, dropped: seq<Entry>,
    calls: seq<Phase>, clock: int)

  const Idle := Machine([], 0, 0, [], [], [], -1)

  /**
   How many `AddJob` calls and how many flushes of their own may be under way at once, whether
   the clock has moved on at every `AddJob`, and whether conversions never fail.
   */
  datatype Setting = Setting(limits: Limits, adders: nat, flushes: nat, ticks: bool, reliable: bool)

  datatype Step =
    | Decide(job: Job, nanos: nat)         // first region of `AddJob`, and all of it if no flush is needed
    | StartFlush                           // first region of `FlushBatch`
    | Snapshot(i: nat)                     // the same within `AddJob`
    | Outcome(i: nat, sending: Sending)
    | Append(i: nat)                       // last region of `AddJob`

  predicate Full(m: Machine, limits: Limits, mem: int) {
    |m.pending| + 1 > limits.maxRequests || m.memory + mem > limits.maxMemory
  }

  /** Whether the call is an `AddJob`. */
  function Adds(c: Phase): nat {
    if c.Flushing? && c.waiting.None? then 0 else 1
  }

  function Flushes(c: Phase): nat {
    1 - Adds(c)
  }

  predicate Enabled(g: Setting, m: Machine, step: Step) {
    match step
    case Decide(job, nanos) => job.inputs.Some? && Total(Adds, m.calls) < g.adders && (g.ticks ==> nanos > m.clock)
    case StartFlush => Total(Flushes, m.calls) < g.flushes
    case Snapshot(i) => i < |m.calls| && m.calls[i].MustSnapshot?
    case Outcome(i, sending) => i < |m.calls| && m.calls[i].Flushing? && (g.reliable ==> !sending.ConversionFails?)
    case Append(i) => i < |m.calls| && m.calls[i].Adding?
  }

  function Without<T>(s: seq<T>, i: nat): seq<T>
    requires i < |s|
  {
    s[..i] + s[i + 1..]
  }

  function EntryFor(m: Machine, job: Job, nanos: nat): Entry
    requires job.inputs.Some?
  {
    Entry(job, CustomID(nanos, m.queued), EstimateJobMemory(job.inputs.value))
  }

  function Put(m: Machine, e: Entry): Machine {
    m.(pending := m.pending + [e], memory := m.memory + e.estimatedMem, queued := m.queued + 1)
  }

  function Taken(m: Machine): Machine {
    m.(pending := [], memory := 0)
  }

  function Apply(g: Setting, m: Machine, step: Step): Machine
    requires Enabled(g, m, step)
  {
    match step
    case Decide(job, nanos) =>
      var e := EntryFor(m, job, nanos);
      var t := m.(clock := nanos);
      if Full(m, g.limits, e.estimatedMem) then t.(calls := m.calls + [MustSnapshot(e)]) else Put(t, e)
    case StartFlush => if m.pending == [] then m else Taken(m).(calls := m.calls + [Flushing(None, m.pending)])
    case Snapshot(i) =>
      var e := m.calls[i].entry;
      if m.pending == [] then m.(calls := m.calls[i := Adding(e)])
      else Taken(m).(calls := m.calls[i := Flushing(Some(e), m.pending)])
    case Outcome(i, sending) =>
      var c := m.calls[i];
      var t := m.(calls := if sending.Created? && c.waiting.Some? then m.calls[i := Adding(c.waiting.value)]
                           else Without(m.calls, i));
      (match sending
       case ConversionFails => t.(pending := m.pending + c.snapshot)
       case Created => t.(batched := m.batched + [c.snapshot])
       case _ => t.(dropped := m.dropped + c.snapshot))
    case Append(i) => Put(m, m.calls[i].entry).(calls := Without(m.calls, i))
  }

  ghost predicate Leads(g: Setting, m: Machine, steps: seq<Step>, t: Machine)
    decreases |steps|
  {
    if steps == [] then t == m
    else Enabled(g, m, steps[0]) && Leads(g, Apply(g, m, steps[0]), steps[1..], t)
  }

  lemma Chain(g: Setting, m: Machine, step: Step, rest: seq<Step>, t: Machine)
    requires Enabled(g, m, step) && Leads(g, Apply(g, m, step), rest, t)
    ensures Leads(g, m, [step] + rest, t)
  {
    assert ([step] + rest)[1..] == rest;
  }

  lemma OneStep(g: Setting, m: Machine, step: Step)
    requires Enabled(g, m, step)
    ensures Leads(g, m, [step], Apply(g, m, step))
  {
    assert [step][1..] == [];
  }

  lemma {:induction false} LeadsOn(g: Setting, m: Machine, a: seq<Step>, t: Machine, b: seq<Step>, u: Machine)
    requires Leads(g, m, a, t) && Leads(g, t, b, u)
    ensures Leads(g, m, a + b, u)
    decreases |a|
  {
    if a == [] {
      assert a + b == b;
    } else {
      assert (a + b)[1..] == a[1..] + b;
      LeadsOn(g, Apply(g, m, a[0]), a[1..], t, b, u);
    }
  }

  // ---------- Adding up over the calls under way ----------

  function Total(f: Phase -> nat, calls: seq<Phase>): nat {
    if calls == [] then 0 else Total(f, calls[..|calls| - 1]) + f(calls[|calls| - 1])
  }

  lemma TotalMore(f: Phase -> nat, calls: seq<Phase>, x: Phase)
    ensures Total(f, calls + [x]) == Total(f, calls) + f(x)
  {
    assert (calls + [x])[..|calls|] == calls;
  }

  lemma {:induction false} TotalReplaced(f: Phase -> nat, calls: seq<Phase>, i: nat, x: Phase)
    requires i < |calls|
    ensures Total(f, calls[i := x]) + f(calls[i]) == Total(f, calls) + f(x)
    decreases |calls|
  {
    var n := |calls| - 1;
    if i < n {
      assert calls[i := x][..n] == calls[..n][i := x];
      TotalReplaced(f, calls[..n], i, x);
    } else {
      assert calls[i := x][..n] == calls[..n];
    }
  }

  lemma {:induction false} TotalWithout(f: Phase -> nat, calls: seq<Phase>, i: nat)
    requires i < |calls|
    ensures Total(f, Without(calls, i)) + f(calls[i]) == Total(f, calls)
    decreases |calls|
  {
    var n := |calls| - 1;
    if i < n {
      assert Without(calls, i) == Without(calls[..n], i) + [calls[n]];
      TotalMore(f, Without(calls[..n], i), calls[n]);
      TotalWithout(f, calls[..n], i);
    } else {
      assert Without(calls, i) == calls[..n];
    }
  }

  lemma {:induction false} TotalAtMost(f: Phase -> nat, h: Phase -> nat, calls: seq<Phase>)
    requires forall c :: c in calls ==> f(c) <= h(c)
    ensures Total(f, calls) <= Total(h, calls)
    decreases |calls|
  {
    if calls != [] { TotalAtMost(f, h, calls[..|calls| - 1]); }
  }

  // ---------- No job gets lost ----------

  function Snapped(c: Phase): nat {
    if c.Flushing? then |c.snapshot| else 0
  }

  /**
   Every queued job is pending, in a batch, dropped or in a snapshot; no batch is empty; no more is
   counted than pending.
   */
  ghost predicate Conserved(m: Machine) {
    && m.queued == |m.pending| + |Flatten(m.batched)| + |m.dropped| + Total(Snapped, m.calls)
    && (forall b :: b in m.batched ==> b != [])
    && (forall c :: c in m.calls && c.Flushing? ==> c.snapshot != [])
    && 0 <= m.memory <= MemoryOf(m.pending)
    && EntriesSized(m)
  }

  ghost predicate EntriesSized(m: Machine) {
    && Sized(m.pending)
    && forall c :: c in m.calls ==>
         if c.Flushing? then Sized(c.snapshot) && (c.waiting.Some? ==> c.waiting.value.estimatedMem >= 2048)
         else c.entry.estimatedMem >= 2048
  }

  predicate Sized(entries: seq<Entry>) {
    forall e :: e in entries ==> e.estimatedMem >= 2048
  }

  lemma StepSized(g: Setting, m: Machine, step: Step)
    requires EntriesSized(m) && Enabled(g, m, step)
    ensures EntriesSized(Apply(g, m, step))
  {
  }

  lemma StepSnapshots(g: Setting, m: Machine, step: Step)
    requires Enabled(g, m, step)
    ensures var t := Apply(g, m, step);
            t.queued + |m.pending| + |Flatten(m.batched)| + |m.dropped| + Total(Snapped, m.calls) ==
            m.queued + |t.pending| + |Flatten(t.batched)| + |t.dropped| + Total(Snapped, t.calls)
  {
    var t := Apply(g, m, step);
    match step {
      case Decide(job, nanos) => TotalMore(Snapped, m.calls, MustSnapshot(EntryFor(m, job, nanos)));
      case StartFlush => TotalMore(Snapped, m.calls, Flushing(None, m.pending));
      case Snapshot(i) => TotalReplaced(Snapped, m.calls, i, t.calls[i]);
      case Outcome(i, sending) =>
        FlattenAppend(m.batched, m.calls[i].snapshot);
        TotalWithout(Snapped, m.calls, i);
        if sending.Created? && m.calls[i].waiting.Some? { TotalReplaced(Snapped, m.calls, i, t.calls[i]); }
      case Append(i) => TotalWithout(Snapped, m.calls, i);
    }
  }

  lemma StepMemory(g: Setting, m: Machine, step: Step)
    requires EntriesSized(m) && 0 <= m.memory <= MemoryOf(m.pending) && Enabled(g, m, step)
    ensures var t := Apply(g, m, step); 0 <= t.memory <= MemoryOf(t.pending)
    ensures var t := Apply(g, m, step);
            m.memory == MemoryOf(m.pending) && !(step.Outcome? && step.sending.ConversionFails?) ==>
                t.memory == MemoryOf(t.pending)
  {
    match step {
      case Decide(job, nanos) => MemoryConcat(m.pending, [EntryFor(m, job, nanos)]);
      case Outcome(i, _) =>
        MemoryConcat(m.pending, m.calls[i].snapshot);
        MemoryAtLeast(m.calls[i].snapshot);
      case Append(i) => MemoryConcat(m.pending, [m.calls[i].entry]);
      case _ =>
    }
  }

  lemma StepConserves(g: Setting, m: Machine, step: Step)
    requires Conserved(m) && Enabled(g, m, step)
    ensures Conserved(Apply(g, m, step))
  {
    StepSized(g, m, step);
    StepSnapshots(g, m, step);
    StepMemory(g, m, step);
    StepFilled(g, m, step);
  }

  lemma StepFilled(g: Setting, m: Machine, step: Step)
    requires (forall b :: b in m.batched ==> b != []) && (forall c :: c in m.calls && c.Flushing? ==> c.snapshot != [])
    requires Enabled(g, m, step)
    ensures var t := Apply(g, m, step);
            (forall b :: b in t.batched ==> b != []) && (forall c :: c in t.calls && c.Flushing? ==> c.snapshot != [])
  {
  }

  /** However the calls overlap, every state of every run accounts for every queued job. */
  lemma {:induction false} RunConserves(g: Setting, m: Machine, steps: seq<Step>, t: Machine)
    requires Conserved(m) && Leads(g, m, steps, t)
    ensures Conserved(t)
    decreases |steps|
  {
    if steps != [] {
      StepConserves(g, m, steps[0]);
      RunConserves(g, Apply(g, m, steps[0]), steps[1..], t);
    }
  }

  lemma EveryRunConserves(g: Setting, steps: seq<Step>, t: Machine)
    requires Leads(g, Idle, steps, t)
    ensures t.queued == |t.pending| + |Flatten(t.batched)| + |t.dropped| + Total(Snapped, t.calls)
    ensures (forall b :: b in t.batched ==> b != []) && 0 <= t.memory <= MemoryOf(t.pending)
  {
    RunConserves(g, Idle, steps, t);
  }

  // ---------- How long the queue can get ----------

  ghost predicate LimitHolds(g: Setting) {
    forall steps, t :: Leads(g, Idle, steps, t) ==> |t.pending| <= g.limits.maxRequests
  }

  /** How many of the smallest jobs can be queued without a flush. */
  function Room(limits: Limits): int {
    if limits.maxMemory / 2048 < limits.maxRequests then limits.maxMemory / 2048 else limits.maxRequests
  }

  function LongestWait(g: Setting): int {
    (if Room(g.limits) < 1 then 1 else Room(g.limits)) + g.adders - 1
  }

  /** Calls that will append without flushing again. */
  function WillAppend(c: Phase): nat {
    if c.Adding? || (c.Flushing? && c.waiting.Some?) then 1 else 0
  }

  ghost predicate WaitInv(g: Setting, m: Machine) {
    && Total(Adds, m.calls) <= g.adders && EntriesSized(m) && m.memory == MemoryOf(m.pending)
    && |m.pending| + Total(WillAppend, m.calls) <= LongestWait(g)
  }

  lemma StepWaits(g: Setting, m: Machine, step: Step)
    requires g.reliable && g.adders >= 1 && WaitInv(g, m) && Enabled(g, m, step)
    ensures WaitInv(g, Apply(g, m, step))
  {
    MemoryAtLeast(m.pending);
    StepSized(g, m, step);
    StepMemory(g, m, step);
    TotalAtMost(WillAppend, Adds, m.calls);
    match step {
      case Decide(job, nanos) => DecideWaits(g, m, job, nanos);
      case StartFlush =>
        TotalMore(WillAppend, m.calls, Flushing(None, m.pending));
        TotalMore(Adds, m.calls, Flushing(None, m.pending));
      case Snapshot(i) => SnapshotWaits(g, m, i);
      case Outcome(i, sending) => OutcomeWaits(g, m, i, sending);
      case Append(i) =>
        TotalWithout(WillAppend, m.calls, i);
        TotalWithout(Adds, m.calls, i);
    }
  }

  lemma SnapshotWaits(g: Setting, m: Machine, i: nat)
    requires WaitInv(g, m) && Enabled(g, m, Snapshot(i)) && g.adders >= 1
    ensures var t := Apply(g, m, Snapshot(i));
            Total(Adds, t.calls) <= g.adders && |t.pending| + Total(WillAppend, t.calls) <= LongestWait(g)
  {
    var t := Apply(g, m, Snapshot(i));
    TotalReplaced(Adds, m.calls, i, t.calls[i]);
    TotalAtMost(WillAppend, Adds, t.calls);
  }

  lemma DecideWaits(g: Setting, m: Machine, job: Job, nanos: nat)
    requires WaitInv(g, m) && Enabled(g, m, Decide(job, nanos)) && g.adders >= 1
    requires Total(WillAppend, m.calls) <= Total(Adds, m.calls) && MemoryOf(m.pending) >= 2048 * |m.pending|
    ensures var t := Apply(g, m, Decide(job, nanos));
            Total(Adds, t.calls) <= g.adders && |t.pending| + Total(WillAppend, t.calls) <= LongestWait(g)
  {
    var e := EntryFor(m, job, nanos);
    TotalMore(WillAppend, m.calls, MustSnapshot(e));
    TotalMore(Adds, m.calls, MustSnapshot(e));
    if !Full(m, g.limits, e.estimatedMem) {
      assert 2048 * (|m.pending| + 1) <= g.limits.maxMemory;
      assert |m.pending| + 1 <= Room(g.limits);
    }
  }

  lemma OutcomeWaits(g: Setting, m: Machine, i: nat, sending: Sending)
    requires WaitInv(g, m) && Enabled(g, m, Outcome(i, sending)) && !sending.ConversionFails?
    ensures var t := Apply(g, m, Outcome(i, sending));
            Total(Adds, t.calls) <= g.adders && |t.pending| + Total(WillAppend, t.calls) <= LongestWait(g)
  {
    if sending.Created? && m.calls[i].waiting.Some? {
      TotalReplaced(WillAppend, m.calls, i, Adding(m.calls[i].waiting.value));
      TotalReplaced(Adds, m.calls, i, Adding(m.calls[i].waiting.value));
    } else {
      TotalWithout(WillAppend, m.calls, i);
      TotalWithout(Adds, m.calls, i);
    }
  }

  lemma {:induction false} RunWaits(g: Setting, m: Machine, steps: seq<Step>, t: Machine)
    requires g.reliable && g.adders >= 1 && WaitInv(g, m) && Leads(g, m, steps, t)
    ensures WaitInv(g, t)
    decreases |steps|
  {
    if steps != [] {
      StepWaits(g, m, steps[0]);
      RunWaits(g, Apply(g, m, steps[0]), steps[1..], t);
    }
  }

  /**
   While conversions succeed, the queue exceeds what fits by at most the overlapping `AddJob` calls
   but one, whatever flushes beside them.
   */
  lemma QueueBound(g: Setting, steps: seq<Step>, t: Machine)
    requires g.reliable && g.adders >= 1 && Leads(g, Idle, steps, t)
    ensures |t.pending| <= LongestWait(g)
  {
    RunWaits(g, Idle, steps, t);
  }

  // The bound is reached.

  const SMALL := Job(Some(Inputs("", "")), true, true)

  /** A job that exceeds the memory limit alone. */
  function Large(limits: Limits): (job: Job)
    ensures job.inputs.Some? && EstimateJobMemory(job.inputs.value) > limits.maxMemory
  {
    Job(Some(Inputs(seq(if limits.maxMemory < 0 then 0 else limits.maxMemory, _ => 'x'), "")), true, true)
  }

  function Now(m: Machine): nat {
    if m.clock < 0 then 0 else m.clock + 1
  }

  ghost predicate AllAdding(calls: seq<Phase>) {
    forall c :: c in calls ==> c.Adding?
  }

  lemma {:induction false} AddingTotal(calls: seq<Phase>)
    requires AllAdding(calls)
    ensures Total(Adds, calls) == |calls|
    decreases |calls|
  {
    if calls != [] {
      assert calls[|calls| - 1] in calls;
      AddingTotal(calls[..|calls| - 1]);
    }
  }

  /** With an empty queue, `n` more calls can get as far as appending. */
  lemma {:induction false} Load(g: Setting, m: Machine, n: nat) returns (steps: seq<Step>, t: Machine)
    requires m.pending == [] && m.memory == 0 && AllAdding(m.calls) && |m.calls| + n <= g.adders
    ensures Leads(g, m, steps, t) && t.pending == [] && t.memory == 0
    ensures AllAdding(t.calls) && |t.calls| == |m.calls| + n
    decreases n
  {
    if n == 0 {
      steps, t := [], m;
    } else {
      var next := LoadOne(g, m);
      var rest: seq<Step>;
      rest, t := Load(g, next, n - 1);
      var first := [Decide(Large(g.limits), Now(m)), Snapshot(|m.calls|)];
      LeadsOn(g, m, first, next, rest, t);
      steps := first + rest;
    }
  }

  lemma LoadOne(g: Setting, m: Machine) returns (t: Machine)
    requires m.pending == [] && m.memory == 0 && AllAdding(m.calls) && |m.calls| < g.adders
    ensures Leads(g, m, [Decide(Large(g.limits), Now(m)), Snapshot(|m.calls|)], t)
    ensures t.pending == [] && t.memory == 0 && AllAdding(t.calls) && |t.calls| == |m.calls| + 1
  {
    var decide, snapshot := Decide(Large(g.limits), Now(m)), Snapshot(|m.calls|);
    AddingTotal(m.calls);
    var s := Apply(g, m, decide);
    t := Apply(g, s, snapshot);
    OneStep(g, s, snapshot);
    Chain(g, m, decide, [snapshot], t);
  }

  /** Small jobs fill the room there is. */
  lemma {:induction false} Fill(g: Setting, m: Machine, n: nat) returns (steps: seq<Step>, t: Machine)
    requires Total(Adds, m.calls) < g.adders && m.memory == 2048 * |m.pending| && |m.pending| + n <= Room(g.limits)
    ensures Leads(g, m, steps, t) && t.calls == m.calls && |t.pending| == |m.pending| + n
    decreases n
  {
    if n == 0 {
      steps, t := [], m;
    } else {
      var decide := Decide(SMALL, Now(m));
      var rest: seq<Step>;
      rest, t := Fill(g, Apply(g, m, decide), n - 1);
      Chain(g, m, decide, rest, t);
      steps := [decide] + rest;
    }
  }

  lemma {:induction false} Unload(g: Setting, m: Machine) returns (steps: seq<Step>, t: Machine)
    requires AllAdding(m.calls)
    ensures Leads(g, m, steps, t) && |t.pending| == |m.pending| + |m.calls|
    decreases |m.calls|
  {
    if m.calls == [] {
      steps, t := [], m;
    } else {
      assert m.calls[0] in m.calls;
      var rest: seq<Step>;
      rest, t := Unload(g, Apply(g, m, Append(0)));
      Chain(g, m, Append(0), rest, t);
      steps := [Append(0)] + rest;
    }
  }

  /** A run in which the queue gets as long as the bound allows. */
  lemma BoundReached(g: Setting) returns (steps: seq<Step>, t: Machine)
    requires g.adders >= 1
    ensures Leads(g, Idle, steps, t) && |t.pending| == LongestWait(g)
  {
    var room := if Room(g.limits) < 1 then 0 else Room(g.limits);
    var loading, s := Load(g, Idle, if room == 0 then g.adders else g.adders - 1);
    var filling, u := [], s;
    AddingTotal(s.calls);
    if room > 0 { filling, u := Fill(g, s, room); }
    var rest: seq<Step>;
    rest, t := Unload(g, u);
    LeadsOn(g, s, filling, u, rest, t);
    LeadsOn(g, Idle, loading, s, filling + rest, t);
    steps := loading + (filling + rest);
  }

  /**
   While conversions succeed, the request limit holds in every run if and only if the bound is
   within it: with memory for a full batch, if and only if no two `AddJob` calls overlap. How
   many flushes overlap does not matter.
   */
  lemma LimitHoldsIff(g: Setting)
    requires g.reliable && g.adders >= 1
    ensures LimitHolds(g) <==> LongestWait(g) <= g.limits.maxRequests
    ensures g.limits.maxMemory >= 2048 * g.limits.maxRequests && g.limits.maxRequests >= 1 ==>
            (LimitHolds(g) <==> g.adders <= 1)
  {
    if LongestWait(g) <= g.limits.maxRequests {
      forall steps, t | Leads(g, Idle, steps, t) ensures |t.pending| <= g.limits.maxRequests {
        QueueBound(g, steps, t);
      }
    } else {
      var steps, t := BoundReached(g);
    }
  }

  // ---------- With conversions that can fail ----------

  /** One `AddJob` at a time and no other flush: what it holds was pending, and nothing else is. */
  ghost predicate AloneInv(g: Setting, m: Machine) {
    && |m.calls| <= 1 && |m.pending| <= g.limits.maxRequests
    && (m.calls != [] ==> match m.calls[0]
                          case MustSnapshot(_) => true
                          case Flushing(waiting, snapshot) => waiting.Some? && m.pending == [] &&
                              |snapshot| <= g.limits.maxRequests
                          case Adding(_) => m.pending == [])
  }

  lemma {:induction false} RunAlone(g: Setting, m: Machine, steps: seq<Step>, t: Machine)
    requires g.adders <= 1 <= g.limits.maxRequests && g.flushes == 0 && AloneInv(g, m) && Leads(g, m, steps, t)
    ensures AloneInv(g, t)
    decreases |steps|
  {
    if steps != [] {
      StepAlone(g, m, steps[0]);
      RunAlone(g, Apply(g, m, steps[0]), steps[1..], t);
    }
  }

  lemma StepAlone(g: Setting, m: Machine, step: Step)
    requires g.adders <= 1 <= g.limits.maxRequests && g.flushes == 0 && AloneInv(g, m) && Enabled(g, m, step)
    ensures AloneInv(g, Apply(g, m, step))
  {
    if m.calls != [] {
      assert m.calls == [m.calls[0]];
      TotalOne(Adds, m.calls[0]);
    }
  }

  lemma TotalOne(f: Phase -> nat, c: Phase)
    ensures Total(f, [c]) == f(c)
  {
    TotalMore(f, [], c);
    assert [] + [c] == [c];
  }

  /** Beside calls that are under way, or alone, an `AddJob` puts its job into the empty queue. */
  lemma AddToEmpty(g: Setting, m: Machine) returns (steps: seq<Step>, t: Machine)
    requires m.pending == [] && Total(Adds, m.calls) < g.adders
    ensures Leads(g, m, steps, t) && |t.pending| == 1 && t.calls == m.calls
  {
    var decide, n := Decide(SMALL, Now(m)), |m.calls|;
    var s := Apply(g, m, decide);
    if s.pending != [] {
      OneStep(g, m, decide);
      steps, t := [decide], s;
    } else {
      var u := Apply(g, s, Snapshot(n));
      t := Apply(g, u, Append(n));
      OneStep(g, u, Append(n));
      Chain(g, s, Snapshot(n), [Append(n)], t);
      Chain(g, m, decide, [Snapshot(n), Append(n)], t);
      steps := [decide] + [Snapshot(n), Append(n)];
      assert s.calls[n := u.calls[n]] == u.calls && Without(u.calls, n) == m.calls;
    }
  }

  /** More than one call can be under way, one of them an `AddJob`. */
  predicate Overlaps(g: Setting) {
    g.adders >= 2 || (g.adders == 1 && g.flushes >= 1)
  }

  /**
   A flush, for an `AddJob` or alone, takes the snapshot of a queue that is not empty and leaves room
   for an `AddJob`.
   */
  lemma TakeSnapshot(g: Setting, m: Machine) returns (steps: seq<Step>, t: Machine)
    requires Overlaps(g) && m.calls == [] && m.pending != [] && m.memory >= 0
    ensures Leads(g, m, steps, t) && t.pending == [] && |t.calls| == 1 && t.calls[0].Flushing?
    ensures t.calls[0].snapshot == m.pending && Total(Adds, t.calls) < g.adders
  {
    if g.flushes >= 1 {
      t := Apply(g, m, StartFlush);
      OneStep(g, m, StartFlush);
      steps := [StartFlush];
    } else {
      var decide := Decide(Large(g.limits), Now(m));
      var s := DecideLarge(g, m);
      t := Apply(g, s, Snapshot(0));
      OneStep(g, s, Snapshot(0));
      Chain(g, m, decide, [Snapshot(0)], t);
      steps := [decide] + [Snapshot(0)];
    }
    assert t.calls == [t.calls[0]];
    TotalOne(Adds, t.calls[0]);
  }

  lemma DecideLarge(g: Setting, m: Machine) returns (s: Machine)
    requires g.adders >= 1 && m.calls == [] && m.memory >= 0
    ensures Enabled(g, m, Decide(Large(g.limits), Now(m))) && s == Apply(g, m, Decide(Large(g.limits), Now(m)))
    ensures |s.calls| == 1 && s.calls[0].MustSnapshot? && s.pending == m.pending
  {
    s := Apply(g, m, Decide(Large(g.limits), Now(m)));
  }

  /** A conversion that fails puts a snapshot back behind a job that was added meanwhile. */
  lemma GrowByOne(g: Setting, m: Machine) returns (steps: seq<Step>, t: Machine)
    requires Overlaps(g) && !g.reliable && m.calls == [] && m.memory >= 0
    ensures Leads(g, m, steps, t) && t.calls == [] && |t.pending| == |m.pending| + 1
  {
    if m.pending == [] {
      steps, t := AddToEmpty(g, m);
    } else {
      var taking, s := TakeSnapshot(g, m);
      var adding, u := AddToEmpty(g, s);
      var fail := Outcome(0, ConversionFails);
      t := Apply(g, u, fail);
      OneStep(g, u, fail);
      LeadsOn(g, s, adding, u, [fail], t);
      LeadsOn(g, m, taking, s, adding + [fail], t);
      steps := taking + (adding + [fail]);
    }
  }

  /** Two overlapping calls are enough to make the queue as long as one likes. */
  lemma {:induction false} Grow(g: Setting, n: nat) returns (steps: seq<Step>, t: Machine)
    requires Overlaps(g) && !g.reliable
    ensures Leads(g, Idle, steps, t) && t.calls == [] && |t.pending| == n
    decreases n
  {
    if n == 0 {
      steps, t := [], Idle;
    } else {
      var before, s := Grow(g, n - 1);
      EveryRunConserves(g, before, s);
      var more: seq<Step>;
      more, t := GrowByOne(g, s);
      LeadsOn(g, Idle, before, s, more, t);
      steps := before + more;
    }
  }

  /** Without `AddJob` nothing is ever queued. */
  lemma {:induction false} NothingAdded(g: Setting, m: Machine, steps: seq<Step>, t: Machine)
    requires g.adders == 0 && m.pending == [] && m.calls == [] && Leads(g, m, steps, t)
    ensures t.pending == []
    decreases |steps|
  {
    if steps != [] { NothingAdded(g, Apply(g, m, steps[0]), steps[1..], t); }
  }

  /**
   With conversions that can fail, the request limit holds in every run if and only if no
   `AddJob` overlaps with another call, be it an `AddJob` or a flush.
   */
  lemma LimitHoldsAloneIff(g: Setting)
    requires !g.reliable && g.limits.maxRequests >= 1
    ensures LimitHolds(g) <==> !Overlaps(g)
  {
    if !Overlaps(g) {
      forall steps, t | Leads(g, Idle, steps, t) ensures |t.pending| <= g.limits.maxRequests {
        if g.adders == 0 { NothingAdded(g, Idle, steps, t); } else { RunAlone(g, Idle, steps, t); }
      }
    } else {
      var steps, t := Grow(g, g.limits.maxRequests + 1);
    }
  }

  // ---------- Identifiers ----------

  function Held(id: string): Phase -> nat {
    (c: Phase) => if c.Flushing? then Uses(c.snapshot, id) else 0
  }

  function Waiting(id: string): Phase -> nat {
    (c: Phase) =>
      if c.Flushing? then (if c.waiting.Some? && c.waiting.value.customID == id then 1 else 0)
      else if c.entry.customID == id then 1 else 0
  }

  /** How many queued jobs have the identifier. */
  function QueuedUses(m: Machine, id: string): nat {
    Uses(m.pending, id) + Uses(Flatten(m.batched), id) + Uses(m.dropped, id) + Total(Held(id), m.calls)
  }

  ghost predicate DistinctIDs(m: Machine) {
    forall id :: QueuedUses(m, id) <= 1
  }

  ghost predicate AlwaysDistinct(g: Setting) {
    forall steps, t :: Leads(g, Idle, steps, t) ==> DistinctIDs(t)
  }

  function AllUses(m: Machine, id: string): nat {
    QueuedUses(m, id) + Total(Waiting(id), m.calls)
  }

  /** The entry a step makes, if any. */
  function Made(m: Machine, step: Step): Option<Entry>
    requires step.Decide? ==> step.job.inputs.Some?
  {
    if step.Decide? then Some(EntryFor(m, step.job, step.nanos)) else None
  }

  function IsFor(e: Option<Entry>, id: string): nat {
    if e.Some? && e.value.customID == id then 1 else 0
  }

  lemma OneUse(entries: seq<Entry>, e: Entry, id: string)
    ensures Uses(entries + [e], id) == Uses(entries, id) + IsFor(Some(e), id)
  {
    assert (entries + [e])[..|entries|] == entries;
  }

  /** A step makes at most the new identifier come into use, and only an append queues one. */
  lemma StepUses(g: Setting, m: Machine, step: Step, id: string)
    requires Enabled(g, m, step)
    ensures var t := Apply(g, m, step); AllUses(t, id) <= AllUses(m, id) + IsFor(Made(m, step), id)
  {
    var t := Apply(g, m, step);
    match step {
      case Decide(job, nanos) =>
        var e := EntryFor(m, job, nanos);
        TotalMore(Held(id), m.calls, MustSnapshot(e));
        TotalMore(Waiting(id), m.calls, MustSnapshot(e));
        OneUse(m.pending, e, id);
      case StartFlush =>
        TotalMore(Held(id), m.calls, Flushing(None, m.pending));
        TotalMore(Waiting(id), m.calls, Flushing(None, m.pending));
      case Snapshot(i) =>
        TotalReplaced(Held(id), m.calls, i, t.calls[i]);
        TotalReplaced(Waiting(id), m.calls, i, t.calls[i]);
      case Outcome(i, sending) => OutcomeUses(g, m, i, sending, id);
      case Append(i) =>
        TotalWithout(Held(id), m.calls, i);
        TotalWithout(Waiting(id), m.calls, i);
        OneUse(m.pending, m.calls[i].entry, id);
    }
  }

  lemma OutcomeUses(g: Setting, m: Machine, i: nat, sending: Sending, id: string)
    requires Enabled(g, m, Outcome(i, sending))
    ensures var t := Apply(g, m, Outcome(i, sending));
            AllUses(t, id) <= AllUses(m, id) && QueuedUses(t, id) == QueuedUses(m, id)
  {
    StoredAfter(g, m, i, sending, id);
    CallsAfter(g, m, i, sending, id);
  }

  lemma StoredAfter(g: Setting, m: Machine, i: nat, sending: Sending, id: string)
    requires Enabled(g, m, Outcome(i, sending))
    ensures var t := Apply(g, m, Outcome(i, sending));
            Uses(t.pending, id) + Uses(Flatten(t.batched), id) + Uses(t.dropped, id) ==
            Uses(m.pending, id) + Uses(Flatten(m.batched), id) + Uses(m.dropped, id) + Uses(m.calls[i].snapshot, id)
  {
    var snapshot := m.calls[i].snapshot;
    FlattenAppend(m.batched, snapshot);
    UsesConcat(Flatten(m.batched), snapshot, id);
    UsesConcat(m.dropped, snapshot, id);
    UsesConcat(m.pending, snapshot, id);
  }

  lemma CallsAfter(g: Setting, m: Machine, i: nat, sending: Sending, id: string)
    requires Enabled(g, m, Outcome(i, sending))
    ensures var t := Apply(g, m, Outcome(i, sending));
            && Total(Held(id), t.calls) + Uses(m.calls[i].snapshot, id) == Total(Held(id), m.calls)
            && Total(Waiting(id), t.calls) <= Total(Waiting(id), m.calls)
  {
    var c := m.calls[i];
    if sending.Created? && c.waiting.Some? {
      TotalReplaced(Held(id), m.calls, i, Adding(c.waiting.value));
      TotalReplaced(Waiting(id), m.calls, i, Adding(c.waiting.value));
    } else {
      TotalWithout(Held(id), m.calls, i);
      TotalWithout(Waiting(id), m.calls, i);
    }
  }

  /** With a clock that moves on: every identifier is in use once, and none from the future. */
  ghost predicate TickInv(m: Machine) {
    && (forall id :: AllUses(m, id) <= 1)
    && forall nanos: nat, count: nat :: nanos > m.clock ==> AllUses(m, CustomID(nanos, count)) == 0
  }

  lemma StepTicks(g: Setting, m: Machine, step: Step)
    requires g.ticks && TickInv(m) && Enabled(g, m, step)
    ensures TickInv(Apply(g, m, step))
  {
    var t := Apply(g, m, step);
    forall id ensures AllUses(t, id) <= 1 {
      StepUses(g, m, step, id);
      if step.Decide? { assert AllUses(m, CustomID(step.nanos, m.queued)) == 0; }
    }
    forall nanos: nat, count: nat | nanos > t.clock ensures AllUses(t, CustomID(nanos, count)) == 0 {
      StepUses(g, m, step, CustomID(nanos, count));
      if step.Decide? && CustomID(step.nanos, m.queued) == CustomID(nanos, count) {
        CustomIDInjective(step.nanos, m.queued, nanos, count);
      }
    }
  }

  lemma {:induction false} RunTicks(g: Setting, m: Machine, steps: seq<Step>, t: Machine)
    requires g.ticks && TickInv(m) && Leads(g, m, steps, t)
    ensures TickInv(t)
    decreases |steps|
  {
    if steps != [] {
      StepTicks(g, m, steps[0]);
      RunTicks(g, Apply(g, m, steps[0]), steps[1..], t);
    }
  }

  /** One `AddJob` at a time: its entry carries the count of the next job, which no queued job has. */
  ghost predicate CountInv(m: Machine) {
    && Total(Adds, m.calls) <= 1 && DistinctIDs(m)
    && (forall nanos: nat, count: nat :: count >= m.queued ==> QueuedUses(m, CustomID(nanos, count)) == 0)
    && forall i :: 0 <= i < |m.calls| ==> NextCount(m.calls[i], m.queued)
  }

  ghost predicate NextCount(c: Phase, count: nat) {
    Adds(c) == 1 ==> HasCount(if c.Flushing? then c.waiting.value else c.entry, count)
  }

  ghost predicate HasCount(e: Entry, count: nat) {
    exists nanos: nat :: e.customID == CustomID(nanos, count)
  }

  /** Only appending, in the first or in the last region, brings an identifier among the queued ones. */
  lemma StepQueues(g: Setting, m: Machine, step: Step, id: string)
    requires Enabled(g, m, step)
    ensures var t := Apply(g, m, step);
            QueuedUses(t, id) == QueuedUses(m, id) + IsFor(Queues(g, m, step), id)
  {
    var t := Apply(g, m, step);
    match step {
      case Decide(job, nanos) =>
        var e := EntryFor(m, job, nanos);
        TotalMore(Held(id), m.calls, MustSnapshot(e));
        OneUse(m.pending, e, id);
      case StartFlush => TotalMore(Held(id), m.calls, Flushing(None, m.pending));
      case Snapshot(i) => TotalReplaced(Held(id), m.calls, i, t.calls[i]);
      case Outcome(i, sending) => OutcomeUses(g, m, i, sending, id);
      case Append(i) =>
        TotalWithout(Held(id), m.calls, i);
        OneUse(m.pending, m.calls[i].entry, id);
    }
  }

  /** The entry a step appends to the queue. */
  function Queues(g: Setting, m: Machine, step: Step): Option<Entry>
    requires Enabled(g, m, step)
  {
    match step
    case Decide(job, nanos) =>
      var e := EntryFor(m, job, nanos);
      if Full(m, g.limits, e.estimatedMem) then None else Some(e)
    case Append(i) => Some(m.calls[i].entry)
    case _ => None
  }

  lemma StepCounts(g: Setting, m: Machine, step: Step)
    requires g.adders <= 1 && CountInv(m) && Enabled(g, m, step)
    ensures CountInv(Apply(g, m, step))
  {
    var t, q := Apply(g, m, step), Queues(g, m, step);
    assert step.Decide? ==> HasCount(EntryFor(m, step.job, step.nanos), m.queued);
    StepAdds(g, m, step);
    if q.Some? {
      if step.Append? { assert NextCount(m.calls[step.i], m.queued); }
      assert HasCount(q.value, m.queued);
      QueuedOnce(g, m, step);
      NoOtherAdder(g, m, step);
    } else {
      NothingQueued(g, m, step);
    }
  }

  lemma NothingQueued(g: Setting, m: Machine, step: Step)
    requires CountInv(m) && Enabled(g, m, step) && Queues(g, m, step).None? && Total(Adds, Apply(g, m, step).calls) <= 1
    requires step.Decide? ==> HasCount(EntryFor(m, step.job, step.nanos), m.queued)
    ensures CountInv(Apply(g, m, step))
  {
    var t := Apply(g, m, step);
    forall id ensures QueuedUses(t, id) == QueuedUses(m, id) { StepQueues(g, m, step, id); }
    forall i | 0 <= i < |t.calls| ensures NextCount(t.calls[i], m.queued) { StillNext(g, m, step, i); }
  }

  /** No step takes the `AddJob` calls beyond one. */
  lemma StepAdds(g: Setting, m: Machine, step: Step)
    requires g.adders <= 1 && Total(Adds, m.calls) <= 1 && Enabled(g, m, step)
    ensures Total(Adds, Apply(g, m, step).calls) <= 1
  {
    var t := Apply(g, m, step);
    match step {
      case Decide(job, nanos) => TotalMore(Adds, m.calls, MustSnapshot(EntryFor(m, job, nanos)));
      case StartFlush => TotalMore(Adds, m.calls, Flushing(None, m.pending));
      case Snapshot(i) => TotalReplaced(Adds, m.calls, i, t.calls[i]);
      case Outcome(i, sending) => OutcomeAdds(g, m, i, sending);
      case Append(i) => TotalWithout(Adds, m.calls, i);
    }
  }

  lemma OutcomeAdds(g: Setting, m: Machine, i: nat, sending: Sending)
    requires Enabled(g, m, Outcome(i, sending))
    ensures Total(Adds, Apply(g, m, Outcome(i, sending)).calls) <= Total(Adds, m.calls)
  {
    if sending.Created? && m.calls[i].waiting.Some? {
      TotalReplaced(Adds, m.calls, i, Adding(m.calls[i].waiting.value));
    } else {
      TotalWithout(Adds, m.calls, i);
    }
  }

  lemma {:induction false} NoAdders(calls: seq<Phase>)
    requires Total(Adds, calls) == 0
    ensures forall i :: 0 <= i < |calls| ==> Adds(calls[i]) == 0
    decreases |calls|
  {
    if calls != [] { NoAdders(calls[..|calls| - 1]); }
  }

  /** When a job is queued, no `AddJob` is left under way. */
  lemma NoOtherAdder(g: Setting, m: Machine, step: Step)
    requires g.adders <= 1 && Total(Adds, m.calls) <= 1 && Enabled(g, m, step) && Queues(g, m, step).Some?
    ensures forall i :: 0 <= i < |Apply(g, m, step).calls| ==> Adds(Apply(g, m, step).calls[i]) == 0
  {
    if step.Append? { TotalWithout(Adds, m.calls, step.i); }
    NoAdders(Apply(g, m, step).calls);
  }

  lemma StillNext(g: Setting, m: Machine, step: Step, i: nat)
    requires CountInv(m) && Enabled(g, m, step) && Queues(g, m, step).None? && i < |Apply(g, m, step).calls|
    requires step.Decide? ==> HasCount(EntryFor(m, step.job, step.nanos), m.queued)
    ensures NextCount(Apply(g, m, step).calls[i], m.queued)
  {
    if i < |m.calls| { assert NextCount(m.calls[i], m.queued); }
    if step.Outcome? {
      if i + 1 < |m.calls| { assert NextCount(m.calls[i + 1], m.queued); }
      OutcomeNext(g, m, step.i, step.sending, i);
    }
  }

  lemma OutcomeNext(g: Setting, m: Machine, n: nat, sending: Sending, i: nat)
    requires Enabled(g, m, Outcome(n, sending)) && i < |Apply(g, m, Outcome(n, sending)).calls|
    requires i < |m.calls| && NextCount(m.calls[i], m.queued)
    requires i + 1 < |m.calls| ==> NextCount(m.calls[i + 1], m.queued)
    ensures NextCount(Apply(g, m, Outcome(n, sending)).calls[i], m.queued)
  {
  }

  lemma QueuedOnce(g: Setting, m: Machine, step: Step)
    requires CountInv(m) && Enabled(g, m, step) && Queues(g, m, step).Some? &&
             HasCount(Queues(g, m, step).value, m.queued)
    ensures var t := Apply(g, m, step);
            && DistinctIDs(t) && t.queued == m.queued + 1
            && forall nanos: nat, count: nat :: count >= t.queued ==> QueuedUses(t, CustomID(nanos, count)) == 0
  {
    var t, e := Apply(g, m, step), Queues(g, m, step).value;
    var made: nat :| e.customID == CustomID(made, m.queued);
    forall id ensures QueuedUses(t, id) <= 1 {
      StepQueues(g, m, step, id);
      assert QueuedUses(m, CustomID(made, m.queued)) == 0;
    }
    forall nanos: nat, count: nat | count >= t.queued ensures QueuedUses(t, CustomID(nanos, count)) == 0 {
      StepQueues(g, m, step, CustomID(nanos, count));
      if CustomID(nanos, count) == e.customID { CustomIDInjective(nanos, count, made, m.queued); }
    }
  }

  lemma {:induction false} RunCounts(g: Setting, m: Machine, steps: seq<Step>, t: Machine)
    requires g.adders <= 1 && CountInv(m) && Leads(g, m, steps, t)
    ensures CountInv(t)
    decreases |steps|
  {
    if steps != [] {
      StepCounts(g, m, steps[0]);
      RunCounts(g, Apply(g, m, steps[0]), steps[1..], t);
    }
  }

  /** Two calls get as far as appending the same entry. */
  lemma BothAdding(g: Setting, e: Entry) returns (t: Machine)
    requires g.adders >= 2 && !g.ticks && e == EntryFor(Idle, Large(g.limits), 0)
    ensures Leads(g, Idle, [Decide(Large(g.limits), 0), Decide(Large(g.limits), 0)] + [Snapshot(0), Snapshot(1)], t)
    ensures t.calls == [Adding(e), Adding(e)] && t.pending == t.dropped == [] && t.batched == []
  {
    var decide := Decide(Large(g.limits), 0);
    var a := Apply(g, Idle, decide);
    TotalMore(Adds, [], MustSnapshot(e));
    assert a.calls == [] + [MustSnapshot(e)];
    var b := Apply(g, a, decide);
    assert b.calls == [MustSnapshot(e), MustSnapshot(e)];
    OneStep(g, a, decide);
    Chain(g, Idle, decide, [decide], b);
    t := BothSnapshot(g, b, e);
    LeadsOn(g, Idle, [decide] + [decide], b, [Snapshot(0), Snapshot(1)], t);
    assert [decide] + [decide] == [decide, decide];
  }

  lemma BothSnapshot(g: Setting, m: Machine, e: Entry) returns (t: Machine)
    requires m.calls == [MustSnapshot(e), MustSnapshot(e)] && m.pending == m.dropped == [] && m.batched == []
    ensures Leads(g, m, [Snapshot(0), Snapshot(1)], t)
    ensures t.calls == [Adding(e), Adding(e)] && t.pending == t.dropped == [] && t.batched == []
  {
    var c := Apply(g, m, Snapshot(0));
    t := Apply(g, c, Snapshot(1));
    OneStep(g, c, Snapshot(1));
    Chain(g, m, Snapshot(0), [Snapshot(1)], t);
  }

  lemma BothAppend(g: Setting, m: Machine, e: Entry) returns (t: Machine)
    requires m.calls == [Adding(e), Adding(e)] && m.pending == m.dropped == [] && m.batched == []
    ensures Leads(g, m, [Append(0), Append(0)], t)
    ensures t.calls == [] && t.pending == [e, e] && t.batched == [] && t.dropped == []
  {
    var u := Apply(g, m, Append(0));
    assert u.calls == [Adding(e)];
    t := Apply(g, u, Append(0));
    OneStep(g, u, Append(0));
    Chain(g, m, Append(0), [Append(0)], t);
  }

  /** Two jobs that are added in the same nanosecond while both flush get the same identifier. */
  lemma SameIdentifier(g: Setting) returns (steps: seq<Step>, t: Machine)
    requires g.adders >= 2 && !g.ticks
    ensures Leads(g, Idle, steps, t) && QueuedUses(t, CustomID(0, 0)) == 2
  {
    var decide, e := Decide(Large(g.limits), 0), EntryFor(Idle, Large(g.limits), 0);
    var m := BothAdding(g, e);
    t := BothAppend(g, m, e);
    steps := [decide, decide] + [Snapshot(0), Snapshot(1)];
    LeadsOn(g, Idle, steps, m, [Append(0), Append(0)], t);
    steps := steps + [Append(0), Append(0)];
    TwoUses(e);
  }

  lemma TwoUses(e: Entry)
    ensures Uses([e, e], e.customID) == 2
  {
    OneUse([], e, e.customID);
    OneUse([e], e, e.customID);
    assert [] + [e] == [e] && [e] + [e] == [e, e];
  }

  /**
   Queued jobs have different identifiers in every run if and only if no two `AddJob` calls overlap
   or the clock moves on at each.
   */
  lemma AlwaysDistinctIff(g: Setting)
    ensures AlwaysDistinct(g) <==> g.adders <= 1 || g.ticks
  {
    if g.adders <= 1 || g.ticks {
      forall steps, t | Leads(g, Idle, steps, t) ensures DistinctIDs(t) {
        if g.ticks { TicksDistinct(g, steps, t); } else { RunCounts(g, Idle, steps, t); }
      }
    } else {
      var steps, t := SameIdentifier(g);
    }
  }

  /**
   As the program is wired: one goroutine adds jobs and one flushes periodically. Identifiers
   are distinct, and the request limit holds while conversions succeed and can be exceeded
   without bound once they fail.
   */
  lemma OneAdderOneFlusher(limits: Limits, ticks: bool)
    requires limits.maxRequests >= 1
    ensures AlwaysDistinct(Setting(limits, 1, 1, ticks, true)) && AlwaysDistinct(Setting(limits, 1, 1, ticks, false))
    ensures LimitHolds(Setting(limits, 1, 1, ticks, true)) && !LimitHolds(Setting(limits, 1, 1, ticks, false))
  {
    AlwaysDistinctIff(Setting(limits, 1, 1, ticks, true));
    AlwaysDistinctIff(Setting(limits, 1, 1, ticks, false));
    LimitHoldsIff(Setting(limits, 1, 1, ticks, true));
    LimitHoldsAloneIff(Setting(limits, 1, 1, ticks, false));
  }

  lemma TicksDistinct(g: Setting, steps: seq<Step>, t: Machine)
    requires g.ticks && Leads(g, Idle, steps, t)
    ensures DistinctIDs(t)
  {
    RunTicks(g, Idle, steps, t);
    forall id ensures QueuedUses(t, id) <= 1 { assert AllUses(t, id) <= 1; }
  }

  // ---------- Complete calls, one after another ----------

  /** The machine between two calls, as the state of the manager. */
  ghost predicate Same(m: Machine, s: State) {
    && m.calls == [] && m.pending == s.pending && m.memory == s.memory && m.queued == s.queued
    && m.batched == s.batched && m.dropped == s.dropped
  }

  lemma FlushAlone(g: Setting, m: Machine, s: State, sending: Sending) returns (steps: seq<Step>, t: Machine)
    requires Same(m, s) && g.flushes >= 1 && !g.reliable
    ensures Leads(g, m, steps, t) && Same(t, Flushed(s, sending))
  {
    if m.pending == [] {
      steps, t := [], m;
    } else {
      var u := Apply(g, m, StartFlush);
      t := Apply(g, u, Outcome(0, sending));
      OneStep(g, u, Outcome(0, sending));
      Chain(g, m, StartFlush, [Outcome(0, sending)], t);
      steps := [StartFlush] + [Outcome(0, sending)];
      assert [] + s.pending == s.pending;
    }
  }

  lemma AddAlone(g: Setting, m: Machine, s: State, job: Job, nanos: nat, sending: Sending)
    returns (steps: seq<Step>, t: Machine)
    requires Same(m, s) && g.adders >= 1 && !g.reliable && !g.ticks && job.inputs.Some?
    ensures Leads(g, m, steps, t) && Same(t, Added(s, g.limits, job, nanos, sending))
  {
    var decide, e := Decide(job, nanos), EntryFor(m, job, nanos);
    var u := Apply(g, m, decide);
    if !Full(m, g.limits, e.estimatedMem) {
      OneStep(g, m, decide);
      steps, t := [decide], u;
    } else {
      assert u.calls == [MustSnapshot(e)];
      var rest: seq<Step>;
      rest, t := FlushThenAdd(g, u, s, e, sending);
      Chain(g, m, decide, rest, t);
      steps := [decide] + rest;
    }
  }

  lemma FlushThenAdd(g: Setting, m: Machine, s: State, e: Entry, sending: Sending)
    returns (steps: seq<Step>, t: Machine)
    requires Same(m.(calls := []), s) && m.calls == [MustSnapshot(e)] && !g.reliable
    ensures Leads(g, m, steps, t)
    ensures Same(t, if FlushSucceeds(s, sending) then Appended(Flushed(s, sending), e) else Flushed(s, sending))
  {
    var u := Apply(g, m, Snapshot(0));
    if m.pending == [] {
      assert u.calls == [Adding(e)];
      t := Apply(g, u, Append(0));
      OneStep(g, u, Append(0));
      Chain(g, m, Snapshot(0), [Append(0)], t);
      steps := [Snapshot(0)] + [Append(0)];
    } else {
      assert u.calls == [Flushing(Some(e), m.pending)];
      var outcome := Outcome(0, sending);
      var v := Apply(g, u, outcome);
      assert [] + s.pending == s.pending;
      if sending.Created? {
        assert v.calls == [Adding(e)];
        t := Apply(g, v, Append(0));
        OneStep(g, v, Append(0));
        Chain(g, u, outcome, [Append(0)], t);
        Chain(g, m, Snapshot(0), [outcome, Append(0)], t);
        steps := [Snapshot(0)] + [outcome, Append(0)];
      } else {
        t := v;
        OneStep(g, u, outcome);
        Chain(g, m, Snapshot(0), [outcome], t);
        steps := [Snapshot(0)] + [outcome];
      }
    }
  }

  /** What complete calls do one after another, the machine does with one call at a time. */
  lemma {:induction false} SequentialIsRun(g: Setting, calls: seq<Call>) returns (steps: seq<Step>, t: Machine)
    requires g.adders >= 1 && g.flushes >= 1 && !g.reliable && !g.ticks
    ensures Leads(g, Idle, steps, t) && Same(t, After(g.limits, calls))
    decreases |calls|
  {
    if calls == [] {
      steps, t := [], Idle;
    } else {
      var n := |calls| - 1;
      var before, m := SequentialIsRun(g, calls[..n]);
      var more: seq<Step>;
      match calls[n] {
        case Flush(sending) => more, t := FlushAlone(g, m, After(g.limits, calls[..n]), sending);
        case Add(job, nanos, sending) =>
          if job.inputs.None? {
            more, t := [], m;
          } else {
            more, t := AddAlone(g, m, After(g.limits, calls[..n]), job, nanos, sending);
          }
      }
      LeadsOn(g, Idle, before, m, more, t);
      steps := before + more;
    }
  }
}
