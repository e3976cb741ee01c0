/**
 When a request pool loses slots for good. A submission that is cancelled after the global
 pool has seen its context alive once, and before its closure starts, is dropped, and no one
 gives its slot back. What is lost is exactly what is at risk: from any state that can be
 reached, an idle pool ends with one slot held for each submission that was dropped or is at
 risk, whatever the workers do. A pool that is idle has all its slots free, in every run, if
 and only if none of its submissions is ever at risk. A submission that is cancelled earlier
 is refused and gives its slot back.
 */
module PoolLeaks {
  import opened WorkerPool

  /** Past the first check, and not started. */
  predicate Unstarted(phase: Phase) {
    phase.Checked? || phase.Queued?
  }

  /** A submission of the pool is cancelled between its check and its start. */
  ghost predicate AtRisk(s: State, p: Pool) {
    (exists id :: SubmissionAtRisk(s, p, id)) || exists w :: WorkerAtRisk(s, p, w)
  }

  predicate SubmissionAtRisk(s: State, p: Pool, id: Id) {
    id in s.submissions && s.submissions[id].pool == p && Unstarted(s.submissions[id].phase) && id in s.cancelled
  }

  predicate WorkerAtRisk(s: State, p: Pool, w: Worker) {
    w in s.busy && s.busy[w].pool == p && s.busy[w].stage.Popped? && s.busy[w].id in s.cancelled
  }

  function RiskySubmissions(s: State, p: Pool): set<Id> {
    set id | id in s.submissions && SubmissionAtRisk(s, p, id)
  }

  function RiskyWorkers(s: State, p: Pool): set<Worker> {
    set w | w in s.busy && WorkerAtRisk(s, p, w)
  }

  /** How many submissions of the pool have been dropped or are at risk. */
  function Doomed(s: State, p: Pool): int {
    Get(s.dropped, p) + |RiskySubmissions(s, p)| + |RiskyWorkers(s, p)|
  }

  lemma DoomedIff(s: State, p: Pool)
    ensures Doomed(s, p) >= Get(s.dropped, p)
    ensures Doomed(s, p) == Get(s.dropped, p) <==> !AtRisk(s, p)
  {
    if id :| SubmissionAtRisk(s, p, id) { assert id in RiskySubmissions(s, p); }
    if w :| WorkerAtRisk(s, p, w) { assert w in RiskyWorkers(s, p); }
    if !AtRisk(s, p) { assert RiskySubmissions(s, p) == {} && RiskyWorkers(s, p) == {}; }
  }

  // ---------- Continuing a run ----------

  /** What holds in every state of a run besides the counters. */
  ghost predicate Sound(c: Config, s: State) {
    && Inv(c, s)
    && (forall id :: id in s.submissions && s.submissions[id].phase.Queued? ==>
         s.submissions[id].phase.shard < Shard(c.maxWorkers).numShards)
    && (forall id :: id in s.cancelled ==> id < s.next)
    && forall w :: w in s.busy ==> s.busy[w].id < s.next && s.busy[w].id !in s.submissions
  }

  lemma StepSound(c: Config, s: State, step: Step)
    requires Sound(c, s) && Enabled(c, s, step)
    ensures Sound(c, Apply(c, s, step))
  {
    StepInv(c, s, step);
  }

  /** The steps can be taken from `s` one after another and end in `t`. */
  ghost predicate Leads(c: Config, s: State, steps: seq<Step>, t: State)
    decreases |steps|
  {
    if steps == [] then t == s
    else Enabled(c, s, steps[0]) && Leads(c, Apply(c, s, steps[0]), steps[1..], t)
  }

  ghost predicate Quiet(steps: seq<Step>) {
    forall step :: step in steps ==> !step.Cancel?
  }

  lemma OneStep(c: Config, s: State, step: Step)
    requires Enabled(c, s, step)
    ensures Leads(c, s, [step], Apply(c, s, step))
  {
    assert [step][1..] == [];
  }

  lemma Chain(c: Config, s: State, step: Step, rest: seq<Step>, t: State)
    requires Enabled(c, s, step) && Leads(c, Apply(c, s, step), rest, t)
    ensures Leads(c, s, [step] + rest, t)
  {
    assert ([step] + rest)[1..] == rest;
  }

  lemma {:induction false} LeadsOn(c: Config, s: State, a: seq<Step>, t: State, b: seq<Step>, u: State)
    requires Leads(c, s, a, t) && Leads(c, t, b, u)
    ensures Leads(c, s, a + b, u)
    decreases |a|
  {
    if a == [] {
      assert a + b == b;
    } else {
      assert (a + b)[1..] == a[1..] + b;
      LeadsOn(c, Apply(c, s, a[0]), a[1..], t, b, u);
    }
  }

  lemma {:induction false} LeadsSound(c: Config, s: State, steps: seq<Step>, t: State)
    requires Sound(c, s) && Leads(c, s, steps, t)
    ensures Sound(c, t)
    decreases |steps|
  {
    if steps != [] {
      StepSound(c, s, steps[0]);
      LeadsSound(c, Apply(c, s, steps[0]), steps[1..], t);
    }
  }

  // ---------- Every run can be brought to an end ----------

  function StageRank(stage: Stage): nat {
    match stage
    case Popped => 3
    case Running => 2
    case Uncounted => 1
    case Released => 0
  }

  /** The next step of a busy worker: it skips a closure that was cancelled before it looked. */
  lemma Advance(c: Config, s: State, w: Worker) returns (step: Step, next: State)
    requires w in s.busy
    ensures Enabled(c, s, step) && next == Apply(c, s, step) && !step.Cancel?
    ensures next.submissions == s.submissions && next.cancelled == s.cancelled && next.busy - {w} == s.busy - {w}
    ensures if w in next.busy then StageRank(next.busy[w].stage) < StageRank(s.busy[w].stage)
            else next.busy == s.busy - {w}
  {
    match s.busy[w].stage {
      case Popped =>
        if s.busy[w].id in s.cancelled {
          step, next := Skip(w), Apply(c, s, Skip(w));
          Removed(s.busy, w);
        } else {
          step, next := Begin(w), Apply(c, s, Begin(w));
          Replaced(s.busy, w, next.busy[w]);
        }
      case Running =>
        step, next := UncountActive(w), Apply(c, s, UncountActive(w));
        Replaced(s.busy, w, next.busy[w]);
      case Uncounted =>
        step, next := Release(w), Apply(c, s, Release(w));
        Replaced(s.busy, w, next.busy[w]);
      case Released =>
        step, next := End(w), Apply(c, s, End(w));
        Removed(s.busy, w);
    }
  }

  /** A busy worker gets to the end of its closure. */
  lemma {:induction false} RunToEnd(c: Config, s: State, w: Worker) returns (steps: seq<Step>, t: State)
    requires w in s.busy
    ensures Leads(c, s, steps, t) && Quiet(steps)
    ensures t.submissions == s.submissions && t.busy == s.busy - {w} && t.cancelled == s.cancelled
    decreases StageRank(s.busy[w].stage)
  {
    var step, next := Advance(c, s, w);
    var rest: seq<Step> := [];
    t := next;
    if w in next.busy { rest, t := RunToEnd(c, next, w); }
    Chain(c, s, step, rest, t);
    steps := [step] + rest;
  }

  lemma MakeRoom(c: Config, s: State, w: Worker) returns (steps: seq<Step>, t: State)
    ensures Leads(c, s, steps, t) && Quiet(steps)
    ensures t.submissions == s.submissions && t.busy == s.busy - {w} && t.cancelled == s.cancelled
  {
    if w in s.busy {
      steps, t := RunToEnd(c, s, w);
    } else {
      steps, t := [], s;
      assert s.busy - {w} == s.busy;
    }
  }

  /** A queued submission is taken by the first worker of its shard, once that is free. */
  lemma Take(c: Config, s: State, id: Id) returns (steps: seq<Step>, t: State)
    requires c.maxWorkers > 0 && id in s.submissions && s.submissions[id].phase.Queued?
    requires s.submissions[id].phase.shard < Shard(c.maxWorkers).numShards
    ensures Leads(c, s, steps, t) && Quiet(steps)
    ensures t.submissions == s.submissions - {id}
  {
    var w := Worker(s.submissions[id].phase.shard, 0);
    ShardingFits(c.maxWorkers);
    var room, free := MakeRoom(c, s, w);
    var pop := Pop(w, id);
    t := Apply(c, free, pop);
    OneStep(c, free, pop);
    LeadsOn(c, s, room, free, [pop], t);
    steps := room + [pop];
  }

  function PhaseRank(phase: Phase): nat {
    match phase
    case Acquired => 3
    case Counted => 2
    case Checked => 1
    case Queued(_) => 0
    case Refused => 1
    case RefusedUncounted => 0
  }

  /** The next step of a submission that is not queued, towards the queue or out of the pool. */
  lemma Proceed(c: Config, s: State, id: Id) returns (step: Step, next: State)
    requires c.maxWorkers > 0 && id in s.submissions && !s.submissions[id].phase.Queued?
    ensures Enabled(c, s, step) && next == Apply(c, s, step) && !step.Cancel?
    ensures next.submissions - {id} == s.submissions - {id}
    ensures if id in next.submissions then PhaseRank(next.submissions[id].phase) < PhaseRank(s.submissions[id].phase)
            else next.submissions == s.submissions - {id}
  {
    ShardingFits(c.maxWorkers);
    step := NextOf(s, id);
    next := Apply(c, s, step);
    SubmissionsAfter(c, s, step, id);
    RankFalls(c, s, id);
  }

  function NextOf(s: State, id: Id): Step
    requires id in s.submissions && !s.submissions[id].phase.Queued?
  {
    match s.submissions[id].phase
    case Acquired => CountActive(id)
    case Counted => if id in s.cancelled then Refuse(id) else Check(id)
    case Checked => if id in s.cancelled then DropAtSubmit(id) else Enqueue(id, 0)
    case Refused => UncountRefused(id)
    case RefusedUncounted => ReleaseRefused(id)
  }

  lemma RankFalls(c: Config, s: State, id: Id)
    requires id in s.submissions && !s.submissions[id].phase.Queued? && Enabled(c, s, NextOf(s, id))
    ensures var t := Apply(c, s, NextOf(s, id));
            id in t.submissions ==> PhaseRank(t.submissions[id].phase) < PhaseRank(s.submissions[id].phase)
  {
    match s.submissions[id].phase {
      case Acquired => assert Apply(c, s, CountActive(id)).submissions == To(s, id, Counted);
      case Counted =>
        if id in s.cancelled {
          assert Apply(c, s, Refuse(id)).submissions == To(s, id, Refused);
        } else {
          assert Apply(c, s, Check(id)).submissions == To(s, id, Checked);
        }
      case Checked =>
        if id in s.cancelled {
          assert Apply(c, s, DropAtSubmit(id)).submissions == s.submissions - {id};
        } else {
          assert Apply(c, s, Enqueue(id, 0)).submissions == To(s, id, Queued(0));
        }
      case Refused => assert Apply(c, s, UncountRefused(id)).submissions == To(s, id, RefusedUncounted);
      case RefusedUncounted => assert Apply(c, s, ReleaseRefused(id)).submissions == s.submissions - {id};
    }
  }

  /** A step of one submission moves it on or takes it out. */
  lemma SubmissionsAfter(c: Config, s: State, step: Step, id: Id)
    requires Enabled(c, s, step) && id in s.submissions
    requires step.CountActive? || step.Check? || step.Refuse? || step.DropAtSubmit? || step.Enqueue? ||
             step.UncountRefused?
             || step.ReleaseRefused?
    requires step.id == id
    ensures var t := Apply(c, s, step);
            && t.submissions - {id} == s.submissions - {id}
            && (id !in t.submissions ==> t.submissions == s.submissions - {id})
  {
    var t := Apply(c, s, step);
    if id in t.submissions {
      Replaced(s.submissions, id, t.submissions[id]);
    } else {
      Removed(s.submissions, id);
    }
  }

  lemma Replaced<K, V>(m: map<K, V>, k: K, v: V)
    ensures m[k := v] - {k} == m - {k}
  {
  }

  lemma Removed<K, V>(m: map<K, V>, k: K)
    ensures m - {k} - {k} == m - {k}
  {
  }

  /** A submission leaves the request pool. */
  lemma {:induction false} Hand(c: Config, s: State, id: Id) returns (steps: seq<Step>, t: State)
    requires c.maxWorkers > 0 && Sound(c, s) && id in s.submissions
    ensures Leads(c, s, steps, t) && Quiet(steps)
    ensures t.submissions == s.submissions - {id}
    decreases PhaseRank(s.submissions[id].phase)
  {
    if s.submissions[id].phase.Queued? {
      steps, t := Take(c, s, id);
    } else {
      var step, next := Proceed(c, s, id);
      var rest: seq<Step> := [];
      t := next;
      if id in next.submissions {
        StepSound(c, s, step);
        rest, t := Hand(c, next, id);
      }
      Chain(c, s, step, rest, t);
      steps := [step] + rest;
    }
  }

  /** Everything under way can come to its end without another cancellation. */
  lemma {:induction false} Finish(c: Config, s: State) returns (steps: seq<Step>, t: State)
    requires c.maxWorkers > 0 && Sound(c, s)
    ensures Leads(c, s, steps, t) && Quiet(steps)
    ensures t.submissions == map[] && t.busy == map[]
    decreases |s.submissions|, |s.busy|
  {
    if s.submissions == map[] && s.busy == map[] {
      steps, t := [], s;
    } else {
      var first, next;
      if s.submissions != map[] {
        var id :| id in s.submissions;
        first, next := Hand(c, s, id);
        Smaller(s.submissions, id);
      } else {
        var w :| w in s.busy;
        first, next := RunToEnd(c, s, w);
        Smaller(s.busy, w);
      }
      LeadsSound(c, s, first, next);
      var rest: seq<Step>;
      rest, t := Finish(c, next);
      LeadsOn(c, s, first, next, rest, t);
      steps := first + rest;
    }
  }

  /**
   Everything under way can come to its end, and then every pool has lost one slot for each
   submission that had been dropped or was at risk: without another loss if and only if
   nothing was at risk.
   */
  lemma Drain(c: Config, s: State) returns (steps: seq<Step>, t: State)
    requires c.maxWorkers > 0 && Sound(c, s)
    ensures Leads(c, s, steps, t) && Quiet(steps)
    ensures t.submissions == map[] && t.busy == map[]
    ensures forall p :: Get(t.slots, p) == Get(t.dropped, p) == Doomed(s, p)
    ensures forall p :: Get(t.dropped, p) == Get(s.dropped, p) <==> !AtRisk(s, p)
  {
    steps, t := Finish(c, s);
    forall p ensures Get(t.slots, p) == Get(t.dropped, p) == Doomed(s, p)
      ensures Get(t.dropped, p) == Get(s.dropped, p) <==> !AtRisk(s, p)
    {
      LossIsExact(c, s, steps, t, p);
      DoomedIff(s, p);
    }
  }

  lemma Smaller<K, V>(m: map<K, V>, k: K)
    requires k in m
    ensures |m - {k}| < |m|
  {
    assert (m - {k}).Keys == m.Keys - {k};
    assert |m.Keys - {k}| < |m.Keys|;
  }

  // ---------- What is lost ----------

  lemma SameRisk(s: State, t: State, p: Pool)
    requires t.cancelled == s.cancelled && t.busy == s.busy && Get(t.dropped, p) == Get(s.dropped, p)
    requires forall id :: SubmissionAtRisk(t, p, id) <==> SubmissionAtRisk(s, p, id)
    ensures Doomed(t, p) == Doomed(s, p)
  {
    assert RiskySubmissions(t, p) == RiskySubmissions(s, p);
    assert RiskyWorkers(t, p) == RiskyWorkers(s, p);
  }

  lemma SameWorkerRisk(s: State, t: State, p: Pool)
    requires t.cancelled == s.cancelled && t.submissions == s.submissions && Get(t.dropped, p) == Get(s.dropped, p)
    requires forall w :: WorkerAtRisk(t, p, w) <==> WorkerAtRisk(s, p, w)
    ensures Doomed(t, p) == Doomed(s, p)
  {
    assert RiskySubmissions(t, p) == RiskySubmissions(s, p);
    assert RiskyWorkers(t, p) == RiskyWorkers(s, p);
  }

  lemma DropDooms(c: Config, s: State, id: Id, p: Pool)
    requires Enabled(c, s, DropAtSubmit(id))
    ensures Doomed(Apply(c, s, DropAtSubmit(id)), p) == Doomed(s, p)
  {
    var t := Apply(c, s, DropAtSubmit(id));
    SizeChange(RiskySubmissions(s, p), RiskySubmissions(t, p), id);
    assert RiskyWorkers(t, p) == RiskyWorkers(s, p);
  }

  lemma SkipDooms(c: Config, s: State, w: Worker, p: Pool)
    requires Enabled(c, s, Skip(w))
    ensures Doomed(Apply(c, s, Skip(w)), p) == Doomed(s, p)
  {
    var t := Apply(c, s, Skip(w));
    SizeChange(RiskyWorkers(s, p), RiskyWorkers(t, p), w);
    assert RiskySubmissions(t, p) == RiskySubmissions(s, p);
  }

  lemma PopDooms(c: Config, s: State, w: Worker, id: Id, p: Pool)
    requires Enabled(c, s, Pop(w, id))
    ensures Doomed(Apply(c, s, Pop(w, id)), p) == Doomed(s, p)
  {
    var t := Apply(c, s, Pop(w, id));
    SizeChange(RiskySubmissions(s, p), RiskySubmissions(t, p), id);
    SizeChange(RiskyWorkers(s, p), RiskyWorkers(t, p), w);
  }

  /** Only a cancellation adds to what is lost or at risk; what is dropped was at risk. */
  lemma StepDooms(c: Config, s: State, step: Step, p: Pool)
    requires Sound(c, s) && Enabled(c, s, step) && !step.Cancel?
    ensures Doomed(Apply(c, s, step), p) == Doomed(s, p)
  {
    match step {
      case DropAtSubmit(id) => DropDooms(c, s, id, p);
      case Skip(w) => SkipDooms(c, s, w, p);
      case Pop(w, id) => PopDooms(c, s, w, id, p);
      case Begin(_) => SameWorkerRisk(s, Apply(c, s, step), p);
      case UncountActive(_) => SameWorkerRisk(s, Apply(c, s, step), p);
      case Release(_) => SameWorkerRisk(s, Apply(c, s, step), p);
      case End(_) => SameWorkerRisk(s, Apply(c, s, step), p);
      case Cancel(_) =>
      case _ => SubmissionDooms(c, s, step, p);
    }
  }

  lemma SubmissionDooms(c: Config, s: State, step: Step, p: Pool)
    requires Sound(c, s) && Enabled(c, s, step)
    requires step.Acquire? || step.CountActive? || step.Check? || step.Refuse? || step.UncountRefused? ||
             step.ReleaseRefused?
             || step.Enqueue?
    ensures Doomed(Apply(c, s, step), p) == Doomed(s, p)
  {
    SameRisk(s, Apply(c, s, step), p);
  }

  lemma {:induction false} QuietDooms(c: Config, s: State, steps: seq<Step>, t: State, p: Pool)
    requires Sound(c, s) && Leads(c, s, steps, t) && Quiet(steps)
    ensures Doomed(t, p) == Doomed(s, p)
    decreases |steps|
  {
    if steps != [] {
      assert steps[0] in steps;
      StepDooms(c, s, steps[0], p);
      StepSound(c, s, steps[0]);
      QuietDooms(c, Apply(c, s, steps[0]), steps[1..], t, p);
    }
  }

  lemma IdleIsNotAtRisk(s: State, p: Pool)
    requires Idle(s, p)
    ensures Doomed(s, p) == Get(s.dropped, p)
  {
    assert RiskySubmissions(s, p) == {} && RiskyWorkers(s, p) == {};
  }

  /**
   However a run goes on without further cancellations: when the pool is idle, the slots it
   still holds are exactly those of the submissions that had been dropped or were at risk.
   */
  lemma LossIsExact(c: Config, s: State, steps: seq<Step>, t: State, p: Pool)
    requires Sound(c, s) && Leads(c, s, steps, t) && Quiet(steps) && Idle(t, p)
    ensures Get(t.slots, p) == Get(t.dropped, p) == Doomed(s, p)
  {
    QuietDooms(c, s, steps, t, p);
    LeadsSound(c, s, steps, t);
    IdleSlots(c, t, p);
    IdleIsNotAtRisk(t, p);
  }

  /** The state ends a continuation in which the pool is idle but holds a slot. */
  ghost predicate CanLeak(c: Config, s: State, p: Pool) {
    exists steps, t :: Leads(c, s, steps, t) && Quiet(steps) && Idle(t, p) && Get(t.slots, p) > 0
  }

  /**
   Without further cancellations the pool can come to be idle with a slot held, if and only
   if it has already lost one or one of its submissions is at risk.
   */
  lemma CanLeakIff(c: Config, s: State, p: Pool)
    requires c.maxWorkers > 0 && Sound(c, s)
    ensures CanLeak(c, s, p) <==> Get(s.dropped, p) > 0 || AtRisk(s, p)
  {
    assert PoolInv(c, s, p);
    DoomedIff(s, p);
    if CanLeak(c, s, p) {
      var steps, t :| Leads(c, s, steps, t) && Quiet(steps) && Idle(t, p) && Get(t.slots, p) > 0;
      LossIsExact(c, s, steps, t, p);
    } else {
      var steps, t := Drain(c, s);
      assert Get(t.slots, p) == Doomed(s, p);
    }
  }

  // ---------- Over all runs ----------

  /** What may be cancelled in which state. */
  type Environment = (State, Id) -> bool

  ghost predicate Within(env: Environment, states: seq<State>, steps: seq<Step>)
    requires |states| == |steps| + 1
  {
    forall n {:trigger steps[n]} :: 0 <= n < |steps| && steps[n].Cancel? ==> env(states[n], steps[n].id)
  }

  ghost predicate IsRunWithin(c: Config, env: Environment, states: seq<State>, steps: seq<Step>) {
    IsRun(c, states, steps) && Within(env, states, steps)
  }

  function Last(states: seq<State>): State
    requires states != []
  {
    states[|states| - 1]
  }

  lemma RunSound(c: Config, states: seq<State>, steps: seq<Step>)
    requires IsRun(c, states, steps)
    ensures Sound(c, Last(states))
    decreases |steps|
  {
    if steps == [] {
      RunInv(c, states, steps, 0);
    } else {
      var n := |steps| - 1;
      RunInit(c, states, steps);
      RunSound(c, states[..n + 1], steps[..n]);
      StepSound(c, states[n], steps[n]);
    }
  }

  lemma RunInit(c: Config, states: seq<State>, steps: seq<Step>)
    requires IsRun(c, states, steps) && steps != []
    ensures var n := |steps| - 1;
            && IsRun(c, states[..n + 1], steps[..n]) && Last(states[..n + 1]) == states[n]
            && Enabled(c, states[n], steps[n]) && Last(states) == Apply(c, states[n], steps[n])
  {
    var n := |steps| - 1;
    assert steps[n] == steps[n];
    forall k {:trigger steps[..n][k]} | 0 <= k < n
      ensures Enabled(c, states[..n + 1][k], steps[..n][k]) &&
              states[..n + 1][k + 1] == Apply(c, states[..n + 1][k], steps[..n][k])
    {
      assert steps[..n][k] == steps[k];
    }
  }

  lemma RunStep(c: Config, env: Environment, states: seq<State>, steps: seq<Step>, step: Step)
    requires IsRunWithin(c, env, states, steps) && Enabled(c, Last(states), step) && !step.Cancel?
    ensures IsRunWithin(c, env, states + [Apply(c, Last(states), step)], steps + [step])
  {
  }

  lemma {:induction false} RunOn(
      c: Config, env: Environment, states: seq<State>, steps: seq<Step>, more: seq<Step>, t: State)
    returns (all: seq<State>, taken: seq<Step>)
    requires IsRunWithin(c, env, states, steps) && Leads(c, Last(states), more, t) && Quiet(more)
    ensures IsRunWithin(c, env, all, taken) && Last(all) == t
    decreases |more|
  {
    if more == [] {
      all, taken := states, steps;
    } else {
      assert more[0] in more;
      RunStep(c, env, states, steps, more[0]);
      all, taken := RunOn(c, env, states + [Apply(c, Last(states), more[0])], steps + [more[0]], more[1..], t);
    }
  }

  ghost predicate NeverAtRisk(c: Config, env: Environment, p: Pool) {
    forall states, steps :: IsRunWithin(c, env, states, steps) ==> !AtRisk(Last(states), p)
  }

  ghost predicate IdleIsFree(c: Config, env: Environment, p: Pool) {
    forall states, steps :: IsRunWithin(c, env, states, steps) && Idle(Last(states), p) ==>
        Get(Last(states).slots, p) == 0
  }

  lemma {:induction false} NothingDropped(c: Config, env: Environment, states: seq<State>, steps: seq<Step>, p: Pool)
    requires NeverAtRisk(c, env, p) && IsRunWithin(c, env, states, steps)
    ensures Get(Last(states).dropped, p) == 0
    decreases |steps|
  {
    if steps != [] {
      var n := |steps| - 1;
      RunInit(c, states, steps);
      WithinInit(env, states, steps);
      NothingDropped(c, env, states[..n + 1], steps[..n], p);
      RunSound(c, states[..n + 1], steps[..n]);
      NotAtRisk(c, env, states[..n + 1], steps[..n], p);
      DroppedWasAtRisk(c, states[n], steps[n], p);
    }
  }

  lemma DroppedWasAtRisk(c: Config, s: State, step: Step, p: Pool)
    requires Enabled(c, s, step) && !AtRisk(s, p)
    ensures Get(Apply(c, s, step).dropped, p) == Get(s.dropped, p)
  {
    assert step.DropAtSubmit? ==> !SubmissionAtRisk(s, p, step.id);
    assert step.Skip? ==> !WorkerAtRisk(s, p, step.w);
  }

  lemma NotAtRisk(c: Config, env: Environment, states: seq<State>, steps: seq<Step>, p: Pool)
    requires NeverAtRisk(c, env, p) && IsRunWithin(c, env, states, steps)
    ensures !AtRisk(Last(states), p)
  {
  }

  lemma WithinInit(env: Environment, states: seq<State>, steps: seq<Step>)
    requires |states| == |steps| + 1 && steps != [] && Within(env, states, steps)
    ensures Within(env, states[..|steps|], steps[..|steps| - 1])
  {
    var n := |steps| - 1;
    forall k {:trigger steps[..n][k]} | 0 <= k < n && steps[..n][k].Cancel?
      ensures env(states[..n + 1][k], steps[..n][k].id)
    {
      assert steps[..n][k] == steps[k];
    }
  }

  /**
   Whatever may be cancelled and when: the pool has all its slots free whenever it is idle,
   in every run, if and only if no submission of its own is ever cancelled between the global
   pool's check of its context and its start.
   */
  lemma IdleIsFreeIff(c: Config, env: Environment, p: Pool)
    requires c.maxWorkers > 0
    ensures IdleIsFree(c, env, p) <==> NeverAtRisk(c, env, p)
  {
    if NeverAtRisk(c, env, p) {
      forall states, steps | IsRunWithin(c, env, states, steps) && Idle(Last(states), p)
        ensures Get(Last(states).slots, p) == 0
      {
        NothingDropped(c, env, states, steps, p);
        RunInv(c, states, steps, |states| - 1);
        IdleSlots(c, Last(states), p);
      }
    } else {
      var states, steps :| IsRunWithin(c, env, states, steps) && AtRisk(Last(states), p);
      RunSound(c, states, steps);
      CanLeakIff(c, Last(states), p);
      var more, t :| Leads(c, Last(states), more, t) && Quiet(more) && Idle(t, p) && Get(t.slots, p) > 0;
      var all, taken := RunOn(c, env, states, steps, more, t);
    }
  }

  // ---------- Two runs that lose a slot, and one that does not ----------

  lemma CheckedSubmission(c: Config, p: Pool) returns (t: State)
    requires c.Quota(p) > 0
    ensures Leads(c, InitialState, [Acquire(p), CountActive(0), Check(0)], t)
    ensures t == State(1, map[0 := Submission(p, Checked)], map[], {}, map[p := 1], map[p := 1], map[], map[])
  {
    var s1 := Apply(c, InitialState, Acquire(p));
    var s2 := Apply(c, s1, CountActive(0));
    t := Apply(c, s2, Check(0));
    Chain(c, s2, Check(0), [], t);
    Chain(c, s1, CountActive(0), [Check(0)], t);
    Chain(c, InitialState, Acquire(p), [CountActive(0), Check(0)], t);
  }

  /** The closure of a submission that was cancelled in the queue is skipped. */
  lemma SkippedClosureKeepsItsSlot(c: Config, p: Pool, w: Worker) returns (t: State)
    requires c.Quota(p) > 0 && c.IsWorker(w)
    ensures Leads(c, InitialState, [Acquire(p), CountActive(0), Check(0)] +
              [Enqueue(0, w.shard), Pop(w, 0), Cancel(0), Skip(w)], t)
    ensures Idle(t, p) && Get(t.slots, p) == 1
  {
    var s2 := CheckedSubmission(c, p);
    var s3 := Apply(c, s2, Enqueue(0, w.shard));
    var s4 := Apply(c, s3, Pop(w, 0));
    var s5 := Apply(c, s4, Cancel(0));
    t := Apply(c, s5, Skip(w));
    Chain(c, s5, Skip(w), [], t);
    Chain(c, s4, Cancel(0), [Skip(w)], t);
    Chain(c, s3, Pop(w, 0), [Cancel(0), Skip(w)], t);
    Chain(c, s2, Enqueue(0, w.shard), [Pop(w, 0), Cancel(0), Skip(w)], t);
    LeadsOn(c, InitialState, [Acquire(p), CountActive(0), Check(0)], s2,
        [Enqueue(0, w.shard), Pop(w, 0), Cancel(0), Skip(w)], t);
  }

  /** A submission that is cancelled between the two checks is never queued. */
  lemma UnqueuedSubmissionKeepsItsSlot(c: Config, p: Pool) returns (t: State)
    requires c.Quota(p) > 0
    ensures Leads(c, InitialState, [Acquire(p), CountActive(0), Check(0)] + [Cancel(0), DropAtSubmit(0)], t)
    ensures Idle(t, p) && Get(t.slots, p) == 1
  {
    var s2 := CheckedSubmission(c, p);
    var s3 := Apply(c, s2, Cancel(0));
    t := Apply(c, s3, DropAtSubmit(0));
    Chain(c, s3, DropAtSubmit(0), [], t);
    Chain(c, s2, Cancel(0), [DropAtSubmit(0)], t);
    LeadsOn(c, InitialState, [Acquire(p), CountActive(0), Check(0)], s2, [Cancel(0), DropAtSubmit(0)], t);
  }

  /** A submission that is cancelled before it is checked dooms nothing, and cannot be queued or dropped any more. */
  lemma EarlyCancellationIsHarmless(c: Config, s: State, id: Id, p: Pool)
    requires Sound(c, s) && id in s.submissions &&
             (s.submissions[id].phase.Acquired? || s.submissions[id].phase.Counted?)
    ensures Enabled(c, s, Cancel(id))
    ensures var t := Apply(c, s, Cancel(id)); Doomed(t, p) == Doomed(s, p) && !Enabled(c, t, Check(id))
  {
    var t := Apply(c, s, Cancel(id));
    assert RiskySubmissions(t, p) == RiskySubmissions(s, p);
    assert RiskyWorkers(t, p) == RiskyWorkers(s, p);
  }
}
