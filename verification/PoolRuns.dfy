/**
 Runs of the pool built step by step: a process without submissions is run through in place,
 a request is run through with every closure it submits, or up to the first closure that
 would submit again, and such a closure up to its own first submission.
 */
module PoolRuns {
  import opened JsonSchema
  import opened Sequences
  import opened Scheduler
  import opened PoolWaits
  import opened Submissions
  import WorkerPool

  // ---------- Single steps ----------

  ghost predicate Has(s: State, id: nat, todo: seq<Task>) {
    id < |s| && s[id].Runs() && s[id].todo == todo
  }

  function SetTodo(s: State, id: nat, todo: seq<Task>): State
    requires id < |s|
  {
    s[id := s[id].(todo := todo)]
  }

  lemma {:induction false} Replaced(s: State, id: nat, task: Task, rest: seq<Task>, tasks: seq<Task>)
    requires Has(s, id, [task] + rest)
    ensures HasNext(s, id) && s[id].todo[0] == task && Replace(s, id, tasks) == SetTodo(s, id, tasks + rest)
  {
    assert s[id].todo[1..] == rest;
  }

  lemma {:induction false} SetTwice(s: State, id: nat, a: seq<Task>, b: seq<Task>)
    requires id < |s|
    ensures SetTodo(SetTodo(s, id, a), id, b) == SetTodo(s, id, b)
  {
  }

  lemma {:induction false} SameBusy(s: State, id: nat, todo: seq<Task>)
    requires id < |s|
    ensures Busy(SetTodo(s, id, todo)) == Busy(s)
  {
  }

  lemma {:induction false} CallStep(c: Config, s: State, id: nat, d: Definition, rest: seq<Task>)
    requires Has(s, id, [Field(d)] + rest) && !d.dataType.Object? && !ObjectsInside(d)
    ensures Leads(c, s, SetTodo(s, id, rest))
  {
    Replaced(s, id, Field(d), rest, []);
    assert [] + rest == rest;
    OneStep(c, s, Call(id));
  }

  lemma OneStep(c: Config, s: State, step: Step)
    requires Enabled(c, s, step)
    ensures Leads(c, s, Apply(c, s, step))
  {
    Stays(c, s);
    ThenStep(c, s, s, step);
  }

  lemma {:induction false} ExpandStep(
      c: Config, s: State, id: nat, d: Definition, rest: seq<Task>, remaining: seq<string>)
    requires Has(s, id, [Field(d)] + rest) && d.dataType.Object? && IsRemaining(d, remaining)
    ensures Leads(c, s, SetTodo(s, id, TasksOf(d, remaining) + rest))
  {
    Replaced(s, id, Field(d), rest, TasksOf(d, remaining));
    OneStep(c, s, Expand(id, remaining));
  }

  lemma {:induction false} LookStep(c: Config, s: State, id: nat, ds: seq<Definition>, rest: seq<Task>)
    requires Has(s, id, [Rest(ds)] + rest)
    ensures Leads(c, s, SetTodo(s, id, (if Room(c, s) then [Wait(ds, {})] else Fields(ds)) + rest))
  {
    Replaced(s, id, Rest(ds), rest, if Room(c, s) then [Wait(ds, {})] else Fields(ds));
    OneStep(c, s, Look(id));
  }

  ghost predicate AllEnded(s: State, ids: set<nat>) {
    forall q :: q in ids ==> q < |s| && s[q].place.Ended?
  }

  lemma {:induction false} ResumeStep(c: Config, s: State, id: nat, ids: set<nat>, rest: seq<Task>)
    requires Has(s, id, [Wait([], ids)] + rest) && AllEnded(s, ids)
    ensures Leads(c, s, SetTodo(s, id, rest))
  {
    Replaced(s, id, Wait([], ids), rest, []);
    assert [] + rest == rest;
    OneStep(c, s, Resume(id));
  }

  /** An array without items ends at once. */
  lemma {:induction false} NoItems(c: Config, s: State, id: nat, d: Definition, rest: seq<Task>)
    requires Has(s, id, [Field(d)] + rest) && ObjectsInside(d)
    ensures Leads(c, s, SetTodo(s, id, rest))
  {
    var waiting := SetTodo(s, id, [Wait([], {})] + rest);
    Replaced(s, id, Field(d), rest, [Wait([], NewIds(|s|, 0))]);
    OneStep(c, s, GoItems(id, 0));
    assert Apply(c, s, GoItems(id, 0)) == waiting;
    ResumeStep(c, waiting, id, {}, rest);
    SetTwice(s, id, [Wait([], {})] + rest, rest);
    Then(c, s, waiting, SetTodo(s, id, rest));
  }

  lemma SomeOrder(keys: set<string>) returns (ordered: seq<string>)
    ensures Distinct(ordered) && Range(ordered) == keys
  {
    if keys == {} {
      ordered := [];
    } else {
      var k :| k in keys;
      ordered := SomeOrder(keys - {k});
      assert k !in Range(ordered);
      RangeAppend(ordered, k);
      ordered := ordered + [k];
    }
  }

  lemma {:induction false} SomeRemaining(d: Definition) returns (remaining: seq<string>)
    ensures IsRemaining(d, remaining)
  {
    remaining := SomeOrder(Entries(d.properties).Keys - Range(d.processingOrder));
  }

  // ---------- Running through without submissions ----------

  /** A bound on how many tasks a list of tasks may turn into. */
  function Weight(tasks: seq<Task>): nat {
    if tasks == [] then 0 else
      (if tasks[0].Rest? then |tasks[0].ds| + 2 else 1) + Weight(tasks[1..])
  }

  lemma {:induction false} WeightFields(ds: seq<Definition>, more: seq<Task>)
    ensures Weight(Fields(ds) + more) == |ds| + Weight(more)
    decreases |ds|
  {
    if ds == [] {
      assert Fields(ds) + more == more;
    } else {
      assert (Fields(ds) + more)[1..] == Fields(ds[1..]) + more;
      WeightFields(ds[1..], more);
    }
  }

  /** A field that submits nothing is processed in place and changes nothing else. */
  lemma {:induction false} QuietField(c: Config, s: State, id: nat, d: Definition, rest: seq<Task>, room: bool)
    requires Has(s, id, [Field(d)] + rest) && Plain(d) && !MaySubmit(d, room) && (Room(c, s) ==> room)
    ensures Leads(c, s, SetTodo(s, id, rest))
    decreases d, 1, 0
  {
    if d.dataType.Object? {
      var remaining := SomeRemaining(d);
      var tasks := TasksOf(d, remaining);
      ExpandStep(c, s, id, d, rest, remaining);
      TasksOver(d, remaining);
      SubmitsIff(d, remaining, room);
      var u := SetTodo(s, id, tasks + rest);
      SameBusy(s, id, tasks + rest);
      QuietBelow(c, u, id, d, tasks, rest, room);
      SetTwice(s, id, tasks + rest, rest);
      Then(c, s, u, SetTodo(s, id, rest));
    } else if ObjectsInside(d) {
      NoItems(c, s, id, d, rest);
    } else {
      CallStep(c, s, id, d, rest);
    }
  }

  /** The tasks after the first of them, or in place of it, are below `d` as well. */
  lemma {:induction false} NextOver(d: Definition, tasks: seq<Task>)
    requires Over(d, tasks) && tasks != []
    ensures Over(d, tasks[1..]) && Over(d, Fields(Inside(tasks[0])) + tasks[1..])
  {
    var ds := Inside(tasks[0]);
    forall task, e | task in Fields(ds) + tasks[1..] && e in Inside(task) ensures PlainBelow(d, e) {
      if task in Fields(ds) { assert e in Inside(tasks[0]); }
    }
  }

  lemma {:induction false} QuietNext(d: Definition, tasks: seq<Task>, room: bool)
    requires tasks != [] && !tasks[0].Wait? && forall task :: task in tasks ==> !TaskSubmits(task, room)
    ensures forall task :: task in tasks[1..] ==> !TaskSubmits(task, room)
    ensures tasks[0].Rest? ==> forall task :: task in Fields(tasks[0].ds) + tasks[1..] ==> !TaskSubmits(task, room)
  {
    if tasks[0].Rest? {
      assert tasks[0] in tasks && !TaskSubmits(tasks[0], room);
      forall task | task in Fields(tasks[0].ds) ensures !TaskSubmits(task, room) {
        assert task.Field? && task.d in tasks[0].ds;
      }
    }
  }

  /** A definition in the tasks that runs fields is that of a property. */
  lemma {:induction false} KeyOf(d: Definition, tasks: seq<Task>, e: Definition) returns (k: string)
    requires Over(d, tasks) && tasks != [] && e in Inside(tasks[0]) && (e.dataType.Object? || ObjectsInside(e))
    ensures d.properties.Properties? && k in d.properties.entries && d.properties.entries[k] == e && Plain(e)
  {
    assert PlainBelow(d, e);
    k :| k in d.properties.entries && d.properties.entries[k] == e;
  }

  /** The same for tasks below `d`. */
  lemma {:induction false} QuietBelow(
    c: Config, s: State, id: nat, d: Definition, tasks: seq<Task>, rest: seq<Task>, room: bool)
    requires Has(s, id, tasks + rest) && Over(d, tasks) && (Room(c, s) ==> room)
    requires forall task :: task in tasks ==> !TaskSubmits(task, room)
    ensures Leads(c, s, SetTodo(s, id, rest))
    decreases d, 0, Weight(tasks)
  {
    if tasks == [] {
      assert tasks + rest == rest && SetTodo(s, id, rest) == s;
      Stays(c, s);
    } else {
      var task, more := tasks[0], tasks[1..];
      assert task in tasks && !task.Wait?;
      assert tasks + rest == [task] + (more + rest);
      var next := if task.Field? then more else Fields(task.ds) + more;
      var u := SetTodo(s, id, next + rest);
      if task.Field? && (task.d.dataType.Object? || ObjectsInside(task.d)) {
        var k := KeyOf(d, tasks, task.d);
        QuietField(c, s, id, d.properties.entries[k], more + rest, room);
      } else if task.Field? {
        CallStep(c, s, id, task.d, more + rest);
      } else {
        LookStep(c, s, id, task.ds, more + rest);
        assert Fields(task.ds) + (more + rest) == next + rest;
        WeightFields(task.ds, more);
      }
      SameBusy(s, id, next + rest);
      NextOver(d, tasks);
      QuietNext(d, tasks, room);
      QuietBelow(c, u, id, d, next, rest, room);
      SetTwice(s, id, next + rest, rest);
      Then(c, s, u, SetTodo(s, id, rest));
    }
  }

  // ---------- Running a request through ----------

  /** Since `s` only the process `id` has moved on, and everything begun since has ended. */
  ghost predicate Ran(s: State, t: State, id: nat, todo: seq<Task>) {
    && id < |s| <= |t| && t[id] == s[id].(todo := todo)
    && (forall q :: 0 <= q < |s| && q != id ==> t[q] == s[q])
    && forall q :: |s| <= q < |t| ==> t[q].place.Ended?
  }

  lemma {:induction false} RanOn(s: State, t: State, u: State, id: nat, a: seq<Task>, b: seq<Task>)
    requires Ran(s, t, id, a) && Ran(t, u, id, b)
    ensures Ran(s, u, id, b)
  {
  }

  const FIRST := WorkerPool.Worker(0, 0)

  lemma FirstIsWorker(c: Config)
    requires c.maxWorkers > 0
    ensures c.IsWorker(FIRST)
  {
    WorkerPool.ShardingFits(c.maxWorkers);
  }

  /** A worker counts itself: what does not submit beside one busy worker does not submit on it. */
  lemma {:induction false} OnWorker(c: Config, s: State, id: nat, w: Worker)
    requires id < |s| && s[id].place == On(w)
    ensures Room(c, s) ==> c.RoomBeside(1)
  {
    assert id in Busy(s);
    SubsetSize({id}, Busy(s));
  }

  /** A queued closure that submits nothing is taken by a free worker and ends. */
  lemma {:induction false} RunClosure(c: Config, s: State, id: nat, w: Worker, e: Definition)
    requires id < |s| && s[id] == Process([Field(e)], Queued(w.shard)) && c.IsWorker(w) && Free(s, w)
    requires Plain(e) && !MaySubmit(e, c.RoomBeside(1))
    ensures Leads(c, s, s[id := Process([], Ended)])
  {
    var taken := Placed(s, id, On(w));
    OneStep(c, s, Pop(w, id));
    OnWorker(c, taken, id, w);
    assert [Field(e)] + [] == [Field(e)];
    QuietField(c, taken, id, e, [], c.RoomBeside(1));
    var done := SetTodo(taken, id, []);
    OneStep(c, done, End(id));
    assert Apply(c, done, End(id)) == s[id := Process([], Ended)];
    Then(c, s, taken, done);
    Then(c, s, done, s[id := Process([], Ended)]);
  }

  /** A field is submitted to the first shard. */
  lemma {:induction false} SubmitStep(c: Config, s: State, id: nat, ds: seq<Definition>, ids: set<nat>, rest: seq<Task>)
    requires c.maxWorkers > 0 && Has(s, id, [Wait(ds, ids)] + rest) && ds != []
    ensures Leads(c, s, SetTodo(s, id, [Wait(ds[1..], ids + {|s|})] + rest) + [Process([Field(ds[0])], Queued(0))])
  {
    FirstIsWorker(c);
    Replaced(s, id, Wait(ds, ids), rest, [Wait(ds[1..], ids + {|s|})]);
    OneStep(c, s, Submit(id, 0));
  }

  /** Submits the fields one by one, runs each to its end, and goes on. */
  lemma {:induction false} SubmitAndRun(
    c: Config, s: State, id: nat, ds: seq<Definition>, ids: set<nat>, rest: seq<Task>) returns (t: State)
    requires c.maxWorkers > 0 && Has(s, id, [Wait(ds, ids)] + rest) && AllEnded(s, ids) && Free(s, FIRST)
    requires forall e :: e in ds ==> Plain(e) && !MaySubmit(e, c.RoomBeside(1))
    ensures Leads(c, s, t) && Ran(s, t, id, rest)
    decreases |ds|
  {
    if ds == [] {
      ResumeStep(c, s, id, ids, rest);
      t := SetTodo(s, id, rest);
    } else {
      var left := [Wait(ds[1..], ids + {|s|})] + rest;
      var queued := SetTodo(s, id, left) + [Process([Field(ds[0])], Queued(0))];
      SubmitStep(c, s, id, ds, ids, rest);
      FirstIsWorker(c);
      RunClosure(c, queued, |s|, FIRST, ds[0]);
      var u := queued[|s| := Process([], Ended)];
      Then(c, s, queued, u);
      t := SubmitAndRun(c, u, id, ds[1..], ids + {|s|}, rest);
      Then(c, s, u, t);
      RanOn(s, u, t, id, left, rest);
    }
  }

  /** A request's field none of whose closures submits again is run through with all of them. */
  lemma {:induction false} RequestField(c: Config, s: State, id: nat, d: Definition, rest: seq<Task>) returns (t: State)
    requires c.maxWorkers > 0 && Has(s, id, [Field(d)] + rest) && Free(s, FIRST)
    requires Plain(d) && !Nests(c, d)
    ensures Leads(c, s, t) && Ran(s, t, id, rest)
    decreases d, 2, 0
  {
    if d.dataType.Object? {
      var remaining := SomeRemaining(d);
      var tasks := TasksOf(d, remaining);
      ExpandStep(c, s, id, d, rest, remaining);
      TasksOver(d, remaining);
      NestsIff(c, d, remaining);
      TasksUnsubmitted(d, remaining);
      var u := SetTodo(s, id, tasks + rest);
      t := RequestBelow(c, u, id, d, tasks, rest);
      Then(c, s, u, t);
      RanOn(s, u, t, id, tasks + rest, rest);
    } else {
      if ObjectsInside(d) {
        NoItems(c, s, id, d, rest);
      } else {
        CallStep(c, s, id, d, rest);
      }
      t := SetTodo(s, id, rest);
    }
  }

  /** Nothing has been submitted yet for these tasks. */
  ghost predicate Unsubmitted(tasks: seq<Task>) {
    forall task :: task in tasks && task.Wait? ==> task.ids == {}
  }

  lemma {:induction false} TasksUnsubmitted(d: Definition, remaining: seq<string>)
    ensures Unsubmitted(TasksOf(d, remaining))
  {
    forall task | task in TasksOf(d, remaining) && task.Wait? ensures task.ids == {} {
      OneTask(d, remaining, task);
    }
  }

  lemma {:induction false} RequestBelow(c: Config, s: State, id: nat, d: Definition, tasks: seq<Task>, rest: seq<Task>)
    returns (t: State)
    requires c.maxWorkers > 0 && Has(s, id, tasks + rest) && Free(s, FIRST)
    requires Over(d, tasks) && Unsubmitted(tasks) && forall task :: task in tasks ==> !TaskNests(c, task)
    ensures Leads(c, s, t) && Ran(s, t, id, rest)
    decreases d, 1, Weight(tasks)
  {
    if tasks == [] {
      assert tasks + rest == rest;
      t := s;
      Stays(c, s);
    } else {
      var more := tasks[1..];
      assert tasks + rest == [tasks[0]] + (more + rest);
      var next := InPlace(c, s, tasks[0]) + more;
      assert InPlace(c, s, tasks[0]) + (more + rest) == next + rest;
      var u := RequestHead(c, s, id, d, tasks, more + rest);
      RequestNext(c, s, d, tasks);
      RanFree(s, u, id, next + rest, FIRST);
      t := RequestBelow(c, u, id, d, next, rest);
      Then(c, s, u, t);
      RanOn(s, u, t, id, next + rest, rest);
    }
  }

  /** The tasks that take the place of one whose fields are not submitted. */
  function InPlace(c: Config, s: State, task: Task): seq<Task> {
    if task.Rest? && !Room(c, s) then Fields(task.ds) else []
  }

  lemma {:induction false} RanFree(s: State, t: State, id: nat, todo: seq<Task>, w: Worker)
    requires Ran(s, t, id, todo)
    ensures Free(s, w) ==> Free(t, w)
    ensures s[id].Runs() ==> Has(t, id, todo)
  {
  }

  lemma {:induction false} RequestNext(c: Config, s: State, d: Definition, tasks: seq<Task>)
    requires tasks != [] && Over(d, tasks) && Unsubmitted(tasks) && forall task :: task in tasks ==> !TaskNests(c, task)
    ensures var next := InPlace(c, s, tasks[0]) + tasks[1..];
            && Over(d, next) && Unsubmitted(next) && (forall task :: task in next ==> !TaskNests(c, task))
            && Weight(next) < Weight(tasks)
  {
    NextOver(d, tasks);
    NestsNext(c, tasks);
    assert [] + tasks[1..] == tasks[1..];
    if tasks[0].Rest? { WeightFields(tasks[0].ds, tasks[1..]); }
  }

  /** A task that is no field with fields of its own. */
  lemma {:induction false} RequestTask(c: Config, s: State, id: nat, task: Task, rest: seq<Task>) returns (t: State)
    requires c.maxWorkers > 0 && Has(s, id, [task] + rest) && Free(s, FIRST) && !TaskNests(c, task)
    requires forall e :: e in Inside(task) ==> Plain(e)
    requires task.Wait? ==> AllEnded(s, task.ids)
    requires task.Field? ==> !task.d.dataType.Object? && !ObjectsInside(task.d)
    ensures Leads(c, s, t) && Ran(s, t, id, InPlace(c, s, task) + rest)
  {
    assert [] + rest == rest;
    match task
    case Field(e) =>
      CallStep(c, s, id, e, rest);
      t := SetTodo(s, id, rest);
    case Rest(ds) =>
      LookStep(c, s, id, ds, rest);
      if Room(c, s) {
        var u := SetTodo(s, id, [Wait(ds, {})] + rest);
        NoneSubmits(c, s, ds);
        t := SubmitAndRun(c, u, id, ds, {}, rest);
        Then(c, s, u, t);
        RanOn(s, u, t, id, [Wait(ds, {})] + rest, rest);
      } else {
        t := SetTodo(s, id, Fields(ds) + rest);
      }
    case Wait(ds, ids) =>
      t := SubmitAndRun(c, s, id, ds, ids, rest);
  }

  lemma {:induction false} RequestHead(c: Config, s: State, id: nat, d: Definition, tasks: seq<Task>, rest: seq<Task>)
    returns (t: State)
    requires c.maxWorkers > 0 && tasks != [] && Has(s, id, [tasks[0]] + rest) && Free(s, FIRST)
    requires Over(d, tasks) && Unsubmitted(tasks) && !TaskNests(c, tasks[0])
    ensures Leads(c, s, t) && Ran(s, t, id, InPlace(c, s, tasks[0]) + rest)
    decreases d, 0, 0
  {
    assert [] + rest == rest;
    if tasks[0].Field? && (tasks[0].d.dataType.Object? || ObjectsInside(tasks[0].d)) {
      var k := KeyOf(d, tasks, tasks[0].d);
      t := RequestField(c, s, id, d.properties.entries[k], rest);
    } else {
      PlainInside(d, tasks);
      t := RequestTask(c, s, id, tasks[0], rest);
    }
  }

  lemma {:induction false} PlainInside(d: Definition, tasks: seq<Task>)
    requires Over(d, tasks) && tasks != []
    ensures forall e :: e in Inside(tasks[0]) ==> Plain(e)
  {
    forall e | e in Inside(tasks[0]) ensures Plain(e) {
      assert tasks[0] in tasks && PlainBelow(d, e);
    }
  }

  lemma {:induction false} NoneSubmits(c: Config, s: State, ds: seq<Definition>)
    requires Room(c, s) && !TaskNests(c, Rest(ds))
    ensures forall e :: e in ds ==> !MaySubmit(e, c.RoomBeside(1))
  {
    assert c.RoomBeside(0);
  }

  lemma {:induction false} NestsNext(c: Config, tasks: seq<Task>)
    requires tasks != [] && Unsubmitted(tasks) && forall task :: task in tasks ==> !TaskNests(c, task)
    ensures Unsubmitted(tasks[1..]) && forall task :: task in tasks[1..] ==> !TaskNests(c, task)
    ensures tasks[0].Rest? ==>
              && Unsubmitted(Fields(tasks[0].ds) + tasks[1..])
              && forall task :: task in Fields(tasks[0].ds) + tasks[1..] ==> !TaskNests(c, task)
  {
    if tasks[0].Rest? {
      assert tasks[0] in tasks && !TaskNests(c, tasks[0]);
      forall task | task in Fields(tasks[0].ds) ensures task.Field? && !TaskNests(c, task) {
        assert task.Field? && task.d in tasks[0].ds;
      }
    }
  }

  // ---------- Driving a request to a closure that submits again ----------

  /** A closure in the first shard's queue that may submit when it runs. */
  ghost predicate Ripe(c: Config, s: State, q: nat) {
    && q < |s| && s[q].place == Queued(0) && |s[q].todo| == 1 && s[q].todo[0].Field?
    && Plain(s[q].todo[0].d) && MaySubmit(s[q].todo[0].d, c.RoomBeside(1))
  }

  /** Since `s` only the process `id` has moved on, and no worker has taken anything. */
  ghost predicate Driven(s: State, t: State, id: nat) {
    && id < |s| <= |t| && t[id].place == s[id].place
    && (forall q :: 0 <= q < |s| && q != id ==> t[q] == s[q])
    && forall q :: |s| <= q < |t| ==> !t[q].place.On?
  }

  lemma {:induction false} DrivenOn(s: State, t: State, u: State, id: nat)
    requires Driven(s, t, id) && Driven(t, u, id)
    ensures Driven(s, u, id)
  {
  }

  lemma {:induction false} DrivenIdle(s: State, t: State, id: nat)
    requires Driven(s, t, id)
    ensures Busy(t) == Busy(s)
  {
  }

  lemma {:induction false} SetDriven(s: State, id: nat, todo: seq<Task>)
    requires id < |s|
    ensures Driven(s, SetTodo(s, id, todo), id)
  {
  }

  lemma {:induction false} RanDriven(s: State, t: State, id: nat, todo: seq<Task>)
    requires Ran(s, t, id, todo)
    ensures Driven(s, t, id)
  {
  }

  lemma {:induction false} IdleFree(s: State, w: Worker)
    requires Busy(s) == {}
    ensures Free(s, w)
  {
    forall p | 0 <= p < |s| ensures s[p].place != On(w) {
      assert s[p].place.On? ==> p in Busy(s);
    }
  }

  /** Submits up to the first field that may submit again. */
  lemma {:induction false} SubmitRipe(
    c: Config, s: State, id: nat, ds: seq<Definition>, ids: set<nat>, rest: seq<Task>) returns (t: State, q: nat)
    requires c.maxWorkers > 0 && Has(s, id, [Wait(ds, ids)] + rest)
    requires (forall e :: e in ds ==> Plain(e)) && exists e :: e in ds && MaySubmit(e, c.RoomBeside(1))
    ensures Leads(c, s, t) && Driven(s, t, id) && |s| <= q && Ripe(c, t, q)
    decreases |ds|
  {
    var left := [Wait(ds[1..], ids + {|s|})] + rest;
    t := SetTodo(s, id, left) + [Process([Field(ds[0])], Queued(0))];
    SubmitStep(c, s, id, ds, ids, rest);
    q := |s|;
    if !MaySubmit(ds[0], c.RoomBeside(1)) {
      var u := t;
      t, q := SubmitRipe(c, u, id, ds[1..], ids + {|s|}, rest);
      Then(c, s, u, t);
      DrivenOn(s, u, t, id);
    }
  }

  lemma {:induction false} DriveField(c: Config, s: State, id: nat, d: Definition, rest: seq<Task>)
    returns (t: State, q: nat)
    requires c.maxWorkers > 0 && Has(s, id, [Field(d)] + rest) && Busy(s) == {} && Plain(d) && Nests(c, d)
    ensures Leads(c, s, t) && Driven(s, t, id) && |s| <= q && Ripe(c, t, q)
    decreases d, 1, 0
  {
    if d.dataType.Object? {
      var remaining := SomeRemaining(d);
      var tasks := TasksOf(d, remaining);
      ExpandStep(c, s, id, d, rest, remaining);
      TasksOver(d, remaining);
      NestsIff(c, d, remaining);
      TasksUnsubmitted(d, remaining);
      var u := SetTodo(s, id, tasks + rest);
      SetDriven(s, id, tasks + rest);
      SameBusy(s, id, tasks + rest);
      t, q := DriveBelow(c, u, id, d, tasks, rest);
      Then(c, s, u, t);
      DrivenOn(s, u, t, id);
    } else {
      var u := OneItem(c, s, id, d, rest);
      DrivenIdle(s, u, id);
      assert [Field(d.items.value)] + [] == [Field(d.items.value)];
      t, q := DriveField(c, u, |s|, d.items.value, []);
      Then(c, s, u, t);
    }
  }

  /** An array starts a goroutine for its only item. */
  lemma {:induction false} OneItem(c: Config, s: State, id: nat, d: Definition, rest: seq<Task>) returns (t: State)
    requires Has(s, id, [Field(d)] + rest) && !d.dataType.Object? && ObjectsInside(d)
    ensures t == SetTodo(s, id, [Wait([], {|s|})] + rest) + [Process([Field(d.items.value)], Beside(s[id].Host()))]
    ensures Leads(c, s, t) && Driven(s, t, id)
  {
    assert NewIds(|s|, 1) == {|s|};
    Replaced(s, id, Field(d), rest, [Wait([], {|s|})]);
    OneStep(c, s, GoItems(id, 1));
    t := Apply(c, s, GoItems(id, 1));
  }

  lemma {:induction false} DriveBelow(c: Config, s: State, id: nat, d: Definition, tasks: seq<Task>, rest: seq<Task>)
    returns (t: State, q: nat)
    requires c.maxWorkers > 0 && Has(s, id, tasks + rest) && Busy(s) == {}
    requires Over(d, tasks) && Unsubmitted(tasks) && exists task :: task in tasks && TaskNests(c, task)
    ensures Leads(c, s, t) && Driven(s, t, id) && |s| <= q && Ripe(c, t, q)
    decreases d, 0, Weight(tasks)
  {
    var more := tasks[1..];
    assert tasks + rest == [tasks[0]] + (more + rest);
    IdleFree(s, FIRST);
    if tasks[0].Field? && Nests(c, tasks[0].d) {
      var k := KeyOf(d, tasks, tasks[0].d);
      t, q := DriveField(c, s, id, d.properties.entries[k], more + rest);
    } else if TaskNests(c, tasks[0]) && !(tasks[0].Rest? && !Room(c, s)) {
      t, q := DriveSubmitting(c, s, id, d, tasks, more + rest);
    } else {
      var next := InPlace(c, s, tasks[0]) + more;
      var u := SkipHead(c, s, id, d, tasks, rest);
      DriveNext(c, s, d, tasks);
      DrivenIdle(s, u, id);
      t, q := DriveBelow(c, u, id, d, next, rest);
      Then(c, s, u, t);
      DrivenOn(s, u, t, id);
    }
  }

  /** The first task is run through, or turned into its fields. */
  lemma {:induction false} SkipHead(c: Config, s: State, id: nat, d: Definition, tasks: seq<Task>, rest: seq<Task>)
    returns (t: State)
    requires c.maxWorkers > 0 && tasks != [] && Has(s, id, tasks + rest) && Free(s, FIRST)
    requires Over(d, tasks) && Unsubmitted(tasks)
    requires !TaskNests(c, tasks[0]) || (tasks[0].Rest? && !Room(c, s))
    ensures Leads(c, s, t) && Driven(s, t, id) && Has(t, id, InPlace(c, s, tasks[0]) + tasks[1..] + rest)
  {
    var more := tasks[1..];
    assert tasks + rest == [tasks[0]] + (more + rest);
    var todo := InPlace(c, s, tasks[0]) + (more + rest);
    assert todo == InPlace(c, s, tasks[0]) + more + rest;
    if TaskNests(c, tasks[0]) {
      LookStep(c, s, id, tasks[0].ds, more + rest);
      t := SetTodo(s, id, todo);
      SetDriven(s, id, todo);
    } else {
      t := RequestHead(c, s, id, d, tasks, more + rest);
      RanFree(s, t, id, todo, FIRST);
      RanDriven(s, t, id, todo);
    }
  }

  /** The first task is one that submits a closure which submits again. */
  lemma {:induction false} DriveSubmitting(
      c: Config, s: State, id: nat, d: Definition, tasks: seq<Task>, rest: seq<Task>)
    returns (t: State, q: nat)
    requires c.maxWorkers > 0 && tasks != [] && Has(s, id, [tasks[0]] + rest) && Over(d, tasks)
    requires !tasks[0].Field? && TaskNests(c, tasks[0]) && (tasks[0].Rest? ==> Room(c, s))
    ensures Leads(c, s, t) && Driven(s, t, id) && |s| <= q && Ripe(c, t, q)
  {
    PlainInside(d, tasks);
    if tasks[0].Wait? {
      t, q := SubmitRipe(c, s, id, tasks[0].submit, tasks[0].ids, rest);
    } else {
      var ds := tasks[0].ds;
      var u := SetTodo(s, id, [Wait(ds, {})] + rest);
      LookStep(c, s, id, ds, rest);
      SetDriven(s, id, [Wait(ds, {})] + rest);
      SomeSubmits(c, ds);
      t, q := SubmitRipe(c, u, id, ds, {}, rest);
      Then(c, s, u, t);
      DrivenOn(s, u, t, id);
    }
  }

  lemma {:induction false} SomeSubmits(c: Config, ds: seq<Definition>)
    requires TaskNests(c, Rest(ds))
    ensures exists e :: e in ds && MaySubmit(e, c.RoomBeside(1))
  {
    var e :| e in ds && (Nests(c, e) || (c.RoomBeside(0) && MaySubmit(e, c.RoomBeside(1))));
    if Nests(c, e) { NestsSubmits(c, e); }
  }

  lemma {:induction false} DriveNext(c: Config, s: State, d: Definition, tasks: seq<Task>)
    requires Busy(s) == {} && Over(d, tasks) && Unsubmitted(tasks) && exists task :: task in tasks && TaskNests(c, task)
    requires !TaskNests(c, tasks[0]) || (tasks[0].Rest? && !Room(c, s))
    ensures var next := InPlace(c, s, tasks[0]) + tasks[1..];
            && Over(d, next) && Unsubmitted(next) && (exists task :: task in next && TaskNests(c, task))
            && Weight(next) < Weight(tasks)
  {
    NextOver(d, tasks);
    assert [] + tasks[1..] == tasks[1..];
    if tasks[0].Rest? { WeightFields(tasks[0].ds, tasks[1..]); }
    var task := StillNests(c, s, tasks);
    assert task in InPlace(c, s, tasks[0]) + tasks[1..];
  }

  lemma {:induction false} StillNests(c: Config, s: State, tasks: seq<Task>) returns (task: Task)
    requires Busy(s) == {} && exists task :: task in tasks && TaskNests(c, task)
    requires !TaskNests(c, tasks[0]) || (tasks[0].Rest? && !Room(c, s))
    ensures (task in InPlace(c, s, tasks[0]) || task in tasks[1..]) && TaskNests(c, task)
  {
    if TaskNests(c, tasks[0]) {
      assert !c.RoomBeside(0);
      var e :| e in tasks[0].ds && Nests(c, e);
      var i :| 0 <= i < |tasks[0].ds| && tasks[0].ds[i] == e;
      task := Fields(tasks[0].ds)[i];
    } else {
      task :| task in tasks && TaskNests(c, task);
    }
  }

  // ---------- Driving a closure to its first submission ----------

  ghost predicate Nonempty(tasks: seq<Task>) {
    forall task :: task in tasks ==> Inside(task) != []
  }

  lemma {:induction false} TasksNonempty(d: Definition, remaining: seq<string>)
    requires Plain(d)
    ensures Nonempty(TasksOf(d, remaining))
  {
    BatchesPermuteKeys(d, d.processingOrder);
    forall task | task in TasksOf(d, remaining) ensures Inside(task) != [] {
      OneTask(d, remaining, task);
    }
  }

  /** The workers that are busy leave as much room as a single one would. */
  ghost predicate RoomAsAlone(c: Config, s: State) {
    Room(c, s) == c.RoomBeside(1)
  }

  /** A field that may submit, on a worker: it comes to wait for a closure in the first shard's queue. */
  lemma {:induction false} ClosureField(c: Config, s: State, id: nat, d: Definition, rest: seq<Task>)
    returns (t: State)
    requires c.maxWorkers > 0 && Has(s, id, [Field(d)] + rest) && RoomAsAlone(c, s)
    requires Plain(d) && MaySubmit(d, c.RoomBeside(1))
    ensures Leads(c, s, t) && Driven(s, t, id) && Waits(t, id, 0)
    decreases d, 1, 0
  {
    if d.dataType.Object? {
      var remaining := SomeRemaining(d);
      var tasks := TasksOf(d, remaining);
      ExpandStep(c, s, id, d, rest, remaining);
      TasksOver(d, remaining);
      SubmitsIff(d, remaining, c.RoomBeside(1));
      TasksNonempty(d, remaining);
      var u := SetTodo(s, id, tasks + rest);
      SetDriven(s, id, tasks + rest);
      SameBusy(s, id, tasks + rest);
      t := ClosureBelow(c, u, id, d, tasks, rest);
      Then(c, s, u, t);
      DrivenOn(s, u, t, id);
    } else {
      var u := OneItem(c, s, id, d, rest);
      DrivenIdle(s, u, id);
      assert [Field(d.items.value)] + [] == [Field(d.items.value)];
      t := ClosureField(c, u, |s|, d.items.value, []);
      Then(c, s, u, t);
      assert t[id].todo[0].Wait? && |s| in t[id].todo[0].ids;
    }
  }

  lemma {:induction false} ClosureBelow(c: Config, s: State, id: nat, d: Definition, tasks: seq<Task>, rest: seq<Task>)
    returns (t: State)
    requires c.maxWorkers > 0 && Has(s, id, tasks + rest) && RoomAsAlone(c, s)
    requires Over(d, tasks) && Nonempty(tasks) && exists task :: task in tasks && TaskSubmits(task, c.RoomBeside(1))
    ensures Leads(c, s, t) && Driven(s, t, id) && Waits(t, id, 0)
    decreases d, 0, Weight(tasks)
  {
    var more := tasks[1..];
    assert tasks + rest == [tasks[0]] + (more + rest);
    if tasks[0].Field? && MaySubmit(tasks[0].d, c.RoomBeside(1)) {
      var k := KeyOf(d, tasks, tasks[0].d);
      t := ClosureField(c, s, id, d.properties.entries[k], more + rest);
    } else if tasks[0].Wait? || (tasks[0].Rest? && Room(c, s)) {
      t := ClosureSubmits(c, s, id, tasks[0], more + rest);
    } else {
      var next := InPlace(c, s, tasks[0]) + more;
      assert next + rest == InPlace(c, s, tasks[0]) + (more + rest);
      ClosureSkips(c, s, id, d, tasks, more + rest);
      ClosureNext(c, s, d, tasks);
      var u := SetTodo(s, id, next + rest);
      SetDriven(s, id, next + rest);
      SameBusy(s, id, next + rest);
      t := ClosureBelow(c, u, id, d, next, rest);
      Then(c, s, u, t);
      DrivenOn(s, u, t, id);
    }
  }

  lemma {:induction false} ClosureSubmits(c: Config, s: State, id: nat, task: Task, rest: seq<Task>) returns (t: State)
    requires c.maxWorkers > 0 && Has(s, id, [task] + rest) && Inside(task) != []
    requires task.Wait? || (task.Rest? && Room(c, s))
    ensures Leads(c, s, t) && Driven(s, t, id) && Waits(t, id, 0)
  {
    var ds := Inside(task);
    var ids := if task.Wait? then task.ids else {};
    var u := SetTodo(s, id, [Wait(ds, ids)] + rest);
    if task.Rest? {
      LookStep(c, s, id, ds, rest);
    } else {
      Stays(c, s);
      assert u == s;
    }
    SubmitStep(c, u, id, ds, ids, rest);
    t := SetTodo(u, id, [Wait(ds[1..], ids + {|u|})] + rest) + [Process([Field(ds[0])], Queued(0))];
    Then(c, s, u, t);
    assert t[id].todo[0] == Wait(ds[1..], ids + {|u|}) && t[|u|].place == Queued(0) && Waits(t, |u|, 0);
  }

  /** A task that does not submit now is run through, or turned into its fields. */
  lemma {:induction false} ClosureSkips(c: Config, s: State, id: nat, d: Definition, tasks: seq<Task>, rest: seq<Task>)
    requires tasks != [] && Has(s, id, [tasks[0]] + rest) && RoomAsAlone(c, s) && Over(d, tasks)
    requires if tasks[0].Rest? then !Room(c, s) else !TaskSubmits(tasks[0], c.RoomBeside(1))
    ensures Leads(c, s, SetTodo(s, id, InPlace(c, s, tasks[0]) + rest))
  {
    if tasks[0].Rest? {
      LookStep(c, s, id, tasks[0].ds, rest);
    } else {
      assert [] + rest == rest;
      QuietBelow(c, s, id, d, [tasks[0]], rest, c.RoomBeside(1));
    }
  }

  lemma {:induction false} ClosureNext(c: Config, s: State, d: Definition, tasks: seq<Task>)
    requires RoomAsAlone(c, s) && Over(d, tasks) && Nonempty(tasks)
    requires exists task :: task in tasks && TaskSubmits(task, c.RoomBeside(1))
    requires if tasks[0].Rest? then !Room(c, s) else !TaskSubmits(tasks[0], c.RoomBeside(1))
    ensures var next := InPlace(c, s, tasks[0]) + tasks[1..];
            && Over(d, next) && Nonempty(next) && (exists task :: task in next && TaskSubmits(task, c.RoomBeside(1)))
            && Weight(next) < Weight(tasks)
  {
    NextOver(d, tasks);
    assert [] + tasks[1..] == tasks[1..];
    if tasks[0].Rest? { WeightFields(tasks[0].ds, tasks[1..]); }
    var task := StillSubmits(c, s, tasks);
    assert task in InPlace(c, s, tasks[0]) + tasks[1..];
  }

  lemma {:induction false} StillSubmits(c: Config, s: State, tasks: seq<Task>) returns (task: Task)
    requires RoomAsAlone(c, s) && exists task :: task in tasks && TaskSubmits(task, c.RoomBeside(1))
    requires if tasks[0].Rest? then !Room(c, s) else !TaskSubmits(tasks[0], c.RoomBeside(1))
    ensures (task in InPlace(c, s, tasks[0]) || task in tasks[1..]) && TaskSubmits(task, c.RoomBeside(1))
  {
    if TaskSubmits(tasks[0], c.RoomBeside(1)) {
      var e :| e in tasks[0].ds && MaySubmit(e, c.RoomBeside(1));
      var i :| 0 <= i < |tasks[0].ds| && tasks[0].ds[i] == e;
      task := Fields(tasks[0].ds)[i];
    } else {
      task :| task in tasks && TaskSubmits(task, c.RoomBeside(1));
    }
  }
}
