/**
 Which fields of a schema submit closures to the worker pool when they are processed, and
 which of those closures would submit again: as properties of the schema, and of the tasks
 that a process has left to do.
 */
module Submissions {
  import opened JsonSchema
  import opened Sequences
  import opened Scheduler
  import opened PoolWaits
  import ObjectTree

  // ---------- Which fields submit ----------

  ghost predicate HasBatch(d: Definition) {
    exists batch :: batch in Batches(d, d.processingOrder) && |batch| >= 2
  }

  /** May processing the field submit closures, if remaining keys are submitted when there is `room`? */
  ghost predicate MaySubmit(d: Definition, room: bool) {
    if d.dataType.Object? then
      && d.properties.Properties?
      && (HasBatch(d) || (room && ObjectTree.RemainingKeys(d) != {}) ||
          exists k :: k in d.properties.entries && MaySubmit(d.properties.entries[k], room))
    else ObjectsInside(d) && MaySubmit(d.items.value, room)
  }

  /** The key is one that is submitted, by a process that need not find another worker busy. */
  ghost predicate Submitted(c: Config, d: Definition, k: string) {
    || (exists batch :: batch in Batches(d, d.processingOrder) && |batch| >= 2 && k in batch)
    || (c.RoomBeside(0) && k in ObjectTree.RemainingKeys(d))
  }

  /** Somewhere in the field a key is submitted that may submit again. */
  ghost predicate Nests(c: Config, d: Definition) {
    if d.dataType.Object? then
      && d.properties.Properties?
      && exists k :: k in d.properties.entries &&
           ((Submitted(c, d, k) && MaySubmit(d.properties.entries[k], c.RoomBeside(1))) ||
               Nests(c, d.properties.entries[k]))
    else ObjectsInside(d) && Nests(c, d.items.value)
  }

  /** No feature that makes calls of another kind, at any depth. */
  ghost predicate Plain(d: Definition) {
    && !d.structuredOutput && d.decisionPoint.None? && d.recursiveLoop.None? && d.scoringCriteria.None?
    && d.textToSpeech.None? && d.speechToText.None? && d.image.None? && !d.epistemic.active
    && Distinct(d.processingOrder)
    && (d.properties.Properties? ==> forall k :: k in d.properties.entries ==> Plain(d.properties.entries[k]))
    && (d.items.Some? ==> Plain(d.items.value))
  }

  // ---------- The same of tasks ----------

  ghost predicate TaskSubmits(task: Task, room: bool) {
    match task
    case Field(e) => MaySubmit(e, room)
    case Rest(ds) => room || exists e :: e in ds && MaySubmit(e, room)
    case Wait(_, _) => true
  }

  ghost predicate TaskNests(c: Config, task: Task) {
    match task
    case Field(e) => Nests(c, e)
    case Rest(ds) => exists e :: e in ds && (Nests(c, e) || (c.RoomBeside(0) && MaySubmit(e, c.RoomBeside(1))))
    case Wait(ds, _) => exists e :: e in ds && MaySubmit(e, c.RoomBeside(1))
  }

  /** A property, or what a key without one gives. */
  ghost predicate Below(d: Definition, e: Definition) {
    || e == ZeroDefinition
    || (d.properties.Properties? && exists k :: k in d.properties.entries && d.properties.entries[k] == e)
  }

  function Inside(task: Task): seq<Definition> {
    match task
    case Field(e) => [e]
    case Rest(ds) => ds
    case Wait(ds, _) => ds
  }

  /** Tasks of plain properties of `d`. */
  ghost predicate Over(d: Definition, tasks: seq<Task>) {
    forall task, e :: task in tasks && e in Inside(task) ==> PlainBelow(d, e)
  }

  ghost predicate PlainBelow(d: Definition, e: Definition) {
    Below(d, e) && Plain(e)
  }

  lemma {:induction false} PropertyBelow(d: Definition, k: string)
    requires Plain(d)
    ensures PlainBelow(d, Property(d, k))
  {
  }

  lemma {:induction false} DefinitionsBelow(d: Definition, keys: seq<string>, e: Definition)
    requires Plain(d) && e in Definitions(d, keys)
    ensures PlainBelow(d, e)
  {
    var i :| 0 <= i < |keys| && Property(d, keys[i]) == e;
    PropertyBelow(d, keys[i]);
  }

  lemma {:induction false} TasksOver(d: Definition, remaining: seq<string>)
    requires Plain(d)
    ensures Over(d, TasksOf(d, remaining))
  {
    forall task, e | task in TasksOf(d, remaining) && e in Inside(task) ensures PlainBelow(d, e) {
      TaskBelow(d, remaining, task, e);
    }
  }

  lemma {:induction false} TaskBelow(d: Definition, remaining: seq<string>, task: Task, e: Definition)
    requires Plain(d) && task in TasksOf(d, remaining) && e in Inside(task)
    ensures PlainBelow(d, e)
  {
    var batches := Batches(d, d.processingOrder);
    if task.Rest? {
      assert task.ds == Definitions(d, remaining) by { OneTask(d, remaining, task); }
      DefinitionsBelow(d, remaining, e);
    } else {
      OneTask(d, remaining, task);
      var batch :| batch in batches && task == BatchTask(d, batch);
      BatchBelow(d, batch, e);
    }
  }

  lemma {:induction false} BatchBelow(d: Definition, batch: seq<string>, e: Definition)
    requires Plain(d) && e in Inside(BatchTask(d, batch))
    ensures PlainBelow(d, e)
  {
    if |batch| == 1 {
      PropertyBelow(d, batch[0]);
    } else {
      DefinitionsBelow(d, batch, e);
    }
  }

  lemma {:induction false} OneBatch(d: Definition, batches: seq<seq<string>>, task: Task)
    ensures task in BatchTasks(d, batches) <==> exists batch :: batch in batches && task == BatchTask(d, batch)
  {
    if batch :| batch in batches && task == BatchTask(d, batch) {
      var i :| 0 <= i < |batches| && batches[i] == batch;
      assert BatchTasks(d, batches)[i] == task;
    }
  }

  /** Every task is that of a batch, or that of the remaining keys. */
  lemma {:induction false} OneTask(d: Definition, remaining: seq<string>, task: Task)
    ensures task in TasksOf(d, remaining) <==>
            d.properties.Properties? &&
            ((exists batch :: batch in Batches(d, d.processingOrder) && task == BatchTask(d, batch)) ||
             (remaining != [] && task == Rest(Definitions(d, remaining))))
  {
    OneBatch(d, Batches(d, d.processingOrder), task);
  }

  /** An object may submit exactly if one of its tasks may. */
  lemma {:induction false} SubmitsIff(d: Definition, remaining: seq<string>, room: bool)
    requires d.dataType.Object? && Plain(d) && IsRemaining(d, remaining)
    ensures MaySubmit(d, room) <==> exists task :: task in TasksOf(d, remaining) && TaskSubmits(task, room)
  {
    if MaySubmit(d, room) {
      var task := SubmittingTask(d, remaining, room);
    }
    if task :| task in TasksOf(d, remaining) && TaskSubmits(task, room) {
      OneTask(d, remaining, task);
      if remaining != [] && task == Rest(Definitions(d, remaining)) {
        RestSubmits(d, remaining, room);
      } else {
        var batch :| batch in Batches(d, d.processingOrder) && task == BatchTask(d, batch);
        BatchSubmits(d, batch, room);
      }
    }
  }

  lemma {:induction false} RestSubmits(d: Definition, remaining: seq<string>, room: bool)
    requires d.dataType.Object? && d.properties.Properties? && IsRemaining(d, remaining) && remaining != []
    requires TaskSubmits(Rest(Definitions(d, remaining)), room)
    ensures MaySubmit(d, room)
  {
    if room {
      assert remaining[0] in Range(remaining);
    } else {
      var i :| 0 <= i < |remaining| && MaySubmit(Property(d, remaining[i]), room);
      assert remaining[i] in Range(remaining);
    }
  }

  lemma {:induction false} BatchSubmits(d: Definition, batch: seq<string>, room: bool)
    requires d.dataType.Object? && d.properties.Properties? && Plain(d) && batch in Batches(d, d.processingOrder)
    requires TaskSubmits(BatchTask(d, batch), room)
    ensures MaySubmit(d, room)
  {
    BatchesPermuteKeys(d, d.processingOrder);
    if |batch| == 1 {
      assert batch[0] in d.properties.entries;
    } else {
      assert HasBatch(d);
    }
  }

  lemma {:induction false} SubmittingTask(d: Definition, remaining: seq<string>, room: bool) returns (task: Task)
    requires d.dataType.Object? && Plain(d) && IsRemaining(d, remaining) && MaySubmit(d, room)
    ensures task in TasksOf(d, remaining) && TaskSubmits(task, room)
  {
    if HasBatch(d) {
      var batch :| batch in Batches(d, d.processingOrder) && |batch| >= 2;
      task := BatchTask(d, batch);
      OneTask(d, remaining, task);
    } else if room && ObjectTree.RemainingKeys(d) != {} {
      task := Rest(Definitions(d, remaining));
      OneTask(d, remaining, task);
    } else {
      var k :| k in d.properties.entries && MaySubmit(d.properties.entries[k], room);
      task := TaskOfKey(d, remaining, k);
    }
  }

  /** The task that processes a property. */
  lemma {:induction false} TaskOfKey(d: Definition, remaining: seq<string>, k: string) returns (task: Task)
    requires Plain(d) && IsRemaining(d, remaining) && d.properties.Properties? && k in d.properties.entries
    ensures task in TasksOf(d, remaining) && d.properties.entries[k] in Inside(task)
    ensures task.Rest? ==> k in ObjectTree.RemainingKeys(d)
    ensures task.Wait? ==> exists batch :: batch in Batches(d, d.processingOrder) && |batch| >= 2 && k in batch
  {
    if k in d.processingOrder {
      var batch := BatchOfKey(d, k);
      task := BatchTask(d, batch);
      InsideBatch(d, batch, k);
    } else {
      assert k in Range(remaining);
      task := Rest(Definitions(d, remaining));
      InsideDefinitions(d, remaining, k);
    }
    OneTask(d, remaining, task);
  }

  lemma {:induction false} BatchOfKey(d: Definition, k: string) returns (batch: seq<string>)
    requires Distinct(d.processingOrder) && k in d.processingOrder
    ensures batch in Batches(d, d.processingOrder) && k in batch
  {
    var i := EveryKeyHasABatch(d, d.processingOrder, k);
    batch := Batches(d, d.processingOrder)[i];
  }

  lemma {:induction false} InsideDefinitions(d: Definition, keys: seq<string>, k: string)
    requires k in keys
    ensures Property(d, k) in Definitions(d, keys)
  {
    var i :| 0 <= i < |keys| && keys[i] == k;
    assert Definitions(d, keys)[i] == Property(d, k);
  }

  lemma {:induction false} InsideBatch(d: Definition, batch: seq<string>, k: string)
    requires k in batch
    ensures Property(d, k) in Inside(BatchTask(d, batch))
    ensures BatchTask(d, batch).Wait? ==> |batch| >= 2
  {
    if |batch| != 1 { InsideDefinitions(d, batch, k); }
  }

  lemma {:induction false} NestsSubmits(c: Config, d: Definition)
    requires Nests(c, d)
    ensures MaySubmit(d, c.RoomBeside(1))
  {
    if d.dataType.Object? {
      var k :| k in d.properties.entries &&
               ((Submitted(c, d, k) && MaySubmit(d.properties.entries[k], c.RoomBeside(1))) ||
                   Nests(c, d.properties.entries[k]));
      if Nests(c, d.properties.entries[k]) { NestsSubmits(c, d.properties.entries[k]); }
    } else {
      NestsSubmits(c, d.items.value);
    }
  }

  /** An object nests exactly if one of its tasks does. */
  lemma {:induction false} NestsIff(c: Config, d: Definition, remaining: seq<string>)
    requires d.dataType.Object? && Plain(d) && IsRemaining(d, remaining)
    ensures Nests(c, d) <==> exists task :: task in TasksOf(d, remaining) && TaskNests(c, task)
  {
    if Nests(c, d) {
      var task := NestingTask(c, d, remaining);
    }
    if task :| task in TasksOf(d, remaining) && TaskNests(c, task) {
      OneTask(d, remaining, task);
      if remaining != [] && task == Rest(Definitions(d, remaining)) {
        RestNests(c, d, remaining);
      } else {
        var batch :| batch in Batches(d, d.processingOrder) && task == BatchTask(d, batch);
        BatchNests(c, d, batch);
      }
    }
  }

  lemma {:induction false} RestNests(c: Config, d: Definition, remaining: seq<string>)
    requires d.dataType.Object? && d.properties.Properties? && IsRemaining(d, remaining)
    requires TaskNests(c, Rest(Definitions(d, remaining)))
    ensures Nests(c, d)
  {
    var e :| e in Definitions(d, remaining) && (Nests(c, e) || (c.RoomBeside(0) && MaySubmit(e, c.RoomBeside(1))));
    var i :| 0 <= i < |remaining| && Property(d, remaining[i]) == e;
    assert remaining[i] in Range(remaining);
  }

  lemma {:induction false} BatchNests(c: Config, d: Definition, batch: seq<string>)
    requires d.dataType.Object? && d.properties.Properties? && Plain(d) && batch in Batches(d, d.processingOrder)
    requires TaskNests(c, BatchTask(d, batch))
    ensures Nests(c, d)
  {
    if |batch| == 1 {
      assert batch[0] in d.properties.entries;
    } else {
      var i := SubmittedInBatch(c, d, batch);
      assert |batch| >= 2 && Submitted(c, d, batch[i]);
    }
  }

  lemma {:induction false} SubmittedInBatch(c: Config, d: Definition, batch: seq<string>) returns (i: nat)
    requires d.properties.Properties? && |batch| != 1 && TaskNests(c, BatchTask(d, batch))
    ensures i < |batch| && batch[i] in d.properties.entries
    ensures MaySubmit(d.properties.entries[batch[i]], c.RoomBeside(1)) && |batch| >= 2
  {
    var e :| e in Definitions(d, batch) && MaySubmit(e, c.RoomBeside(1));
    i :| 0 <= i < |batch| && Property(d, batch[i]) == e;
    assert batch[i] in d.properties.entries;
  }

  lemma {:induction false} NestingTask(c: Config, d: Definition, remaining: seq<string>) returns (task: Task)
    requires d.dataType.Object? && Plain(d) && IsRemaining(d, remaining) && Nests(c, d)
    ensures task in TasksOf(d, remaining) && TaskNests(c, task)
  {
    var k :| k in d.properties.entries &&
             ((Submitted(c, d, k) && MaySubmit(d.properties.entries[k], c.RoomBeside(1))) ||
                 Nests(c, d.properties.entries[k]));
    var e := d.properties.entries[k];
    if Nests(c, e) {
      task := TaskOfKey(d, remaining, k);
      NestsSubmits(c, e);
    } else if batch :| batch in Batches(d, d.processingOrder) && |batch| >= 2 && k in batch {
      task := BatchTask(d, batch);
      InsideBatch(d, batch, k);
      OneTask(d, remaining, task);
    } else {
      assert k in Range(remaining);
      task := Rest(Definitions(d, remaining));
      InsideDefinitions(d, remaining, k);
      OneTask(d, remaining, task);
    }
  }
}
