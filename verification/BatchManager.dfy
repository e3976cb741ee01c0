/**
 The batch request manager: pending jobs, memory accounting, flushing and the delivery of
 batch responses. What the conversion, the file system and the batch service answer is an
 argument. A run is here a sequence of complete `AddJob` and `FlushBatch` calls;
 `OverlappingCalls` takes the calls apart into the regions they hold the lock for.
 */
module BatchManager {
  import opened Wrappers
  import opened GoStrings
  import opened Sequences

  datatype Inputs = Inputs(prompt: string, systemPrompt: string)

  /** A job, and which of its channels exist. */
  datatype Job = Job(inputs: Option<Inputs>, hasResult: bool, hasError: bool)

  datatype Entry = Entry(job: Job, customID: string, estimatedMem: int)

  /** How sending a batch turns out. */
  datatype Sending = ConversionFails | FileFails | UploadFails | CreateFails | Created

  // ---------- Custom identifiers ----------

  function CustomID(nanos: nat, count: nat): string {
    "job" + "-" + Decimal(nanos) + "-" + Decimal(count)
  }

  /** An identifier tells both numbers it was made from. */
  lemma CustomIDInjective(m: nat, j: nat, n: nat, k: nat)
    requires CustomID(m, j) == CustomID(n, k)
    ensures m == n && j == k
  {
    Parts(m, j);
    Parts(n, k);
    DecimalInjective(m, n);
    DecimalInjective(j, k);
  }

  lemma Parts(nanos: nat, count: nat)
    ensures Split(CustomID(nanos, count), '-') == ["job", Decimal(nanos), Decimal(count)]
  {
    var parts := ["job", Decimal(nanos), Decimal(count)];
    var numbers := [Decimal(nanos), Decimal(count)];
    assert parts[1..] == numbers && numbers[1..] == [Decimal(count)];
    assert Join(numbers, '-') == Decimal(nanos) + ['-'] + Decimal(count);
    assert CustomID(nanos, count) == Join(parts, '-');
    SplitJoin(parts, '-');
  }

  // ---------- What the calls do ----------

  /** The manager's fields, and what became of the jobs that left the queue. */
  datatype State = State(
    pending: seq<Entry>, memory: int, queued: nat, sent: nat,
    batched: seq<seq<Entry>>, dropped: seq<Entry>,
    restored: nat,            // how many pending jobs, from the front, a failed conversion put back
    conversionFailed: bool)

  const Start := State([], 0, 0, 0, [], [], 0, false)

  function EstimateJobMemory(inputs: Inputs): (n: int)
    ensures n >= 2048
  {
    (|inputs.prompt| + |inputs.systemPrompt| + 1024) * 2
  }

  function Flushed(s: State, sending: Sending): State {
    if s.pending == [] then s else
      match sending
      case ConversionFails => s.(memory := 0, restored := |s.pending|, conversionFailed := true)
      case Created => s.(pending := [], memory := 0, sent := s.sent + 1, batched := s.batched + [s.pending],
                              restored := 0)
      case _ => s.(pending := [], memory := 0, dropped := s.dropped + s.pending, restored := 0)
  }

  predicate FlushSucceeds(s: State, sending: Sending) {
    s.pending == [] || sending.Created?
  }

  function Appended(s: State, e: Entry): State {
    s.(pending := s.pending + [e], memory := s.memory + e.estimatedMem, queued := s.queued + 1)
  }

  predicate MustFlush(s: State, limits: Limits, mem: int) {
    |s.pending| + 1 > limits.maxRequests || s.memory + mem > limits.maxMemory
  }

  datatype Limits = Limits(maxRequests: int, maxMemory: int)

  function Added(s: State, limits: Limits, job: Job, nanos: nat, sending: Sending): State {
    if job.inputs.None? then s else
      var e := Entry(job, CustomID(nanos, s.queued), EstimateJobMemory(job.inputs.value));
      if !MustFlush(s, limits, e.estimatedMem) then Appended(s, e)
      else if FlushSucceeds(s, sending) then Appended(Flushed(s, sending), e)
      else Flushed(s, sending)
  }

  class DefaultBatchReqManager {
    const maxRequestsPerBatch: int
    const maxMemoryBytes: int
    var pendingJobs: seq<Entry>
    var currentMemoryUsed: int
    var totalJobsQueued: nat
    var totalBatchesSent: nat
    var monitored: seq<seq<Entry>>  // the batches a goroutine was started for
    ghost var dropped: seq<Entry>
    ghost var restored: nat
    ghost var conversionFailed: bool

    ghost function Value(): State
      reads this
    {
      State(pendingJobs, currentMemoryUsed, totalJobsQueued, totalBatchesSent, monitored, dropped,
            restored, conversionFailed)
    }

    constructor (maxRequests: int, maxMemory: int)
      ensures Value() == Start
      ensures maxRequestsPerBatch == if maxRequests <= 0 then 100 else maxRequests
      ensures maxMemoryBytes == if maxMemory <= 0 then 190 * 1024 * 1024 else maxMemory
    {
      maxRequestsPerBatch := if maxRequests <= 0 then 100 else maxRequests;
      maxMemoryBytes := if maxMemory <= 0 then 190 * 1024 * 1024 else maxMemory;
      pendingJobs, currentMemoryUsed, totalJobsQueued, totalBatchesSent := [], 0, 0, 0;
      monitored, dropped, restored, conversionFailed := [], [], 0, false;
    }

    method FlushBatch(sending: Sending) returns (err: Option<string>)
      modifies this
      ensures Value() == Flushed(old(Value()), sending)
      ensures err.None? <==> old(pendingJobs) == [] || sending.Created?
      ensures pendingJobs == if sending.ConversionFails? then old(pendingJobs) else []
      ensures monitored == old(monitored) +
              if old(pendingJobs) != [] && sending.Created? then [old(pendingJobs)] else []
      ensures dropped == old(dropped) +
                if sending.FileFails? || sending.UploadFails? || sending.CreateFails? then old(pendingJobs) else []
      ensures currentMemoryUsed == if old(pendingJobs) == [] then old(currentMemoryUsed) else 0
    {
      if |pendingJobs| == 0 {
        return None;
      }
      var jobsToFlush := pendingJobs;
      pendingJobs := [];
      currentMemoryUsed := 0;
      if sending.ConversionFails? {
        pendingJobs := pendingJobs + jobsToFlush;
        restored, conversionFailed := |jobsToFlush|, true;
        return Some("failed to convert jobs to batch requests");
      }
      restored := 0;
      if sending != Created {
        dropped := dropped + jobsToFlush;
        return Some("failed to create batch");
      }
      totalBatchesSent := totalBatchesSent + 1;
      monitored := monitored + [jobsToFlush];
      err := None;
    }

    method AddJob(job: Option<Job>, nanos: nat, sending: Sending) returns (err: Option<string>)
      modifies this
      ensures Value() == if job.None? then old(Value())
                         else Added(old(Value()), Limits(maxRequestsPerBatch, maxMemoryBytes),
                                    job.value, nanos, sending)
      ensures err.None? ==> job.Some? && pendingJobs != [] &&
                            pendingJobs[|pendingJobs| - 1].job == job.value &&
                            pendingJobs[|pendingJobs| - 1].customID == CustomID(nanos, old(totalJobsQueued))
      ensures err.None? && job.value.inputs.Some? &&
              !old(MustFlush(Value(), Limits(maxRequestsPerBatch, maxMemoryBytes),
                             EstimateJobMemory(job.value.inputs.value))) ==>
                pendingJobs[..|pendingJobs| - 1] == old(pendingJobs) && monitored == old(monitored)
      ensures err.None? <==> totalJobsQueued == old(totalJobsQueued) + 1
      ensures err.Some? ==> totalJobsQueued == old(totalJobsQueued)
    {
      if job.None? {
        return Some("job cannot be nil");
      }
      if job.value.inputs.None? {
        return Some("job inputs cannot be nil");
      }
      var entry := Entry(job.value, CustomID(nanos, totalJobsQueued), EstimateJobMemory(job.value.inputs.value));
      var newMemoryUsed := currentMemoryUsed + entry.estimatedMem;
      var newJobCount := |pendingJobs| + 1;
      if newJobCount > maxRequestsPerBatch || newMemoryUsed > maxMemoryBytes {
        var failed := FlushBatch(sending);
        if failed.Some? {
          return Some("failed to flush batch before adding job: " + failed.value);
        }
      }
      pendingJobs := pendingJobs + [entry];
      currentMemoryUsed := currentMemoryUsed + entry.estimatedMem;
      totalJobsQueued := totalJobsQueued + 1;
      err := None;
    }
  }

  // ---------- What every run keeps ----------

  function MemoryOf(entries: seq<Entry>): int {
    if entries == [] then 0 else MemoryOf(entries[..|entries| - 1]) + entries[|entries| - 1].estimatedMem
  }

  /** How often an identifier occurs. */
  function Uses(entries: seq<Entry>, id: string): nat {
    if entries == [] then 0 else
      Uses(entries[..|entries| - 1], id) + if entries[|entries| - 1].customID == id then 1 else 0
  }

  lemma {:induction false} UsesConcat(a: seq<Entry>, b: seq<Entry>, id: string)
    ensures Uses(a + b, id) == Uses(a, id) + Uses(b, id)
  {
    if b == [] {
      assert a + b == a;
    } else {
      assert (a + b)[..|a + b| - 1] == a + b[..|b| - 1];
      UsesConcat(a, b[..|b| - 1], id);
    }
  }

  function UsesIn(s: State, id: string): nat {
    Uses(s.pending, id) + Uses(Flatten(s.batched), id) + Uses(s.dropped, id)
  }

  /** Within the memory limit, but for a single job that exceeds it alone. */
  predicate Fits(entries: seq<Entry>, limits: Limits) {
    |entries| <= 1 || MemoryOf(entries) <= limits.maxMemory
  }

  /** Only the jobs that were not put back are counted. */
  ghost predicate MemoryInv(s: State, limits: Limits) {
    && (forall e :: e in s.pending ==> e.estimatedMem >= 2048)
    && s.restored <= |s.pending|
    && s.memory == MemoryOf(s.pending[s.restored..]) && Fits(s.pending[s.restored..], limits)
    && (!s.conversionFailed ==> s.restored == 0 && forall b :: b in s.batched ==> Fits(b, limits))
  }

  ghost predicate CountInv(s: State, limits: Limits) {
    && |s.pending| <= limits.maxRequests
    && (forall b :: b in s.batched ==> 1 <= |b| <= limits.maxRequests)
    && s.queued == |s.pending| + |Flatten(s.batched)| + |s.dropped|
    && s.sent == |s.batched|
  }

  /** Every identifier is used at most once, and those still to come are unused. */
  ghost predicate IDInv(s: State) {
    && (forall id :: UsesIn(s, id) <= 1)
    && forall nanos: nat, count: nat :: s.queued <= count ==> UsesIn(s, CustomID(nanos, count)) == 0
  }

  ghost predicate Inv(s: State, limits: Limits) {
    MemoryInv(s, limits) && CountInv(s, limits) && IDInv(s)
  }

  lemma FlushedKeepsInv(s: State, limits: Limits, sending: Sending)
    requires Inv(s, limits)
    ensures Inv(Flushed(s, sending), limits)
  {
    FlushedKeepsMemory(s, limits, sending);
    FlushedKeepsIDs(s, sending);
    FlattenAppend(s.batched, s.pending);
  }

  lemma FlushedKeepsMemory(s: State, limits: Limits, sending: Sending)
    requires MemoryInv(s, limits)
    ensures MemoryInv(Flushed(s, sending), limits)
  {
    assert s.pending[0..] == s.pending && s.pending[|s.pending|..] == [];
  }

  lemma FlushedKeepsIDs(s: State, sending: Sending)
    requires IDInv(s)
    ensures IDInv(Flushed(s, sending))
  {
    var t := Flushed(s, sending);
    forall id ensures UsesIn(t, id) == UsesIn(s, id) {
      FlattenAppend(s.batched, s.pending);
      UsesConcat(Flatten(s.batched), s.pending, id);
      UsesConcat(s.dropped, s.pending, id);
    }
  }

  lemma {:induction false} MemoryConcat(a: seq<Entry>, b: seq<Entry>)
    ensures MemoryOf(a + b) == MemoryOf(a) + MemoryOf(b)
  {
    if b == [] {
      assert a + b == a;
    } else {
      assert (a + b)[..|a + b| - 1] == a + b[..|b| - 1];
      MemoryConcat(a, b[..|b| - 1]);
    }
  }

  lemma {:induction false} MemoryAtLeast(entries: seq<Entry>)
    requires forall e :: e in entries ==> e.estimatedMem >= 2048
    ensures MemoryOf(entries) >= 2048 * |entries|
  {
    if entries != [] { MemoryAtLeast(entries[..|entries| - 1]); }
  }

  lemma AppendedKeepsInv(s: State, limits: Limits, e: Entry, nanos: nat)
    requires Inv(s, limits) && e.estimatedMem >= 2048 && e.customID == CustomID(nanos, s.queued)
    requires |s.pending| + 1 <= limits.maxRequests
    requires s.pending == [] || s.memory + e.estimatedMem <= limits.maxMemory
    ensures Inv(Appended(s, e), limits)
  {
    AppendedKeepsMemory(s, limits, e);
    AppendedKeepsIDs(s, e, nanos);
  }

  lemma AppendedKeepsMemory(s: State, limits: Limits, e: Entry)
    requires MemoryInv(s, limits) && e.estimatedMem >= 2048
    requires s.pending == [] || s.memory + e.estimatedMem <= limits.maxMemory
    ensures MemoryInv(Appended(s, e), limits)
  {
    assert (s.pending + [e])[s.restored..] == s.pending[s.restored..] + [e];
    MemoryConcat(s.pending[s.restored..], [e]);
  }

  lemma AppendedKeepsIDs(s: State, e: Entry, nanos: nat)
    requires IDInv(s) && e.customID == CustomID(nanos, s.queued)
    ensures IDInv(Appended(s, e))
  {
    var t := Appended(s, e);
    assert t.pending[..|s.pending|] == s.pending;
    forall id ensures UsesIn(t, id) == UsesIn(s, id) + if id == e.customID then 1 else 0 {}
    forall n: nat, k: nat | t.queued <= k ensures UsesIn(t, CustomID(n, k)) == 0 {
      if CustomID(n, k) == e.customID { CustomIDInjective(n, k, nanos, s.queued); }
    }
  }

  lemma AddedKeepsInv(s: State, limits: Limits, job: Job, nanos: nat, sending: Sending)
    requires Inv(s, limits) && limits.maxRequests >= 1
    ensures Inv(Added(s, limits, job, nanos, sending), limits)
  {
    if job.inputs.Some? {
      var e := Entry(job, CustomID(nanos, s.queued), EstimateJobMemory(job.inputs.value));
      if !MustFlush(s, limits, e.estimatedMem) {
        AppendedKeepsInv(s, limits, e, nanos);
      } else {
        FlushedKeepsInv(s, limits, sending);
        if FlushSucceeds(s, sending) { AppendedKeepsInv(Flushed(s, sending), limits, e, nanos); }
      }
    }
  }

  datatype Call = Add(job: Job, nanos: nat, sending: Sending) | Flush(sending: Sending)

  function After(limits: Limits, calls: seq<Call>): State {
    if calls == [] then Start else
      AfterCall(After(limits, calls[..|calls| - 1]), limits, calls[|calls| - 1])
  }

  function AfterCall(s: State, limits: Limits, call: Call): State {
    match call
    case Add(job, nanos, sending) => Added(s, limits, job, nanos, sending)
    case Flush(sending) => Flushed(s, sending)
  }

  lemma {:induction false} RunKeepsInv(limits: Limits, calls: seq<Call>)
    requires limits.maxRequests >= 1
    ensures Inv(After(limits, calls), limits)
    decreases |calls|
  {
    if calls != [] {
      var n := |calls| - 1;
      RunKeepsInv(limits, calls[..n]);
      match calls[n]
      case Add(job, nanos, sending) => AddedKeepsInv(After(limits, calls[..n]), limits, job, nanos, sending);
      case Flush(sending) => FlushedKeepsInv(After(limits, calls[..n]), limits, sending);
    }
  }

  /** How a flush of a nonempty queue ended that call `n` made, by itself or before adding. */
  function FlushIn(limits: Limits, calls: seq<Call>, n: nat): Option<Sending>
    requires n < |calls|
  {
    FlushOf(After(limits, calls[..n]), limits, calls[n])
  }

  function FlushOf(s: State, limits: Limits, call: Call): Option<Sending> {
    if s.pending == [] then None else
      match call
      case Flush(sending) => Some(sending)
      case Add(job, _, sending) =>
        if job.inputs.Some? && MustFlush(s, limits, EstimateJobMemory(job.inputs.value)) then Some(sending) else None
  }

  /** A conversion failed, and no flush has emptied the queue since. */
  ghost predicate FailedSince(limits: Limits, calls: seq<Call>) {
    exists n: nat :: n < |calls| && FlushIn(limits, calls, n) == Some(ConversionFails) &&
        NotEmptiedSince(limits, calls, n)
  }

  ghost predicate NotEmptiedSince(limits: Limits, calls: seq<Call>, n: nat) {
    forall m: nat :: n < m < |calls| ==>
      FlushIn(limits, calls, m).None? || FlushIn(limits, calls, m) == Some(ConversionFails)
  }

  lemma FlushInFirst(limits: Limits, calls: seq<Call>, k: nat, n: nat)
    requires n < k <= |calls|
    ensures FlushIn(limits, calls[..k], n) == FlushIn(limits, calls, n)
  {
    assert calls[..k][..n] == calls[..n];
  }

  /** One call more: it fails to convert, empties the queue, or leaves things as they were. */
  lemma FailedSinceStep(limits: Limits, calls: seq<Call>)
    requires calls != []
    ensures var last := FlushIn(limits, calls, |calls| - 1);
            FailedSince(limits, calls) <==>
            if last.None? then FailedSince(limits, calls[..|calls| - 1]) else last == Some(ConversionFails)
  {
    var k := |calls| - 1;
    var last := FlushIn(limits, calls, k);
    var before := calls[..k];
    if last == Some(ConversionFails) {
      assert NotEmptiedSince(limits, calls, k);
    } else if last.None? {
      if FailedSince(limits, before) {
        var n: nat :| n < k && FlushIn(limits, before, n) == Some(ConversionFails) &&
            NotEmptiedSince(limits, before, n);
        StillNotEmptied(limits, calls, n);
      }
      if FailedSince(limits, calls) {
        var n: nat :| n < |calls| && FlushIn(limits, calls, n) == Some(ConversionFails) &&
            NotEmptiedSince(limits, calls, n);
        StillNotEmptied(limits, calls, n);
      }
    }
  }

  lemma StillNotEmptied(limits: Limits, calls: seq<Call>, n: nat)
    requires n < |calls| - 1 && FlushIn(limits, calls, |calls| - 1).None?
    ensures NotEmptiedSince(limits, calls[..|calls| - 1], n) <==> NotEmptiedSince(limits, calls, n)
    ensures FlushIn(limits, calls[..|calls| - 1], n) == FlushIn(limits, calls, n)
  {
    var k := |calls| - 1;
    forall m: nat | m < k ensures FlushIn(limits, calls[..k], m) == FlushIn(limits, calls, m) {
      FlushInFirst(limits, calls, k, m);
    }
  }

  lemma {:induction false} RestoredIffFailed(limits: Limits, calls: seq<Call>)
    ensures After(limits, calls).restored > 0 <==> FailedSince(limits, calls)
    decreases |calls|
  {
    if calls != [] {
      var k := |calls| - 1;
      RestoredIffFailed(limits, calls[..k]);
      FailedSinceStep(limits, calls);
      RestoredStep(After(limits, calls[..k]), limits, calls[k]);
    }
  }

  lemma RestoredStep(s: State, limits: Limits, call: Call)
    ensures var last := FlushOf(s, limits, call);
            AfterCall(s, limits, call).restored > 0 <==>
            if last.None? then s.restored > 0 else last == Some(ConversionFails)
  {
  }

  /**
   Over every run: never more memory counted than pending, and exactly as much if and only if
   no conversion failed on a nonempty queue since the last flush that emptied it.
   */
  lemma CountedExactlyIff(limits: Limits, calls: seq<Call>)
    requires limits.maxRequests >= 1
    ensures var s := After(limits, calls);
            && 0 <= s.memory <= MemoryOf(s.pending)
            && (s.memory == MemoryOf(s.pending) <==> !FailedSince(limits, calls))
            && (!FailedSince(limits, calls) ==> Fits(s.pending, limits))
  {
    RunKeepsInv(limits, calls);
    RestoredIffFailed(limits, calls);
    var s := After(limits, calls);
    assert s.pending == s.pending[..s.restored] + s.pending[s.restored..];
    MemoryConcat(s.pending[..s.restored], s.pending[s.restored..]);
    MemoryAtLeast(s.pending[..s.restored]);
    MemoryAtLeast(s.pending[s.restored..]);
  }

  /**
   After a conversion failure the restored jobs are no longer counted: the queue can then
   hold more than the memory limit.
   */
  lemma UncountedAfterFailure(nanos: nat)
    ensures var limits, job := Limits(2, 3000), Job(Some(Inputs("", "")), true, true);
            var s := After(limits, [Add(job, nanos, Created), Flush(ConversionFails), Add(job, nanos, Created)]);
            s.memory == 2048 && |s.pending| == 2 && MemoryOf(s.pending) == 4096 && !Fits(s.pending, limits)
  {
    var limits, job := Limits(2, 3000), Job(Some(Inputs("", "")), true, true);
    var add, flush := Add(job, nanos, Created), Flush(ConversionFails);
    assert [add, flush, add][..2] == [add, flush] && [add, flush][..1] == [add] && [add][..0] == [];
    var e, f := Entry(job, CustomID(nanos, 0), 2048), Entry(job, CustomID(nanos, 1), 2048);
    assert After(limits, [add]) == Start.(pending := [e], memory := 2048, queued := 1);
    assert After(limits, [add, flush]) == Start.(pending := [e], queued := 1, restored := 1, conversionFailed := true);
    assert [e, f][..1] == [e] && [e][..0] == [];
    assert MemoryOf([e]) == 2048;
  }

  /** Two bytes for each character of the two prompts, and 2048 besides. */
  predicate Estimated(e: Entry) {
    && e.job.inputs.Some?
    && e.estimatedMem == 2 * |e.job.inputs.value.prompt| + 2 * |e.job.inputs.value.systemPrompt| + 2048
  }

  ghost predicate AllEstimated(s: State) {
    && (forall e :: e in s.pending ==> Estimated(e)) && (forall e :: e in s.dropped ==> Estimated(e))
    && forall b, e :: b in s.batched && e in b ==> Estimated(e)
  }

  /** In every run every job is entered with that estimate, wherever its entry goes. */
  lemma {:induction false} EveryEntryEstimated(limits: Limits, calls: seq<Call>)
    ensures AllEstimated(After(limits, calls))
    decreases |calls|
  {
    if calls != [] {
      var n := |calls| - 1;
      EveryEntryEstimated(limits, calls[..n]);
      var s := After(limits, calls[..n]);
      match calls[n]
      case Flush(sending) => FlushedEstimated(s, sending);
      case Add(job, nanos, sending) =>
        FlushedEstimated(s, sending);
        AddedEstimated(s, limits, job, nanos, sending);
    }
  }

  lemma FlushedEstimated(s: State, sending: Sending)
    requires AllEstimated(s)
    ensures AllEstimated(Flushed(s, sending))
  {
  }

  lemma AddedEstimated(s: State, limits: Limits, job: Job, nanos: nat, sending: Sending)
    requires AllEstimated(s) && AllEstimated(Flushed(s, sending))
    ensures AllEstimated(Added(s, limits, job, nanos, sending))
  {
  }

  // ---------- Delivering the responses of a batch ----------

  datatype Body = Convertible(completion: string) | Unconvertible(error: string)

  datatype Response = Response(customID: string, error: Option<string>, body: Option<Body>)

  /** How waiting for a batch ends. */
  datatype Completion =
    | WaitFailed(error: string)
    | Ended(status: string)        // in another status than completed
    | NoOutput
    | Unreadable(error: string)
    | Completed(responses: seq<Response>)

  datatype Message = ResultMessage(entry: Entry, completion: string) | ErrorMessage(entry: Entry, text: string)

  /** The last response with an identifier. */
  function ResponseFor(responses: seq<Response>, id: string): (r: Option<Response>)
    ensures r.Some? ==> r.value in responses && r.value.customID == id
    ensures r.None? ==> forall x :: x in responses ==> x.customID != id
  {
    if responses == [] then None
    else if responses[|responses| - 1].customID == id then Some(responses[|responses| - 1])
    else ResponseFor(responses[..|responses| - 1], id)
  }

  function Fail(e: Entry, text: string): seq<Message> {
    if e.job.hasError then [ErrorMessage(e, text)] else []
  }

  function Deliver(e: Entry, completion: Completion): (m: seq<Message>)
    ensures |m| <= 1 && forall x :: x in m ==> x.entry == e
  {
    match completion
    case WaitFailed(error) => Fail(e, "batch processing failed: " + error)
    case Ended(status) => Fail(e, "batch ended with status: " + status)
    case NoOutput => Fail(e, "batch completed but no output file available")
    case Unreadable(error) => Fail(e, "failed to read batch responses: " + error)
    case Completed(responses) =>
      match ResponseFor(responses, e.customID)
      case None => Fail(e, "no response found for job " + e.customID)
      case Some(Response(_, error, body)) =>
        if error.Some? then Fail(e, "batch request failed: " + error.value)
        else match body
          case None => []
          case Some(Unconvertible(error)) => Fail(e, "failed to convert response: " + error)
          case Some(Convertible(c)) => if e.job.hasResult then [ResultMessage(e, c)] else []
  }

  function DeliverAll(jobs: seq<Entry>, completion: Completion): seq<Message> {
    if jobs == [] then [] else DeliverAll(jobs[..|jobs| - 1], completion) + Deliver(jobs[|jobs| - 1], completion)
  }

  // ---------- What a job is owed ----------

  /** The response is the last one with the identifier. */
  ghost predicate Answers(responses: seq<Response>, id: string, r: Response) {
    exists i :: 0 <= i < |responses| && responses[i] == r && LastWith(responses, id, i)
  }

  ghost predicate LastWith(responses: seq<Response>, id: string, i: int) {
    && 0 <= i < |responses| && responses[i].customID == id
    && forall j :: i < j < |responses| ==> responses[j].customID != id
  }

  /** What the job hears when it is told of an error. */
  ghost predicate ErrorOwed(e: Entry, completion: Completion, text: string) {
    match completion
    case WaitFailed(error) => text == "batch processing failed: " + error
    case Ended(status) => text == "batch ended with status: " + status
    case NoOutput => text == "batch completed but no output file available"
    case Unreadable(error) => text == "failed to read batch responses: " + error
    case Completed(responses) =>
      || ((forall r :: r in responses ==> r.customID != e.customID) &&
          text == "no response found for job " + e.customID)
      || (exists r :: Answers(responses, e.customID, r) &&
                      if r.error.Some? then text == "batch request failed: " + r.error.value
                      else r.body.Some? && r.body.value.Unconvertible? &&
                           text == "failed to convert response: " + r.body.value.error)
  }

  /** The completion of the job's own response, or the error that stands in its way, to a channel that exists. */
  ghost predicate Owed(completion: Completion, m: Message) {
    match m
    case ErrorMessage(e, text) => e.job.hasError && ErrorOwed(e, completion, text)
    case ResultMessage(e, c) =>
      && e.job.hasResult && completion.Completed?
      && exists r :: Answers(completion.responses, e.customID, r) && r.error.None? && r.body == Some(Convertible(c))
  }

  lemma {:induction false} ResponseAnswers(responses: seq<Response>, id: string, r: Response)
    ensures ResponseFor(responses, id) == Some(r) <==> Answers(responses, id, r)
    decreases |responses|
  {
    if responses != [] {
      var n := |responses| - 1;
      ResponseAnswers(responses[..n], id, r);
      if responses[n].customID == id {
        LastAnswers(responses, id, r);
      } else {
        EarlierAnswers(responses, id, r);
      }
    }
  }

  lemma {:induction false} LastAnswers(responses: seq<Response>, id: string, r: Response)
    requires responses != [] && responses[|responses| - 1].customID == id
    ensures Answers(responses, id, r) <==> r == responses[|responses| - 1]
  {
    assert LastWith(responses, id, |responses| - 1);
  }

  lemma {:induction false} EarlierAnswers(responses: seq<Response>, id: string, r: Response)
    requires responses != [] && responses[|responses| - 1].customID != id
    ensures Answers(responses, id, r) <==> Answers(responses[..|responses| - 1], id, r)
  {
    var before := responses[..|responses| - 1];
    forall i | 0 <= i < |before| ensures before[i] == responses[i]
      ensures LastWith(responses, id, i) <==> LastWith(before, id, i)
    {
      assert forall j :: 0 <= j < |before| ==> before[j] == responses[j];
    }
    if i :| 0 <= i < |responses| && responses[i] == r && LastWith(responses, id, i) { assert before[i] == r; }
    if i :| 0 <= i < |before| && before[i] == r && LastWith(before, id, i) { assert responses[i] == r; }
  }

  lemma DeliverOwed(completion: Completion, m: Message)
    ensures m in Deliver(m.entry, completion) <==> Owed(completion, m)
  {
    var e := m.entry;
    if completion.Completed? {
      var responses := completion.responses;
      forall r ensures ResponseFor(responses, e.customID) == Some(r) <==> Answers(responses, e.customID, r) {
        ResponseAnswers(responses, e.customID, r);
      }
      match ResponseFor(responses, e.customID)
      case None => NoAnswer(responses, e.customID);
      case Some(r) => assert Answers(responses, e.customID, r) && r in responses;
    }
  }

  lemma NoAnswer(responses: seq<Response>, id: string)
    requires ResponseFor(responses, id).None?
    ensures forall r :: !Answers(responses, id, r)
  {
    forall r ensures !Answers(responses, id, r) { ResponseAnswers(responses, id, r); }
  }

  /** The monitor of a batch sends exactly what the jobs of the batch are owed. */
  lemma {:induction false} DeliversOwed(jobs: seq<Entry>, completion: Completion, m: Message)
    ensures m in DeliverAll(jobs, completion) <==> m.entry in jobs && Owed(completion, m)
    decreases |jobs|
  {
    if jobs != [] {
      var n := |jobs| - 1;
      DeliversOwed(jobs[..n], completion, m);
      DeliverOwed(completion, m);
      assert jobs == jobs[..n] + [jobs[n]];
    }
  }

  /** Sends an error to every job that has an error channel. */
  method FailAll(jobs: seq<Entry>, reason: string, ghost completion: Completion) returns (messages: seq<Message>)
    requires forall e :: Deliver(e, completion) == Fail(e, reason)
    ensures messages == DeliverAll(jobs, completion)
  {
    messages := [];
    for i := 0 to |jobs|
      invariant messages == DeliverAll(jobs[..i], completion)
    {
      assert jobs[..i + 1][..i] == jobs[..i];
      if jobs[i].job.hasError {
        messages := messages + [ErrorMessage(jobs[i], reason)];
      }
    }
    assert jobs[..|jobs|] == jobs;
  }

  method MapResponses(responses: seq<Response>) returns (responseMap: map<string, Response>)
    ensures forall id :: (id in responseMap <==> ResponseFor(responses, id).Some?)
    ensures forall id :: id in responseMap ==> ResponseFor(responses, id) == Some(responseMap[id])
  {
    responseMap := map[];
    for i := 0 to |responses|
      invariant forall id :: (id in responseMap <==> ResponseFor(responses[..i], id).Some?)
      invariant forall id :: id in responseMap ==> ResponseFor(responses[..i], id) == Some(responseMap[id])
    {
      assert responses[..i + 1][..i] == responses[..i];
      responseMap := responseMap[responses[i].customID := responses[i]];
    }
    assert responses[..|responses|] == responses;
  }

  method MonitorBatchCompletion(completion: Completion, jobs: seq<Entry>) returns (messages: seq<Message>)
    ensures messages == DeliverAll(jobs, completion)
    ensures forall m :: m in messages <==> m.entry in jobs && Owed(completion, m)
  {
    forall m ensures m in DeliverAll(jobs, completion) <==> m.entry in jobs && Owed(completion, m) {
      DeliversOwed(jobs, completion, m);
    }
    if completion.WaitFailed? {
      messages := FailAll(jobs, "batch processing failed: " + completion.error, completion);
      return;
    }
    if completion.Ended? {
      messages := FailAll(jobs, "batch ended with status: " + completion.status, completion);
      return;
    }
    if completion.NoOutput? {
      messages := FailAll(jobs, "batch completed but no output file available", completion);
      return;
    }
    if completion.Unreadable? {
      messages := FailAll(jobs, "failed to read batch responses: " + completion.error, completion);
      return;
    }
    var responseMap := MapResponses(completion.responses);
    messages := [];
    for i := 0 to |jobs|
      invariant messages == DeliverAll(jobs[..i], completion)
    {
      assert jobs[..i + 1][..i] == jobs[..i];
      var entry := jobs[i];
      if entry.customID !in responseMap {
        if entry.job.hasError {
          messages := messages + [ErrorMessage(entry, "no response found for job " + entry.customID)];
        }
        continue;
      }
      var resp := responseMap[entry.customID];
      if resp.error.Some? {
        if entry.job.hasError {
          messages := messages + [ErrorMessage(entry, "batch request failed: " + resp.error.value)];
        }
        continue;
      }
      if resp.body.Some? {
        if resp.body.value.Unconvertible? {
          if entry.job.hasError {
            messages := messages + [ErrorMessage(entry, "failed to convert response: " + resp.body.value.error)];
          }
          continue;
        }
        if entry.job.hasResult { messages := messages + [ResultMessage(entry, resp.body.value.completion)]; }
      }
    }
    assert jobs[..|jobs|] == jobs;
  }

  /** How many messages go to the job with an identifier. */
  function MessagesTo(messages: seq<Message>, id: string): nat {
    if messages == [] then 0 else
      MessagesTo(messages[..|messages| - 1], id) + if messages[|messages| - 1].entry.customID == id then 1 else 0
  }

  lemma MessagesMore(before: seq<Message>, more: seq<Message>, e: Entry, id: string)
    requires |more| <= 1 && forall m :: m in more ==> m.entry == e
    ensures MessagesTo(before + more, id) <= MessagesTo(before, id) + if e.customID == id then 1 else 0
  {
    if more == [] {
      assert before + more == before;
    } else {
      assert (before + more)[..|before|] == before && more[0] in more;
    }
  }

  lemma {:induction false} AtMostOneEach(jobs: seq<Entry>, completion: Completion, id: string)
    ensures MessagesTo(DeliverAll(jobs, completion), id) <= Uses(jobs, id)
  {
    if jobs != [] {
      var n := |jobs| - 1;
      AtMostOneEach(jobs[..n], completion, id);
      MessagesMore(DeliverAll(jobs[..n], completion), Deliver(jobs[n], completion), jobs[n], id);
    }
  }

  /** The job's channel is missing, or its response holds neither error nor body. */
  predicate Silent(e: Entry, completion: Completion) {
    if !completion.Completed? || ResponseFor(completion.responses, e.customID).None? then !e.job.hasError
    else
      var r := ResponseFor(completion.responses, e.customID).value;
      if r.error.Some? || (r.body.Some? && r.body.value.Unconvertible?) then !e.job.hasError
      else r.body.None? || !e.job.hasResult
  }

  lemma {:induction false} MessagesToOnly(jobs: seq<Entry>, e: Entry, completion: Completion)
    requires Uses(jobs, e.customID) <= 1
    ensures e in jobs ==> MessagesTo(DeliverAll(jobs, completion), e.customID) == |Deliver(e, completion)|
    ensures Uses(jobs, e.customID) == 0 ==> MessagesTo(DeliverAll(jobs, completion), e.customID) == 0 && e !in jobs
    decreases |jobs|
  {
    if jobs != [] {
      var n := |jobs| - 1;
      var before := DeliverAll(jobs[..n], completion);
      assert jobs == jobs[..n] + [jobs[n]];
      MessagesToOnly(jobs[..n], e, completion);
      MessagesExactly(before, Deliver(jobs[n], completion), jobs[n], e.customID);
    }
  }

  lemma MessagesExactly(before: seq<Message>, more: seq<Message>, e: Entry, id: string)
    requires |more| <= 1 && forall m :: m in more ==> m.entry == e
    ensures MessagesTo(before + more, id) == MessagesTo(before, id) + if e.customID == id then |more| else 0
  {
    if more == [] {
      assert before + more == before;
    } else {
      assert (before + more)[..|before|] == before && more[0] in more;
    }
  }

  /** In every run, a job of a batch is told exactly once how it ended, and not at all if it is silent. */
  lemma ToldOnceUnlessSilent(limits: Limits, calls: seq<Call>, b: seq<Entry>, e: Entry, completion: Completion)
    requires limits.maxRequests >= 1 && b in After(limits, calls).batched && e in b
    ensures MessagesTo(DeliverAll(b, completion), e.customID) == if Silent(e, completion) then 0 else 1
  {
    UsedOnceInBatch(limits, calls, b, e.customID);
    MessagesToOnly(b, e, completion);
    OneUnlessSilent(e, completion);
  }

  lemma OneUnlessSilent(e: Entry, completion: Completion)
    ensures |Deliver(e, completion)| == if Silent(e, completion) then 0 else 1
  {
  }

  lemma UsedOnceInBatch(limits: Limits, calls: seq<Call>, b: seq<Entry>, id: string)
    requires limits.maxRequests >= 1 && b in After(limits, calls).batched
    ensures Uses(b, id) <= 1
  {
    RunKeepsInv(limits, calls);
    UsesInBatch(After(limits, calls).batched, b, id);
    assert UsesIn(After(limits, calls), id) <= 1;
  }

  /** A completion sent to a job comes from a response with the job's own identifier. */
  lemma {:induction false} OwnResponse(jobs: seq<Entry>, completion: Completion, m: Message)
    requires m in DeliverAll(jobs, completion)
    ensures m.entry in jobs
    ensures m.ResultMessage? ==> completion.Completed?
    ensures m.ResultMessage? ==>
              exists r :: r in completion.responses && r.customID == m.entry.customID && r.error.None? &&
                          r.body == Some(Convertible(m.completion))
  {
    var n := |jobs| - 1;
    if m in DeliverAll(jobs[..n], completion) {
      OwnResponse(jobs[..n], completion, m);
    } else {
      assert m in Deliver(jobs[n], completion);
    }
  }

  lemma {:induction false} UsesInBatch(batched: seq<seq<Entry>>, b: seq<Entry>, id: string)
    requires b in batched
    ensures Uses(b, id) <= Uses(Flatten(batched), id)
  {
    UsesConcat(batched[0], Flatten(batched[1..]), id);
    if b != batched[0] { UsesInBatch(batched[1..], b, id); }
  }

  /** Over every run, however a batch ends, its monitor sends no job more than one message. */
  lemma AtMostOneMessage(limits: Limits, calls: seq<Call>, b: seq<Entry>, completion: Completion, id: string)
    requires limits.maxRequests >= 1 && b in After(limits, calls).batched
    ensures MessagesTo(DeliverAll(b, completion), id) <= 1
  {
    UsedOnceInBatch(limits, calls, b, id);
    AtMostOneEach(b, completion, id);
  }
}
