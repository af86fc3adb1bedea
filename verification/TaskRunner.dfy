/** One claimed task attempt, and one cycle over a batch of them. */
module TaskRunner {
  import opened Wrappers
  import opened TaskDelay

  const MAXIMUM_PAYLOAD_BYTES := 0x10_0000
  const MAXIMUM_BATCH := 500
  const DEFAULT_BATCH := 20

  /** The states an attempt can report; a task it leaves alone stays running until its lease ends. */
  datatype TaskState = Running | Succeeded | Queued | Failed

  /** The three store calls that end an attempt. */
  datatype Mutation = Complete | Fail(code: string, retryAfter: Option<Duration>) | Release

  datatype Reply = Accepted | LeaseGone | Refused

  datatype TaskError = LeaseLost | StoreFailed | CodecPanicked | HandlerPanicked | RuntimePanicked | ReconcileFailed

  datatype Record = Record(attempts: nat, maxAttempts: nat, retry: Retry)

  /** A stored task: its limits were validated when it was registered. */
  predicate Stored(r: Record) {
    Validated(r.retry) && 1 <= r.attempts && 1 <= r.maxAttempts <= 100
  }

  datatype Classification = Classification(code: string, retry: bool, retryAfter: Duration)

  /** A handler's error; a hostile one panics while it is being inspected. */
  datatype HandlerFailure = HandlerFailure(classified: Option<Classification>, panicked: bool, hostile: bool)

  datatype Handled = Returned(bytes: nat) | Threw(failure: HandlerFailure)

  /** The stored input after validation against the task's input type. */
  datatype Input = Input(valid: bool, panicked: bool, bytes: nat)

  /** Whether the worker is stopping, and whether a heartbeat has failed, when the attempt decides. */
  datatype Signals = Signals(stopping: bool, leaseLost: bool)

  datatype Surroundings = Surroundings(
    registered: bool, input: Input, refusal: Signals,
    expired: bool, handled: Handled, ending: Signals, timedOut: bool,
    reply: Mutation -> Reply)

  /** An attempt that gets as far as the task's own input. */
  predicate Attempted(r: Record, s: Surroundings) {
    s.registered && r.attempts <= r.maxAttempts
  }

  /** An input that the handler never sees; a payload is at most a mebibyte. */
  predicate Refusable(i: Input) {
    !i.valid || i.bytes > 1_048_576
  }

  /** The handler was called, or its time had run out before, and nothing stops the attempt from deciding. */
  predicate Decided(r: Record, s: Surroundings) {
    Attempted(r, s) && !Refusable(s.input) && !s.ending.stopping && !s.ending.leaseLost
  }

  /** What is made of a handler's error: by default it is retried, and a panic always is. */
  function Classified(f: HandlerFailure): (Classification, bool) {
    if f.hostile then (Classification("task_handler_panicked", true, 0), true)
    else if f.classified.Some? then (f.classified.value, f.panicked)
    else (Classification("task_failed", true, 0), f.panicked)
  }

  function ErrorOf(reply: Reply): TaskError {
    if reply.LeaseGone? then LeaseLost else StoreFailed
  }

  class TaskWorker {
    /** Every mutation this worker has asked the store for, in order. */
    var issued: seq<Mutation>

    constructor ()
      ensures issued == []
    {
      issued := [];
    }

    method Issue(m: Mutation, reply: Mutation -> Reply) returns (error: Option<TaskError>)
      modifies this
      ensures issued == old(issued) + [m]
      ensures error == if reply(m).Accepted? then None else Some(ErrorOf(reply(m)))
    {
      issued := issued + [m];
      var answer := reply(m);
      error := if answer.Accepted? then None else Some(ErrorOf(answer));
    }

    /** A failed attempt asks for a requeue, or for a final failure. */
    method RecordFailure(r: Record, f: HandlerFailure, timedOut: bool, reply: Mutation -> Reply)
      returns (outcome: TaskState, error: Option<TaskError>, ghost last: Option<Mutation>)
      requires Stored(r) && r.attempts <= r.maxAttempts
      modifies this
      ensures last.Some? && last.value.Fail? && issued == old(issued) + [last.value]
      ensures reply(last.value).Accepted? ==> outcome == if last.value.retryAfter.Some? then Queued else Failed
      ensures !reply(last.value).Accepted? ==> outcome == Running
      ensures error == (if reply(last.value).LeaseGone? then Some(LeaseLost)
                        else if reply(last.value).Refused? then Some(StoreFailed)
                        else if f.hostile || f.panicked then Some(HandlerPanicked) else None)
      ensures last.value.retryAfter.Some? <==>
                && r.attempts < r.maxAttempts
                && (|| f.hostile || f.classified.None? || f.classified.value.retry || (timedOut && !f.panicked))
      ensures last.value.code == (if f.hostile then "task_handler_panicked"
                                  else if timedOut && !f.panicked then "task_timeout"
                                  else if f.classified.Some? then f.classified.value.code else "task_failed")
      ensures last.value.retryAfter.Some? ==>
                var delay := last.value.retryAfter.value;
                var override := if !f.hostile && f.classified.Some? then f.classified.value.retryAfter else 0;
                && MILLISECOND <= delay <= r.retry.maximum && WholeMilliseconds(delay)
                && (override <= 0 ==> delay as int == Promised(r.retry, r.attempts))
                && (override > 0 ==> delay as int >= Min(override as int, r.retry.maximum as int))
    {
      var (classification, diagnostic) := Classified(f);
      var code, retry := classification.code, classification.retry;
      if !diagnostic && timedOut { code, retry := "task_timeout", true; }
      if r.attempts >= r.maxAttempts { retry := false; }
      var retryAfter: Option<Duration> := None;
      if retry {
        var delay := RetryDelay(r.retry, r.attempts as Duration, classification.retryAfter);
        retryAfter := Some(delay);
      }
      error := Issue(Fail(code, retryAfter), reply);
      if error.Some? { return Running, error, Some(Fail(code, retryAfter)); }
      outcome := if retryAfter.Some? then Queued else Failed;
      error := if diagnostic then Some(HandlerPanicked) else None;
      return outcome, error, Some(Fail(code, retryAfter));
    }

    /**
     * One attempt. It asks the store for at most one mutation; without an error that mutation
     * was recorded and the outcome names it.
     */
    method Execute(r: Record, s: Surroundings)
      returns (outcome: TaskState, error: Option<TaskError>, ghost last: Option<Mutation>)
      requires Stored(r)
      modifies this
      ensures issued == old(issued) + (if last.Some? then [last.value] else [])
      ensures error.None? ==>
                && last.Some? && s.reply(last.value).Accepted?
                && outcome == (match last.value
                               case Complete => Succeeded
                               case Fail(_, retryAfter) => if retryAfter.Some? then Queued else Failed
                               case Release => Running)
      ensures last.Some? && !s.reply(last.value).Accepted? ==> error.Some?
      ensures last.None? ==> outcome == Running && error == Some(LeaseLost)
      ensures error == (if last.None? then Some(LeaseLost)
                        else if s.reply(last.value).LeaseGone? then Some(LeaseLost)
                        else if s.reply(last.value).Refused? then Some(StoreFailed)
                        else if Attempted(r, s) && Refusable(s.input) && !s.refusal.stopping && s.input.panicked then
                          Some(CodecPanicked)
                        else if Decided(r, s) && !s.expired && s.handled.Threw?
                                && (s.handled.failure.hostile || s.handled.failure.panicked) then Some(HandlerPanicked)
                        else None)
      ensures last.None? <==>
                && Attempted(r, s)
                && (if Refusable(s.input) then s.refusal.leaseLost && !s.refusal.stopping
                    else s.ending.leaseLost && !s.ending.stopping)
      ensures last == Some(Release) <==>
                Attempted(r, s) && (if Refusable(s.input) then s.refusal.stopping else s.ending.stopping)
      ensures last == Some(Complete) <==>
                Decided(r, s) && !s.expired && s.handled.Returned? && s.handled.bytes <= 1_048_576
      ensures last.Some? && last.value.Fail? && last.value.retryAfter.Some? <==>
                && Decided(r, s) && r.attempts < r.maxAttempts
                && (|| s.expired
                    || (s.handled.Returned? && s.handled.bytes > 1_048_576 && s.timedOut)
                    || (s.handled.Threw?
                        && (|| s.handled.failure.hostile || s.handled.failure.classified.None?
                            || s.handled.failure.classified.value.retry
                            || (s.timedOut && !s.handled.failure.panicked))))
      ensures last.Some? && last.value.Fail? ==>
                last.value.code ==
                  (if !s.registered then "task_not_registered"
                   else if r.attempts > r.maxAttempts then "task_attempts_exhausted"
                   else if Refusable(s.input) then "task_input_invalid"
                   else if s.expired then if s.timedOut then "task_timeout" else "task_failed"
                   else if s.handled.Returned? then if s.timedOut then "task_timeout" else "task_output_too_large"
                   else if s.handled.failure.hostile then "task_handler_panicked"
                   else if s.timedOut && !s.handled.failure.panicked then "task_timeout"
                   else if s.handled.failure.classified.Some? then s.handled.failure.classified.value.code
                   else "task_failed")
      ensures last.Some? && last.value.Fail? && last.value.retryAfter.Some? ==>
                var delay := last.value.retryAfter.value;
                var override := if !s.expired && s.handled.Threw? && !s.handled.failure.hostile
                                   && s.handled.failure.classified.Some? then
                                  s.handled.failure.classified.value.retryAfter
                                else 0;
                && MILLISECOND <= delay <= r.retry.maximum && WholeMilliseconds(delay)
                && (override <= 0 ==> delay as int == Promised(r.retry, r.attempts))
                && (override > 0 ==> delay as int >= Min(override as int, r.retry.maximum as int))
    {
      if !s.registered {
        error := Issue(Fail("task_not_registered", None), s.reply);
        return Failed, error, Some(Fail("task_not_registered", None));
      }
      if r.attempts > r.maxAttempts {
        error := Issue(Fail("task_attempts_exhausted", None), s.reply);
        return Failed, error, Some(Fail("task_attempts_exhausted", None));
      }
      if !s.input.valid || s.input.bytes > MAXIMUM_PAYLOAD_BYTES {
        if s.refusal.stopping {
          error := Issue(Release, s.reply);
          return Running, error, Some(Release);
        }
        if s.refusal.leaseLost { return Running, Some(LeaseLost), None; }
        error := Issue(Fail("task_input_invalid", None), s.reply);
        if s.input.panicked && error.None? { error := Some(CodecPanicked); }
        return Failed, error, Some(Fail("task_input_invalid", None));
      }
      var failure: Option<HandlerFailure> := None;
      var bytes := 0;
      if s.expired {
        failure := Some(HandlerFailure(None, false, false));
      } else if s.handled.Threw? {
        failure := Some(s.handled.failure);
      } else {
        bytes := s.handled.bytes;
      }
      if s.ending.stopping {
        error := Issue(Release, s.reply);
        return Running, error, Some(Release);
      }
      if s.ending.leaseLost { return Running, Some(LeaseLost), None; }
      if failure.None? {
        if bytes > MAXIMUM_PAYLOAD_BYTES {
          failure := Some(HandlerFailure(Some(Classification("task_output_too_large", false, 0)), false, false));
        } else {
          error := Issue(Complete, s.reply);
          return if error.Some? then Running else Succeeded, error, Some(Complete);
        }
      }
      outcome, error, last := RecordFailure(r, failure.value, s.timedOut, s.reply);
    }
  }

  // ----- one cycle -----

  datatype Execution = Execution(outcome: TaskState, error: Option<TaskError>)

  datatype Summary = Summary(claimed: nat, succeeded: nat, retried: nat, failed: nat, released: nat, pruned: nat)

  /** Attempts that ended without a recorded outcome: still running, with an error. */
  function Unresolved(results: seq<Execution>): nat {
    if results == [] then 0
    else
      var n := |results| - 1;
      Unresolved(results[..n]) + if results[n].outcome.Running? && results[n].error.Some? then 1 else 0
  }

  function Count(results: seq<Execution>, outcome: TaskState): nat {
    if results == [] then 0
    else
      var n := |results| - 1;
      Count(results[..n], outcome) + if results[n].outcome == outcome then 1 else 0
  }

  /** The attempts that ended with an outcome. */
  function With(results: seq<Execution>, outcome: TaskState): set<int> {
    set i | 0 <= i < |results| && results[i].outcome == outcome
  }

  /** The attempts that an error left running. */
  function Stuck(results: seq<Execution>): set<int> {
    set i | 0 <= i < |results| && results[i].outcome.Running? && results[i].error.Some?
  }

  lemma LastOne(results: seq<Execution>, outcome: TaskState)
    requires results != []
    ensures var n := |results| - 1; var before, all := With(results[..n], outcome), With(results, outcome);
            n !in before && before <= all <= before + {n} && (n in all <==> results[n].outcome == outcome)
    ensures var n := |results| - 1; var before, all := Stuck(results[..n]), Stuck(results);
            n !in before && before <= all <= before + {n}
            && (n in all <==> results[n].outcome.Running? && results[n].error.Some?)
  {
  }

  lemma {:induction false} CountsOne(results: seq<Execution>, outcome: TaskState)
    ensures Count(results, outcome) == |With(results, outcome)| && Unresolved(results) == |Stuck(results)|
  {
    if results == [] {
      assert With(results, outcome) == {} && Stuck(results) == {};
    } else {
      var n := |results| - 1;
      CountsOne(results[..n], outcome);
      LastOne(results, outcome);
      hide With, Stuck;
      LastPosition(With(results[..n], outcome), With(results, outcome), n);
      LastPosition(Stuck(results[..n]), Stuck(results), n);
    }
  }

  lemma {:induction false} FourOutcomes(results: seq<Execution>)
    ensures Count(results, Succeeded) + Count(results, Queued) + Count(results, Failed) + Count(results, Running)
            == |results|
  {
    if results != [] { FourOutcomes(results[..|results| - 1]); }
  }

  /** A count is the number of attempts with that outcome, and every attempt has one of the four. */
  lemma CountsPositions(results: seq<Execution>, outcome: TaskState)
    ensures Count(results, outcome) == |With(results, outcome)| && Unresolved(results) == |Stuck(results)|
    ensures Count(results, Succeeded) + Count(results, Queued) + Count(results, Failed) + Count(results, Running)
            == |results|
  {
    CountsOne(results, outcome);
    FourOutcomes(results);
  }

  lemma LastPosition(before: set<int>, all: set<int>, n: nat)
    requires n !in before && before <= all <= before + {n}
    ensures |all| == |before| + if n in all then 1 else 0
  {
    assert all == if n in all then before + {n} else before;
  }

  /** Results arrive in any order; each claimed task sends exactly one. */
  method CountResults(results: seq<Execution>, reconcileErrors: seq<TaskError>)
    returns (summary: Summary, errors: seq<TaskError>)
    ensures summary.claimed == |results| && summary.pruned == 0
    ensures summary.succeeded == Count(results, Succeeded) && summary.retried == Count(results, Queued)
    ensures summary.failed == Count(results, Failed)
    ensures summary.claimed
            == summary.succeeded + summary.retried + summary.failed + summary.released + Unresolved(results)
    ensures errors == [] <==> reconcileErrors == [] && forall i | 0 <= i < |results| :: results[i].error.None?
    ensures errors == [] ==> Unresolved(results) == 0
  {
    summary := Summary(|results|, 0, 0, 0, 0, 0);
    errors := reconcileErrors;
    var i := 0;
    while i < |results|
      invariant i <= |results| && summary.claimed == |results| && summary.pruned == 0
      invariant summary.succeeded == Count(results[..i], Succeeded) && summary.retried == Count(results[..i], Queued)
      invariant summary.failed == Count(results[..i], Failed)
      invariant i == summary.succeeded + summary.retried + summary.failed + summary.released + Unresolved(results[..i])
      invariant errors == [] <==> reconcileErrors == [] && forall j | 0 <= j < i :: results[j].error.None?
      invariant errors == [] ==> Unresolved(results[..i]) == 0
    {
      var result := results[i];
      assert results[..i + 1][..i] == results[..i];
      match result.outcome {
        case Succeeded => summary := summary.(succeeded := summary.succeeded + 1);
        case Queued => summary := summary.(retried := summary.retried + 1);
        case Failed => summary := summary.(failed := summary.failed + 1);
        case Running => if result.error.None? { summary := summary.(released := summary.released + 1); }
      }
      if result.error.Some? { errors := errors + [result.error.value]; }
      i := i + 1;
    }
    assert results[..i] == results;
  }

  /** The summary of a cycle. Pruning, when it is asked for, follows a cycle without errors only. */
  method Tally(results: seq<Execution>, reconcileErrors: seq<TaskError>, pruneLimit: int,
               prune: int -> Result<nat, TaskError>)
    returns (summary: Summary, errors: seq<TaskError>)
    ensures summary.claimed == |results|
    ensures summary.succeeded == Count(results, Succeeded) && summary.retried == Count(results, Queued)
    ensures summary.failed == Count(results, Failed)
    ensures summary.claimed
            == summary.succeeded + summary.retried + summary.failed + summary.released + Unresolved(results)
    ensures errors == [] ==> Unresolved(results) == 0
    ensures var clean := reconcileErrors == [] && forall i | 0 <= i < |results| :: results[i].error.None?;
            && (clean && pruneLimit > 0 ==>
                  var pruned := prune(if pruneLimit > 500 then 500 else pruneLimit);
                  && (pruned.Ok? ==> errors == [] && summary.pruned == pruned.value)
                  && (pruned.Err? ==> errors == [StoreFailed] && summary.pruned == 0))
            && (!(clean && pruneLimit > 0) ==> summary.pruned == 0 && (errors == [] <==> clean))
  {
    summary, errors := CountResults(results, reconcileErrors);
    if errors != [] || pruneLimit <= 0 { return; }
    var pruned := prune(if pruneLimit > MAXIMUM_BATCH then MAXIMUM_BATCH else pruneLimit);
    if pruned.Err? { return summary, [StoreFailed]; }
    summary := summary.(pruned := pruned.value);
  }

  /** The bounds a cycle runs under, whatever the caller asked for. */
  method Bounds(limit: int, lease: Duration, heartbeat: Duration)
    returns (claim: nat, leased: Duration, beat: Duration)
    ensures 1 <= claim <= 500
    ensures 1 <= limit <= 500 ==> claim == limit
    ensures limit > 500 ==> claim == 500
    ensures limit <= 0 ==> claim == 20
    ensures MILLISECOND <= leased <= MAXIMUM_LEASE && WholeMilliseconds(leased)
    ensures lease > 86_400_000_000_000 ==> leased == 86_400_000_000_000
    ensures lease <= 0 ==> leased == 30_000_000_000
    ensures 0 < lease <= 86_400_000_000_000 ==> lease <= leased < lease + MILLISECOND
    ensures 0 < beat < leased
    ensures 0 < heartbeat < leased ==> beat == heartbeat
  {
    claim := if limit <= 0 then DEFAULT_BATCH else if limit > MAXIMUM_BATCH then MAXIMUM_BATCH else limit;
    leased := if lease <= 0 then DEFAULT_LEASE else if lease > MAXIMUM_LEASE then MAXIMUM_LEASE else lease;
    leased := CeilMilliseconds(leased);
    WholeIsPositive(leased);
    CeiledLease(leased);
    beat := heartbeat;
    if heartbeat <= 0 || heartbeat >= leased { beat := leased / 3; }
  }

  /** A day is whole milliseconds, so rounding up stays within it. */
  lemma CeiledLease(d: Duration)
    requires 0 < d < MAXIMUM_LEASE + MILLISECOND && WholeMilliseconds(d)
    ensures d <= MAXIMUM_LEASE
  {
  }
}
