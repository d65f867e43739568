/** The job store's calls as one alphabet, and what one call can do to one job. */
module JobCalls {
  import opened Prelude
  import opened JobModel

  datatype Call =
    | EnqueueCall(newId: string, sessionId: string, at: Time)
    | ClaimCall(worker: string, at: Time, lease: int)
    | ExtendCall(id: string, worker: string, at: Time, lease: int)
    | ReserveCall(id: string, worker: string, card: string, version: string, at: Time)
    | RetryCall(id: string, worker: string, at: Time, availableAt: Time)
    | CompleteCall(id: string, worker: string, at: Time)
    | FailCall(id: string, worker: string, at: Time)
    | CancelCall(sessionId: string, at: Time)

  datatype Outcome =
    | Enqueued
    | Claimed(job: Result<Job, JobError>)
    | Reserved(publication: Result<Publication, JobError>)
    | Done(result: Result<(), JobError>)

  datatype Memory = Memory(jobs: Jobs, index: map<string, string>)

  ghost function MemoryStep(m: Memory, call: Call): (Memory, Outcome)
  {
    match call
    case EnqueueCall(newId, sessionId, at) =>
      var (jobs, index) := Enqueue(m.jobs, m.index, newId, sessionId, at);
      (Memory(jobs, index), Enqueued)
    case ClaimCall(worker, at, lease) =>
      var (jobs, r) := Claim(m.jobs, worker, at, lease);
      (Memory(jobs, m.index), Claimed(r))
    case ExtendCall(id, worker, at, lease) =>
      var (jobs, r) := ExtendLease(m.jobs, id, worker, at, lease);
      (Memory(jobs, m.index), Done(r))
    case ReserveCall(id, worker, card, version, at) =>
      var (jobs, r) := ReservePublication(m.jobs, id, worker, card, version, at);
      (Memory(jobs, m.index), Reserved(r))
    case RetryCall(id, worker, at, availableAt) =>
      var (jobs, r) := Retry(m.jobs, id, worker, at, availableAt);
      (Memory(jobs, m.index), Done(r))
    case CompleteCall(id, worker, at) =>
      var (jobs, r) := Finish(m.jobs, id, worker, Completed, at);
      (Memory(jobs, m.index), Done(r))
    case FailCall(id, worker, at) =>
      var (jobs, r) := Finish(m.jobs, id, worker, Failed, at);
      (Memory(jobs, m.index), Done(r))
    case CancelCall(sessionId, at) =>
      (Memory(Cancel(m.jobs, m.index, sessionId, at), m.index), Done(Ok(())))
  }

  ghost function MemoryRun(m: Memory, calls: seq<Call>): (r: seq<Outcome>)
    ensures |r| == |calls|
    decreases |calls|
  {
    if calls == [] then [] else
      var (next, outcome) := MemoryStep(m, calls[0]);
      [outcome] + MemoryRun(next, calls[1..])
  }

  /** The store after the first n calls. */
  ghost function StateAfter(m: Memory, calls: seq<Call>, n: nat): Memory
    requires n <= |calls|
    decreases n
  {
    if n == 0 then m else StateAfter(MemoryStep(m, calls[0]).0, calls[1..], n - 1)
  }

  lemma {:induction false} StateSteps(m: Memory, calls: seq<Call>, n: nat)
    requires n < |calls|
    ensures StateAfter(m, calls, n + 1) == MemoryStep(StateAfter(m, calls, n), calls[n]).0
    decreases n
  {
    if n > 0 {
      assert calls[1..][n - 1] == calls[n];
      StateSteps(MemoryStep(m, calls[0]).0, calls[1..], n - 1);
    }
  }

  /** Ids handed to Enqueue are new. */
  ghost predicate FreshIds(m: Memory, calls: seq<Call>)
    decreases |calls|
  {
    calls == [] ||
    ((calls[0].EnqueueCall? ==> calls[0].newId !in m.jobs) && FreshIds(MemoryStep(m, calls[0]).0, calls[1..]))
  }

  /** Calls on one job by its holder. */
  predicate ByHolder(call: Call)
  {
    call.ExtendCall? || call.ReserveCall? || call.RetryCall? || call.CompleteCall? || call.FailCall?
  }

  function MemoryRow(job: Job, call: Call): (Job, Outcome)
    requires ByHolder(call)
  {
    match call
    case ExtendCall(id, worker, at, lease) =>
      var (after, r) := ExtendJob(job, worker, at, lease); (after, Done(r))
    case ReserveCall(id, worker, card, version, at) =>
      var (after, r) := ReserveJob(job, worker, card, version, at); (after, Reserved(r))
    case RetryCall(id, worker, at, availableAt) =>
      var (after, r) := RetryJob(job, worker, at, availableAt); (after, Done(r))
    case CompleteCall(id, worker, at) =>
      var (after, r) := FinishJob(job, worker, Completed, at); (after, Done(r))
    case FailCall(id, worker, at) =>
      var (after, r) := FinishJob(job, worker, Failed, at); (after, Done(r))
  }

  lemma HolderStep(m: Memory, call: Call)
    requires ByHolder(call) && call.id in m.jobs
    ensures MemoryStep(m, call) ==
            (Memory(m.jobs[call.id := MemoryRow(m.jobs[call.id], call).0], m.index), MemoryRow(m.jobs[call.id], call).1)
  {
  }

  // ----- one call seen from one job -----

  datatype Change = Kept | Granting | Expiring | Holding | Cancelling

  ghost function ChangeOf(m: Memory, call: Call, id: string): Change
    requires id in m.jobs
  {
    match call
    case EnqueueCall(_, _, _) => Kept
    case ClaimCall(worker, at, lease) =>
      if Winner(m.jobs, at) == Some(id) then Granting
      else if ClaimedJob(m.jobs[id], WinnerJob(m.jobs, at), worker, at, lease) == m.jobs[id] then Kept
      else Expiring
    case CancelCall(sessionId, at) => if sessionId == m.jobs[id].sessionId then Cancelling else Kept
    case _ => if call.id == id then Holding else Kept
  }

  function Changed(job: Job, change: Change, call: Call): Job
    requires change == Granting || change == Expiring ==> call.ClaimCall?
    requires change == Holding ==> ByHolder(call)
  {
    match change
    case Kept => job
    case Granting => Granted(job, call.worker, call.at, call.lease)
    case Expiring => Released(job, Failed, call.at)
    case Holding => MemoryRow(job, call).0
    case Cancelling => CancelJob(job, call.at)
  }

  /** Every call leaves a job as it is or changes it in one of four ways. */
  lemma OneJobStep(m: Memory, call: Call, id: string)
    requires Indexed(m.jobs, m.index) && id in m.jobs && (call.EnqueueCall? ==> call.newId !in m.jobs)
    ensures var change := ChangeOf(m, call, id);
            && (change == Granting || change == Expiring ==> call.ClaimCall? && Claimable(m.jobs[id], call.at))
            && (change == Granting ==> !Exhausted(m.jobs[id])) && (change == Expiring ==> Exhausted(m.jobs[id]))
            && (change == Holding ==> ByHolder(call) && call.id == id)
            && id in MemoryStep(m, call).0.jobs
            && MemoryStep(m, call).0.jobs[id] == Changed(m.jobs[id], change, call)
  {
    match call
    case EnqueueCall(newId, sessionId, at) =>
    case ClaimCall(worker, at, lease) =>
    case CancelCall(sessionId, at) =>
      if sessionId == m.jobs[id].sessionId {
        assert m.index[sessionId] == id;
      }
    case _ =>
      if call.id in m.jobs {
        HolderStep(m, call);
      }
  }

  predicate Returns(outcome: Outcome, id: string)
  {
    outcome.Claimed? && outcome.job.Ok? && outcome.job.value.id == id
  }

  /** A claim returns a job exactly when it grants it. */
  lemma ClaimReturns(m: Memory, call: Call, id: string)
    requires Indexed(m.jobs, m.index) && id in m.jobs && call.ClaimCall?
    ensures ChangeOf(m, call, id) == Granting <==> Returns(MemoryStep(m, call).1, id)
    ensures ChangeOf(m, call, id) == Granting ==>
              MemoryStep(m, call).1.job.value == MemoryStep(m, call).0.jobs[id]
  {
  }

  lemma StepIndexed(m: Memory, call: Call)
    requires Indexed(m.jobs, m.index) && (call.EnqueueCall? ==> call.newId !in m.jobs)
    ensures Indexed(MemoryStep(m, call).0.jobs, MemoryStep(m, call).0.index)
  {
    match call
    case EnqueueCall(newId, sessionId, at) =>
      if sessionId !in m.index {
        IndexedAdd(m.jobs, m.index, NewJob(newId, sessionId, at));
      }
    case ClaimCall(worker, at, lease) => ClaimIndexed(m.jobs, m.index, worker, at, lease);
    case CancelCall(sessionId, at) =>
      if sessionId in m.index {
        IndexedPut(m.jobs, m.index, m.index[sessionId], CancelJob(m.jobs[m.index[sessionId]], at));
      }
    case _ =>
      if call.id in m.jobs {
        HolderStep(m, call);
        IndexedPut(m.jobs, m.index, call.id, MemoryRow(m.jobs[call.id], call).0);
      }
  }
}
