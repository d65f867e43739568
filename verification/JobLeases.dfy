/**
 What leases promise over any sequence of calls: a lost lease stays lost, a kept lease keeps
 the job, and a job is handed out only a bounded number of times.
 */
module JobLeases {
  import opened Prelude
  import opened JobModel
  import opened JobCalls

  // ----- fencing -----

  predicate Dispossessed(job: Job, worker: string)
  {
    job.status != Running || job.leaseOwner != worker
  }

  predicate NoClaimBy(calls: seq<Call>, worker: string)
  {
    forall i :: 0 <= i < |calls| && calls[i].ClaimCall? ==> calls[i].worker != worker
  }

  predicate HolderCallBy(call: Call, id: string, worker: string)
  {
    ByHolder(call) && call.id == id && call.worker == worker
  }

  /** Only a claim by the worker itself can give it a job back. */
  lemma DispossessedStep(m: Memory, call: Call, id: string, worker: string)
    requires Indexed(m.jobs, m.index) && id in m.jobs && (call.EnqueueCall? ==> call.newId !in m.jobs)
    requires Dispossessed(m.jobs[id], worker) && (call.ClaimCall? ==> call.worker != worker)
    ensures id in MemoryStep(m, call).0.jobs && Dispossessed(MemoryStep(m, call).0.jobs[id], worker)
    ensures HolderCallBy(call, id, worker) ==> MemoryStep(m, call).0.jobs[id] == m.jobs[id]
  {
    OneJobStep(m, call, id);
  }

  /** Whatever a former holder sends, at whatever time it believes it is, its old job does not move. */
  lemma {:induction false} FormerHolderIsFenced(m: Memory, calls: seq<Call>, id: string, worker: string, i: nat)
    requires Indexed(m.jobs, m.index) && FreshIds(m, calls)
    requires id in m.jobs && Dispossessed(m.jobs[id], worker) && NoClaimBy(calls, worker)
    requires i < |calls| && HolderCallBy(calls[i], id, worker)
    ensures id in StateAfter(m, calls, i).jobs && id in StateAfter(m, calls, i + 1).jobs
    ensures StateAfter(m, calls, i + 1).jobs[id] == StateAfter(m, calls, i).jobs[id]
    decreases i
  {
    var next := MemoryStep(m, calls[0]).0;
    DispossessedStep(m, calls[0], id, worker);
    if i == 0 {
      assert StateAfter(next, calls[1..], 0) == next;
    } else {
      StepIndexed(m, calls[0]);
      assert forall k :: 0 <= k < |calls[1..]| ==> calls[1..][k] == calls[k + 1];
      FormerHolderIsFenced(next, calls[1..], id, worker, i - 1);
    }
  }

  /** A claim by someone else is what dispossesses the former holder. */
  lemma ReclaimFences(m: Memory, claim: Call, calls: seq<Call>, id: string, worker: string, i: nat)
    requires Indexed(m.jobs, m.index) && id in m.jobs
    requires claim.ClaimCall? && claim.worker != worker && Returns(MemoryStep(m, claim).1, id)
    requires FreshIds(MemoryStep(m, claim).0, calls) && NoClaimBy(calls, worker)
    requires i < |calls| && HolderCallBy(calls[i], id, worker)
    ensures var taken := MemoryStep(m, claim).0;
            && id in StateAfter(taken, calls, i).jobs && id in StateAfter(taken, calls, i + 1).jobs
            && StateAfter(taken, calls, i + 1).jobs[id] == StateAfter(taken, calls, i).jobs[id]
  {
    ClaimReturns(m, claim, id);
    OneJobStep(m, claim, id);
    StepIndexed(m, claim);
    FormerHolderIsFenced(MemoryStep(m, claim).0, calls, id, worker, i);
  }

  // ----- keeping a lease alive -----

  predicate IsBeat(call: Call, id: string, worker: string, lease: int)
  {
    call.ExtendCall? && call.id == id && call.worker == worker && call.lease == lease
  }

  /** The holder has not let the job go, nor has the user cancelled it. */
  predicate StillWanted(call: Call, id: string, worker: string, sessionId: string)
  {
    && !(call.CancelCall? && call.sessionId == sessionId)
    && !((call.RetryCall? || call.CompleteCall? || call.FailCall?) && call.id == id && call.worker == worker)
    && (call.ExtendCall? && call.id == id && call.worker == worker ==> call.lease > 0)
  }

  /** Every call falls less than a lease after the holder's last beat. */
  predicate BeatsInTime(calls: seq<Call>, id: string, worker: string, lease: int, last: Time)
  {
    calls != [] ==>
      && last <= calls[0].at < last + lease
      && BeatsInTime(calls[1..], id, worker, lease, if IsBeat(calls[0], id, worker, lease) then calls[0].at else last)
  }

  predicate AllWanted(calls: seq<Call>, id: string, worker: string, sessionId: string, lease: int)
  {
    forall i :: 0 <= i < |calls| ==>
      && StillWanted(calls[i], id, worker, sessionId)
      && (calls[i].ExtendCall? && calls[i].id == id && calls[i].worker == worker ==> calls[i].lease == lease)
  }

  predicate HeldThrough(job: Job, worker: string, until: Time)
  {
    job.status == Running && job.leaseOwner == worker && job.leaseUntil >= until
  }

  lemma KeptStep(m: Memory, call: Call, id: string, worker: string, lease: int, last: Time)
    requires Indexed(m.jobs, m.index) && id in m.jobs && (call.EnqueueCall? ==> call.newId !in m.jobs)
    requires lease > 0 && HeldThrough(m.jobs[id], worker, last + lease) && last <= call.at < last + lease
    requires StillWanted(call, id, worker, m.jobs[id].sessionId)
    requires call.ExtendCall? && call.id == id && call.worker == worker ==> call.lease == lease
    ensures id in MemoryStep(m, call).0.jobs
    ensures var job := MemoryStep(m, call).0.jobs[id];
            && job.sessionId == m.jobs[id].sessionId
            && HeldThrough(job, worker, (if IsBeat(call, id, worker, lease) then call.at else last) + lease)
    ensures !Returns(MemoryStep(m, call).1, id)
    ensures IsBeat(call, id, worker, lease) ==> MemoryStep(m, call).1 == Done(Ok(()))
  {
    OneJobStep(m, call, id);
    if call.ClaimCall? {
      ClaimReturns(m, call, id);
    }
    if ByHolder(call) && call.id == id {
      HolderStep(m, call);
    }
  }

  /** No claim, by anyone, returns a job whose holder beats in time, and every beat succeeds. */
  lemma {:induction false} KeptLeaseKeepsJob(
      m: Memory, calls: seq<Call>, id: string, worker: string, lease: int, last: Time, i: nat)
    requires Indexed(m.jobs, m.index) && FreshIds(m, calls) && id in m.jobs
    requires lease > 0 && HeldThrough(m.jobs[id], worker, last + lease)
    requires BeatsInTime(calls, id, worker, lease, last)
    requires AllWanted(calls, id, worker, m.jobs[id].sessionId, lease)
    requires i < |calls|
    ensures !Returns(MemoryRun(m, calls)[i], id)
    ensures IsBeat(calls[i], id, worker, lease) ==> MemoryRun(m, calls)[i] == Done(Ok(()))
    decreases i
  {
    KeptStep(m, calls[0], id, worker, lease, last);
    if i > 0 {
      var (next, answer) := MemoryStep(m, calls[0]);
      StepIndexed(m, calls[0]);
      assert forall k :: 0 <= k < |calls[1..]| ==> calls[1..][k] == calls[k + 1];
      KeptLeaseKeepsJob(next, calls[1..], id, worker, lease,
                        if IsBeat(calls[0], id, worker, lease) then calls[0].at else last, i - 1);
      assert MemoryRun(m, calls)[i] == MemoryRun(next, calls[1..])[i - 1];
    }
  }

  /**
   The worker's own schedule: beats on the ticks start + k * interval, of which never two in a
   row are lost, so nothing happens later than two ticks after the last beat.
   */
  predicate OnTicks(calls: seq<Call>, id: string, worker: string, lease: int, start: Time, interval: int, tick: nat)
  {
    calls != [] ==>
      var last := start + tick * interval;
      && last <= calls[0].at <= last + 2 * interval
      && if IsBeat(calls[0], id, worker, lease) then
           || (calls[0].at == start + (tick + 1) * interval
               && OnTicks(calls[1..], id, worker, lease, start, interval, tick + 1))
           || (calls[0].at == start + (tick + 2) * interval
               && OnTicks(calls[1..], id, worker, lease, start, interval, tick + 2))
         else OnTicks(calls[1..], id, worker, lease, start, interval, tick)
  }

  /** The check in worker.New, 2 * interval < lease, is what makes ticks come in time. */
  lemma {:induction false} TicksBeatInTime(
      calls: seq<Call>, id: string, worker: string, lease: int, start: Time, interval: int, tick: nat)
    requires 0 < interval && interval * 2 < lease
    requires OnTicks(calls, id, worker, lease, start, interval, tick)
    ensures BeatsInTime(calls, id, worker, lease, start + tick * interval)
  {
    if calls != [] {
      if IsBeat(calls[0], id, worker, lease) {
        if calls[0].at == start + (tick + 1) * interval
           && OnTicks(calls[1..], id, worker, lease, start, interval, tick + 1) {
          TicksBeatInTime(calls[1..], id, worker, lease, start, interval, tick + 1);
        } else {
          TicksBeatInTime(calls[1..], id, worker, lease, start, interval, tick + 2);
        }
      } else {
        TicksBeatInTime(calls[1..], id, worker, lease, start, interval, tick);
      }
    }
  }

  /** From the claim on, a worker that ticks as configured is never overtaken. */
  lemma ConfiguredWorkerKeepsJob(
      m: Memory, claim: Call, calls: seq<Call>, id: string, interval: int, i: nat)
    requires Indexed(m.jobs, m.index) && claim.ClaimCall? && id in m.jobs
    requires 0 < interval && interval * 2 < claim.lease
    requires Returns(MemoryStep(m, claim).1, id)
    requires FreshIds(MemoryStep(m, claim).0, calls) && i < |calls|
    requires OnTicks(calls, id, claim.worker, claim.lease, claim.at, interval, 0)
    requires AllWanted(calls, id, claim.worker, m.jobs[id].sessionId, claim.lease)
    ensures !Returns(MemoryRun(MemoryStep(m, claim).0, calls)[i], id)
  {
    ClaimReturns(m, claim, id);
    OneJobStep(m, claim, id);
    StepIndexed(m, claim);
    TicksBeatInTime(calls, id, claim.worker, claim.lease, claim.at, interval, 0);
    KeptLeaseKeepsJob(MemoryStep(m, claim).0, calls, id, claim.worker, claim.lease, claim.at, i);
  }

  // ----- bounded attempts -----

  predicate Sound(job: Job)
  {
    job.attempts <= job.maxAttempts
  }

  /** How many more times a job's status can still change. */
  function Budget(job: Job): nat
    requires Sound(job)
  {
    if Terminal(job.status) then 0
    else 2 * (job.maxAttempts - job.attempts) + (if job.status == Running then 2 else 1)
  }

  /** A claim or a status change: what the budget pays for. */
  predicate Event(before: Job, after: Job)
  {
    before.status != after.status || before.attempts != after.attempts
  }

  lemma BudgetStep(m: Memory, call: Call, id: string)
    requires Indexed(m.jobs, m.index) && id in m.jobs && (call.EnqueueCall? ==> call.newId !in m.jobs)
    requires Sound(m.jobs[id])
    ensures id in MemoryStep(m, call).0.jobs
    ensures var before, after := m.jobs[id], MemoryStep(m, call).0.jobs[id];
            && Sound(after) && after.maxAttempts == before.maxAttempts
            && Budget(after) <= Budget(before)
            && (Event(before, after) ==> Budget(after) < Budget(before))
            && after.attempts == before.attempts + (if ChangeOf(m, call, id) == Granting then 1 else 0)
  {
    OneJobStep(m, call, id);
  }

  /** Calls of the run that returned the job to a worker. */
  ghost function ClaimsOf(m: Memory, calls: seq<Call>, id: string): nat
    requires id in m.jobs
    decreases |calls|
  {
    if calls == [] then 0 else
      var next := MemoryStep(m, calls[0]).0;
      (if ChangeOf(m, calls[0], id) == Granting then 1 else 0)
      + (if id in next.jobs then ClaimsOf(next, calls[1..], id) else 0)
  }

  ghost function EventsOf(m: Memory, calls: seq<Call>, id: string): nat
    requires id in m.jobs
    decreases |calls|
  {
    if calls == [] then 0 else
      var next := MemoryStep(m, calls[0]).0;
      if id !in next.jobs then 0 else
        (if Event(m.jobs[id], next.jobs[id]) then 1 else 0) + EventsOf(next, calls[1..], id)
  }

  lemma {:induction false} ClaimsAreBounded(m: Memory, calls: seq<Call>, id: string)
    requires Indexed(m.jobs, m.index) && FreshIds(m, calls) && id in m.jobs && Sound(m.jobs[id])
    ensures ClaimsOf(m, calls, id) + m.jobs[id].attempts <= m.jobs[id].maxAttempts
    ensures EventsOf(m, calls, id) <= Budget(m.jobs[id])
    decreases |calls|
  {
    if calls != [] {
      BudgetStep(m, calls[0], id);
      StepIndexed(m, calls[0]);
      ClaimsAreBounded(MemoryStep(m, calls[0]).0, calls[1..], id);
    }
  }

  /** A job fresh from Enqueue is claimed at most three times and changes status at most seven times. */
  lemma NewJobIsBounded(m: Memory, calls: seq<Call>, newId: string, sessionId: string, at: Time)
    requires Indexed(m.jobs, m.index) && newId !in m.jobs && sessionId !in m.index
    requires FreshIds(MemoryStep(m, EnqueueCall(newId, sessionId, at)).0, calls)
    ensures var start := MemoryStep(m, EnqueueCall(newId, sessionId, at)).0;
            newId in start.jobs && ClaimsOf(start, calls, newId) <= 3 && EventsOf(start, calls, newId) <= 7
  {
    StepIndexed(m, EnqueueCall(newId, sessionId, at));
    ClaimsAreBounded(MemoryStep(m, EnqueueCall(newId, sessionId, at)).0, calls, newId);
  }
}
