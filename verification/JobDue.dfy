/**
 When jobs are handed out, told from the rows alone: a queued job not before it is due, a running one
 not before its lease has run out, and the oldest first.
 */
module JobDue {
  import opened Prelude
  import opened JobModel
  import opened JobCalls
  import opened PostgresJobs
  import opened ClaimSimulation
  import StringOrder

  /** The row as a claim leaves it: what it was but for the lease, one attempt more, and the time. */
  predicate Taken(row: Job, after: Job, worker: string, at: Time, lease: int)
  {
    && after.status == Running && after.attempts == row.attempts + 1
    && after.leaseOwner == worker && after.leaseUntil == at + lease && after.updatedAt == at
    && after.id == row.id && after.sessionId == row.sessionId && after.maxAttempts == row.maxAttempts
    && after.cardId == row.cardId && after.versionId == row.versionId
    && after.availableAt == row.availableAt && after.createdAt == row.createdAt
  }

  /** The older of two jobs; of the same age, the one with the smaller id. */
  predicate Older(row: Job, other: Job)
  {
    row.createdAt < other.createdAt || (row.createdAt == other.createdAt && StringOrder.Less(row.id, other.id))
  }

  /** A job that may be handed out before all others. */
  ghost predicate Next(jobs: Jobs, id: string, at: Time)
  {
    && id in jobs && WasOpen(jobs[id], at) && jobs[id].attempts < jobs[id].maxAttempts
    && forall other :: other in jobs && other != id ==>
         WasOpen(jobs[other], at) && jobs[other].attempts < jobs[other].maxAttempts ==> Older(jobs[id], jobs[other])
  }

  // ----- one claim -----

  lemma NextIsWinner(jobs: Jobs, id: string, at: Time)
    ensures Next(jobs, id, at) <==> IsWinner(jobs, at, id)
  {
    if Next(jobs, id, at) {
      forall other | other in jobs && other != id && Claimable(jobs[other], at) && !Exhausted(jobs[other])
        ensures Before(jobs[id], jobs[other])
      {
        assert WasOpen(jobs[other], at);
      }
    }
    if IsWinner(jobs, at, id) {
      forall other | other in jobs && other != id && WasOpen(jobs[other], at)
                     && jobs[other].attempts < jobs[other].maxAttempts
        ensures Older(jobs[id], jobs[other])
      {
        assert Before(jobs[id], jobs[other]);
      }
    }
  }

  /** A claim returns a job exactly if it is the next one. */
  lemma ClaimIffNext(jobs: Jobs, worker: string, at: Time, lease: int, id: string)
    requires Keyed(jobs)
    ensures Returns(Claimed(Claim(jobs, worker, at, lease).1), id) <==> Next(jobs, id, at)
    ensures Next(jobs, id, at) ==>
              Taken(jobs[id], Claim(jobs, worker, at, lease).1.value, worker, at, lease)
              && Claim(jobs, worker, at, lease).0[id] == Claim(jobs, worker, at, lease).1.value
    ensures PgClaim(jobs, worker, at, lease).1 == Claim(jobs, worker, at, lease).1
  {
    NextIsWinner(jobs, id, at);
    if Next(jobs, id, at) {
      WinnerUnique(jobs, at, id, Winner(jobs, at).value);
    }
  }

  // ----- any run, of either store -----

  lemma {:induction false} StoresStay(m: Memory, p: Jobs, calls: seq<Call>, i: nat)
    requires Related(m, p) && FreshIds(m, calls) && i <= |calls|
    ensures Related(StateAfter(m, calls, i), TableAfter(p, calls, i))
    ensures FreshIds(StateAfter(m, calls, i), calls[i..])
    ensures i < |calls| ==>
              && MemoryRun(m, calls)[i] == MemoryStep(StateAfter(m, calls, i), calls[i]).1
              && PostgresRun(p, calls)[i] == PostgresStep(TableAfter(p, calls, i), calls[i]).1
              && (calls[i].EnqueueCall? ==> calls[i].newId !in StateAfter(m, calls, i).jobs)
    decreases i
  {
    if i == 0 {
      assert calls[0..] == calls;
    } else {
      var m1, p1 := MemoryStep(m, calls[0]).0, PostgresStep(p, calls[0]).0;
      StepRelated(m, p, calls[0]);
      StoresStay(m1, p1, calls[1..], i - 1);
      assert calls[1..][i - 1..] == calls[i..];
    }
  }

  /**
   Over any run of both stores: a claim returns a job exactly if, just before, it was queued and due or
   running on a lease that had run out, had attempts left, and was older than every other such job.
   */
  lemma HandedOutIffNext(m: Memory, p: Jobs, calls: seq<Call>, i: nat, id: string)
    requires Related(m, p) && FreshIds(m, calls) && i < |calls| && calls[i].ClaimCall?
    ensures Returns(MemoryRun(m, calls)[i], id) <==> Next(StateAfter(m, calls, i).jobs, id, calls[i].at)
    ensures Returns(PostgresRun(p, calls)[i], id) <==> Next(TableAfter(p, calls, i), id, calls[i].at)
    ensures Returns(MemoryRun(m, calls)[i], id) ==>
              && PostgresRun(p, calls)[i] == MemoryRun(m, calls)[i]
              && var job := MemoryRun(m, calls)[i].job.value;
                 Taken(StateAfter(m, calls, i).jobs[id], job, calls[i].worker, calls[i].at, calls[i].lease)
  {
    StoresStay(m, p, calls, i);
    var call := calls[i];
    StepRelated(StateAfter(m, calls, i), TableAfter(p, calls, i), call);
    ClaimIffNext(StateAfter(m, calls, i).jobs, call.worker, call.at, call.lease, id);
    ClaimIffNext(TableAfter(p, calls, i), call.worker, call.at, call.lease, id);
  }

  // ----- a job put back -----

  /** Put back until a time, or done with since. */
  predicate Withheld(row: Job, until: Time)
  {
    (row.status == Queued && row.availableAt == until) || Terminal(row.status)
  }

  /** Put back until a time, with attempts left. */
  predicate Waiting(row: Job, until: Time)
  {
    row.status == Queued && row.availableAt == until && row.attempts < row.maxAttempts
  }

  lemma MemoryWithholds(m: Memory, call: Call, id: string, until: Time)
    requires Indexed(m.jobs, m.index) && id in m.jobs && (call.EnqueueCall? ==> call.newId !in m.jobs)
    requires Withheld(m.jobs[id], until) && !Returns(MemoryStep(m, call).1, id)
    ensures id in MemoryStep(m, call).0.jobs && Withheld(MemoryStep(m, call).0.jobs[id], until)
    ensures Waiting(m.jobs[id], until) && !(call.CancelCall? && call.sessionId == m.jobs[id].sessionId) ==>
              Waiting(MemoryStep(m, call).0.jobs[id], until)
    ensures MemoryStep(m, call).0.jobs[id].sessionId == m.jobs[id].sessionId
  {
    OneJobStep(m, call, id);
    if call.ClaimCall? {
      ClaimReturns(m, call, id);
    }
  }

  lemma PostgresWithholds(p: Jobs, call: Call, id: string, until: Time)
    requires Keyed(p) && id in p && (call.EnqueueCall? ==> call.newId !in p)
    requires Withheld(p[id], until) && !Returns(PostgresStep(p, call).1, id)
    ensures id in PostgresStep(p, call).0 && Withheld(PostgresStep(p, call).0[id], until)
    ensures Waiting(p[id], until) && !(call.CancelCall? && call.sessionId == p[id].sessionId) ==>
              Waiting(PostgresStep(p, call).0[id], until)
    ensures PostgresStep(p, call).0[id].sessionId == p[id].sessionId
  {
  }

  /** No call strictly between the two returned the job. */
  predicate NotReturned(answers: seq<Outcome>, id: string, i: nat, j: nat)
    requires j <= |answers|
  {
    forall k :: i < k < j ==> !Returns(answers[k], id)
  }

  /** No call strictly between the two cancelled the session. */
  predicate NotCancelled(calls: seq<Call>, sessionId: string, i: nat, j: nat)
    requires j <= |calls|
  {
    forall k :: i < k < j ==> !(calls[k].CancelCall? && calls[k].sessionId == sessionId)
  }

  /** The call put the job back until a time, and was answered Ok. */
  predicate PutBack(call: Call, answer: Outcome, id: string, until: Time)
  {
    call.RetryCall? && call.id == id && call.availableAt == until && answer == Done(Ok(()))
  }

  lemma MemoryPutsBack(m: Memory, p: Jobs, calls: seq<Call>, i: nat, id: string, until: Time)
    requires Related(m, p) && FreshIds(m, calls) && i < |calls|
    requires PutBack(calls[i], MemoryRun(m, calls)[i], id, until)
    ensures id in StateAfter(m, calls, i).jobs && id in StateAfter(m, calls, i + 1).jobs
    ensures var row, after := StateAfter(m, calls, i).jobs[id], StateAfter(m, calls, i + 1).jobs[id];
            && after.status == Queued && after.availableAt == until && calls[i].at <= until
            && after.attempts == row.attempts && after.maxAttempts == row.maxAttempts
            && after.sessionId == row.sessionId
  {
    StoresStay(m, p, calls, i);
    StateSteps(m, calls, i);
  }

  lemma PostgresPutsBack(m: Memory, p: Jobs, calls: seq<Call>, i: nat, id: string, until: Time)
    requires Related(m, p) && FreshIds(m, calls) && i < |calls|
    requires PutBack(calls[i], PostgresRun(p, calls)[i], id, until)
    ensures id in TableAfter(p, calls, i) && id in TableAfter(p, calls, i + 1)
    ensures var row, after := TableAfter(p, calls, i)[id], TableAfter(p, calls, i + 1)[id];
            && after.status == Queued && after.availableAt == until && calls[i].at <= until
            && after.attempts == row.attempts && after.maxAttempts == row.maxAttempts
            && after.sessionId == row.sessionId
  {
    StoresStay(m, p, calls, i);
    TableSteps(p, calls, i);
  }

  /** Put back and not handed out since: withheld, and waiting unless it was cancelled. */
  predicate StillBack(first: Job, row: Job, calls: seq<Call>, i: nat, j: nat, until: Time)
    requires j <= |calls|
  {
    && Withheld(row, until) && row.sessionId == first.sessionId
    && (first.attempts < first.maxAttempts && NotCancelled(calls, first.sessionId, i, j) ==> Waiting(row, until))
  }

  /** One more call that does not return the job. */
  lemma StaysBack(first: Job, row: Job, after: Job, calls: seq<Call>, i: nat, j: nat, until: Time)
    requires i < j < |calls| && StillBack(first, row, calls, i, j, until) && Withheld(after, until)
    requires after.sessionId == row.sessionId
    requires Waiting(row, until) && !(calls[j].CancelCall? && calls[j].sessionId == row.sessionId) ==>
               Waiting(after, until)
    ensures StillBack(first, after, calls, i, j + 1, until)
  {
    if NotCancelled(calls, first.sessionId, i, j + 1) {
      assert NotCancelled(calls, first.sessionId, i, j);
    }
  }

  lemma MemoryStepBack(m: Memory, p: Jobs, calls: seq<Call>, first: Job, i: nat, j: nat, id: string, until: Time)
    requires Related(m, p) && FreshIds(m, calls) && i < j < |calls|
    requires var before := StateAfter(m, calls, j).jobs;
             id in before && StillBack(first, before[id], calls, i, j, until)
    requires !Returns(MemoryRun(m, calls)[j], id)
    ensures var after := StateAfter(m, calls, j + 1).jobs;
            id in after && StillBack(first, after[id], calls, i, j + 1, until)
  {
    StoresStay(m, p, calls, j);
    StateSteps(m, calls, j);
    var before := StateAfter(m, calls, j);
    MemoryWithholds(before, calls[j], id, until);
    StaysBack(first, before.jobs[id], MemoryStep(before, calls[j]).0.jobs[id], calls, i, j, until);
  }

  lemma {:induction false} MemoryStaysWithheld(m: Memory, p: Jobs, calls: seq<Call>, i: nat, j: nat, id: string,
                                             until: Time)
    requires Related(m, p) && FreshIds(m, calls) && i < j <= |calls|
    requires PutBack(calls[i], MemoryRun(m, calls)[i], id, until) && NotReturned(MemoryRun(m, calls), id, i, j)
    ensures id in StateAfter(m, calls, i + 1).jobs && id in StateAfter(m, calls, j).jobs
    ensures StillBack(StateAfter(m, calls, i + 1).jobs[id], StateAfter(m, calls, j).jobs[id], calls, i, j, until)
    decreases j
  {
    MemoryPutsBack(m, p, calls, i, id, until);
    if j > i + 1 {
      MemoryStaysWithheld(m, p, calls, i, j - 1, id, until);
      MemoryStepBack(m, p, calls, StateAfter(m, calls, i + 1).jobs[id], i, j - 1, id, until);
    }
  }

  lemma PostgresStepBack(m: Memory, p: Jobs, calls: seq<Call>, first: Job, i: nat, j: nat, id: string, until: Time)
    requires Related(m, p) && FreshIds(m, calls) && i < j < |calls|
    requires var before := TableAfter(p, calls, j); id in before && StillBack(first, before[id], calls, i, j, until)
    requires !Returns(PostgresRun(p, calls)[j], id)
    ensures var after := TableAfter(p, calls, j + 1); id in after && StillBack(first, after[id], calls, i, j + 1, until)
  {
    StoresStay(m, p, calls, j);
    TableSteps(p, calls, j);
    var before := TableAfter(p, calls, j);
    PostgresWithholds(before, calls[j], id, until);
    StaysBack(first, before[id], PostgresStep(before, calls[j]).0[id], calls, i, j, until);
  }

  lemma {:induction false} PostgresStaysWithheld(m: Memory, p: Jobs, calls: seq<Call>, i: nat, j: nat, id: string,
                                             until: Time)
    requires Related(m, p) && FreshIds(m, calls) && i < j <= |calls|
    requires PutBack(calls[i], PostgresRun(p, calls)[i], id, until) && NotReturned(PostgresRun(p, calls), id, i, j)
    ensures id in TableAfter(p, calls, i + 1) && id in TableAfter(p, calls, j)
    ensures StillBack(TableAfter(p, calls, i + 1)[id], TableAfter(p, calls, j)[id], calls, i, j, until)
    decreases j
  {
    PostgresPutsBack(m, p, calls, i, id, until);
    if j > i + 1 {
      PostgresStaysWithheld(m, p, calls, i, j - 1, id, until);
      PostgresStepBack(m, p, calls, TableAfter(p, calls, i + 1)[id], i, j - 1, id, until);
    }
  }

  /** Whatever others call: the first claim to return a job that was put back comes when it is due. */
  lemma PutBackIsWithheld(m: Memory, p: Jobs, calls: seq<Call>, i: nat, j: nat, id: string, until: Time)
    requires Related(m, p) && FreshIds(m, calls) && i < j < |calls| && calls[j].ClaimCall? && calls[j].at < until
    ensures PutBack(calls[i], MemoryRun(m, calls)[i], id, until) && NotReturned(MemoryRun(m, calls), id, i, j) ==>
              !Returns(MemoryRun(m, calls)[j], id)
    ensures PutBack(calls[i], PostgresRun(p, calls)[i], id, until) && NotReturned(PostgresRun(p, calls), id, i, j) ==>
              !Returns(PostgresRun(p, calls)[j], id)
  {
    HandedOutIffNext(m, p, calls, j, id);
    if PutBack(calls[i], MemoryRun(m, calls)[i], id, until) && NotReturned(MemoryRun(m, calls), id, i, j) {
      MemoryStaysWithheld(m, p, calls, i, j, id, until);
    }
    if PutBack(calls[i], PostgresRun(p, calls)[i], id, until) && NotReturned(PostgresRun(p, calls), id, i, j) {
      PostgresStaysWithheld(m, p, calls, i, j, id, until);
    }
  }

  /** No other job that could be handed out at the time is older. */
  ghost predicate NoneOlder(jobs: Jobs, id: string, at: Time)
    requires id in jobs
  {
    forall other :: other in jobs && other != id ==>
      WasOpen(jobs[other], at) && jobs[other].attempts < jobs[other].maxAttempts ==> Older(jobs[id], jobs[other])
  }

  /** And once it is due, the next claim returns it, unless an older job goes first or it was cancelled. */
  lemma PutBackComesBack(m: Memory, p: Jobs, calls: seq<Call>, i: nat, j: nat, id: string, until: Time)
    requires Related(m, p) && FreshIds(m, calls) && i < j < |calls| && calls[j].ClaimCall? && until <= calls[j].at
    requires PutBack(calls[i], MemoryRun(m, calls)[i], id, until) && NotReturned(MemoryRun(m, calls), id, i, j)
    ensures id in StateAfter(m, calls, i).jobs && id in StateAfter(m, calls, j).jobs
    ensures var row := StateAfter(m, calls, i).jobs[id];
            row.attempts < row.maxAttempts && NotCancelled(calls, row.sessionId, i, j)
            && NoneOlder(StateAfter(m, calls, j).jobs, id, calls[j].at) ==>
              Returns(MemoryRun(m, calls)[j], id) && Returns(PostgresRun(p, calls)[j], id)
  {
    MemoryPutsBack(m, p, calls, i, id, until);
    MemoryStaysWithheld(m, p, calls, i, j, id, until);
    HandedOutIffNext(m, p, calls, j, id);
  }

  /** The same from what Postgres answers. */
  lemma PostgresPutBackComesBack(m: Memory, p: Jobs, calls: seq<Call>, i: nat, j: nat, id: string, until: Time)
    requires Related(m, p) && FreshIds(m, calls) && i < j < |calls| && calls[j].ClaimCall? && until <= calls[j].at
    requires PutBack(calls[i], PostgresRun(p, calls)[i], id, until) && NotReturned(PostgresRun(p, calls), id, i, j)
    ensures id in TableAfter(p, calls, i) && id in TableAfter(p, calls, j)
    ensures var row := TableAfter(p, calls, i)[id];
            row.attempts < row.maxAttempts && NotCancelled(calls, row.sessionId, i, j)
            && NoneOlder(TableAfter(p, calls, j), id, calls[j].at) ==>
              Returns(PostgresRun(p, calls)[j], id)
  {
    PostgresPutsBack(m, p, calls, i, id, until);
    PostgresStaysWithheld(m, p, calls, i, j, id, until);
    HandedOutIffNext(m, p, calls, j, id);
  }
}
