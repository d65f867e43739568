/**
 Exactly when the two job stores answer a call differently, and runs from empty stores in which
 they do.
 */
module StoreDifferences {
  import opened Prelude
  import opened JobModel
  import opened JobCalls
  import opened PostgresJobs
  import opened ClaimSimulation

  /** Memory has given the job up; Postgres has rolled that back. */
  predicate Drifted(job: Job, row: Job)
  {
    job.status == Failed && row.status != Failed
  }

  /**
   The answers to a call on one job differ: on a job only memory gave up, if the guard of the Postgres
   update holds, or for Fail if it does not; and on a reserved job, if its holder asks with an empty id.
   */
  predicate RowsDiffer(job: Job, row: Job, call: Call)
    requires ByHolder(call)
  {
    match call
    case ExtendCall(_, worker, at, lease) => Drifted(job, row) && lease > 0 && HeldBy(row, worker, at)
    case ReserveCall(_, worker, card, version, at) =>
      HeldBy(row, worker, at)
      && if card == "" || version == "" then !Drifted(job, row) && row.cardId != "" else Drifted(job, row)
    case RetryCall(_, worker, at, availableAt) => Drifted(job, row) && availableAt >= at && HeldBy(row, worker, at)
    case CompleteCall(_, worker, at) => Drifted(job, row) && (HeldBy(row, worker, at) || row.status == Completed)
    case FailCall(_, worker, at) => Drifted(job, row) && !HeldBy(row, worker, at)
  }

  lemma RowAnswersIff(job: Job, row: Job, call: Call)
    requires RowRelated(job, row) && ByHolder(call)
    ensures MemoryRow(job, call).1 != PostgresRow(row, call).1 <==> RowsDiffer(job, row, call)
  {
  }

  /** The same for any call on the stores; on a job neither has, and for claims, they never differ. */
  predicate StoresDiffer(m: Memory, p: Jobs, call: Call)
  {
    ByHolder(call) && call.id in m.jobs && call.id in p && RowsDiffer(m.jobs[call.id], p[call.id], call)
  }

  lemma StepAnswersIff(m: Memory, p: Jobs, call: Call)
    requires Related(m, p) && (call.EnqueueCall? ==> call.newId !in m.jobs)
    ensures MemoryStep(m, call).1 != PostgresStep(p, call).1 <==> StoresDiffer(m, p, call)
  {
    if ByHolder(call) && call.id in p {
      HolderSteps(m, p, call);
      assert RowRelated(m.jobs[call.id], p[call.id]);
      RowAnswersIff(m.jobs[call.id], p[call.id], call);
    } else {
      StepRelated(m, p, call);
    }
  }

  /** Over any run: the answers to a call differ exactly if the stores as they are then make them. */
  lemma {:induction false} RunAnswersIff(m: Memory, p: Jobs, calls: seq<Call>, i: nat)
    requires Related(m, p) && FreshIds(m, calls) && i < |calls|
    ensures MemoryRun(m, calls)[i] != PostgresRun(p, calls)[i] <==>
              StoresDiffer(StateAfter(m, calls, i), TableAfter(p, calls, i), calls[i])
    decreases i
  {
    var m1, p1 := MemoryStep(m, calls[0]).0, PostgresStep(p, calls[0]).0;
    if i == 0 {
      StepAnswersIff(m, p, calls[0]);
    } else {
      StepRelated(m, p, calls[0]);
      RunAnswersIff(m1, p1, calls[1..], i - 1);
      assert calls[1..][i - 1] == calls[i];
      assert MemoryRun(m, calls)[i] == MemoryRun(m1, calls[1..])[i - 1];
      assert PostgresRun(p, calls)[i] == PostgresRun(p1, calls[1..])[i - 1];
    }
  }

  // ----- runs in which they differ -----

  const NO_JOBS := Memory(map[], map[])

  /** One job: claimed by a worker. */
  const HELD := [EnqueueCall("j", "s", 0), ClaimCall("w", 0, 10)]

  /** Claimed three times, each lease running out, and given up at the fourth claim. */
  const GIVEN_UP := HELD + [ClaimCall("w", 10, 10), ClaimCall("w", 20, 10), ClaimCall("v", 30, 10)]

  function JobAt(attempts: nat, at: Time): Job
  {
    NewJob("j", "s", 0).(status := Running, attempts := attempts, leaseOwner := "w", leaseUntil := at + 10,
                           updatedAt := at)
  }

  /** A claim on a table of one job. */
  lemma OneJobClaim(job: Job, worker: string, at: Time, lease: int)
    requires Claimable(job, at)
    ensures var jobs := map[job.id := job];
            if Exhausted(job) then
              && Claim(jobs, worker, at, lease).0 == map[job.id := Released(job, Failed, at)]
              && PgClaim(jobs, worker, at, lease).0 == jobs
            else
              Claim(jobs, worker, at, lease).0 == PgClaim(jobs, worker, at, lease).0
                == map[job.id := Granted(job, worker, at, lease)]
  {
    var jobs := map[job.id := job];
    if Exhausted(job) {
      assert forall id :: !IsWinner(jobs, at, id);
      assert Claim(jobs, worker, at, lease).0 == map[job.id := Released(job, Failed, at)];
    } else {
      assert IsWinner(jobs, at, job.id);
      assert Winner(jobs, at) == Some(job.id);
      assert Claim(jobs, worker, at, lease).0 == map[job.id := Granted(job, worker, at, lease)];
    }
  }

  lemma FirstClaim(calls: seq<Call>)
    requires HELD <= calls
    ensures StateAfter(NO_JOBS, calls, 2) == Memory(map["j" := JobAt(1, 0)], map["s" := "j"])
    ensures TableAfter(map[], calls, 2) == map["j" := JobAt(1, 0)]
  {
    StateSteps(NO_JOBS, calls, 0);
    TableSteps(map[], calls, 0);
    assert calls[0] == HELD[0] && calls[1] == HELD[1];
    assert PgEnqueue(map[], "j", "s", 0) == map["j" := NewJob("j", "s", 0)];
    StateSteps(NO_JOBS, calls, 1);
    TableSteps(map[], calls, 1);
    OneJobClaim(NewJob("j", "s", 0), "w", 0, 10);
  }

  lemma NextClaim(calls: seq<Call>, n: nat, job: Job, worker: string, at: Time)
    requires n < |calls| && calls[n] == ClaimCall(worker, at, 10) && job.id == "j" && Claimable(job, at)
    requires StateAfter(NO_JOBS, calls, n) == Memory(map["j" := job], map["s" := "j"])
    requires TableAfter(map[], calls, n) == map["j" := job]
    ensures StateAfter(NO_JOBS, calls, n + 1)
            == Memory(map["j" := if Exhausted(job) then Released(job, Failed, at) else Granted(job, worker, at, 10)],
              map["s" := "j"])
    ensures TableAfter(map[], calls, n + 1) == map["j" := if Exhausted(job) then job else Granted(job, worker, at, 10)]
  {
    StateSteps(NO_JOBS, calls, n);
    TableSteps(map[], calls, n);
    OneJobClaim(job, worker, at, 10);
  }

  /** Memory has failed the job, Postgres still has it running with a lease that ran out. */
  lemma GivenUp(calls: seq<Call>)
    requires GIVEN_UP <= calls
    ensures StateAfter(NO_JOBS, calls, 5) == Memory(map["j" := Released(JobAt(3, 20), Failed, 30)], map["s" := "j"])
    ensures TableAfter(map[], calls, 5) == map["j" := JobAt(3, 20)]
  {
    assert HELD <= calls by {
      assert HELD == GIVEN_UP[..2];
    }
    FirstClaim(calls);
    assert calls[2] == GIVEN_UP[2] && calls[3] == GIVEN_UP[3] && calls[4] == GIVEN_UP[4];
    NextClaim(calls, 2, JobAt(1, 0), "w", 10);
    NextClaim(calls, 3, JobAt(2, 10), "w", 20);
    NextClaim(calls, 4, JobAt(3, 20), "v", 30);
  }

  lemma EmptyRelated()
    ensures Related(NO_JOBS, map[])
  {
  }

  /** Only the first call enqueues. */
  lemma OneFresh(calls: seq<Call>)
    requires calls != [] && calls[0] == EnqueueCall("j", "s", 0)
    requires forall i :: 1 <= i < |calls| ==> !calls[i].EnqueueCall?
    ensures FreshIds(NO_JOBS, calls)
  {
    NoneFresh(MemoryStep(NO_JOBS, calls[0]).0, calls[1..]);
  }

  lemma {:induction false} NoneFresh(m: Memory, calls: seq<Call>)
    requires forall i :: 0 <= i < |calls| ==> !calls[i].EnqueueCall?
    ensures FreshIds(m, calls)
    decreases |calls|
  {
    if calls != [] {
      NoneFresh(MemoryStep(m, calls[0]).0, calls[1..]);
    }
  }

  /** After that run, every call on the job is answered as the exact condition says. */
  lemma GivenUpDiffers(call: Call)
    requires ByHolder(call) && call.id == "j"
    ensures FreshIds(NO_JOBS, GIVEN_UP + [call])
    ensures MemoryRun(NO_JOBS, GIVEN_UP + [call])[5] != PostgresRun(map[], GIVEN_UP + [call])[5] <==>
              RowsDiffer(Released(JobAt(3, 20), Failed, 30), JobAt(3, 20), call)
  {
    var calls := GIVEN_UP + [call];
    EmptyRelated();
    OneFresh(calls);
    GivenUp(calls);
    RunAnswersIff(NO_JOBS, map[], calls, 5);
  }

  /** From empty stores: a completion that comes late is refused by memory and taken by Postgres. */
  lemma LateCompletionDiffers()
    ensures FreshIds(NO_JOBS, GIVEN_UP + [CompleteCall("j", "w", 29)])
    ensures MemoryRun(NO_JOBS, GIVEN_UP + [CompleteCall("j", "w", 29)])[5]
            != PostgresRun(map[], GIVEN_UP + [CompleteCall("j", "w", 29)])[5]
  {
    GivenUpDiffers(CompleteCall("j", "w", 29));
  }

  /** From empty stores, with times in order: failing a job only memory has given up. */
  lemma FailDiffers()
    ensures FreshIds(NO_JOBS, GIVEN_UP + [FailCall("j", "w", 30)])
    ensures forall i :: 1 <= i < 6 ==>
            (GIVEN_UP + [FailCall("j", "w", 30)])[i - 1].at <= (GIVEN_UP + [FailCall("j", "w", 30)])[i].at
    ensures MemoryRun(NO_JOBS, GIVEN_UP + [FailCall("j", "w", 30)])[5]
            != PostgresRun(map[], GIVEN_UP + [FailCall("j", "w", 30)])[5]
  {
    GivenUpDiffers(FailCall("j", "w", 30));
    assert GIVEN_UP == [HELD[0], HELD[1], ClaimCall("w", 10, 10), ClaimCall("w", 20, 10), ClaimCall("v", 30, 10)];
  }

  /** From empty stores, with times in order: asking again for a reservation with an empty id. */
  lemma EmptyReservationDiffers()
    ensures var calls := HELD + [ReserveCall("j", "w", "c", "v", 1), ReserveCall("j", "w", "", "", 2)];
            && FreshIds(NO_JOBS, calls) && (forall i :: 1 <= i < 4 ==> calls[i - 1].at <= calls[i].at)
            && MemoryRun(NO_JOBS, calls)[3] != PostgresRun(map[], calls)[3]
  {
    var calls := HELD + [ReserveCall("j", "w", "c", "v", 1), ReserveCall("j", "w", "", "", 2)];
    EmptyRelated();
    OneFresh(calls);
    FirstClaim(calls);
    StateSteps(NO_JOBS, calls, 2);
    TableSteps(map[], calls, 2);
    RunAnswersIff(NO_JOBS, map[], calls, 3);
  }
}
