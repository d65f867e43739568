/** The remaining store calls: claims, heartbeats, and what users cause. */
module PipelineCalls {
  import opened Prelude
  import opened P = PublishModel
  import opened Pipeline
  import opened PipelineInvariant
  import opened PipelineRuns
  import opened PipelineSteps
  import S = SessionModel
  import J = JobModel

  /** A claim leaves each job as it is, grants it, or fails it. */
  lemma ClaimRow(jobs: J.Jobs, worker: string, at: Time, lease: int, id: string)
    requires J.Keyed(jobs) && id in jobs
    ensures id in J.Claim(jobs, worker, at, lease).0
    ensures var after := J.Claim(jobs, worker, at, lease).0[id];
            || after == jobs[id]
            || (!J.Exhausted(jobs[id]) && after == J.Granted(jobs[id], worker, at, lease))
            || after == J.Released(jobs[id], J.Failed, at)
  {
    var w := J.Winner(jobs, at);
    if w.Some? {
      assert J.IsWinner(jobs, at, w.value);
    }
  }

  lemma ClaimedFits(st: Store, after: Store, id: string, job: J.Job)
    requires id in st.jobs && JobFits(st, st.jobs[id])
    requires after.sessions == st.sessions && after.versionIds == st.versionIds
    requires job == st.jobs[id]
             || (!J.Exhausted(st.jobs[id])
                && exists w: string, at, lease :: job == J.Granted(st.jobs[id], w, at, lease))
             || exists at :: job == J.Released(st.jobs[id], J.Failed, at)
    ensures JobFits(after, job) && JobGrows(st.jobs[id], job)
  {
  }

  lemma ClaimKeeps(hash: Hash, st: Store, worker: string, at: Time, lease: int)
    requires StoreOk(hash, st)
    ensures Keeps(hash, st, st.(jobs := J.Claim(st.jobs, worker, at, lease).0))
  {
    var jobs := J.Claim(st.jobs, worker, at, lease).0;
    var after := st.(jobs := jobs);
    assert jobs.Keys == st.jobs.Keys;
    forall id | id in st.jobs ensures JobGrows(st.jobs[id], jobs[id]) && JobFits(after, jobs[id]) {
      ClaimRow(st.jobs, worker, at, lease, id);
      JobStored(hash, st, id);
      ClaimedFits(st, after, id, jobs[id]);
    }
    ClaimEvolves(st, jobs);
    J.ClaimIndexed(st.jobs, st.index, worker, at, lease);
    ClaimDistinct(st.jobs, jobs);
    SameSessionsStay(st, after);
    SameVersionsStay(st, after);
    CallsStay(st, after);
    assert JobsFit(after);
  }

  lemma ClaimEvolves(st: Store, jobs: J.Jobs)
    requires jobs.Keys == st.jobs.Keys && forall id :: id in st.jobs ==> JobGrows(st.jobs[id], jobs[id])
    ensures Evolves(st, st.(jobs := jobs))
  {
  }

  lemma ClaimDistinct(before: J.Jobs, after: J.Jobs)
    requires Distinct(before) && after.Keys == before.Keys
    requires forall id :: id in before ==>
             JobGrows(before[id], after[id]) && after[id].versionId == before[id].versionId
    ensures Distinct(after)
  {
    forall a, b | SameReservation(after, a, b) ensures a == b {
      assert SameReservation(before, a, b);
    }
  }

  lemma BeatKeeps(hash: Hash, st: Store, run: Run, at: Time, lease: int)
    requires StoreOk(hash, st) && JobKnown(st, run)
    ensures Keeps(hash, st, st.(jobs := J.ExtendLease(st.jobs, run.job.id, run.worker, at, lease).0))
  {
    HolderKeeps(hash, st, run.job.id, J.ExtendJob(st.jobs[run.job.id], run.worker, at, lease).0);
  }

  // ----- queueing -----

  /** A job for a confirmed session, if it has none yet. */
  lemma EnqueueKeeps(hash: Hash, st: Store, jobId: string, sessionId: string, at: Time)
    requires StoreOk(hash, st) && jobId !in st.jobs
    requires sessionId in st.sessions && st.sessions[sessionId].confirmed.Some?
    ensures Keeps(hash, st, EnqueueJob(st, jobId, sessionId, at))
  {
    EvolvesReflexive(st);
    if sessionId !in st.index {
      JobAdded(hash, st, J.NewJob(jobId, sessionId, at));
    }
  }

  lemma JobAdded(hash: Hash, st: Store, job: J.Job)
    requires StoreOk(hash, st) && job.id !in st.jobs && job.sessionId !in st.index
    requires job.sessionId in st.sessions && st.sessions[job.sessionId].confirmed.Some?
    requires job.attempts == 0 && job.maxAttempts == J.MAX_ATTEMPTS && job.status == J.Queued
    requires job.cardId == "" && job.versionId == ""
    ensures Keeps(hash, st, st.(jobs := st.jobs[job.id := job], index := st.index[job.sessionId := job.id]))
  {
    var after := st.(jobs := st.jobs[job.id := job], index := st.index[job.sessionId := job.id]);
    J.IndexedAdd(st.jobs, st.index, job);
    assert JobFits(after, job);
    assert Evolves(st, after);
    SameSessionsStay(st, after);
    AddedJobsFit(st, after, job);
    AddedDistinct(st.jobs, job);
    SameVersionsStay(st, after);
    CallsStay(st, after);
  }

  lemma AddedJobsFit(a: Store, b: Store, job: J.Job)
    requires Evolves(a, b) && JobsFit(a) && b.jobs == a.jobs[job.id := job] && JobFits(b, job)
    ensures JobsFit(b)
  {
    forall id | id in b.jobs ensures JobFits(b, b.jobs[id]) {
      if id != job.id {
        assert JobFits(a, a.jobs[id]);
        JobFitsStays(a, b, a.jobs[id]);
      }
    }
  }

  lemma AddedDistinct(jobs: J.Jobs, job: J.Job)
    requires Distinct(jobs) && job.versionId == ""
    ensures Distinct(jobs[job.id := job])
  {
    var after := jobs[job.id := job];
    forall a, b | SameReservation(after, a, b) ensures a == b {
      assert SameReservation(jobs, a, b);
    }
  }

  // ----- sessions -----

  lemma InsertKeeps(hash: Hash, st: Store, s: S.Session)
    requires StoreOk(hash, st) && s.id !in st.sessions && SessionFits(st, s) && s.status == S.AwaitingConfirmation
    ensures Keeps(hash, st, st.(sessions := st.sessions[s.id := s]))
  {
    var after := st.(sessions := st.sessions[s.id := s]);
    assert Evolves(st, after) by {
      assert forall id :: id in st.sessions ==> after.sessions[id] == st.sessions[id];
    }
    SessionFitsStays(st, after, s);
    OneSessionStays(st, after, s.id, s);
    SameJobsStay(st, after);
    SameVersionsStay(st, after);
    CallsStay(st, after);
  }

  lemma OwnedKeeps(hash: Hash, st: Store, userId: string, id: string, call: S.ServiceCall)
    requires StoreOk(hash, st) && !call.MarkReadyCall?
    ensures Keeps(hash, st, UpdateOwned(st, userId, id, call).0)
    ensures UpdateOwned(st, userId, id, call).1.Ok? ==>
              id in st.sessions && S.Change(st.sessions[id], call).Ok?
              && UpdateOwned(st, userId, id, call).0 == WithSession(st, id, S.Change(st.sessions[id], call).value)
  {
    EvolvesReflexive(st);
    UpdateKeeps(hash, st, id, call);
  }

  /** Cancelling the job of a cancelled session. */
  lemma CancelKeeps(hash: Hash, st: Store, sessionId: string, at: Time)
    requires StoreOk(hash, st) && sessionId in st.sessions && st.sessions[sessionId].status == S.Cancelled
    ensures Keeps(hash, st, st.(jobs := J.Cancel(st.jobs, st.index, sessionId, at)))
  {
    EvolvesReflexive(st);
    if sessionId in st.index {
      CancelRow(hash, st, st.index[sessionId], sessionId, at);
    } else {
      assert st.(jobs := st.jobs) == st;
    }
  }

  lemma CancelledJob(job: J.Job, at: Time)
    ensures var after := J.CancelJob(job, at);
            && JobGrows(job, after) && after.attempts == job.attempts
            && after.cardId == job.cardId && after.versionId == job.versionId
            && (after == job || after.status == J.Cancelled)
  {
  }

  lemma CancelRow(hash: Hash, st: Store, id: string, sessionId: string, at: Time)
    requires StoreOk(hash, st) && id in st.jobs && st.jobs[id].sessionId == sessionId
    requires sessionId in st.sessions && st.sessions[sessionId].status == S.Cancelled
    ensures Keeps(hash, st, st.(jobs := st.jobs[id := J.CancelJob(st.jobs[id], at)]))
  {
    JobStored(hash, st, id);
    CancelledJob(st.jobs[id], at);
    JobTouched(hash, st, id, J.CancelJob(st.jobs[id], at));
    JobsAlone(st, id, J.CancelJob(st.jobs[id], at));
  }

  lemma JobsAlone(st: Store, id: string, job: J.Job)
    ensures WithJob(st, id, job, {}) == st.(jobs := st.jobs[id := job])
  {
  }
}
