/**
 How a run ends that keeps its lease but meets errors: its job is put back while attempts are left, and
 failed with its session when none is.
 */
module PipelineFailures {
  import opened Prelude
  import opened P = PublishModel
  import opened Pipeline
  import opened PipelineInvariant
  import opened PipelineRuns
  import opened PipelineSteps
  import opened PipelineSafety
  import opened PipelineDrive
  import opened PipelineProgress
  import opened PipelineSuccess
  import S = SessionModel
  import J = JobModel

  /** The calls whose failure the worker handles by trying again or failing the session. */
  predicate Working(pc: Pc)
  {
    !pc.Completing? && !pc.Retrying? && !pc.MarkingFailed? && !pc.Failing? && !pc.Stopped?
  }

  /** An attempt is left after this one. */
  predicate MayTryAgain(run: Run)
  {
    run.job.attempts < J.MAX_ATTEMPTS
  }

  /** What an error leaves to do: put the job back exactly when the error is temporary and an attempt is left. */
  predicate Tidy(run: Run)
  {
    match run.pc
    case Retrying(cause) => cause == Faulted(Temporary) && MayTryAgain(run)
    case MarkingFailed(_, cause) => cause != Faulted(Interrupted) && (cause == Faulted(Temporary) ==> !MayTryAgain(run))
    case Failing(_) => false
    case Stopped(_) => false
    case _ => true
  }

  /** The job when the run has ended: done, put back, still held if interrupted, or failed with its session. */
  ghost predicate Settled(end: Store, run: Run, world: Pc -> Env, outcome: Option<Cause>)
  {
    && run.job.id in end.jobs && run.job.sessionId in end.sessions
    && var job, s := end.jobs[run.job.id], end.sessions[run.job.sessionId];
       if outcome == None then job.status == J.Completed && ReadyWith(s, job.versionId)
       else if outcome == Some(Faulted(Interrupted)) then job.status == J.Running && job.leaseOwner == run.worker
       else if outcome == Some(Faulted(Temporary)) && MayTryAgain(run) then
         && job.status == J.Queued && job.leaseOwner == ""
         && exists pc :: job.availableAt == world(pc).at + if run.job.attempts == 1 then SECOND else 2 * SECOND
       else job.status == J.Failed && S.IsTerminal(s.status)
  }

  ghost predicate Settles(hash: Hash, st: Store, run: Run, world: Pc -> Env)
  {
    var (end, last) := Drive(hash, st, run, world);
    Settled(end, run, world, last.pc.outcome)
  }

  lemma StepSettles(hash: Hash, st: Store, run: Run, world: Pc -> Env, after: Store, pc: Pc)
    requires !run.pc.Stopped? && Effect(hash, st, run, world(run.pc)) == (after, pc)
    requires Settles(hash, after, run.(pc := pc), world)
    ensures Settles(hash, st, run, world)
  {
    DriveOne(hash, st, run, world);
  }

  // ----- the last calls -----

  /** The session of a job has been confirmed, so it can fail. */
  ghost predicate Underway(st: Store, run: Run)
  {
    run.job.sessionId in st.sessions && S.Phase(st.sessions[run.job.sessionId].status) >= 2
  }

  lemma RetryingSettles(hash: Hash, st: Store, run: Run, world: Pc -> Env)
    requires RunFits(st, run) && Held(st, run, world) && Underway(st, run) && Tidy(run) && run.pc.Retrying?
    ensures Settles(hash, st, run, world)
    ensures Drive(hash, st, run, world).1.pc == Stopped(Some(run.pc.cause))
    ensures Drive(hash, st, run, world).0.sessions == st.sessions
  {
    var env := world(run.pc);
    var retryAt := env.at + RetryDelay(run.job.attempts);
    var after := st.(jobs := J.Retry(st.jobs, run.job.id, run.worker, env.at, retryAt).0);
    assert Effect(hash, st, run, env) == (after, Stopped(Some(run.pc.cause)));
    DriveOne(hash, st, run, world);
    DriveOne(hash, after, run.(pc := Stopped(Some(run.pc.cause))), world);
    assert after.jobs[run.job.id].availableAt == world(run.pc).at + RetryDelay(run.job.attempts);
  }

  lemma FailingEnds(hash: Hash, st: Store, run: Run, world: Pc -> Env)
    requires RunFits(st, run) && Held(st, run, world) && run.pc.Failing?
    ensures var (end, last) := Drive(hash, st, run, world);
            && last.pc == Stopped(Some(run.pc.cause)) && end.sessions == st.sessions
            && run.job.id in end.jobs && end.jobs[run.job.id].status == J.Failed
  {
    var env := world(run.pc);
    var after := st.(jobs := J.Finish(st.jobs, run.job.id, run.worker, J.Failed, env.at).0);
    assert Effect(hash, st, run, env) == (after, Stopped(Some(run.pc.cause)));
    DriveOne(hash, st, run, world);
    DriveOne(hash, after, run.(pc := Stopped(Some(run.pc.cause))), world);
  }

  /** A session that is not yet finished fails with the code. */
  predicate FailedWith(s: S.Session, t: S.Session, code: string, at: Time)
  {
    if S.IsTerminal(s.status) then t == s
    else
      && t.status == S.Failed
      && t.events == s.events + [S.Event(s.nextEventId + 1, s.id, "status.changed", "failed", 1.0, "", code, at)]
  }

  lemma MarksFailed(s: S.Session, code: string, at: Time)
    requires S.Phase(s.status) >= 2
    ensures S.Change(s, S.MarkFailedCall(code, at)).Ok?
    ensures FailedWith(s, S.Change(s, S.MarkFailedCall(code, at)).value, code, at)
    ensures S.IsTerminal(S.Change(s, S.MarkFailedCall(code, at)).value.status)
  {
  }

  lemma MarkingFails(hash: Hash, st: Store, run: Run, env: Env)
    requires run.pc.MarkingFailed? && Underway(st, run)
    ensures var after, id := Effect(hash, st, run, env).0, run.job.sessionId;
            && Effect(hash, st, run, env).1 == Failing(run.pc.cause) && after.jobs == st.jobs && id in after.sessions
            && FailedWith(st.sessions[id], after.sessions[id], run.pc.code, env.at)
            && S.IsTerminal(after.sessions[id].status)
  {
    var after := UpdateSession(st, run.job.sessionId, S.MarkFailedCall(run.pc.code, env.at)).0;
    MarksFailed(st.sessions[run.job.sessionId], run.pc.code, env.at);
    assert Effect(hash, st, run, env) == (after, Failing(run.pc.cause));
  }

  lemma MarkingFailedSettles(hash: Hash, st: Store, run: Run, world: Pc -> Env)
    requires StoreOk(hash, st) && RunFits(st, run) && Held(st, run, world) && Underway(st, run)
    requires Tidy(run) && run.pc.MarkingFailed?
    ensures Settles(hash, st, run, world)
    ensures var (end, last) := Drive(hash, st, run, world);
            && last.pc == Stopped(Some(run.pc.cause)) && run.job.sessionId in end.sessions
            && FailedWith(st.sessions[run.job.sessionId], end.sessions[run.job.sessionId], run.pc.code,
                          world(run.pc).at)
  {
    var env, pc := world(run.pc), Failing(run.pc.cause);
    var after := Effect(hash, st, run, env).0;
    MarkingFails(hash, st, run, env);
    MarkFailedAdvances(hash, st, run, env);
    FailingEnds(hash, after, run.(pc := pc), world);
    DriveOne(hash, st, run, world);
  }

  lemma CompletingSettles(hash: Hash, st: Store, run: Run, world: Pc -> Env)
    requires StoreOk(hash, st) && RunFits(st, run) && Held(st, run, world) && run.pc.Completing?
    ensures Settles(hash, st, run, world)
  {
    var env := world(run.pc);
    var (after, pc) := Complete(st, run, env);
    CompleteAdvances(hash, st, run, env);
    assert Effect(hash, st, run, env) == (after, pc);
    JobStored(hash, after, run.job.id);
    DriveOne(hash, st, run, world);
    DriveOne(hash, after, run.(pc := pc), world);
  }

  // ----- the calls before -----

  /** The lease is as it was, and the run goes on, unless the model call was interrupted. */
  predicate GoesOn(st: Store, run: Run, after: Store, pc: Pc)
  {
    && run.job.id in st.jobs && run.job.id in after.jobs && SameHolder(st.jobs[run.job.id], after.jobs[run.job.id])
    && (!run.pc.Reserving? ==> after.versionIds == st.versionIds)
    && (Tidy(run.(pc := pc)) || pc == Stopped(Some(Faulted(Interrupted))))
  }

  lemma ReadGoesOn(hash: Hash, st: Store, run: Run, env: Env)
    requires JobKnown(st, run) && Reads(run.pc) && !run.pc.Stopped?
    ensures GoesOn(st, run, Effect(hash, st, run, env).0, Effect(hash, st, run, env).1)
  {
  }

  lemma SessionGoesOn(hash: Hash, st: Store, run: Run, env: Env)
    requires JobKnown(st, run) && (run.pc.Starting? || run.pc.StartingValidation? || run.pc.MarkingReady?)
    ensures GoesOn(st, run, Effect(hash, st, run, env).0, Effect(hash, st, run, env).1)
  {
    match run.pc
    case Starting => assert Effect(hash, st, run, env) == Start(st, run, env);
    case StartingValidation(_, _, _) => assert Effect(hash, st, run, env) == StartValidation(st, run, env);
    case MarkingReady(_, _, _) => assert Effect(hash, st, run, env) == MarkReady(st, run, env);
  }

  lemma PublishGoesOn(hash: Hash, st: Store, run: Run, env: Env)
    requires JobKnown(st, run) && (run.pc.Generating? || run.pc.Putting? || run.pc.Creating?)
    ensures GoesOn(st, run, Effect(hash, st, run, env).0, Effect(hash, st, run, env).1)
  {
    match run.pc
    case Generating(_, _, _) => assert Effect(hash, st, run, env) == Generate(st, run, env);
    case Putting(_, _, _, _) => assert Effect(hash, st, run, env) == Put(hash, st, run, env);
    case Creating(_, _, _, _) => assert Effect(hash, st, run, env) == CreateVersion(st, run);
  }

  lemma WorkGoesOn(hash: Hash, st: Store, run: Run, env: Env)
    requires StoreOk(hash, st) && RunFits(st, run) && Working(run.pc)
    requires run.pc.Reserving? ==> NewIds(st, env) && J.HeldBy(st.jobs[run.job.id], run.worker, run.now)
    ensures GoesOn(st, run, Effect(hash, st, run, env).0, Effect(hash, st, run, env).1)
  {
    if run.pc.Reserving? {
      Reserves(hash, st, run, env);
    } else if run.pc.Starting? || run.pc.StartingValidation? || run.pc.MarkingReady? {
      SessionGoesOn(hash, st, run, env);
    } else if run.pc.Generating? || run.pc.Putting? || run.pc.Creating? {
      PublishGoesOn(hash, st, run, env);
    } else {
      ReadGoesOn(hash, st, run, env);
    }
  }

  // ----- the whole run -----

  /** The ids the run may still draw are new. */
  ghost predicate StillNew(st: Store, pc: Pc, world: Pc -> Env)
  {
    Early(pc) ==> forall p :: NewIds(st, world(p))
  }

  /** The run holds its job, whose session is confirmed. */
  ghost predicate OnCourse(hash: Hash, st: Store, run: Run, world: Pc -> Env)
  {
    && StoreOk(hash, st) && RunFits(st, run) && Held(st, run, world) && Underway(st, run) && NotYetAsked(st, run)
    && StillNew(st, run.pc, world)
  }

  lemma UnderwayStays(st: Store, after: Store, run: Run, pc: Pc)
    requires Evolves(st, after) && Underway(st, run)
    ensures Underway(after, run.(pc := pc))
  {
    assert S.Follows(st.sessions[run.job.sessionId], after.sessions[run.job.sessionId]);
  }

  /** The reservation is the last of the early calls. */
  lemma StaysNew(st: Store, run: Run, world: Pc -> Env, after: Store, pc: Pc)
    requires StillNew(st, run.pc, world) && GoesOn(st, run, after, pc) && Rank(pc) < Rank(run.pc)
    ensures StillNew(after, pc, world)
  {
    if Early(pc) {
      forall p ensures NewIds(after, world(p)) {
        assert NewIds(st, world(p));
      }
    }
  }

  lemma HeldStays(st: Store, run: Run, world: Pc -> Env, after: Store, pc: Pc)
    requires Held(st, run, world) && GoesOn(st, run, after, pc)
    ensures Held(after, run.(pc := pc), world)
  {
  }

  lemma CourseStays(hash: Hash, st: Store, run: Run, world: Pc -> Env, after: Store, pc: Pc)
    requires OnCourse(hash, st, run, world) && Advances(hash, st, run, after, pc) && GoesOn(st, run, after, pc)
    requires Rank(pc) < Rank(run.pc)
    ensures OnCourse(hash, after, run.(pc := pc), world)
  {
    UnderwayStays(st, after, run, pc);
    StaysNew(st, run, world, after, pc);
    HeldStays(st, run, world, after, pc);
  }

  lemma StaysOnCourse(hash: Hash, st: Store, run: Run, world: Pc -> Env, after: Store, pc: Pc)
    requires OnCourse(hash, st, run, world) && Working(run.pc) && Effect(hash, st, run, world(run.pc)) == (after, pc)
    ensures OnCourse(hash, after, run.(pc := pc), world) && Rank(pc) < Rank(run.pc)
    ensures Tidy(run.(pc := pc)) || pc == Stopped(Some(Faulted(Interrupted)))
  {
    if run.pc.Reserving? {
      assert NewIds(st, world(run.pc));
    }
    WorkGoesOn(hash, st, run, world(run.pc));
    EffectAdvances(hash, st, run, world(run.pc));
    EffectDescends(hash, st, run, world(run.pc));
    CourseStays(hash, st, run, world, after, pc);
  }

  lemma EndSettles(hash: Hash, st: Store, run: Run, world: Pc -> Env)
    requires OnCourse(hash, st, run, world) && Tidy(run) && !Working(run.pc)
    ensures Settles(hash, st, run, world)
  {
    if run.pc.Completing? {
      CompletingSettles(hash, st, run, world);
    } else if run.pc.Retrying? {
      RetryingSettles(hash, st, run, world);
    } else {
      MarkingFailedSettles(hash, st, run, world);
    }
  }

  lemma InterruptedSettles(hash: Hash, st: Store, run: Run, world: Pc -> Env)
    requires Held(st, run, world) && Underway(st, run) && run.pc == Stopped(Some(Faulted(Interrupted)))
    ensures Settles(hash, st, run, world)
  {
    DriveOne(hash, st, run, world);
  }

  /** Whatever it meets, a run that keeps its lease leaves its job done, put back or failed. */
  lemma {:induction false} RunSettles(hash: Hash, st: Store, run: Run, world: Pc -> Env)
    requires OnCourse(hash, st, run, world) && Tidy(run)
    ensures Settles(hash, st, run, world)
    decreases Rank(run.pc)
  {
    if !Working(run.pc) {
      EndSettles(hash, st, run, world);
    } else {
      var (after, pc) := Effect(hash, st, run, world(run.pc));
      StaysOnCourse(hash, st, run, world, after, pc);
      if pc.Stopped? {
        InterruptedSettles(hash, after, run.(pc := pc), world);
      } else {
        RunSettles(hash, after, run.(pc := pc), world);
      }
      StepSettles(hash, st, run, world, after, pc);
    }
  }

  // ----- a broken call -----

  /** The run after a call that broke, or a model call that failed. */
  lemma BrokenEnds(hash: Hash, st: Store, run: Run, kind: Kind, code: string, world: Pc -> Env)
    requires StoreOk(hash, st) && RunFits(st, run) && Held(st, run, world) && Underway(st, run)
    requires run.pc == FailAt(run, code, Faulted(kind))
    ensures Settles(hash, st, run, world) && Drive(hash, st, run, world).1.pc == Stopped(Some(Faulted(kind)))
    ensures kind == Permanent || (kind == Temporary && !MayTryAgain(run)) ==>
              var end := Drive(hash, st, run, world).0;
              run.job.sessionId in end.sessions
              && FailedWith(st.sessions[run.job.sessionId], end.sessions[run.job.sessionId], code, world(run.pc).at)
  {
    if kind == Interrupted {
      InterruptedSettles(hash, st, run, world);
      DriveOne(hash, st, run, world);
    } else if kind == Temporary && MayTryAgain(run) {
      RetryingSettles(hash, st, run, world);
    } else {
      MarkingFailedSettles(hash, st, run, world);
    }
  }
}
