/** One step of a run, whatever becomes of its call, keeps the stores and what the run knows. */
module PipelineSafety {
  import opened Prelude
  import opened P = PublishModel
  import opened Pipeline
  import opened PipelineInvariant
  import opened PipelineRuns
  import opened PipelineSteps
  import S = SessionModel
  import J = JobModel

  // ----- one step of a run -----

  predicate EnvFits(st: Store, env: Env)
  {
    env.at != S.ZERO_TIME && env.newVersion !in st.versionIds
  }

  /** The stores keep their invariant; the model is asked only on the way out of Generating. */
  ghost predicate Advances(hash: Hash, st: Store, run: Run, after: Store, pc: Pc)
  {
    && StoreOk(hash, after) && Evolves(st, after) && Leads(after, run, pc)
    && (!run.pc.Generating? ==> after.modelCalls == st.modelCalls)
  }

  /** The calls that only read. */
  predicate Reads(pc: Pc)
  {
    || pc.Loading? || pc.FindingBase? || pc.ReadingBase? || pc.Looking? || pc.Numbering? || pc.Renumbering?
    || pc.Stopped?
  }

  lemma LoadingAdvances(hash: Hash, st: Store, run: Run, env: Env)
    requires StoreOk(hash, st) && RunFits(st, run) && (run.pc.Loading? || run.pc.FindingBase? || run.pc.ReadingBase?)
    ensures Effect(hash, st, run, env).0 == st && Leads(st, run, Effect(hash, st, run, env).1)
  {
    match run.pc
    case Loading => LoadStep(hash, st, run);
    case FindingBase(_) => FindBaseStep(st, run);
    case ReadingBase(_, _) => ReadBaseStep(hash, st, run, env);
  }

  lemma NumberingAdvances(hash: Hash, st: Store, run: Run, env: Env)
    requires StoreOk(hash, st) && RunFits(st, run) && (run.pc.Numbering? || run.pc.Renumbering?)
    ensures Effect(hash, st, run, env).0 == st && Leads(st, run, Effect(hash, st, run, env).1)
  {
    assert Effect(hash, st, run, env) == (st, Number(st, run));
    NumberStep(hash, st, run);
  }

  lemma ReadingAdvances(hash: Hash, st: Store, run: Run, env: Env)
    requires StoreOk(hash, st) && RunFits(st, run) && (run.pc.Looking? || run.pc.Stopped?)
    ensures Effect(hash, st, run, env).0 == st && Leads(st, run, Effect(hash, st, run, env).1)
  {
    if run.pc.Looking? {
      assert Effect(hash, st, run, env) == (st, Look(st, run));
      LookStep(hash, st, run);
    }
  }

  lemma StartingAdvances(hash: Hash, st: Store, run: Run, env: Env)
    requires StoreOk(hash, st) && RunFits(st, run) && run.pc.Starting?
    ensures Advances(hash, st, run, Effect(hash, st, run, env).0, Effect(hash, st, run, env).1)
  {
    assert Effect(hash, st, run, env) == Start(st, run, env);
    StartStep(hash, st, run, env);
  }

  lemma ValidationAdvances(hash: Hash, st: Store, run: Run, env: Env)
    requires StoreOk(hash, st) && RunFits(st, run) && run.pc.StartingValidation?
    ensures Advances(hash, st, run, Effect(hash, st, run, env).0, Effect(hash, st, run, env).1)
  {
    assert Effect(hash, st, run, env) == StartValidation(st, run, env);
    StartValidationStep(hash, st, run, env);
  }

  lemma ReadyAdvances(hash: Hash, st: Store, run: Run, env: Env)
    requires StoreOk(hash, st) && RunFits(st, run) && run.pc.MarkingReady?
    ensures Advances(hash, st, run, Effect(hash, st, run, env).0, Effect(hash, st, run, env).1)
  {
    assert Effect(hash, st, run, env) == MarkReady(st, run, env);
    MarkReadyStep(hash, st, run, env);
  }

  lemma ReserveAdvances(hash: Hash, st: Store, run: Run, env: Env)
    requires StoreOk(hash, st) && RunFits(st, run) && run.pc.Reserving? && env.newVersion !in st.versionIds
    ensures Advances(hash, st, run, Effect(hash, st, run, env).0, Effect(hash, st, run, env).1)
  {
    assert Effect(hash, st, run, env) == Reserve(st, run, env);
    ReserveStep(hash, st, run, env);
  }

  lemma CompleteAdvances(hash: Hash, st: Store, run: Run, env: Env)
    requires StoreOk(hash, st) && RunFits(st, run) && run.pc.Completing?
    ensures Advances(hash, st, run, Effect(hash, st, run, env).0, Effect(hash, st, run, env).1)
  {
    assert Effect(hash, st, run, env) == Complete(st, run, env);
    CompleteStep(hash, st, run, env, run.pc.publication);
  }

  lemma PutAdvances(hash: Hash, st: Store, run: Run, env: Env)
    requires StoreOk(hash, st) && RunFits(st, run) && run.pc.Putting?
    ensures Advances(hash, st, run, Effect(hash, st, run, env).0, Effect(hash, st, run, env).1)
  {
    assert Effect(hash, st, run, env) == Put(hash, st, run, env);
    PutStep(hash, st, run, env);
  }

  lemma CreateAdvances(hash: Hash, st: Store, run: Run, env: Env)
    requires StoreOk(hash, st) && RunFits(st, run) && run.pc.Creating?
    ensures Advances(hash, st, run, Effect(hash, st, run, env).0, Effect(hash, st, run, env).1)
  {
    assert Effect(hash, st, run, env) == CreateVersion(st, run);
    CreateStep(hash, st, run);
  }

  lemma RetryAdvances(hash: Hash, st: Store, run: Run, env: Env)
    requires StoreOk(hash, st) && RunFits(st, run) && run.pc.Retrying?
    ensures Advances(hash, st, run, Effect(hash, st, run, env).0, Effect(hash, st, run, env).1)
  {
    var retryAt := env.at + RetryDelay(run.job.attempts);
    var after := st.(jobs := J.Retry(st.jobs, run.job.id, run.worker, env.at, retryAt).0);
    assert Effect(hash, st, run, env) == (after, Stopped(Some(run.pc.cause)));
    RetryStep(hash, st, run, env.at, retryAt);
    StopLeads(after, run, run.pc.cause);
  }

  lemma MarkFailedAdvances(hash: Hash, st: Store, run: Run, env: Env)
    requires StoreOk(hash, st) && RunFits(st, run) && run.pc.MarkingFailed?
    ensures Advances(hash, st, run, Effect(hash, st, run, env).0, Effect(hash, st, run, env).1)
  {
    var after := UpdateSession(st, run.job.sessionId, S.MarkFailedCall(run.pc.code, env.at)).0;
    assert Effect(hash, st, run, env) == (after, Failing(run.pc.cause));
    MarkFailedStep(hash, st, run, run.pc.code, env.at);
    StopLeads(after, run, run.pc.cause);
  }

  lemma FailAdvances(hash: Hash, st: Store, run: Run, env: Env)
    requires StoreOk(hash, st) && RunFits(st, run) && run.pc.Failing?
    ensures Advances(hash, st, run, Effect(hash, st, run, env).0, Effect(hash, st, run, env).1)
  {
    var after := st.(jobs := J.Finish(st.jobs, run.job.id, run.worker, J.Failed, env.at).0);
    assert Effect(hash, st, run, env) == (after, Stopped(Some(run.pc.cause)));
    FailStep(hash, st, run, env.at);
    StopLeads(after, run, run.pc.cause);
  }

  lemma ReadsAdvance(hash: Hash, st: Store, run: Run, env: Env)
    requires StoreOk(hash, st) && RunFits(st, run) && Reads(run.pc)
    ensures Advances(hash, st, run, Effect(hash, st, run, env).0, Effect(hash, st, run, env).1)
  {
    EvolvesReflexive(st);
    if run.pc.Numbering? || run.pc.Renumbering? {
      NumberingAdvances(hash, st, run, env);
    } else if run.pc.Looking? || run.pc.Stopped? {
      ReadingAdvances(hash, st, run, env);
    } else {
      LoadingAdvances(hash, st, run, env);
    }
  }

  lemma EndAdvances(hash: Hash, st: Store, run: Run, env: Env)
    requires StoreOk(hash, st) && RunFits(st, run) && (run.pc.Retrying? || run.pc.MarkingFailed? || run.pc.Failing?)
    ensures Advances(hash, st, run, Effect(hash, st, run, env).0, Effect(hash, st, run, env).1)
  {
    match run.pc
    case Retrying(_) => RetryAdvances(hash, st, run, env);
    case MarkingFailed(_, _) => MarkFailedAdvances(hash, st, run, env);
    case Failing(_) => FailAdvances(hash, st, run, env);
  }

  lemma PublishAdvances(hash: Hash, st: Store, run: Run, env: Env)
    requires StoreOk(hash, st) && RunFits(st, run) && (run.pc.Putting? || run.pc.Creating?)
    ensures Advances(hash, st, run, Effect(hash, st, run, env).0, Effect(hash, st, run, env).1)
  {
    if run.pc.Putting? {
      PutAdvances(hash, st, run, env);
    } else {
      CreateAdvances(hash, st, run, env);
    }
  }

  lemma SessionAdvances(hash: Hash, st: Store, run: Run, env: Env)
    requires StoreOk(hash, st) && RunFits(st, run)
             && (run.pc.Starting? || run.pc.StartingValidation? || run.pc.MarkingReady?)
    ensures Advances(hash, st, run, Effect(hash, st, run, env).0, Effect(hash, st, run, env).1)
  {
    match run.pc
    case Starting => StartingAdvances(hash, st, run, env);
    case StartingValidation(_, _, _) => ValidationAdvances(hash, st, run, env);
    case MarkingReady(_, _, _) => ReadyAdvances(hash, st, run, env);
  }

  lemma EffectAdvances(hash: Hash, st: Store, run: Run, env: Env)
    requires StoreOk(hash, st) && RunFits(st, run) && NotYetAsked(st, run)
    requires run.pc.Reserving? ==> env.newVersion !in st.versionIds
    ensures Advances(hash, st, run, Effect(hash, st, run, env).0, Effect(hash, st, run, env).1)
  {
    if Reads(run.pc) {
      ReadsAdvance(hash, st, run, env);
    } else if run.pc.Generating? {
      GenerateStep(hash, st, run, env);
    } else if run.pc.Reserving? {
      ReserveAdvances(hash, st, run, env);
    } else if run.pc.Completing? {
      CompleteAdvances(hash, st, run, env);
    } else if run.pc.Putting? || run.pc.Creating? {
      PublishAdvances(hash, st, run, env);
    } else if run.pc.Starting? || run.pc.StartingValidation? || run.pc.MarkingReady? {
      SessionAdvances(hash, st, run, env);
    } else {
      EndAdvances(hash, st, run, env);
    }
  }

  lemma FaultLeads(st: Store, run: Run, kind: Kind)
    requires RunFits(st, run)
    ensures Leads(st, run, OnFault(run, kind)) && !Asking(OnFault(run, kind))
  {
    FailFits(st, run, CodeOf(run.pc), Faulted(kind));
  }

  /** A step of a run, whether its call worked, failed, or took effect and then failed. */
  lemma StepAdvances(hash: Hash, st: Store, run: Run, env: Env, fault: Fault)
    requires StoreOk(hash, st) && RunFits(st, run) && EnvFits(st, env) && NotYetAsked(st, run)
    ensures Advances(hash, st, run, StepRun(hash, st, run, env, fault).0, StepRun(hash, st, run, env, fault).1.pc)
    ensures var next := StepRun(hash, st, run, env, fault).1; next.job == run.job && next == run.(pc := next.pc)
  {
    EffectAdvances(hash, st, run, env);
    EvolvesReflexive(st);
    if fault.Fault? {
      var after := if fault.applied then Effect(hash, st, run, env).0 else st;
      RunFitsStays(st, after, run);
      FaultLeads(after, run, fault.kind);
    }
  }
}
