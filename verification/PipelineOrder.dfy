/**
 Nothing is published before its session has been validated: a fact about every reachable state that
 tells a later attempt where an earlier one has been.
 */
module PipelineOrder {
  import opened Prelude
  import opened P = PublishModel
  import opened Pipeline
  import opened PipelineInvariant
  import opened PipelineRuns
  import opened PipelineSystem
  import PipelineArchives
  import PipelineTheorems
  import S = SessionModel

  /** The job's session is validating or beyond. */
  predicate Validated(st: Store, jobId: string)
  {
    && jobId in st.jobs && st.jobs[jobId].sessionId in st.sessions
    && S.Phase(st.sessions[st.jobs[jobId].sessionId].status) >= 4
  }

  /** The calls of a run after it has marked its session as validating. */
  predicate Late(pc: Pc)
  {
    pc.Putting? || pc.Creating? || pc.Renumbering? || pc.MarkingReady? || pc.Completing?
  }

  ghost predicate VersionsLate(st: Store)
  {
    forall v :: v in st.versions ==> v in st.publishers && Validated(st, st.publishers[v])
  }

  ghost predicate RunsLate(st: Store, runs: map<nat, Run>)
  {
    forall h :: h in runs && Late(runs[h].pc) ==> Validated(st, runs[h].job.id)
  }

  lemma ValidatedStays(a: Store, b: Store, jobId: string)
    requires Evolves(a, b) && Validated(a, jobId)
    ensures Validated(b, jobId)
  {
    assert JobGrows(a.jobs[jobId], b.jobs[jobId]);
    var id := a.jobs[jobId].sessionId;
    assert S.Follows(a.sessions[id], b.sessions[id]);
  }

  lemma VersionsStayLate(a: Store, b: Store)
    requires Evolves(a, b) && VersionsLate(a) && b.versions == a.versions
    ensures VersionsLate(b)
  {
    forall v | v in b.versions ensures v in b.publishers && Validated(b, b.publishers[v]) {
      ValidatedStays(a, b, a.publishers[v]);
    }
  }

  lemma RunsStayLate(a: Store, b: Store, runs: map<nat, Run>)
    requires Evolves(a, b) && RunsLate(a, runs)
    ensures RunsLate(b, runs)
  {
    forall h | h in runs && Late(runs[h].pc) ensures Validated(b, runs[h].job.id) {
      ValidatedStays(a, b, runs[h].job.id);
    }
  }

  // ----- one step of a run -----

  /** A session that the run knows to be validating is so in the store. */
  lemma KnownValidated(st: Store, run: Run, s: S.Session)
    requires JobKnown(st, run) && SessionKnown(st, run, s) && S.Phase(s.status) >= 4
    ensures Validated(st, run.job.id)
  {
  }

  /** The version a run finds is its own job's. */
  lemma FoundValidated(hash: Hash, st: Store, run: Run, v: string)
    requires StoreOk(hash, st) && VersionsLate(st) && v in st.versions
    requires run.job.id in st.jobs && st.jobs[run.job.id].versionId == v
    ensures Validated(st, run.job.id)
  {
    assert VersionFits(st, st.versions[v]);
    assert SameReservation(st.jobs, st.publishers[v], run.job.id);
  }

  lemma LookingLate(hash: Hash, st: Store, run: Run)
    requires StoreOk(hash, st) && RunFits(st, run) && VersionsLate(st) && run.pc.Looking? && Late(Look(st, run))
    ensures Validated(st, run.job.id)
  {
    FoundValidated(hash, st, run, run.pc.publication.versionId);
  }

  lemma GeneratingLate(st: Store, run: Run, env: Env)
    requires RunFits(st, run) && run.pc.Generating? && Late(Generate(st, run, env).1)
    ensures Validated(st, run.job.id)
  {
    KnownValidated(st, run, run.pc.session);
  }

  lemma ValidatingLate(st: Store, run: Run, env: Env)
    requires RunFits(st, run) && run.pc.StartingValidation? && Late(StartValidation(st, run, env).1)
    ensures Validated(StartValidation(st, run, env).0, run.job.id)
  {
  }

  predicate BecomesLate(pc: Pc)
  {
    pc.Looking? || pc.Generating? || pc.StartingValidation?
  }

  lemma StartNotLate(hash: Hash, st: Store, run: Run, env: Env)
    requires run.pc.Loading? || run.pc.Starting? || run.pc.Reserving?
    ensures !Late(Effect(hash, st, run, env).1)
  {
    match run.pc
    case Loading => assert Effect(hash, st, run, env).1 == LoadSession(st, run);
    case Starting => assert Effect(hash, st, run, env).1 == Start(st, run, env).1;
    case Reserving(_) => assert Effect(hash, st, run, env).1 == Reserve(st, run, env).1;
  }

  lemma NeverLate(hash: Hash, st: Store, run: Run, env: Env)
    requires !Late(run.pc) && !BecomesLate(run.pc)
    ensures !Late(Effect(hash, st, run, env).1)
  {
    if run.pc.Loading? || run.pc.Starting? || run.pc.Reserving? {
      StartNotLate(hash, st, run, env);
    }
  }

  lemma FaultNotLate(run: Run, kind: Kind)
    ensures !Late(OnFault(run, kind))
  {
  }

  lemma BecomingLate(hash: Hash, st: Store, run: Run, env: Env)
    requires StoreOk(hash, st) && RunFits(st, run) && VersionsLate(st) && BecomesLate(run.pc)
    requires Late(Effect(hash, st, run, env).1)
    ensures Validated(st, run.job.id) || Validated(Effect(hash, st, run, env).0, run.job.id)
  {
    match run.pc
    case Looking(_, _) =>
      assert Effect(hash, st, run, env) == (st, Look(st, run));
      LookingLate(hash, st, run);
    case Generating(_, _, _) =>
      assert Effect(hash, st, run, env) == Generate(st, run, env);
      GeneratingLate(st, run, env);
    case StartingValidation(_, _, _) =>
      assert Effect(hash, st, run, env) == StartValidation(st, run, env);
      ValidatingLate(st, run, env);
  }

  /** A run gets past the validation of its session only together with the session. */
  lemma StepLate(hash: Hash, st: Store, run: Run, env: Env, fault: Fault)
    requires StoreOk(hash, st) && RunFits(st, run) && VersionsLate(st)
    requires Late(run.pc) ==> Validated(st, run.job.id)
    requires Evolves(st, StepRun(hash, st, run, env, fault).0)
    ensures var (after, next) := StepRun(hash, st, run, env, fault); Late(next.pc) ==> Validated(after, run.job.id)
  {
    var after := StepRun(hash, st, run, env, fault).0;
    if fault.Fault? {
      FaultNotLate(run, fault.kind);
    } else if Late(Effect(hash, st, run, env).1) {
      if Late(run.pc) {
        ValidatedStays(st, after, run.job.id);
      } else if BecomesLate(run.pc) {
        BecomingLate(hash, st, run, env);
        if Validated(st, run.job.id) {
          ValidatedStays(st, after, run.job.id);
        }
      } else {
        NeverLate(hash, st, run, env);
      }
    }
  }

  /** A step adds no version but one of its own job. */
  ghost predicate AddsOwn(a: Store, b: Store, jobId: string)
  {
    forall v :: v in b.versions && v !in a.versions ==> v in b.publishers && b.publishers[v] == jobId
  }

  lemma CreatesOwn(st: Store, run: Run)
    requires run.pc.Creating?
    ensures AddsOwn(st, CreateVersion(st, run).0, run.job.id)
  {
  }

  lemma StepAddsOwn(hash: Hash, st: Store, run: Run, env: Env, fault: Fault)
    ensures AddsOwn(st, StepRun(hash, st, run, env, fault).0, run.job.id)
    ensures !run.pc.Creating? ==> StepRun(hash, st, run, env, fault).0.versions == st.versions
  {
    if run.pc.Creating? {
      CreatesOwn(st, run);
      assert Effect(hash, st, run, env) == CreateVersion(st, run);
    } else {
      PipelineArchives.VersionsLeft(hash, st, run, env);
    }
  }

  lemma OwnAreLate(a: Store, b: Store, jobId: string)
    requires VersionsLate(a) && Evolves(a, b) && AddsOwn(a, b, jobId)
    requires Validated(a, jobId) || b.versions == a.versions
    ensures VersionsLate(b)
  {
    forall v | v in b.versions ensures v in b.publishers && Validated(b, b.publishers[v]) {
      if v in a.versions {
        ValidatedStays(a, b, a.publishers[v]);
      } else {
        ValidatedStays(a, b, jobId);
      }
    }
  }

  // ----- any step, and any run of them -----

  lemma WorkLate(hash: Hash, sys: System, action: Action)
    requires SystemOk(hash, sys) && Enabled(sys, action) && action.WorkStep?
    requires VersionsLate(sys.store) && RunsLate(sys.store, sys.runs)
    ensures var next := Next(hash, sys, action); VersionsLate(next.store) && RunsLate(next.store, next.runs)
  {
    var next, run := Next(hash, sys, action), sys.runs[action.handle];
    NextKeeps(hash, sys, action);
    assert RunFits(sys.store, run);
    RunsStayLate(sys.store, next.store, sys.runs);
    StepLate(hash, sys.store, run, action.env, action.fault);
    StepAddsOwn(hash, sys.store, run, action.env, action.fault);
    OwnAreLate(sys.store, next.store, run.job.id);
  }

  lemma OthersLeave(hash: Hash, sys: System, action: Action)
    requires Enabled(sys, action) && !action.WorkStep?
    ensures var next := Next(hash, sys, action);
            && next.store.versions == sys.store.versions
            && forall h :: h in next.runs && Late(next.runs[h].pc) ==> h in sys.runs && next.runs[h] == sys.runs[h]
  {
  }

  lemma NextLate(hash: Hash, sys: System, action: Action)
    requires SystemOk(hash, sys) && Enabled(sys, action)
    requires VersionsLate(sys.store) && RunsLate(sys.store, sys.runs)
    ensures var next := Next(hash, sys, action); VersionsLate(next.store) && RunsLate(next.store, next.runs)
  {
    if action.WorkStep? {
      WorkLate(hash, sys, action);
    } else {
      var next := Next(hash, sys, action);
      NextKeeps(hash, sys, action);
      OthersLeave(hash, sys, action);
      VersionsStayLate(sys.store, next.store);
      RunsStayLate(sys.store, next.store, sys.runs);
    }
  }

  lemma {:induction false} RunLate(hash: Hash, sys: System, actions: seq<Action>)
    requires SystemOk(hash, sys) && VersionsLate(sys.store) && RunsLate(sys.store, sys.runs)
    ensures VersionsLate(Pipeline.After(hash, sys, actions).store)
    decreases |actions|
  {
    if actions != [] {
      if Enabled(sys, actions[0]) {
        NextKeeps(hash, sys, actions[0]);
        NextLate(hash, sys, actions[0]);
        RunLate(hash, Next(hash, sys, actions[0]), actions[1..]);
      } else {
        RunLate(hash, sys, actions[1..]);
      }
    }
  }

  /** In every reachable state, the session of a published version is validating or beyond. */
  lemma PublishedIsValidated(hash: Hash, actions: seq<Action>)
    ensures VersionsLate(PipelineTheorems.Reached(hash, actions))
  {
    EmptyOk(hash);
    RunLate(hash, EMPTY, actions);
  }
}
