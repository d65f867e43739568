/**
 A run that nothing disturbs succeeds: from wherever an earlier attempt has left the job, it publishes
 the card, marks the session ready and completes the job.
 */
module PipelineSuccess {
  import opened Prelude
  import opened P = PublishModel
  import opened Pipeline
  import opened PipelineInvariant
  import opened PipelineRuns
  import opened PipelineSteps
  import opened PipelineSafety
  import opened PipelineCalls
  import opened PipelineSystem
  import opened PipelineOrder
  import opened PipelineProgress
  import S = SessionModel
  import J = JobModel

  /** The ids are new, the card has a display version left, and a base parses. */
  ghost predicate Ground(st: Store, jobId: string, s: S.Session, env: Env)
  {
    && NewIds(st, env) && (s.baseCardId != "" ==> env.parsed) && jobId in st.jobs
    && var pair := PairOf(st.jobs[jobId], s, env);
       pair.versionId in st.versions || Numberable(st, s, pair.cardId)
  }

  /** The run leaves what it yields under the job's pair, or under new ids of its world. */
  ghost predicate YieldsOne(hash: Hash, st: Store, job: J.Job, s: S.Session, world: Pc -> Env, v: CardVersion)
  {
    && job.id in st.jobs
    && exists pc :: Yields(hash, st, job, s, PairOf(st.jobs[job.id], s, world(pc)), world, v)
  }

  predicate SameHolder(a: J.Job, b: J.Job)
  {
    a.status == b.status && a.leaseOwner == b.leaseOwner && a.leaseUntil == b.leaseUntil
  }

  lemma UndisturbedStays(hash: Hash, st: Store, run: Run, world: Pc -> Env, after: Store, pc: Pc)
    requires Undisturbed(hash, st, run, world) && !run.pc.Generating? && Advances(hash, st, run, after, pc)
    requires after.versions == st.versions && after.objects == st.objects
    requires run.job.id in after.jobs && SameHolder(st.jobs[run.job.id], after.jobs[run.job.id])
    ensures Undisturbed(hash, after, run.(pc := pc), world)
  {
    VersionsStayLate(st, after);
    forall p ensures Fair(hash, after, world(p)) {
      assert Fair(hash, st, world(p));
    }
  }

  lemma ReservingYields(hash: Hash, st: Store, run: Run, world: Pc -> Env) returns (v: CardVersion)
    requires Undisturbed(hash, st, run, world) && run.pc.Reserving? && UnderWay(st, run, run.pc.session)
    requires Ground(st, run.job.id, run.pc.session, world(run.pc))
    ensures EndsWell(hash, st, run, world, v)
    ensures Yields(hash, st, run.job, run.pc.session,
              PairOf(st.jobs[run.job.id], run.pc.session, world(run.pc)), world, v)
  {
    var s, env := run.pc.session, world(run.pc);
    var pair := PairOf(st.jobs[run.job.id], s, env);
    var after, pc := Reserve(st, run, env).0, Looking(s, pair);
    Reserves(hash, st, run, env);
    ReserveAdvances(hash, st, run, env);
    UndisturbedStays(hash, st, run, world, after, pc);
    v := LookingEnds(hash, after, run.(pc := pc), world);
    StepEnds(hash, st, run, world, after, pc, v);
  }

  lemma ReservingEnds(hash: Hash, st: Store, run: Run, world: Pc -> Env) returns (v: CardVersion)
    requires Undisturbed(hash, st, run, world) && run.pc.Reserving? && UnderWay(st, run, run.pc.session)
    requires forall pc :: Ground(st, run.job.id, run.pc.session, world(pc))
    ensures EndsWell(hash, st, run, world, v) && YieldsOne(hash, st, run.job, run.pc.session, world, v)
  {
    assert Ground(st, run.job.id, run.pc.session, world(run.pc));
    v := ReservingYields(hash, st, run, world);
  }

  // ----- the base -----

  lemma ReadsBase(hash: Hash, st: Store, run: Run, env: Env)
    requires StoreOk(hash, st) && run.pc.ReadingBase? && env.parsed
    requires run.pc.base.versionId in st.versions && st.versions[run.pc.base.versionId] == run.pc.base
    ensures Effect(hash, st, run, env) == (st, Reserving(run.pc.session))
  {
    assert VersionFits(st, run.pc.base);
    StoredLoads(hash, st.objects, st.versions, run.pc.base.versionId);
    assert Effect(hash, st, run, env) == (st, ReadBase(hash, st, run, env));
  }

  lemma ReadingBaseEnds(hash: Hash, st: Store, run: Run, world: Pc -> Env) returns (v: CardVersion)
    requires Undisturbed(hash, st, run, world) && run.pc.ReadingBase? && UnderWay(st, run, run.pc.session)
    requires run.pc.base.versionId in st.versions && st.versions[run.pc.base.versionId] == run.pc.base
    requires run.pc.session.baseCardId != "" && forall pc :: Ground(st, run.job.id, run.pc.session, world(pc))
    ensures EndsWell(hash, st, run, world, v) && YieldsOne(hash, st, run.job, run.pc.session, world, v)
  {
    var pc := Reserving(run.pc.session);
    assert Ground(st, run.job.id, run.pc.session, world(run.pc));
    ReadsBase(hash, st, run, world(run.pc));
    LoadingAdvances(hash, st, run, world(run.pc));
    v := ReservingEnds(hash, st, run.(pc := pc), world);
    StepEnds(hash, st, run, world, st, pc, v);
  }

  lemma FindsBase(hash: Hash, st: Store, run: Run, env: Env) returns (base: CardVersion)
    requires StoreOk(hash, st) && RunFits(st, run) && run.pc.FindingBase?
    ensures Effect(hash, st, run, env) == (st, ReadingBase(run.pc.session, base))
    ensures base.versionId in st.versions && st.versions[base.versionId] == base
  {
    var s := run.pc.session;
    BaseFromSnapshot(s);
    base := Find(st.versions, s.userId, s.baseCardId, s.baseVersionId).value;
    assert Effect(hash, st, run, env) == (st, FindBase(st, run));
  }

  lemma FindingBaseEnds(hash: Hash, st: Store, run: Run, world: Pc -> Env) returns (v: CardVersion)
    requires Undisturbed(hash, st, run, world) && run.pc.FindingBase? && UnderWay(st, run, run.pc.session)
    requires forall pc :: Ground(st, run.job.id, run.pc.session, world(pc))
    ensures EndsWell(hash, st, run, world, v) && YieldsOne(hash, st, run.job, run.pc.session, world, v)
  {
    var base := FindsBase(hash, st, run, world(run.pc));
    var pc := ReadingBase(run.pc.session, base);
    LoadingAdvances(hash, st, run, world(run.pc));
    v := ReadingBaseEnds(hash, st, run.(pc := pc), world);
    StepEnds(hash, st, run, world, st, pc, v);
  }

  // ----- the start -----

  /** Once the session is generating or beyond. */
  lemma StartedEnds(hash: Hash, st: Store, run: Run, world: Pc -> Env, s: S.Session) returns (v: CardVersion)
    requires Undisturbed(hash, st, run, world) && UnderWay(st, run, s)
    requires run.pc == if HasBase(s) then FindingBase(s) else Reserving(s)
    requires forall pc :: Ground(st, run.job.id, s, world(pc))
    ensures EndsWell(hash, st, run, world, v) && YieldsOne(hash, st, run.job, s, world, v)
  {
    if HasBase(s) {
      v := FindingBaseEnds(hash, st, run, world);
    } else {
      v := ReservingEnds(hash, st, run, world);
    }
  }

  lemma Starts(hash: Hash, st: Store, run: Run, env: Env)
    requires StoreOk(hash, st) && RunFits(st, run) && run.pc.Starting?
    requires run.job.sessionId in st.sessions && st.sessions[run.job.sessionId].status == S.Queued
    ensures var after := Start(st, run, env).0;
            && after == st.(sessions := after.sessions) && run.job.sessionId in after.sessions
            && var s := after.sessions[run.job.sessionId];
               && s.status == S.Generating && s.baseCardId == st.sessions[run.job.sessionId].baseCardId
               && s.userId == st.sessions[run.job.sessionId].userId
               && Effect(hash, st, run, env) == (after, if HasBase(s) then FindingBase(s) else Reserving(s))
  {
    StoredSessionKnown(hash, st, run);
    assert Effect(hash, st, run, env) == Start(st, run, env);
  }

  lemma GroundStays(st: Store, after: Store, jobId: string, s: S.Session, t: S.Session, env: Env)
    requires Ground(st, jobId, s, env) && after == st.(sessions := after.sessions)
    requires t.baseCardId == s.baseCardId && t.userId == s.userId
    ensures Ground(after, jobId, t, env)
  {
  }

  lemma YieldsBack(hash: Hash, st: Store, after: Store, job: J.Job, s: S.Session, t: S.Session, world: Pc -> Env,
                   v: CardVersion)
    requires YieldsOne(hash, after, job, t, world, v) && after == st.(sessions := after.sessions)
    requires t.baseCardId == s.baseCardId && t.userId == s.userId
    ensures YieldsOne(hash, st, job, s, world, v)
  {
    var pc :| Yields(hash, after, job, t, PairOf(after.jobs[job.id], t, world(pc)), world, v);
    assert Yields(hash, st, job, s, PairOf(st.jobs[job.id], s, world(pc)), world, v);
  }

  lemma StartingEnds(hash: Hash, st: Store, run: Run, world: Pc -> Env) returns (v: CardVersion)
    requires Undisturbed(hash, st, run, world) && run.pc.Starting?
    requires run.job.sessionId in st.sessions && st.sessions[run.job.sessionId].status == S.Queued
    requires forall pc :: Ground(st, run.job.id, st.sessions[run.job.sessionId], world(pc))
    ensures EndsWell(hash, st, run, world, v)
    ensures YieldsOne(hash, st, run.job, st.sessions[run.job.sessionId], world, v)
  {
    var before, after := st.sessions[run.job.sessionId], Start(st, run, world(run.pc)).0;
    Starts(hash, st, run, world(run.pc));
    var s := after.sessions[run.job.sessionId];
    var pc := if HasBase(s) then FindingBase(s) else Reserving(s);
    StartingAdvances(hash, st, run, world(run.pc));
    UndisturbedStays(hash, st, run, world, after, pc);
    forall p ensures Ground(after, run.job.id, s, world(p)) {
      GroundStays(st, after, run.job.id, before, s, world(p));
    }
    v := StartedEnds(hash, after, run.(pc := pc), world, s);
    StepEnds(hash, st, run, world, after, pc, v);
    YieldsBack(hash, st, after, run.job, before, s, world, v);
  }

  /** The statuses from which a run goes on. */
  predicate CanGoOn(status: S.Status)
  {
    status == S.Queued || status == S.Generating || status == S.Validating || status == S.Ready
  }

  lemma Loads(hash: Hash, st: Store, run: Run, env: Env)
    requires StoreOk(hash, st) && RunFits(st, run) && run.pc.Loading?
    requires run.job.sessionId in st.sessions && CanGoOn(st.sessions[run.job.sessionId].status)
    ensures var s := st.sessions[run.job.sessionId];
            Effect(hash, st, run, env)
            == (st, if s.status == S.Queued then Starting else if HasBase(s) then FindingBase(s) else Reserving(s))
  {
    StoredSessionKnown(hash, st, run);
    assert Effect(hash, st, run, env) == (st, LoadSession(st, run));
  }

  lemma LoadingEnds(hash: Hash, st: Store, run: Run, world: Pc -> Env) returns (v: CardVersion)
    requires Undisturbed(hash, st, run, world) && run.pc.Loading?
    requires run.job.sessionId in st.sessions && CanGoOn(st.sessions[run.job.sessionId].status)
    requires forall pc :: Ground(st, run.job.id, st.sessions[run.job.sessionId], world(pc))
    ensures EndsWell(hash, st, run, world, v)
    ensures YieldsOne(hash, st, run.job, st.sessions[run.job.sessionId], world, v)
  {
    var s := st.sessions[run.job.sessionId];
    var pc := if s.status == S.Queued then Starting else if HasBase(s) then FindingBase(s) else Reserving(s);
    Loads(hash, st, run, world(run.pc));
    LoadingAdvances(hash, st, run, world(run.pc));
    if s.status == S.Queued {
      v := StartingEnds(hash, st, run.(pc := pc), world);
    } else {
      v := StartedEnds(hash, st, run.(pc := pc), world, s);
    }
    StepEnds(hash, st, run, world, st, pc, v);
  }

  // ----- the whole run -----

  /** A claim hands out a copy of the row it has just written. */
  lemma Handed(hash: Hash, st: Store, worker: string, at: Time, lease: int)
    requires StoreOk(hash, st) && J.Claim(st.jobs, worker, at, lease).1.Ok?
    ensures var (jobs, job) := (J.Claim(st.jobs, worker, at, lease).0, J.Claim(st.jobs, worker, at, lease).1.value);
            && job.id in jobs && jobs[job.id] == job && job.status == J.Running && job.leaseOwner == worker
            && job.leaseUntil == at + lease
  {
    var id := J.Winner(st.jobs, at).value;
    assert J.IsWinner(st.jobs, at, id);
  }

  lemma Fresh(hash: Hash, st: Store, run: Run, worker: string, at: Time, lease: int, world: Pc -> Env)
    requires StoreOk(hash, st) && VersionsLate(st) && J.Claim(st.jobs, worker, at, lease).1 == Ok(run.job)
    requires run == Run(worker, at, run.job, Loading) && lease > 0
    requires forall pc :: world(pc).at < at + lease && Fair(hash, st, world(pc))
    ensures Undisturbed(hash, st.(jobs := J.Claim(st.jobs, worker, at, lease).0), run, world)
  {
    var after := st.(jobs := J.Claim(st.jobs, worker, at, lease).0);
    ClaimKeeps(hash, st, worker, at, lease);
    ClaimedRun(hash, st, run, worker, at, lease);
    Handed(hash, st, worker, at, lease);
    VersionsStayLate(st, after);
    assert !AttemptMade(st, run.job.id, run.job.attempts);
    forall pc ensures Fair(hash, after, world(pc)) {
      assert Fair(hash, st, world(pc));
    }
  }
}
