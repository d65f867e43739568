/** How a run ends: with the card published and the job done, put back for later, or failed. */
module PipelineOutcomes {
  import opened Prelude
  import opened P = PublishModel
  import opened Pipeline
  import opened PipelineInvariant
  import opened PipelineRuns
  import opened PipelineSteps
  import opened PipelineSafety
  import opened PipelineCalls
  import opened PipelineSystem
  import opened PipelineDrive
  import opened PipelineOrder
  import opened PipelineProgress
  import opened PipelineCardIds
  import opened PipelineSuccess
  import opened PipelineFailures
  import PipelineSessions
  import PipelineTheorems
  import S = SessionModel
  import J = JobModel
  import A = ModelAttempts
  import D = DisplayVersion

  /** The job is completed, its session ready with its version, and the version loads. */
  ghost predicate Delivered(hash: Hash, st: Store, jobId: string, sessionId: string, v: CardVersion)
  {
    && jobId in st.jobs && st.jobs[jobId].status == J.Completed
    && st.jobs[jobId].cardId == v.cardId && st.jobs[jobId].versionId == v.versionId
    && sessionId in st.sessions && st.sessions[sessionId].status == S.Ready
    && st.sessions[sessionId].versionId == v.versionId
    && Find(st.versions, st.sessions[sessionId].userId, v.cardId, v.versionId) == Ok(v)
    && var archive := Load(hash, st.objects, st.versions, st.sessions[sessionId].userId, v.cardId, v.versionId,
                           MAX_ARCHIVE_BYTES);
       archive.Ok? && hash(archive.value) == v.sha
  }

  lemma EndsDelivered(hash: Hash, st: Store, run: Run, world: Pc -> Env, v: CardVersion)
    requires EndsWell(hash, st, run, world, v)
    ensures Delivered(hash, Drive(hash, st, run, world).0, run.job.id, run.job.sessionId, v)
  {
    var end := Drive(hash, st, run, world).0;
    JobStored(hash, end, run.job.id);
    assert VersionFits(end, v);
    assert SameReservation(end.jobs, end.publishers[v.versionId], run.job.id);
    StoredLoads(hash, end.objects, end.versions, v.versionId);
  }

  /** A version of the user's card lies below the display version. */
  ghost predicate AllBelow(versions: Versions, userId: string, cardId: string, display: string)
  {
    D.Parses(display)
    && forall id :: id in versions && SameCard(versions[id], userId, cardId) ==>
         D.Parses(versions[id].display) && D.Below(D.Parsed(versions[id].display), D.Parsed(display))
  }

  /** A version made in this environment at this time. */
  predicate MadeOf(hash: Hash, v: CardVersion, env: Env, createdAt: Time)
  {
    && env.archive.Some? && v.sha == hash(env.archive.value) && v.keyId == env.keyId && v.runtime == env.runtime
    && v.title == env.title && v.description == env.description && v.createdAt == createdAt
  }

  /** The version of a job: the one there, or a new one made of what the world supplies. */
  ghost predicate VersionOfJob(hash: Hash, st: Store, job: J.Job, s: S.Session, world: Pc -> Env, v: CardVersion)
  {
    && (job.versionId != "" ==> v.versionId == job.versionId && v.cardId == job.cardId)
    && (job.versionId == "" ==> exists pc :: v.versionId == world(pc).newVersion)
    && (job.versionId == "" && s.baseCardId == "" ==> exists pc :: v.cardId == world(pc).newCard)
    && (s.baseCardId != "" ==> v.cardId == s.baseCardId)
    && if v.versionId in st.versions then v == st.versions[v.versionId]
       else
         && v.userId == s.userId && (exists pc :: MadeOf(hash, v, world(pc), job.createdAt))
         && if s.baseCardId == "" then v.display == "1.0.0" else AllBelow(st.versions, s.userId, v.cardId, v.display)
  }

  lemma DisplayedMeans(st: Store, s: S.Session, cardId: string, display: string)
    requires Displayed(st, s, cardId, display)
    ensures s.baseCardId == "" ==> display == "1.0.0"
    ensures s.baseCardId != "" ==> AllBelow(st.versions, s.userId, cardId, display)
  {
    if s.baseCardId != "" {
      var displays := Displays(st.versions, s.userId, cardId);
      D.NextIsAbove(displays, display);
      forall id | id in st.versions && SameCard(st.versions[id], s.userId, cardId)
        ensures D.Parses(st.versions[id].display) && D.Below(D.Parsed(st.versions[id].display), D.Parsed(display))
      {
        assert st.versions[id].display in displays;
      }
    }
  }

  lemma PairMeans(hash: Hash, st: Store, job: J.Job, s: S.Session, world: Pc -> Env, at: Pc, v: CardVersion)
    requires StoreOk(hash, st) && job.id in st.jobs && st.jobs[job.id] == job
    requires job.sessionId in st.sessions && st.sessions[job.sessionId] == s
    requires v.versionId == PairOf(job, s, world(at)).versionId && v.cardId == PairOf(job, s, world(at)).cardId
    ensures job.versionId != "" ==> v.versionId == job.versionId && v.cardId == job.cardId
    ensures job.versionId == "" ==> exists pc :: v.versionId == world(pc).newVersion
    ensures job.versionId == "" && s.baseCardId == "" ==> exists pc :: v.cardId == world(pc).newCard
    ensures s.baseCardId != "" ==> v.cardId == s.baseCardId
  {
    JobStored(hash, st, job.id);
  }

  /** A version there under the job's pair is published by the job. */
  lemma ThereIsOwn(hash: Hash, st: Store, job: J.Job, s: S.Session, env: Env)
    requires StoreOk(hash, st) && job.id in st.jobs && st.jobs[job.id] == job && Ground(st, job.id, s, env)
    requires PairOf(job, s, env).versionId in st.versions
    ensures var v := st.versions[PairOf(job, s, env).versionId];
            v.versionId == PairOf(job, s, env).versionId && v.cardId == PairOf(job, s, env).cardId
  {
    IdsHandedOut(hash, st);
    var v := st.versions[PairOf(job, s, env).versionId];
    assert VersionFits(st, v);
    assert SameReservation(st.jobs, st.publishers[v.versionId], job.id);
  }

  lemma NewIsMade(hash: Hash, st: Store, job: J.Job, s: S.Session, pair: J.Publication, world: Pc -> Env,
                  v: CardVersion)
    requires pair.versionId !in st.versions && Yields(hash, st, job, s, pair, world, v)
    ensures v.versionId == pair.versionId && v.cardId == pair.cardId && v.userId == s.userId
    ensures exists pc :: MadeOf(hash, v, world(pc), job.createdAt)
  {
    var pc: Pc :| Publishes(hash, s.userId, pair, v.display, job, world(pc), v);
    assert MadeOf(hash, v, world(pc), job.createdAt);
  }

  lemma YieldsMeans(hash: Hash, st: Store, job: J.Job, s: S.Session, world: Pc -> Env, v: CardVersion)
    requires StoreOk(hash, st) && job.id in st.jobs && st.jobs[job.id] == job
    requires job.sessionId in st.sessions && st.sessions[job.sessionId] == s
    requires YieldsOne(hash, st, job, s, world, v) && forall pc :: Ground(st, job.id, s, world(pc))
    ensures VersionOfJob(hash, st, job, s, world, v)
  {
    var pc :| Yields(hash, st, job, s, PairOf(job, s, world(pc)), world, v);
    var pair := PairOf(job, s, world(pc));
    assert Ground(st, job.id, s, world(pc));
    if pair.versionId in st.versions {
      ThereIsOwn(hash, st, job, s, world(pc));
    } else {
      NewIsMade(hash, st, job, s, pair, world, v);
      DisplayedMeans(st, s, pair.cardId, v.display);
    }
    PairMeans(hash, st, job, s, world, pc, v);
  }

  // ----- success -----

  /** The model answers, the archive fits, the ids are new, and the card has a display version left. */
  ghost predicate Unhindered(hash: Hash, st: Store, job: J.Job, world: Pc -> Env)
  {
    && job.sessionId in st.sessions
    && forall pc :: Fair(hash, st, world(pc)) && Ground(st, job.id, st.sessions[job.sessionId], world(pc))
  }

  /** The run of a job just claimed. */
  function Claimed(worker: string, at: Time, job: J.Job): Run
  {
    Run(worker, at, job, Loading)
  }

  ghost function AfterClaim(st: Store, worker: string, at: Time, lease: int): Store
  {
    st.(jobs := J.Claim(st.jobs, worker, at, lease).0)
  }

  /**
   From any reachable state: once a claim has granted the job of a session that can go on, and no call
   breaks while the lease holds, the run ends without an error and has delivered the job's version.
   */
  lemma ClaimedRunSucceeds(hash: Hash, actions: seq<Action>, worker: string, at: Time, lease: int, job: J.Job,
                           world: Pc -> Env) returns (v: CardVersion)
    requires var st := PipelineTheorems.Reached(hash, actions);
             && lease > 0 && J.Claim(st.jobs, worker, at, lease).1 == Ok(job)
             && (forall pc :: world(pc).at < at + lease) && job.sessionId in st.sessions
             && st.sessions[job.sessionId].status in {S.Queued, S.Generating, S.Validating, S.Ready}
             && Unhindered(hash, AfterClaim(st, worker, at, lease), job, world)
    ensures var claimed := AfterClaim(PipelineTheorems.Reached(hash, actions), worker, at, lease);
            var (end, last) := Drive(hash, claimed, Claimed(worker, at, job), world);
            && last.pc == Stopped(None) && Delivered(hash, end, job.id, job.sessionId, v)
            && VersionOfJob(hash, claimed, job, claimed.sessions[job.sessionId], world, v)
  {
    var st, run := PipelineTheorems.Reached(hash, actions), Claimed(worker, at, job);
    var claimed := AfterClaim(st, worker, at, lease);
    PipelineTheorems.ReachedOk(hash, actions);
    PublishedIsValidated(hash, actions);
    v := ClaimDelivers(hash, st, run, lease, world);
  }

  /** A claim that grants the job of a session that can go on, in good order and unhindered from there. */
  ghost predicate GoodStart(hash: Hash, st: Store, worker: string, at: Time, lease: int, world: Pc -> Env)
  {
    && StoreOk(hash, st) && VersionsLate(st) && lease > 0 && J.Claim(st.jobs, worker, at, lease).1.Ok?
    && (forall pc :: world(pc).at < at + lease)
    && var job := J.Claim(st.jobs, worker, at, lease).1.value;
       && job.sessionId in st.sessions
       && st.sessions[job.sessionId].status in {S.Queued, S.Generating, S.Validating, S.Ready}
       && Unhindered(hash, AfterClaim(st, worker, at, lease), job, world)
  }

  lemma ClaimDelivers(hash: Hash, st: Store, run: Run, lease: int, world: Pc -> Env) returns (v: CardVersion)
    requires GoodStart(hash, st, run.worker, run.now, lease, world) && run.pc == Loading
    requires J.Claim(st.jobs, run.worker, run.now, lease).1 == Ok(run.job)
    ensures var claimed := AfterClaim(st, run.worker, run.now, lease);
            var (end, last) := Drive(hash, claimed, run, world);
            && last.pc == Stopped(None) && Delivered(hash, end, run.job.id, run.job.sessionId, v)
            && VersionOfJob(hash, claimed, run.job, claimed.sessions[run.job.sessionId], world, v)
  {
    var claimed := AfterClaim(st, run.worker, run.now, lease);
    forall pc ensures Fair(hash, st, world(pc)) {
      assert Fair(hash, claimed, world(pc));
    }
    Fresh(hash, st, run, run.worker, run.now, lease, world);
    Handed(hash, st, run.worker, run.now, lease);
    v := LoadingEnds(hash, claimed, run, world);
    EndsDelivered(hash, claimed, run, world, v);
    YieldsMeans(hash, claimed, run.job, claimed.sessions[run.job.sessionId], world, v);
  }

  lemma EmptyCard(versions: Versions, userId: string, cardId: string)
    requires forall v :: v in versions ==> versions[v].cardId != cardId
    ensures Displays(versions, userId, cardId) == {}
  {
  }

  /** With new ids, a first version always has its display version free. */
  lemma FirstGround(hash: Hash, actions: seq<Action>, worker: string, at: Time, lease: int, env: Env)
    requires var st := PipelineTheorems.Reached(hash, actions);
             && NewCards(hash, EMPTY, actions) && NewCard(st, env.newCard) && NewIds(st, env)
             && J.Claim(st.jobs, worker, at, lease).1.Ok?
             && var id := J.Claim(st.jobs, worker, at, lease).1.value.sessionId;
                id in st.sessions && st.sessions[id].baseCardId == ""
    ensures var st := PipelineTheorems.Reached(hash, actions);
            var job := J.Claim(st.jobs, worker, at, lease).1.value;
            Ground(AfterClaim(st, worker, at, lease), job.id, st.sessions[job.sessionId], env)
  {
    var st := PipelineTheorems.Reached(hash, actions);
    var job := J.Claim(st.jobs, worker, at, lease).1.value;
    var s, pair := st.sessions[job.sessionId], PairOf(job, st.sessions[job.sessionId], env);
    PipelineTheorems.ReachedOk(hash, actions);
    Handed(hash, st, worker, at, lease);
    ClaimedPair(hash, st, worker, at, lease);
    JobStored(hash, st, job.id);
    if pair.versionId !in st.versions {
      FirstIsFree(hash, actions, job.id, pair.cardId);
      EmptyCard(st.versions, s.userId, pair.cardId);
    }
  }

  lemma ClaimedPair(hash: Hash, st: Store, worker: string, at: Time, lease: int)
    requires StoreOk(hash, st) && J.Claim(st.jobs, worker, at, lease).1.Ok?
    ensures var job := J.Claim(st.jobs, worker, at, lease).1.value;
            && job.id in st.jobs && st.jobs[job.id].sessionId == job.sessionId
            && st.jobs[job.id].cardId == job.cardId && st.jobs[job.id].versionId == job.versionId
  {
    var id := J.Winner(st.jobs, at).value;
    assert J.IsWinner(st.jobs, at, id);
  }

  /** If every new id is really new, nothing but the model and the archive can keep a first version away. */
  lemma FirstVersionSucceeds(hash: Hash, actions: seq<Action>, worker: string, at: Time, lease: int, job: J.Job,
                             world: Pc -> Env) returns (v: CardVersion)
    requires var st := PipelineTheorems.Reached(hash, actions);
             && lease > 0 && J.Claim(st.jobs, worker, at, lease).1 == Ok(job)
             && (forall pc :: world(pc).at < at + lease) && job.sessionId in st.sessions
             && st.sessions[job.sessionId].status in {S.Queued, S.Generating, S.Validating, S.Ready}
             && st.sessions[job.sessionId].baseCardId == "" && NewCards(hash, EMPTY, actions)
             && forall pc :: Fair(hash, st, world(pc)) && NewIds(st, world(pc)) && NewCard(st, world(pc).newCard)
    ensures var claimed := AfterClaim(PipelineTheorems.Reached(hash, actions), worker, at, lease);
            var (end, last) := Drive(hash, claimed, Claimed(worker, at, job), world);
            && last.pc == Stopped(None) && Delivered(hash, end, job.id, job.sessionId, v)
            && VersionOfJob(hash, claimed, job, claimed.sessions[job.sessionId], world, v)
  {
    var st := PipelineTheorems.Reached(hash, actions);
    var claimed := AfterClaim(st, worker, at, lease);
    forall pc ensures Fair(hash, claimed, world(pc))
                      && Ground(claimed, job.id, claimed.sessions[job.sessionId], world(pc)) {
      assert Fair(hash, st, world(pc));
      FirstGround(hash, actions, worker, at, lease, world(pc));
    }
    v := ClaimedRunSucceeds(hash, actions, worker, at, lease, job, world);
  }

  // ----- failure -----

  /** In a reachable state the session of a job is past its confirmation. */
  lemma ReachedUnderway(hash: Hash, actions: seq<Action>, run: Run)
    requires run.job.id in PipelineTheorems.Reached(hash, actions).jobs
    requires PipelineTheorems.Reached(hash, actions).jobs[run.job.id].sessionId == run.job.sessionId
    ensures Underway(PipelineTheorems.Reached(hash, actions), run)
  {
    var st := PipelineTheorems.Reached(hash, actions);
    PipelineTheorems.ReachedOk(hash, actions);
    JobStored(hash, st, run.job.id);
    PipelineSessions.SnapshotsHold(hash, actions, run.job.sessionId);
  }

  lemma FreshOnCourse(hash: Hash, st: Store, run: Run, lease: int, world: Pc -> Env)
    requires StoreOk(hash, st) && Underway(st, run) && run.pc == Loading && lease > 0
    requires J.Claim(st.jobs, run.worker, run.now, lease).1 == Ok(run.job)
    requires forall pc :: world(pc).at < run.now + lease && NewIds(st, world(pc))
    ensures OnCourse(hash, AfterClaim(st, run.worker, run.now, lease), run, world)
  {
    var claimed := AfterClaim(st, run.worker, run.now, lease);
    ClaimKeeps(hash, st, run.worker, run.now, lease);
    ClaimedRun(hash, st, run, run.worker, run.now, lease);
    Handed(hash, st, run.worker, run.now, lease);
    assert !AttemptMade(st, run.job.id, run.job.attempts);
    forall pc ensures NewIds(claimed, world(pc)) {
      assert NewIds(st, world(pc));
    }
  }

  /**
   From any reachable state: whatever the model, the archive and the base do, a run that keeps its lease
   leaves its job completed, put back for a later attempt, or failed together with its session.
   */
  lemma ClaimedRunSettles(hash: Hash, actions: seq<Action>, worker: string, at: Time, lease: int, job: J.Job,
                          world: Pc -> Env)
    requires var st := PipelineTheorems.Reached(hash, actions);
             && lease > 0 && J.Claim(st.jobs, worker, at, lease).1 == Ok(job)
             && forall pc :: world(pc).at < at + lease && NewIds(st, world(pc))
    ensures var claimed := AfterClaim(PipelineTheorems.Reached(hash, actions), worker, at, lease);
            var (end, last) := Drive(hash, claimed, Claimed(worker, at, job), world);
            Settled(end, Claimed(worker, at, job), world, last.pc.outcome)
  {
    var st, run := PipelineTheorems.Reached(hash, actions), Claimed(worker, at, job);
    PipelineTheorems.ReachedOk(hash, actions);
    ClaimedRun(hash, st, run, worker, at, lease);
    ClaimedPair(hash, st, worker, at, lease);
    ReachedUnderway(hash, actions, run);
    FreshOnCourse(hash, st, run, lease, world);
    RunSettles(hash, AfterClaim(st, worker, at, lease), run, world);
  }

  lemma CannotResumeLeads(hash: Hash, st: Store, run: Run, env: Env)
    requires run.pc.Loading? && run.job.sessionId in st.sessions
    requires !CanGoOn(st.sessions[run.job.sessionId].status)
    ensures Effect(hash, st, run, env) == (st, MarkingFailed("GENERATION_STATE_INVALID", CannotResume))
  {
    assert Effect(hash, st, run, env) == (st, LoadSession(st, run));
  }

  /** A finished session is not touched again, and its job fails. */
  lemma CannotResumeEnds(hash: Hash, st: Store, run: Run, world: Pc -> Env)
    requires OnCourse(hash, st, run, world) && run.pc.Loading?
    requires run.job.sessionId in st.sessions && !CanGoOn(st.sessions[run.job.sessionId].status)
    ensures var (end, last) := Drive(hash, st, run, world);
            && last.pc == Stopped(Some(CannotResume)) && Settles(hash, st, run, world)
            && run.job.sessionId in end.sessions
            && end.sessions[run.job.sessionId] == st.sessions[run.job.sessionId]
  {
    var pc := MarkingFailed("GENERATION_STATE_INVALID", CannotResume);
    CannotResumeLeads(hash, st, run, world(run.pc));
    LoadingAdvances(hash, st, run, world(run.pc));
    MarkingFailedSettles(hash, st, run.(pc := pc), world);
    StepSettles(hash, st, run, world, st, pc);
    DriveOne(hash, st, run, world);
  }

  lemma GroundNew(hash: Hash, st: Store, job: J.Job, world: Pc -> Env)
    requires Unhindered(hash, st, job, world)
    ensures forall pc :: NewIds(st, world(pc))
  {
    forall pc ensures NewIds(st, world(pc)) {
      assert Fair(hash, st, world(pc)) && Ground(st, job.id, st.sessions[job.sessionId], world(pc));
    }
  }

  lemma ClaimFails(hash: Hash, st: Store, run: Run, lease: int, world: Pc -> Env)
    requires StoreOk(hash, st) && Underway(st, run) && run.pc == Loading && lease > 0
    requires J.Claim(st.jobs, run.worker, run.now, lease).1 == Ok(run.job)
    requires forall pc :: world(pc).at < run.now + lease && NewIds(st, world(pc))
    requires !CanGoOn(st.sessions[run.job.sessionId].status)
    ensures var (end, last) := Drive(hash, AfterClaim(st, run.worker, run.now, lease), run, world);
            && last.pc == Stopped(Some(CannotResume)) && Settled(end, run, world, Some(CannotResume))
            && end.sessions[run.job.sessionId] == st.sessions[run.job.sessionId]
  {
    var claimed := AfterClaim(st, run.worker, run.now, lease);
    FreshOnCourse(hash, st, run, lease, world);
    CannotResumeEnds(hash, claimed, run, world);
  }

  /** Unhindered, a run delivers exactly if its session is queued, generating, validating or ready. */
  lemma DeliversIffResumable(hash: Hash, actions: seq<Action>, worker: string, at: Time, lease: int, job: J.Job,
                             world: Pc -> Env)
    requires var st := PipelineTheorems.Reached(hash, actions);
             && lease > 0 && J.Claim(st.jobs, worker, at, lease).1 == Ok(job)
             && (forall pc :: world(pc).at < at + lease) && job.sessionId in st.sessions
             && Unhindered(hash, AfterClaim(st, worker, at, lease), job, world)
    ensures var st, run := PipelineTheorems.Reached(hash, actions), Claimed(worker, at, job);
            var (end, last) := Drive(hash, AfterClaim(st, worker, at, lease), run, world);
            && (last.pc == Stopped(None)
                <==> st.sessions[job.sessionId].status in {S.Queued, S.Generating, S.Validating, S.Ready})
            && (last.pc != Stopped(None) ==>
                  && last.pc == Stopped(Some(CannotResume)) && Settled(end, run, world, Some(CannotResume))
                  && end.sessions[job.sessionId] == st.sessions[job.sessionId])
  {
    var st, run := PipelineTheorems.Reached(hash, actions), Claimed(worker, at, job);
    if CanGoOn(st.sessions[job.sessionId].status) {
      var v := ClaimedRunSucceeds(hash, actions, worker, at, lease, job, world);
    } else {
      PipelineTheorems.ReachedOk(hash, actions);
      ClaimedPair(hash, st, worker, at, lease);
      ReachedUnderway(hash, actions, run);
      GroundNew(hash, AfterClaim(st, worker, at, lease), job, world);
      assert AfterClaim(st, worker, at, lease).versionIds == st.versionIds;
      forall pc ensures NewIds(st, world(pc)) {
        assert NewIds(AfterClaim(st, worker, at, lease), world(pc));
      }
      ClaimFails(hash, st, run, lease, world);
    }
  }

  // ----- a call that breaks -----

  /** The run stands before a call whose error the worker handles itself. */
  predicate Handles(pc: Pc)
  {
    Working(pc) && !pc.Reserving?
  }

  lemma BrokenLeads(run: Run, kind: Kind)
    requires Handles(run.pc)
    ensures OnFault(run, kind) == FailAt(run.(pc := OnFault(run, kind)), CodeOf(run.pc), Faulted(kind))
  {
  }

  lemma BrokenStands(hash: Hash, actions: seq<Action>, handle: nat, env: Env, kind: Kind, applied: bool)
    requires var sys := Pipeline.After(hash, EMPTY, actions);
             Enabled(sys, WorkStep(handle, env, Fault(kind, applied))) && Handles(sys.runs[handle].pc)
    ensures var sys := Pipeline.After(hash, EMPTY, actions);
            var next := Next(hash, sys, WorkStep(handle, env, Fault(kind, applied)));
            && StoreOk(hash, next.store) && RunFits(next.store, next.runs[handle])
            && next.runs[handle] == sys.runs[handle].(pc := OnFault(sys.runs[handle], kind))
            && Underway(next.store, next.runs[handle])
  {
    var sys, step := Pipeline.After(hash, EMPTY, actions), WorkStep(handle, env, Fault(kind, applied));
    var next := Next(hash, sys, step);
    PipelineTheorems.ReachedOk(hash, actions);
    assert RunFits(sys.store, sys.runs[handle]);
    ReachedUnderway(hash, actions, sys.runs[handle]);
    NextKeeps(hash, sys, step);
    assert RunFits(next.store, next.runs[handle]);
    UnderwayStays(sys.store, next.store, sys.runs[handle], next.runs[handle].pc);
  }

  lemma AttemptsLeft(hash: Hash, st: Store, run: Run)
    requires StoreOk(hash, st) && JobKnown(st, run)
    ensures !MayTryAgain(run) <==> run.job.attempts == J.MAX_ATTEMPTS
  {
    JobStored(hash, st, run.job.id);
  }

  /**
   In any reachable state, a call breaks, whether or not it took effect, and the run holds its lease
   until it has dealt with that: the error decides what becomes of the job.
   */
  lemma BrokenCallSettles(hash: Hash, actions: seq<Action>, handle: nat, env: Env, kind: Kind, applied: bool,
                          world: Pc -> Env)
    requires var sys, step := Pipeline.After(hash, EMPTY, actions), WorkStep(handle, env, Fault(kind, applied));
             && Enabled(sys, step) && Handles(sys.runs[handle].pc)
             && Held(Next(hash, sys, step).store, Next(hash, sys, step).runs[handle], world)
    ensures var sys := Pipeline.After(hash, EMPTY, actions);
            var next := Next(hash, sys, WorkStep(handle, env, Fault(kind, applied)));
            var run := next.runs[handle];
            var (end, last) := Drive(hash, next.store, run, world);
            && last.pc == Stopped(Some(Faulted(kind))) && Settled(end, run, world, Some(Faulted(kind)))
            && (kind == Permanent || (kind == Temporary && run.job.attempts == J.MAX_ATTEMPTS) ==>
                  && run.job.sessionId in next.store.sessions && run.job.sessionId in end.sessions
                  && FailedWith(next.store.sessions[run.job.sessionId], end.sessions[run.job.sessionId],
                                CodeOf(sys.runs[handle].pc), world(run.pc).at))
  {
    var sys, step := Pipeline.After(hash, EMPTY, actions), WorkStep(handle, env, Fault(kind, applied));
    var next := Next(hash, sys, step);
    BrokenStands(hash, actions, handle, env, kind, applied);
    BrokenLeads(sys.runs[handle], kind);
    AttemptsLeft(hash, next.store, next.runs[handle]);
    BrokenEnds(hash, next.store, next.runs[handle], kind, CodeOf(sys.runs[handle].pc), world);
  }

  /** A failed model call is dealt with like a call that breaks. */
  lemma FailedModelSettles(hash: Hash, actions: seq<Action>, handle: nat, env: Env, world: Pc -> Env)
    requires var sys, step := Pipeline.After(hash, EMPTY, actions), WorkStep(handle, env, NoFault);
             && Enabled(sys, step) && sys.runs[handle].pc.Generating? && !A.Succeeds(env.agent)
             && Held(Next(hash, sys, step).store, Next(hash, sys, step).runs[handle], world)
    ensures var sys := Pipeline.After(hash, EMPTY, actions);
            var next := Next(hash, sys, WorkStep(handle, env, NoFault));
            var run := next.runs[handle];
            var (end, last) := Drive(hash, next.store, run, world);
            && last.pc == Stopped(Some(Faulted(env.failure))) && Settled(end, run, world, Some(Faulted(env.failure)))
            && (env.failure == Permanent || (env.failure == Temporary && run.job.attempts == J.MAX_ATTEMPTS) ==>
                  && run.job.sessionId in next.store.sessions && run.job.sessionId in end.sessions
                  && FailedWith(next.store.sessions[run.job.sessionId], end.sessions[run.job.sessionId],
                                "VALIDATION_FAILED", world(run.pc).at))
  {
    var sys, step := Pipeline.After(hash, EMPTY, actions), WorkStep(handle, env, NoFault);
    var next := Next(hash, sys, step);
    FailedModelStands(hash, actions, handle, env);
    AttemptsLeft(hash, next.store, next.runs[handle]);
    BrokenEnds(hash, next.store, next.runs[handle], env.failure, "VALIDATION_FAILED", world);
  }

  lemma FailedModelStands(hash: Hash, actions: seq<Action>, handle: nat, env: Env)
    requires var sys := Pipeline.After(hash, EMPTY, actions);
             && Enabled(sys, WorkStep(handle, env, NoFault)) && sys.runs[handle].pc.Generating?
             && !A.Succeeds(env.agent)
    ensures var sys := Pipeline.After(hash, EMPTY, actions);
            var next := Next(hash, sys, WorkStep(handle, env, NoFault));
            var run := next.runs[handle];
            && StoreOk(hash, next.store) && RunFits(next.store, run) && Underway(next.store, run)
            && run.pc == FailAt(run, "VALIDATION_FAILED", Faulted(env.failure))
  {
    var sys, step := Pipeline.After(hash, EMPTY, actions), WorkStep(handle, env, NoFault);
    var next, was := Next(hash, sys, step), sys.runs[handle];
    PipelineTheorems.ReachedOk(hash, actions);
    assert RunFits(sys.store, was);
    ReachedUnderway(hash, actions, was);
    NextKeeps(hash, sys, step);
    assert Effect(hash, sys.store, was, env) == Generate(sys.store, was, env);
    assert RunFits(next.store, next.runs[handle]);
    UnderwayStays(sys.store, next.store, was, next.runs[handle].pc);
  }

  /** If the reservation or the completion breaks, the run stops and leaves the session to the next attempt. */
  lemma BrokenReservationStops(hash: Hash, sys: System, handle: nat, env: Env, kind: Kind, applied: bool)
    requires Enabled(sys, WorkStep(handle, env, Fault(kind, applied)))
    requires sys.runs[handle].pc.Reserving? || sys.runs[handle].pc.Completing?
    requires sys.runs[handle].job.id in sys.store.jobs
    ensures var next, id := Next(hash, sys, WorkStep(handle, env, Fault(kind, applied))), sys.runs[handle].job.id;
            && next.runs[handle].pc == Stopped(Some(Faulted(kind))) && next.store.sessions == sys.store.sessions
            && id in next.store.jobs
            && (next.store.jobs[id].status == sys.store.jobs[id].status
                || (sys.runs[handle].pc.Completing? && next.store.jobs[id].status == J.Completed))
  {
    var st, run := sys.store, sys.runs[handle];
    if run.pc.Reserving? {
      assert Effect(hash, st, run, env) == Reserve(st, run, env);
    } else {
      assert Effect(hash, st, run, env) == Pipeline.Complete(st, run, env);
    }
  }
}
