/** Each store call of a run keeps the invariant of the stores and leads to a state the run may be in. */
module PipelineSteps {
  import opened Prelude
  import opened P = PublishModel
  import opened Pipeline
  import opened PipelineInvariant
  import opened PipelineRuns
  import S = SessionModel
  import J = JobModel
  import A = ModelAttempts
  import D = DisplayVersion
  import Text

  /** Before the model is asked. */
  predicate Asking(pc: Pc)
  {
    || pc.Loading? || pc.Starting? || pc.FindingBase? || pc.ReadingBase? || pc.Reserving? || pc.Looking?
    || pc.Numbering? || pc.Generating?
  }

  predicate NotYetAsked(st: Store, run: Run)
  {
    Asking(run.pc) ==> (run.job.id, run.job.attempts) !in st.modelCalls
  }

  /** The next store call is one the run may make, and asking the model is never put off again. */
  ghost predicate Leads(st: Store, run: Run, pc: Pc)
  {
    && RunFits(st, run.(pc := pc))
    && (Asking(pc) ==> Asking(run.pc) && !run.pc.Generating?)
  }

  /** What a store call of a run must establish. */
  ghost predicate Keeps(hash: Hash, st: Store, after: Store)
  {
    StoreOk(hash, after) && Evolves(st, after) && after.modelCalls == st.modelCalls
  }

  lemma FailFits(st: Store, run: Run, code: string, cause: Cause)
    requires JobKnown(st, run) && !Defensive(cause)
    ensures Leads(st, run, FailAt(run, code, cause))
  {
  }

  lemma BaseFromSnapshot(s: S.Session)
    requires S.Resumable(s) && s.confirmed.Some?
    ensures s.confirmed.value.baseCardId == s.baseCardId && s.confirmed.value.baseVersionId == s.baseVersionId
    ensures HasBase(s) <==> s.baseCardId != ""
  {
  }

  /** The snapshot is there, so loading never stops for want of it. */
  lemma AfterStartFits(st: Store, run: Run, s: S.Session)
    requires JobKnown(st, run) && SessionKnown(st, run, s) && (run.pc.Loading? || run.pc.Starting?)
    ensures Leads(st, run, AfterStart(run, s))
  {
  }

  lemma StoredSessionKnown(hash: Hash, st: Store, run: Run)
    requires StoreOk(hash, st) && JobKnown(st, run)
    ensures run.job.sessionId in st.sessions && SessionKnown(st, run, st.sessions[run.job.sessionId])
  {
    assert JobFits(st, st.jobs[run.job.id]);
    assert SessionFits(st, st.sessions[run.job.sessionId]);
  }

  // ----- changing a session -----

  lemma SessionStored(hash: Hash, st: Store, id: string)
    requires StoreOk(hash, st) && id in st.sessions
    ensures st.sessions[id].id == id && SessionFits(st, st.sessions[id])
  {
    assert SessionFits(st, st.sessions[id]);
  }

  /** A session that changed, but not to ready. */
  lemma ChangedFits(hash: Hash, st: Store, id: string, after: S.Session)
    requires StoreOk(hash, st) && id in st.sessions
    requires S.Resumable(after) && S.Follows(st.sessions[id], after)
    requires after.status == S.Ready ==> after == st.sessions[id]
    ensures Keeps(hash, st, WithSession(st, id, after))
  {
    SessionStored(hash, st, id);
    assert SessionFits(WithSession(st, id, after), after);
    SessionPut(hash, st, id, after);
  }

  /** A session made ready with the version its job has published. */
  lemma MarkedFits(hash: Hash, st: Store, id: string, after: S.Session)
    requires StoreOk(hash, st) && id in st.sessions
    requires S.Resumable(after) && S.Follows(st.sessions[id], after)
    requires Published(st, after)
    ensures Keeps(hash, st, WithSession(st, id, after))
  {
    SessionStored(hash, st, id);
    assert SessionFits(WithSession(st, id, after), after);
    SessionPut(hash, st, id, after);
  }

  /** Any session change but marking it ready. */
  lemma UpdateKeeps(hash: Hash, st: Store, id: string, call: S.ServiceCall)
    requires StoreOk(hash, st) && !call.MarkReadyCall?
    ensures Keeps(hash, st, UpdateSession(st, id, call).0)
  {
    EvolvesReflexive(st);
    var changed := UpdateSession(st, id, call).1;
    if changed.Ok? {
      SessionStored(hash, st, id);
      S.ChangeResumable(st.sessions[id], call);
      if changed.value.status == S.Ready {
        S.ReadyComesFromMark(st.sessions[id], call);
      }
      ChangedFits(hash, st, id, changed.value);
    }
  }

  // ----- the steps -----

  lemma LoadStep(hash: Hash, st: Store, run: Run)
    requires StoreOk(hash, st) && RunFits(st, run) && run.pc.Loading?
    ensures Leads(st, run, LoadSession(st, run))
  {
    StoredSessionKnown(hash, st, run);
    var s := st.sessions[run.job.sessionId];
    AfterStartFits(st, run, s);
    FailFits(st, run, CodeOf(run.pc), CannotResume);
  }

  lemma StartStep(hash: Hash, st: Store, run: Run, env: Env)
    requires StoreOk(hash, st) && RunFits(st, run) && run.pc.Starting?
    ensures Keeps(hash, st, Start(st, run, env).0) && Leads(Start(st, run, env).0, run, Start(st, run, env).1)
  {
    var call := S.StartGeneratingCall(env.at);
    var (after, started) := UpdateSession(st, run.job.sessionId, call);
    UpdateKeeps(hash, st, run.job.sessionId, call);
    JobKnownStays(st, after, run);
    FailFits(after, run, CodeOf(run.pc), Refused);
    if started.Ok? {
      StoredSessionKnown(hash, after, run);
      AfterStartFits(after, run, started.value);
    }
  }

  lemma FindBaseStep(st: Store, run: Run)
    requires RunFits(st, run) && run.pc.FindingBase?
    ensures Leads(st, run, FindBase(st, run))
  {
    FailFits(st, run, CodeOf(run.pc), Refused);
  }

  lemma ReadBaseStep(hash: Hash, st: Store, run: Run, env: Env)
    requires RunFits(st, run) && run.pc.ReadingBase?
    ensures Leads(st, run, ReadBase(hash, st, run, env))
  {
    FailFits(st, run, CodeOf(run.pc), Refused);
    FailFits(st, run, "BASE_ARTIFACT_INVALID", Refused);
  }

  // ----- changing a job -----

  lemma JobStored(hash: Hash, st: Store, id: string)
    requires StoreOk(hash, st) && id in st.jobs
    ensures JobFits(st, st.jobs[id]) && st.jobs[id].id == id
  {
  }

  /** Job fields that neither the reservation nor the outcome depends on. */
  lemma JobTouched(hash: Hash, st: Store, id: string, job: J.Job)
    requires StoreOk(hash, st) && id in st.jobs && JobGrows(st.jobs[id], job)
    requires job.attempts <= job.maxAttempts
    requires job.cardId == st.jobs[id].cardId && job.versionId == st.jobs[id].versionId
    requires job.sessionId in st.sessions
    requires job.status == J.Completed ==> ReadyWith(st.sessions[job.sessionId], job.versionId)
    requires job.status == J.Cancelled ==> st.sessions[job.sessionId].status == S.Cancelled
    ensures Keeps(hash, st, WithJob(st, id, job, {}))
  {
    JobStored(hash, st, id);
    assert JobFits(WithJob(st, id, job, {}), job);
    StillDistinct(st.jobs, id, job);
    JobPut(hash, st, id, job, {});
  }

  lemma StillDistinct(jobs: J.Jobs, id: string, job: J.Job)
    requires Distinct(jobs) && id in jobs && job.versionId == jobs[id].versionId
    ensures Distinct(jobs[id := job])
  {
    var after := jobs[id := job];
    forall a, b | SameReservation(after, a, b) ensures a == b {
      assert SameReservation(jobs, a, b);
    }
  }

  lemma NewlyDistinct(jobs: J.Jobs, id: string, job: J.Job)
    requires Distinct(jobs) && forall other :: other in jobs ==> jobs[other].versionId != job.versionId
    ensures Distinct(jobs[id := job])
  {
    var after := jobs[id := job];
    forall a, b | SameReservation(after, a, b) ensures a == b {
      assert a != id && b != id ==> SameReservation(jobs, a, b);
    }
  }

  /** Version ids of jobs and of published versions have all been handed out. */
  lemma IdsHandedOut(hash: Hash, st: Store)
    requires StoreOk(hash, st)
    ensures st.versions.Keys <= st.versionIds
    ensures forall id :: id in st.jobs && st.jobs[id].versionId != "" ==> st.jobs[id].versionId in st.versionIds
  {
    forall id | id in st.versions ensures id in st.versionIds {
      assert VersionFits(st, st.versions[id]);
    }
    forall id | id in st.jobs && st.jobs[id].versionId != "" ensures st.jobs[id].versionId in st.versionIds {
      JobStored(hash, st, id);
    }
  }

  lemma ReservationMade(hash: Hash, st: Store, id: string, job: J.Job, s: S.Session)
    requires StoreOk(hash, st) && id in st.jobs && st.jobs[id].versionId == ""
    requires job.versionId !in st.versionIds && job.versionId != "" && job.cardId != ""
    requires st.jobs[id].sessionId in st.sessions && st.jobs[id].status == J.Running
    requires s == st.sessions[st.jobs[id].sessionId] && (s.baseCardId != "" ==> job.cardId == s.baseCardId)
    requires job == st.jobs[id].(cardId := job.cardId, versionId := job.versionId, updatedAt := job.updatedAt)
    ensures Keeps(hash, st, WithJob(st, id, job, {job.versionId}))
  {
    JobStored(hash, st, id);
    IdsHandedOut(hash, st);
    SessionStored(hash, st, st.jobs[id].sessionId);
    assert JobFits(WithJob(st, id, job, {job.versionId}), job);
    NewlyDistinct(st.jobs, id, job);
    JobPut(hash, st, id, job, {job.versionId});
  }

  lemma IdsOnly(hash: Hash, st: Store, id: string, ids: set<string>)
    requires StoreOk(hash, st) && id in st.jobs
    ensures Keeps(hash, st, WithJob(st, id, st.jobs[id], ids))
  {
    J.SameRow(st.jobs, id);
    JobStored(hash, st, id);
    assert JobFits(WithJob(st, id, st.jobs[id], ids), st.jobs[id]);
    JobPut(hash, st, id, st.jobs[id], ids);
  }

  // ----- the remaining steps -----

  predicate CardChosen(s: S.Session, card: string)
  {
    s.baseCardId != "" ==> card == s.baseCardId
  }

  /** Reserving once sets the pair, and every later call gets the same pair. */
  lemma ReserveRow(hash: Hash, st: Store, run: Run, card: string, newVersion: string)
    requires StoreOk(hash, st) && JobKnown(st, run) && newVersion !in st.versionIds
    requires run.job.sessionId in st.sessions && CardChosen(st.sessions[run.job.sessionId], card)
    ensures var (jobs, r) := J.ReservePublication(st.jobs, run.job.id, run.worker, card, newVersion, run.now);
            var after := st.(jobs := jobs, versionIds := st.versionIds + {newVersion});
            Keeps(hash, st, after) && (r.Ok? ==> Reserved(after, run, r.value))
  {
    var id := run.job.id;
    JobStored(hash, st, id);
    var (job, r) := J.ReserveJob(st.jobs[id], run.worker, card, newVersion, run.now);
    if job == st.jobs[id] {
      IdsOnly(hash, st, id, {newVersion});
    } else {
      ReservationMade(hash, st, id, job, st.sessions[run.job.sessionId]);
    }
  }

  lemma IdentityHolds(hash: Hash, st: Store, run: Run, publication: J.Publication)
    requires StoreOk(hash, st) && JobKnown(st, run) && Reserved(st, run, publication)
    requires run.job.sessionId in st.sessions
    ensures var s := st.sessions[run.job.sessionId];
            s.baseCardId != "" ==> publication.cardId == s.baseCardId && publication.versionId != s.baseVersionId
  {
    JobStored(hash, st, run.job.id);
  }

  lemma ReserveLeads(st: Store, run: Run, s: S.Session, publication: J.Publication)
    requires JobKnown(st, run) && SessionKnown(st, run, s) && Reserved(st, run, publication) && run.pc.Reserving?
    ensures Leads(st, run, Looking(s, publication)) && Leads(st, run, Stopped(Some(Refused)))
  {
  }

  /** The identity read back passes the worker's check, so it looks for the version next. */
  lemma ReservedLeads(hash: Hash, st: Store, after: Store, run: Run, s: S.Session, publication: J.Publication)
    requires Keeps(hash, st, after) && JobKnown(st, run) && SessionKnown(st, run, s) && run.pc.Reserving?
    requires Reserved(after, run, publication)
    ensures HasBase(s) ==> publication.cardId == s.confirmed.value.baseCardId
                           && publication.versionId != s.confirmed.value.baseVersionId
    ensures Leads(after, run, Looking(s, publication))
  {
    BaseFromSnapshot(s);
    JobKnownStays(st, after, run);
    SessionKnownStays(st, after, run, s);
    IdentityHolds(hash, after, run, publication);
    ReserveLeads(after, run, s, publication);
  }

  /** An iteration is reserved under its base card. */
  lemma CardFits(st: Store, run: Run, s: S.Session, card: string)
    requires JobKnown(st, run) && SessionKnown(st, run, s) && run.pc.Reserving?
    requires HasBase(s) ==> card == s.confirmed.value.baseCardId
    ensures run.job.sessionId in st.sessions && CardChosen(st.sessions[run.job.sessionId], card)
  {
    BaseFromSnapshot(s);
  }

  lemma RefusedLeads(st: Store, after: Store, run: Run)
    requires Evolves(st, after) && JobKnown(st, run)
    ensures Leads(after, run, Stopped(Some(Refused)))
  {
    JobKnownStays(st, after, run);
  }

  lemma ReserveStep(hash: Hash, st: Store, run: Run, env: Env)
    requires StoreOk(hash, st) && JobKnown(st, run) && run.pc.Reserving? && env.newVersion !in st.versionIds
    requires SessionKnown(st, run, run.pc.session)
    ensures Keeps(hash, st, Reserve(st, run, env).0) && Leads(Reserve(st, run, env).0, run, Reserve(st, run, env).1)
  {
    var s := run.pc.session;
    var card := if HasBase(s) then s.confirmed.value.baseCardId else env.newCard;
    CardFits(st, run, s, card);
    var (jobs, r) := J.ReservePublication(st.jobs, run.job.id, run.worker, card, env.newVersion, run.now);
    var after := st.(jobs := jobs, versionIds := st.versionIds + {env.newVersion});
    ReserveRow(hash, st, run, card, env.newVersion);
    var pc := if r.Ok? then Looking(s, r.value) else Stopped(Some(Refused));
    if r.Ok? {
      ReservedLeads(hash, st, after, run, s, r.value);
    } else {
      RefusedLeads(st, after, run);
    }
    assert Leads(after, run, pc);
    assert Reserve(st, run, env) == (after, pc);
  }

  /** A version read as ready is the reserved one, and it is there. */
  lemma ReadyIsReserved(hash: Hash, st: Store, run: Run, s: S.Session, publication: J.Publication)
    requires StoreOk(hash, st) && JobKnown(st, run) && SessionKnown(st, run, s) && Reserved(st, run, publication)
    requires s.status == S.Ready
    ensures ReadyWith(st.sessions[s.id], publication.versionId) && s.versionId == publication.versionId
    ensures Find(st.versions, s.userId, publication.cardId, publication.versionId).Ok?
  {
    assert st.index[s.id] == run.job.id;
  }

  lemma FirstParses()
    ensures D.Parses(FIRST_DISPLAY)
  {
    D.PrintParses([1, 0, 0]);
    assert Text.Join(["0"], '.') == "0";
    assert Text.Join(["0", "0"], '.') == "0.0";
    assert Text.Join(["1", "0", "0"], '.') == FIRST_DISPLAY;
  }

  lemma LookLeads(st: Store, run: Run, s: S.Session, publication: J.Publication)
    requires run.pc == Looking(s, publication) && RunFits(st, run) && Keyed(st.versions)
    requires s.status == S.Ready ==>
               ReadyWith(st.sessions[s.id], publication.versionId) && s.versionId == publication.versionId
               && Find(st.versions, s.userId, publication.cardId, publication.versionId).Ok?
    ensures Leads(st, run, Look(st, run))
  {
    BaseFromSnapshot(s);
    FirstParses();
  }

  lemma LookStep(hash: Hash, st: Store, run: Run)
    requires StoreOk(hash, st) && RunFits(st, run) && run.pc.Looking?
    ensures Leads(st, run, Look(st, run))
  {
    var s, publication := run.pc.session, run.pc.publication;
    if s.status == S.Ready {
      ReadyIsReserved(hash, st, run, s, publication);
    }
    LookLeads(st, run, s, publication);
  }

  /** The next number lies above the base version, which is listed. */
  lemma NextAboveBase(st: Store, s: S.Session, publication: J.Publication, display: string)
    requires BaseOwned(st, s) && (s.baseCardId != "" ==> publication.cardId == s.baseCardId)
    requires D.IsNext(Displays(st.versions, s.userId, publication.cardId), Ok(display))
    ensures Numbered(st, s, display)
  {
    var displays := Displays(st.versions, s.userId, publication.cardId);
    D.NextIsAbove(displays, display);
    if s.baseCardId != "" {
      assert st.versions[s.baseVersionId].display in displays;
    }
  }

  lemma NumberLeads(st: Store, run: Run)
    requires RunFits(st, run) && (run.pc.Numbering? || run.pc.Renumbering?)
    requires run.pc.session.baseCardId != "" ==> run.pc.publication.cardId == run.pc.session.baseCardId
    ensures Leads(st, run, Number(st, run))
  {
    var s, publication := run.pc.session, run.pc.publication;
    var next := D.NextOf(Displays(st.versions, s.userId, publication.cardId));
    if next.Ok? {
      NextAboveBase(st, s, publication, next.value);
    } else {
      FailFits(st, run, CodeOf(run.pc), Refused);
    }
  }

  lemma NumberStep(hash: Hash, st: Store, run: Run)
    requires StoreOk(hash, st) && RunFits(st, run) && (run.pc.Numbering? || run.pc.Renumbering?)
    ensures Leads(st, run, Number(st, run))
  {
    IdentityHolds(hash, st, run, run.pc.publication);
    NumberLeads(st, run);
  }

  lemma ValidationLeads(st: Store, run: Run)
    requires RunFits(st, run) && run.pc.StartingValidation?
    ensures Leads(st, run, Putting(run.pc.session, run.pc.publication, run.pc.display, false))
  {
  }

  lemma StartValidationStep(hash: Hash, st: Store, run: Run, env: Env)
    requires StoreOk(hash, st) && RunFits(st, run) && run.pc.StartingValidation?
    ensures Keeps(hash, st, StartValidation(st, run, env).0)
    ensures Leads(StartValidation(st, run, env).0, run, StartValidation(st, run, env).1)
  {
    var call := S.StartValidatingCall(env.at);
    var after := UpdateSession(st, run.pc.session.id, call).0;
    UpdateKeeps(hash, st, run.pc.session.id, call);
    RunFitsStays(st, after, run);
    FailFits(after, run, CodeOf(run.pc), Refused);
    ValidationLeads(after, run);
  }

  lemma ObjectsPut(hash: Hash, st: Store, content: Bytes)
    requires StoreOk(hash, st) && |content| <= MAX_ARCHIVE_BYTES
    ensures Keeps(hash, st, st.(objects := PutIfAbsent(st.objects, KeyOf(hash(content)), content).0))
  {
    var after := st.(objects := PutIfAbsent(st.objects, KeyOf(hash(content)), content).0);
    PutKeeps(hash, st.objects, content);
    assert Evolves(st, after);
    SameSessionsStay(st, after);
    SameJobsStay(st, after);
    SameVersionsStay(st, after);
    CallsStay(st, after);
  }

  lemma PutLeads(st: Store, run: Run, v: CardVersion)
    requires RunFits(st, run) && run.pc.Putting? && Stored(st.objects, v)
    requires v.versionId == run.pc.publication.versionId && v.cardId == run.pc.publication.cardId
    requires v.userId == run.pc.session.userId && v.display == run.pc.display
    ensures Leads(st, run, Creating(run.pc.session, run.pc.publication, v, run.pc.again))
  {
  }

  lemma PutStep(hash: Hash, st: Store, run: Run, env: Env)
    requires StoreOk(hash, st) && RunFits(st, run) && run.pc.Putting?
    ensures Keeps(hash, st, Put(hash, st, run, env).0)
    ensures Leads(Put(hash, st, run, env).0, run, Put(hash, st, run, env).1)
  {
    if env.archive.None? || |env.archive.value| > MAX_ARCHIVE_BYTES {
      FailFits(st, run, CodeOf(run.pc), Refused);
      EvolvesReflexive(st);
    } else {
      var content := env.archive.value;
      ObjectsPut(hash, st, content);
      var (objects, stored) := PutIfAbsent(st.objects, KeyOf(hash(content)), content);
      var after := st.(objects := objects);
      RunFitsStays(st, after, run);
      FailFits(after, run, CodeOf(run.pc), Refused);
      if stored.Ok? {
        PutLeads(after, run, Put(hash, st, run, env).1.version);
      }
    }
  }

  lemma GenerateLeads(st: Store, run: Run, env: Env)
    requires RunFits(st, run) && run.pc.Generating?
    ensures Leads(st, run, Generate(st, run, env).1)
  {
    if !A.Succeeds(env.agent) {
      FailFits(st, run, CodeOf(run.pc), Faulted(env.failure));
    }
  }

  /** Only the count of model calls changes. */
  lemma GenerateKeeps(hash: Hash, st: Store, run: Run, env: Env)
    requires StoreOk(hash, st) && JobKnown(st, run) && run.pc.Generating? && NotYetAsked(st, run)
    ensures StoreOk(hash, Generate(st, run, env).0) && Evolves(st, Generate(st, run, env).0)
  {
    var after := Generate(st, run, env).0;
    A.CallsAreFew(env.agent);
    assert Evolves(st, after);
    SameSessionsStay(st, after);
    SameJobsStay(st, after);
    SameVersionsStay(st, after);
  }

  lemma GenerateStep(hash: Hash, st: Store, run: Run, env: Env)
    requires StoreOk(hash, st) && RunFits(st, run) && run.pc.Generating?
    requires NotYetAsked(st, run)
    ensures var r := Generate(st, run, env); StoreOk(hash, r.0) && Evolves(st, r.0) && Leads(r.0, run, r.1)
  {
    GenerateKeeps(hash, st, run, env);
    RunFitsStays(st, Generate(st, run, env).0, run);
    GenerateLeads(Generate(st, run, env).0, run, env);
  }

  // ----- publishing -----

  function WithVersion(st: Store, v: CardVersion, jobId: string): Store
  {
    st.(versions := st.versions[v.versionId := v], publishers := st.publishers[v.versionId := jobId])
  }

  lemma WithVersionEvolves(st: Store, v: CardVersion, jobId: string)
    requires v.versionId !in st.versions && v.versionId !in st.publishers
    ensures Evolves(st, WithVersion(st, v, jobId))
  {
  }

  lemma NewVersionFits(st: Store, run: Run, s: S.Session, publication: J.Publication, v: CardVersion)
    requires JobKnown(st, run) && SessionKnown(st, run, s) && Reserved(st, run, publication)
    requires ToCreate(st, s, publication, v) && v.versionId in st.versionIds && v.versionId !in st.versions
    ensures VersionFits(WithVersion(st, v, run.job.id), v)
  {
    var after := WithVersion(st, v, run.job.id);
    assert Numbered(after, st.sessions[s.id], v.display);
  }

  lemma VersionAdded(hash: Hash, st: Store, v: CardVersion, jobId: string)
    requires StoreOk(hash, st) && v.versionId !in st.versions && !Taken(st.versions, v)
    requires Evolves(st, WithVersion(st, v, jobId)) && VersionFits(WithVersion(st, v, jobId), v)
    ensures Keeps(hash, st, WithVersion(st, v, jobId))
  {
    var after := WithVersion(st, v, jobId);
    CreateKeeps(st.versions, v);
    SameSessionsStay(st, after);
    SameJobsStay(st, after);
    VersionsStay(st, after);
    CallsStay(st, after);
  }

  lemma CreateNew(hash: Hash, st: Store, run: Run)
    requires StoreOk(hash, st) && RunFits(st, run) && run.pc.Creating?
    requires run.pc.version.versionId !in st.versions && !Taken(st.versions, run.pc.version)
    ensures Keeps(hash, st, WithVersion(st, run.pc.version, run.job.id))
  {
    var v := run.pc.version;
    JobStored(hash, st, run.job.id);
    WithVersionEvolves(st, v, run.job.id);
    NewVersionFits(st, run, run.pc.session, run.pc.publication, v);
    VersionAdded(hash, st, v, run.job.id);
  }

  lemma CreateFinds(versions: Versions, s: S.Session, publication: J.Publication, v: CardVersion)
    requires Keyed(versions) && UniqueDisplays(versions)
    requires v.versionId == publication.versionId && v.cardId == publication.cardId && v.userId == s.userId
    ensures Create(versions, v).1.Ok? ==>
              Find(Create(versions, v).0, s.userId, publication.cardId, publication.versionId) == Create(versions, v).1
    ensures Keyed(Create(versions, v).0)
  {
    CreateKeeps(versions, v);
  }

  /** Afterwards the version exists, whether this call created it or found it there. */
  lemma CreateKeepsStore(hash: Hash, st: Store, run: Run)
    requires StoreOk(hash, st) && RunFits(st, run) && run.pc.Creating?
    ensures Keeps(hash, st, CreateVersion(st, run).0)
  {
    var v := run.pc.version;
    if v.versionId !in st.versions && !Taken(st.versions, v) {
      CreateNew(hash, st, run);
    } else {
      EvolvesReflexive(st);
    }
  }

  lemma CreateLeads(st: Store, run: Run, created: Result<CardVersion, PublishError>)
    requires RunFits(st, run) && run.pc.Creating?
    requires created.Ok? ==>
               Find(st.versions, run.pc.session.userId, run.pc.publication.cardId,
                 run.pc.publication.versionId) == created
    requires Keyed(st.versions)
    ensures created.Ok? ==> Leads(st, run, MarkingReady(run.pc.session, run.pc.publication, created.value.versionId))
    ensures Leads(st, run, Renumbering(run.pc.session, run.pc.publication))
    ensures Leads(st, run, FailAt(run, CodeOf(run.pc), Refused))
  {
    FailFits(st, run, CodeOf(run.pc), Refused);
  }

  lemma CreatePc(st: Store, run: Run)
    requires run.pc.Creating?
    ensures var created, pc := Create(st.versions, run.pc.version).1, CreateVersion(st, run).1;
            if created.Ok? then pc == MarkingReady(run.pc.session, run.pc.publication, created.value.versionId)
            else pc == Renumbering(run.pc.session, run.pc.publication) || pc == FailAt(run, CodeOf(run.pc), Refused)
    ensures CreateVersion(st, run).0.versions == Create(st.versions, run.pc.version).0
  {
  }

  lemma CreateStep(hash: Hash, st: Store, run: Run)
    requires StoreOk(hash, st) && RunFits(st, run) && run.pc.Creating?
    ensures Keeps(hash, st, CreateVersion(st, run).0)
    ensures Leads(CreateVersion(st, run).0, run, CreateVersion(st, run).1)
  {
    var after := CreateVersion(st, run).0;
    CreateKeepsStore(hash, st, run);
    RunFitsStays(st, after, run);
    CreateFinds(st.versions, run.pc.session, run.pc.publication, run.pc.version);
    CreatePc(st, run);
    CreateLeads(after, run, Create(st.versions, run.pc.version).1);
  }

  // ----- finishing -----

  lemma MarkChanges(s: S.Session, versionId: string, at: Time)
    requires S.Resumable(s) && versionId != "" && S.Change(s, S.MarkReadyCall(versionId, at)).Ok?
    ensures var after := S.Change(s, S.MarkReadyCall(versionId, at)).value;
            S.Resumable(after) && S.Follows(s, after) && ReadyWith(after, versionId)
  {
    S.ChangeResumable(s, S.MarkReadyCall(versionId, at));
  }

  lemma MarkKeeps(hash: Hash, st: Store, run: Run, at: Time)
    requires StoreOk(hash, st) && RunFits(st, run) && run.pc.MarkingReady?
    ensures var r := UpdateSession(st, run.pc.session.id, S.MarkReadyCall(run.pc.versionId, at));
            Keeps(hash, st, r.0)
            && (r.1.Ok? ==> run.pc.session.id in r.0.sessions
                            && ReadyWith(r.0.sessions[run.pc.session.id], run.pc.publication.versionId))
  {
    var id := run.pc.session.id;
    EvolvesReflexive(st);
    SessionStored(hash, st, id);
    if S.Change(st.sessions[id], S.MarkReadyCall(run.pc.versionId, at)).Ok? {
      MarkChanges(st.sessions[id], run.pc.versionId, at);
      MarkedFits(hash, st, id, S.Change(st.sessions[id], S.MarkReadyCall(run.pc.versionId, at)).value);
    }
  }

  lemma MarkLeads(st: Store, run: Run)
    requires RunFits(st, run) && run.pc.MarkingReady?
    requires ReadyWith(st.sessions[run.pc.session.id], run.pc.publication.versionId)
    ensures Leads(st, run, Completing(run.pc.session, run.pc.publication))
  {
  }

  lemma MarkReadyStep(hash: Hash, st: Store, run: Run, env: Env)
    requires StoreOk(hash, st) && RunFits(st, run) && run.pc.MarkingReady?
    ensures Keeps(hash, st, MarkReady(st, run, env).0)
            && Leads(MarkReady(st, run, env).0, run, MarkReady(st, run, env).1)
  {
    var (after, ready) := UpdateSession(st, run.pc.session.id, S.MarkReadyCall(run.pc.versionId, env.at));
    MarkKeeps(hash, st, run, env.at);
    RunFitsStays(st, after, run);
    FailFits(after, run, CodeOf(run.pc), Refused);
    if ready.Ok? {
      MarkLeads(after, run);
    }
  }

  /** A holder's change that neither completes nor cancels. */
  lemma HolderKeeps(hash: Hash, st: Store, id: string, job: J.Job)
    requires StoreOk(hash, st) && id in st.jobs && JobGrows(st.jobs[id], job) && job.attempts == st.jobs[id].attempts
    requires job.cardId == st.jobs[id].cardId && job.versionId == st.jobs[id].versionId
    requires job.status == st.jobs[id].status || (job.status != J.Completed && job.status != J.Cancelled)
    ensures Keeps(hash, st, st.(jobs := st.jobs[id := job]))
  {
    assert st.(jobs := st.jobs[id := job]) == WithJob(st, id, job, {});
    JobStored(hash, st, id);
    JobTouched(hash, st, id, job);
  }

  lemma CompletedKeeps(hash: Hash, st: Store, id: string, job: J.Job)
    requires StoreOk(hash, st) && id in st.jobs && st.jobs[id].sessionId in st.sessions
    requires ReadyWith(st.sessions[st.jobs[id].sessionId], st.jobs[id].versionId)
    requires job == st.jobs[id] || exists at :: job == J.Released(st.jobs[id], J.Completed, at)
    ensures Keeps(hash, st, st.(jobs := st.jobs[id := job]))
  {
    assert st.(jobs := st.jobs[id := job]) == WithJob(st, id, job, {});
    JobStored(hash, st, id);
    JobTouched(hash, st, id, job);
  }

  lemma CompleteLeads(st: Store, run: Run, outcome: Option<Cause>)
    requires JobKnown(st, run) && (outcome.Some? ==> !Defensive(outcome.value))
    ensures Leads(st, run, Stopped(outcome))
  {
  }

  lemma CompleteStep(hash: Hash, st: Store, run: Run, env: Env, publication: J.Publication)
    requires StoreOk(hash, st) && JobKnown(st, run) && Reserved(st, run, publication)
    requires run.job.sessionId in st.sessions && ReadyWith(st.sessions[run.job.sessionId], publication.versionId)
    ensures Keeps(hash, st, Complete(st, run, env).0) && Leads(Complete(st, run, env).0, run, Complete(st, run, env).1)
  {
    var id := run.job.id;
    var job := J.FinishJob(st.jobs[id], run.worker, J.Completed, env.at).0;
    var after := st.(jobs := st.jobs[id := job]);
    var pc := Complete(st, run, env).1;
    assert Complete(st, run, env) == (after, pc);
    assert job == st.jobs[id] || job == J.Released(st.jobs[id], J.Completed, env.at);
    CompletedKeeps(hash, st, id, job);
    JobKnownStays(st, after, run);
    CompleteLeads(after, run, pc.outcome);
  }

  lemma StopLeads(st: Store, run: Run, cause: Cause)
    requires JobKnown(st, run) && !Defensive(cause)
    ensures Leads(st, run, Stopped(Some(cause))) && Leads(st, run, Failing(cause))
  {
  }

  lemma RetryStep(hash: Hash, st: Store, run: Run, at: Time, retryAt: Time)
    requires StoreOk(hash, st) && JobKnown(st, run)
    ensures var after := st.(jobs := J.Retry(st.jobs, run.job.id, run.worker, at, retryAt).0);
            Keeps(hash, st, after) && JobKnown(after, run)
  {
    var after := st.(jobs := J.Retry(st.jobs, run.job.id, run.worker, at, retryAt).0);
    HolderKeeps(hash, st, run.job.id, J.RetryJob(st.jobs[run.job.id], run.worker, at, retryAt).0);
    JobKnownStays(st, after, run);
  }

  lemma MarkFailedStep(hash: Hash, st: Store, run: Run, code: string, at: Time)
    requires StoreOk(hash, st) && JobKnown(st, run)
    ensures var after := UpdateSession(st, run.job.sessionId, S.MarkFailedCall(code, at)).0;
            Keeps(hash, st, after) && JobKnown(after, run)
  {
    UpdateKeeps(hash, st, run.job.sessionId, S.MarkFailedCall(code, at));
    JobKnownStays(st, UpdateSession(st, run.job.sessionId, S.MarkFailedCall(code, at)).0, run);
  }

  lemma FailStep(hash: Hash, st: Store, run: Run, at: Time)
    requires StoreOk(hash, st) && JobKnown(st, run)
    ensures var after := st.(jobs := J.Finish(st.jobs, run.job.id, run.worker, J.Failed, at).0);
            Keeps(hash, st, after) && JobKnown(after, run)
  {
    var after := st.(jobs := J.Finish(st.jobs, run.job.id, run.worker, J.Failed, at).0);
    HolderKeeps(hash, st, run.job.id, J.FinishJob(st.jobs[run.job.id], run.worker, J.Failed, at).0);
    JobKnownStays(st, after, run);
  }
}
