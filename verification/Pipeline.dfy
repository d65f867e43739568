/**
 The generation pipeline as a step relation: workers run the store calls of RunOnce one at a
 time over four stores that share no transaction, while users create, confirm and cancel.

 One atomic step per store call.  A worker that crashes simply takes no more steps; one that
 outlives its lease goes on taking them.  Any store call may report an error whether or not it
 took effect, every clock reading is arbitrary, and handles of different runs may share a
 worker id.
 */
module Pipeline {
  import opened Prelude
  import opened P = PublishModel
  import S = SessionModel
  import J = JobModel
  import A = ModelAttempts
  import DisplayVersion

  type Time = int

  const SECOND: Time := 1_000_000_000

  const FIRST_DISPLAY := "1.0.0"

  // ----- the stores -----

  /**
   The four stores, the ids handed out so far, and two records the code does not keep: which
   job published a version, and how often the model was asked in one attempt at a job.
   */
  datatype Store = Store(
    jobs: J.Jobs,
    index: map<string, string>,
    sessions: map<string, S.Session>,
    versions: Versions,
    objects: Objects,
    versionIds: set<string>,
    publishers: map<string, string>,
    modelCalls: map<(string, nat), nat>)

  function UpdateSession(st: Store, id: string, call: S.ServiceCall): (Store, Result<S.Session, S.SessionError>)
  {
    if id !in st.sessions then (st, Err(S.NotFound))
    else
      var changed := S.Change(st.sessions[id], call);
      (if changed.Ok? then st.(sessions := st.sessions[id := changed.value]) else st, changed)
  }

  // ----- one run of RunOnce -----

  datatype Kind = Interrupted | Temporary | Permanent

  datatype Fault = NoFault | Fault(kind: Kind, applied: bool)

  datatype Cause =
    | Faulted(kind: Kind)
    | Refused
    | CannotResume
    | SnapshotMissing
    | IdentityInvalid
    | ReadyMismatch
    | ReadyMissing

  /** Where a run stands: the next store call, with the local variables it still needs. */
  datatype Pc =
    | Loading
    | Starting
    | FindingBase(session: S.Session)
    | ReadingBase(session: S.Session, base: CardVersion)
    | Reserving(session: S.Session)
    | Looking(session: S.Session, publication: J.Publication)
    | Numbering(session: S.Session, publication: J.Publication)
    | Generating(session: S.Session, publication: J.Publication, display: string)
    | StartingValidation(session: S.Session, publication: J.Publication, display: string)
    | Putting(session: S.Session, publication: J.Publication, display: string, again: bool)
    | Creating(session: S.Session, publication: J.Publication, version: CardVersion, again: bool)
    | Renumbering(session: S.Session, publication: J.Publication)
    | MarkingReady(session: S.Session, publication: J.Publication, versionId: string)
    | Completing(session: S.Session, publication: J.Publication)
    | Retrying(cause: Cause)
    | MarkingFailed(code: string, cause: Cause)
    | Failing(cause: Cause)
    | Stopped(outcome: Option<Cause>)

  /** A run: its worker, the time it claimed at, its copy of the job, and where it stands. */
  datatype Run = Run(worker: string, now: Time, job: J.Job, pc: Pc)

  /** Everything outside the stores that one step may depend on. */
  datatype Env = Env(
    at: Time,
    newCard: string,
    newVersion: string,
    parsed: bool,
    agent: A.Agent,
    failure: Kind,
    archive: Option<Bytes>,
    keyId: string,
    runtime: string,
    title: string,
    description: string)

  function RetryDelay(attempt: nat): Time
  {
    if attempt <= 1 then SECOND else 2 * SECOND
  }

  /** fail: stop if interrupted, schedule a retry while attempts are left, else fail session and job. */
  function FailAt(run: Run, code: string, cause: Cause): Pc
  {
    if cause == Faulted(Interrupted) then Stopped(Some(cause))
    else if cause == Faulted(Temporary) && run.job.attempts < run.job.maxAttempts then Retrying(cause)
    else MarkingFailed(code, cause)
  }

  function CodeOf(pc: Pc): string
  {
    match pc
    case FindingBase(_) => "BASE_ARTIFACT_LOAD_FAILED"
    case ReadingBase(_, _) => "BASE_ARTIFACT_LOAD_FAILED"
    case Looking(_, _) => "ARTIFACT_LOOKUP_FAILED"
    case Numbering(_, _) => "VERSION_HISTORY_INVALID"
    case Renumbering(_, _) => "VERSION_HISTORY_INVALID"
    case Generating(_, _, _) => "VALIDATION_FAILED"
    case Putting(_, _, _, _) => "ARTIFACT_PUBLISH_FAILED"
    case Creating(_, _, _, _) => "ARTIFACT_PUBLISH_FAILED"
    case _ => "GENERATION_STATE_INVALID"
  }

  /** A store call reported an error of its own. */
  function OnFault(run: Run, kind: Kind): Pc
  {
    match run.pc
    case Reserving(_) => Stopped(Some(Faulted(kind)))
    case Completing(_, _) => Stopped(Some(Faulted(kind)))
    case Retrying(cause) => Stopped(Some(cause))
    case MarkingFailed(_, cause) => Failing(cause)
    case Failing(cause) => Stopped(Some(cause))
    case Stopped(_) => run.pc
    case _ => FailAt(run, CodeOf(run.pc), Faulted(kind))
  }

  predicate HasBase(s: S.Session)
  {
    s.confirmed.Some? && s.confirmed.value.baseCardId != ""
  }

  /** Once the session is generating or beyond: the snapshot decides whether a base is loaded. */
  function AfterStart(run: Run, s: S.Session): Pc
  {
    if s.confirmed.None? then FailAt(run, "GENERATION_REQUIREMENTS_MISSING", SnapshotMissing)
    else if HasBase(s) then FindingBase(s)
    else Reserving(s)
  }

  function LoadSession(st: Store, run: Run): Pc
  {
    if run.job.sessionId !in st.sessions then FailAt(run, CodeOf(run.pc), Refused)
    else
      var s := st.sessions[run.job.sessionId];
      match s.status
      case Queued => Starting
      case Generating => AfterStart(run, s)
      case Validating => AfterStart(run, s)
      case Ready => AfterStart(run, s)
      case _ => FailAt(run, CodeOf(run.pc), CannotResume)
  }

  function Start(st: Store, run: Run, env: Env): (Store, Pc)
  {
    var (after, started) := UpdateSession(st, run.job.sessionId, S.StartGeneratingCall(env.at));
    (after, if started.Ok? then AfterStart(run, started.value) else FailAt(run, CodeOf(run.pc), Refused))
  }

  function FindBase(st: Store, run: Run): Pc
    requires run.pc.FindingBase?
  {
    var s := run.pc.session;
    if s.confirmed.None? then FailAt(run, CodeOf(run.pc), Refused)
    else
      var found := Find(st.versions, s.userId, s.confirmed.value.baseCardId, s.confirmed.value.baseVersionId);
      if found.Ok? then ReadingBase(s, found.value) else FailAt(run, CodeOf(run.pc), Refused)
  }

  function ReadBase(hash: Hash, st: Store, run: Run, env: Env): Pc
    requires run.pc.ReadingBase?
  {
    var archive := Get(st.objects, run.pc.base.artifactKey, MAX_ARCHIVE_BYTES);
    if archive.Err? || hash(archive.value) != run.pc.base.sha then FailAt(run, CodeOf(run.pc), Refused)
    else if !env.parsed then FailAt(run, "BASE_ARTIFACT_INVALID", Refused)
    else Reserving(run.pc.session)
  }

  /** The reservation is made at the time of the claim. */
  function Reserve(st: Store, run: Run, env: Env): (Store, Pc)
    requires run.pc.Reserving?
  {
    var s := run.pc.session;
    var card := if HasBase(s) then s.confirmed.value.baseCardId else env.newCard;
    var (jobs, reserved) := J.ReservePublication(st.jobs, run.job.id, run.worker, card, env.newVersion, run.now);
    (st.(jobs := jobs, versionIds := st.versionIds + {env.newVersion}),
     if reserved.Err? then Stopped(Some(Refused))
     else if HasBase(s)
             && (reserved.value.cardId != s.confirmed.value.baseCardId
                 || reserved.value.versionId == s.confirmed.value.baseVersionId) then
       FailAt(run, "GENERATION_STATE_INVALID", IdentityInvalid)
     else Looking(s, reserved.value))
  }

  function Look(st: Store, run: Run): Pc
    requires run.pc.Looking?
  {
    var s, publication := run.pc.session, run.pc.publication;
    var existing := Find(st.versions, s.userId, publication.cardId, publication.versionId);
    if existing.Ok? then
      if s.status != S.Ready then MarkingReady(s, publication, existing.value.versionId)
      else if s.versionId != existing.value.versionId then FailAt(run, "GENERATION_STATE_INVALID", ReadyMismatch)
      else Completing(s, publication)
    else if s.status == S.Ready then FailAt(run, "GENERATION_STATE_INVALID", ReadyMissing)
    else if HasBase(s) then Numbering(s, publication)
    else Generating(s, publication, FIRST_DISPLAY)
  }

  ghost function Number(st: Store, run: Run): Pc
    requires run.pc.Numbering? || run.pc.Renumbering?
  {
    var s, publication := run.pc.session, run.pc.publication;
    var next := DisplayVersion.NextOf(Displays(st.versions, s.userId, publication.cardId));
    if next.Err? then FailAt(run, CodeOf(run.pc), Refused)
    else if run.pc.Numbering? then Generating(s, publication, next.value)
    else Putting(s, publication, next.value, true)
  }

  /** How often the model has been asked in one attempt at a job. */
  function CallsAt(st: Store, jobId: string, attempt: nat): nat
  {
    if (jobId, attempt) in st.modelCalls then st.modelCalls[(jobId, attempt)] else 0
  }

  function Generate(st: Store, run: Run, env: Env): (Store, Pc)
    requires run.pc.Generating?
  {
    var calls := CallsAt(st, run.job.id, run.job.attempts) + A.CallsBy(env.agent);
    (st.(modelCalls := st.modelCalls[(run.job.id, run.job.attempts) := calls]),
     if !A.Succeeds(env.agent) then FailAt(run, CodeOf(run.pc), Faulted(env.failure))
     else if run.pc.session.status != S.Validating then
       StartingValidation(run.pc.session, run.pc.publication, run.pc.display)
     else Putting(run.pc.session, run.pc.publication, run.pc.display, false))
  }

  function StartValidation(st: Store, run: Run, env: Env): (Store, Pc)
    requires run.pc.StartingValidation?
  {
    var (after, started) := UpdateSession(st, run.pc.session.id, S.StartValidatingCall(env.at));
    (after,
     if started.Ok? then Putting(run.pc.session, run.pc.publication, run.pc.display, false)
     else FailAt(run, CodeOf(run.pc), Refused))
  }

  /** Build the artifact and put it under its hash. */
  function Put(hash: Hash, st: Store, run: Run, env: Env): (Store, Pc)
    requires run.pc.Putting?
  {
    if env.archive.None? || |env.archive.value| > MAX_ARCHIVE_BYTES then (st, FailAt(run, CodeOf(run.pc), Refused))
    else
      var built := Built(env.archive.value, hash(env.archive.value), env.keyId);
      var input := Input(run.pc.session.userId, run.pc.publication.cardId, run.pc.publication.versionId, run.pc.display,
                         env.runtime, env.title, env.description, run.job.createdAt);
      var (objects, stored) := PutIfAbsent(st.objects, KeyOf(built.sha), built.archive);
      (st.(objects := objects),
       if stored.Ok? then Creating(run.pc.session, run.pc.publication, VersionOf(input, built), run.pc.again)
       else FailAt(run, CodeOf(run.pc), Refused))
  }

  ghost function CreateVersion(st: Store, run: Run): (Store, Pc)
    requires run.pc.Creating?
  {
    var s, publication, v := run.pc.session, run.pc.publication, run.pc.version;
    var (versions, created) := Create(st.versions, v);
    (st.(versions := versions,
         publishers := if created.Ok? && v.versionId !in st.versions then st.publishers[v.versionId := run.job.id]
                       else st.publishers),
     if created.Ok? then MarkingReady(s, publication, created.value.versionId)
     else if created.error == P.DisplayConflict && HasBase(s) && !run.pc.again then Renumbering(s, publication)
     else FailAt(run, CodeOf(run.pc), Refused))
  }

  function MarkReady(st: Store, run: Run, env: Env): (Store, Pc)
    requires run.pc.MarkingReady?
  {
    var (after, ready) := UpdateSession(st, run.pc.session.id, S.MarkReadyCall(run.pc.versionId, env.at));
    (after,
     if ready.Ok? then Completing(run.pc.session, run.pc.publication) else FailAt(run, CodeOf(run.pc), Refused))
  }

  function Complete(st: Store, run: Run, env: Env): (Store, Pc)
  {
    var (jobs, completed) := J.Finish(st.jobs, run.job.id, run.worker, J.Completed, env.at);
    (st.(jobs := jobs), Stopped(if completed.Ok? then None else Some(Refused)))
  }

  /** One store call and the code up to the next one, when the call itself does not break. */
  ghost function Effect(hash: Hash, st: Store, run: Run, env: Env): (Store, Pc)
  {
    match run.pc
    case Loading => (st, LoadSession(st, run))
    case Starting => Start(st, run, env)
    case FindingBase(_) => (st, FindBase(st, run))
    case ReadingBase(_, _) => (st, ReadBase(hash, st, run, env))
    case Reserving(_) => Reserve(st, run, env)
    case Looking(_, _) => (st, Look(st, run))
    case Numbering(_, _) => (st, Number(st, run))
    case Renumbering(_, _) => (st, Number(st, run))
    case Generating(_, _, _) => Generate(st, run, env)
    case StartingValidation(_, _, _) => StartValidation(st, run, env)
    case Putting(_, _, _, _) => Put(hash, st, run, env)
    case Creating(_, _, _, _) => CreateVersion(st, run)
    case MarkingReady(_, _, _) => MarkReady(st, run, env)
    case Completing(_, _) => Complete(st, run, env)
    case Retrying(cause) =>
      var retryAt := env.at + RetryDelay(run.job.attempts);
      (st.(jobs := J.Retry(st.jobs, run.job.id, run.worker, env.at, retryAt).0), Stopped(Some(cause)))
    case MarkingFailed(code, cause) =>
      (UpdateSession(st, run.job.sessionId, S.MarkFailedCall(code, env.at)).0, Failing(cause))
    case Failing(cause) =>
      (st.(jobs := J.Finish(st.jobs, run.job.id, run.worker, J.Failed, env.at).0), Stopped(Some(cause)))
    case Stopped(_) => (st, run.pc)
  }

  ghost function StepRun(hash: Hash, st: Store, run: Run, env: Env, fault: Fault): (Store, Run)
  {
    var (after, pc) := Effect(hash, st, run, env);
    match fault
    case NoFault => (after, run.(pc := pc))
    case Fault(kind, applied) => (if applied then after else st, run.(pc := OnFault(run, kind)))
  }

  // ----- users -----

  /** A request to the service between its two store calls. */
  datatype Client =
    | Inserting(session: S.Session)
    | Enqueueing(sessionId: string, at: Time)
    | QueueDown(sessionId: string)
    | CancellingJob(sessionId: string)
    | Idle

  // ----- the whole system -----

  datatype System = System(store: Store, runs: map<nat, Run>, clients: map<nat, Client>)

  datatype Action =
    | ClaimStep(handle: nat, worker: string, at: Time, lease: int, lost: bool)
    | WorkStep(handle: nat, env: Env, fault: Fault)
    | BeatStep(handle: nat, at: Time, lease: int)
    | OpenStep(handle: nat, newId: string, userId: string, prompt: string, target: S.Target, locale: string,
               baseCard: string, baseVersion: string, at: Time)
    | InsertStep(handle: nat)
    | MessageStep(userId: string, sessionId: string, content: string, at: Time)
    | ConfirmStep(handle: nat, userId: string, sessionId: string, jobId: string, at: Time, atomic: bool)
    | EnqueueStep(handle: nat, jobId: string, fault: Fault)
    | QueueDownStep(handle: nat, at: Time)
    | CancelStep(handle: nat, userId: string, sessionId: string, at: Time)
    | CancelJobStep(handle: nat, at: Time)

  /** New ids are new, and no clock reads Go's zero time. */
  predicate Enabled(sys: System, action: Action)
  {
    match action
    case ClaimStep(handle, _, _, _, _) => handle !in sys.runs
    case WorkStep(handle, env, _) =>
      && handle in sys.runs && env.at != S.ZERO_TIME && env.newVersion !in sys.store.versionIds
    case BeatStep(handle, _, _) => handle in sys.runs
    case OpenStep(handle, _, _, _, _, _, _, _, at) => handle !in sys.clients && at != S.ZERO_TIME
    case InsertStep(handle) => handle in sys.clients && sys.clients[handle].Inserting?
    case MessageStep(_, _, _, at) => at != S.ZERO_TIME
    case ConfirmStep(handle, _, _, jobId, at, _) =>
      handle !in sys.clients && jobId !in sys.store.jobs && at != S.ZERO_TIME
    case EnqueueStep(handle, jobId, _) =>
      handle in sys.clients && sys.clients[handle].Enqueueing? && jobId !in sys.store.jobs
    case QueueDownStep(handle, at) => handle in sys.clients && sys.clients[handle].QueueDown? && at != S.ZERO_TIME
    case CancelStep(handle, _, _, at) => handle !in sys.clients && at != S.ZERO_TIME
    case CancelJobStep(handle, _) => handle in sys.clients && sys.clients[handle].CancellingJob?
  }

  function UpdateOwned(st: Store, userId: string, id: string, call: S.ServiceCall)
    : (Store, Result<S.Session, S.SessionError>)
  {
    if id in st.sessions && st.sessions[id].userId == userId then UpdateSession(st, id, call) else (st, Err(S.NotFound))
  }

  function EnqueueJob(st: Store, jobId: string, sessionId: string, at: Time): Store
  {
    var (jobs, index) := J.Enqueue(st.jobs, st.index, jobId, sessionId, at);
    st.(jobs := jobs, index := index)
  }

  ghost function Next(hash: Hash, sys: System, action: Action): System
    requires Enabled(sys, action)
  {
    var st := sys.store;
    match action
    case ClaimStep(handle, worker, at, lease, lost) =>
      var (jobs, claimed) := J.Claim(st.jobs, worker, at, lease);
      sys.(store := st.(jobs := jobs),
           runs := if claimed.Ok? && !lost
             then sys.runs[handle := Run(worker, at, claimed.value, Loading)] else sys.runs)
    case WorkStep(handle, env, fault) =>
      var (after, run) := StepRun(hash, st, sys.runs[handle], env, fault);
      sys.(store := after, runs := sys.runs[handle := run])
    case BeatStep(handle, at, lease) =>
      var run := sys.runs[handle];
      sys.(store := st.(jobs := J.ExtendLease(st.jobs, run.job.id, run.worker, at, lease).0))
    case OpenStep(handle, newId, userId, prompt, target, locale, baseCard, baseVersion, at) =>
      var opened_ := S.Opened(newId, userId, prompt, target, locale, baseCard, baseVersion, at);
      if opened_.Err? then sys
      else if opened_.value.baseCardId != ""
              && Find(st.versions, userId, opened_.value.baseCardId, opened_.value.baseVersionId).Err? then sys
      else sys.(clients := sys.clients[handle := Inserting(opened_.value)])
    case InsertStep(handle) =>
      var s := sys.clients[handle].session;
      sys.(store := if s.id in st.sessions then st else st.(sessions := st.sessions[s.id := s]),
           clients := sys.clients[handle := Idle])
    case MessageStep(userId, id, content, at) =>
      sys.(store := UpdateOwned(st, userId, id, S.AddMessageCall(content, at)).0)
    case ConfirmStep(handle, userId, id, jobId, at, atomic) =>
      var (after, confirmed) := UpdateOwned(st, userId, id, S.ConfirmCall(at));
      if confirmed.Err? then sys
      else if atomic then
        // One transaction: a second job for the session rolls the confirmation back.
        if id in st.index then sys else sys.(store := EnqueueJob(after, jobId, id, at))
      else System(after, sys.runs, sys.clients[handle := Enqueueing(id, at)])
    case EnqueueStep(handle, jobId, fault) =>
      var client := sys.clients[handle];
      var after := EnqueueJob(st, jobId, client.sessionId, client.at);
      System(if fault == NoFault || fault.applied then after else st, sys.runs,
             sys.clients[handle := if fault == NoFault then Idle else QueueDown(client.sessionId)])
    case QueueDownStep(handle, at) =>
      System(UpdateSession(st, sys.clients[handle].sessionId, S.MarkFailedCall("JOB_ENQUEUE_FAILED", at)).0, sys.runs,
             sys.clients[handle := Idle])
    case CancelStep(handle, userId, id, at) =>
      var (after, cancelled) := UpdateOwned(st, userId, id, S.CancelCall(at));
      if cancelled.Err? then sys else System(after, sys.runs, sys.clients[handle := CancellingJob(id)])
    case CancelJobStep(handle, at) =>
      System(st.(jobs := J.Cancel(st.jobs, st.index, sys.clients[handle].sessionId, at)), sys.runs,
             sys.clients[handle := Idle])
  }

  const EMPTY := System(Store(map[], map[], map[], map[], map[], {}, map[], map[]), map[], map[])

  /** The state after some actions; one that is not enabled changes nothing. */
  ghost function After(hash: Hash, sys: System, actions: seq<Action>): System
    decreases |actions|
  {
    if actions == [] then sys
    else After(hash, if Enabled(sys, actions[0]) then Next(hash, sys, actions[0]) else sys, actions[1..])
  }
}
