/**
 RunOnce itself, over the in-memory stores: undisturbed, it goes through the steps of the
 pipeline model one after the other, and always stops.
 */
module WorkerRun {
  import opened Prelude
  import opened P = PublishModel
  import opened Pipeline
  import opened PipelineDrive
  import opened PipelineOutcomes
  import opened MemoryJobs
  import opened SessionRecord
  import opened Publishing
  import S = SessionModel
  import J = JobModel
  import A = ModelAttempts
  import D = DisplayVersion
  import Heartbeat

  /** What RunOnce reports: no job, a lease lost under way, or the end of the run. */
  datatype Report = NothingToDo | LeaseGone(error: J.JobError) | Ended(outcome: Option<Cause>)

  predicate Decided(pc: Pc)
  {
    pc.Retrying? || pc.MarkingFailed? || (pc.Stopped? && pc.outcome.Some?)
  }

  class Worker {
    const id: string
    const lease: int
    const hash: Hash
    const queue: MemoryStore
    const sessions: MemoryRepository
    const publisher: Publisher

    constructor (id: string, lease: int, queue: MemoryStore, sessions: MemoryRepository, publisher: Publisher)
      ensures this.id == id && this.lease == lease && this.queue == queue
      ensures this.sessions == sessions && this.publisher == publisher && hash == publisher.hash
    {
      this.id, this.lease, this.hash := id, lease, publisher.hash;
      this.queue, this.sessions, this.publisher := queue, sessions, publisher;
    }

    ghost predicate Valid()
      reads this, queue, publisher.objects, publisher.versions
    {
      queue.Valid() && publisher.Valid() && hash == publisher.hash
    }

    /** The four stores hold what the model's store says. */
    ghost predicate Holds(st: Store)
      reads queue, sessions, publisher.objects, publisher.versions
    {
      && st.jobs == queue.jobs && st.index == queue.session && st.sessions == sessions.sessions
      && st.versions == publisher.versions.versions && st.objects == publisher.objects.objects
    }

    method FailJob(run: Run, world: Pc -> Env, ghost st: Store)
      returns (outcome: Option<Cause>, ghost end: (Store, Run))
      requires Valid() && Holds(st) && run.worker == id && run.pc.Failing?
      modifies queue
      ensures Valid() && Holds(end.0) && end == Drive(hash, st, run, world) && end.1.pc == Stopped(outcome)
    {
      DriveOne(hash, st, run, world);
      ghost var after := Effect(hash, st, run, world(run.pc)).0;
      var failed := queue.Finish(run.job.id, id, J.Failed, world(run.pc).at);
      return Some(run.pc.cause), (after, run.(pc := Stopped(Some(run.pc.cause))));
    }

    method ScheduleRetry(run: Run, world: Pc -> Env, ghost st: Store)
      returns (outcome: Option<Cause>, ghost end: (Store, Run))
      requires Valid() && Holds(st) && run.worker == id && run.pc.Retrying?
      modifies queue
      ensures Valid() && Holds(end.0) && end == Drive(hash, st, run, world) && end.1.pc == Stopped(outcome)
    {
      DriveOne(hash, st, run, world);
      ghost var after := Effect(hash, st, run, world(run.pc)).0;
      var now := world(run.pc).at;
      var r := queue.Retry(run.job.id, id, now, now + RetryDelay(run.job.attempts));
      return Some(run.pc.cause), (after, run.(pc := Stopped(Some(run.pc.cause))));
    }

    method FailSession(run: Run, world: Pc -> Env, ghost st: Store)
      returns (outcome: Option<Cause>, ghost end: (Store, Run))
      requires Valid() && Holds(st) && run.worker == id && run.pc.MarkingFailed?
      modifies queue, sessions
      ensures Valid() && Holds(end.0) && end == Drive(hash, st, run, world) && end.1.pc == Stopped(outcome)
    {
      DriveOne(hash, st, run, world);
      var code, at := run.pc.code, world(run.pc).at;
      ghost var after := UpdateSession(st, run.job.sessionId, S.MarkFailedCall(code, at)).0;
      assert Effect(hash, st, run, world(run.pc)) == (after, Failing(run.pc.cause));
      var marked := sessions.UpdateSystem(run.job.sessionId, s => S.Change(s, S.MarkFailedCall(code, at)));
      outcome, end := FailJob(run.(pc := Failing(run.pc.cause)), world, after);
    }

    /** fail, from where it has decided what to do. */
    method Fail(run: Run, world: Pc -> Env, ghost st: Store) returns (outcome: Option<Cause>, ghost end: (Store, Run))
      requires Valid() && Holds(st) && run.worker == id && Decided(run.pc)
      modifies queue, sessions
      ensures Valid() && Holds(end.0) && end == Drive(hash, st, run, world) && end.1.pc == Stopped(outcome)
    {
      DriveOne(hash, st, run, world);
      match run.pc {
        case Stopped(cause) => return cause, (st, run);
        case Retrying(_) => outcome, end := ScheduleRetry(run, world, st);
        case MarkingFailed(_, _) => outcome, end := FailSession(run, world, st);
      }
    }

    method Complete(run: Run, world: Pc -> Env, ghost st: Store)
      returns (outcome: Option<Cause>, ghost end: (Store, Run))
      requires Valid() && Holds(st) && run.worker == id && run.pc.Completing?
      modifies queue
      ensures Valid() && Holds(end.0) && end == Drive(hash, st, run, world) && end.1.pc == Stopped(outcome)
    {
      DriveOne(hash, st, run, world);
      ghost var after := Pipeline.Complete(st, run, world(run.pc)).0;
      var completed := queue.Finish(run.job.id, id, J.Completed, world(run.pc).at);
      outcome := if completed.Err? then Some(Refused) else None;
      end := (after, run.(pc := Stopped(outcome)));
    }

    method MarkReady(run: Run, world: Pc -> Env, ghost st: Store)
      returns (outcome: Option<Cause>, ghost end: (Store, Run))
      requires Valid() && Holds(st) && run.worker == id && run.pc.MarkingReady?
      modifies queue, sessions
      ensures Valid() && Holds(end.0) && end == Drive(hash, st, run, world) && end.1.pc == Stopped(outcome)
    {
      DriveOne(hash, st, run, world);
      ghost var after := Pipeline.MarkReady(st, run, world(run.pc)).0;
      var versionId, at := run.pc.versionId, world(run.pc).at;
      var ready := sessions.UpdateSystem(run.pc.session.id, s => S.Change(s, S.MarkReadyCall(versionId, at)));
      assert Holds(after);
      if ready.Err? {
        outcome, end := Fail(run.(pc := FailAt(run, "GENERATION_STATE_INVALID", Refused)), world, after);
      } else {
        outcome, end := Complete(run.(pc := Completing(run.pc.session, run.pc.publication)), world, after);
      }
    }

    /** Publisher.Publish, which is two store calls of the model. */
    method PublishOnce(run: Run, env: Env, ghost st: Store)
      returns (version: Result<CardVersion, PublishError>, ghost after: Store)
      requires Valid() && Holds(st) && run.pc.Putting?
      modifies publisher.objects, publisher.versions
      ensures Valid() && Holds(after)
      ensures (after, AfterPublish(run, version)) == PutAndCreate(hash, st, run, env)
    {
      version := publisher.Publish(InputOf(run, env), BuildOf(hash, env));
      after := PutAndCreate(hash, st, run, env).0;
      PublishedAs(hash, st, run, env, version);
    }

    /** Publish, once more if another version took the number in between, and go on. */
    method PublishVersion(run: Run, world: Pc -> Env, ghost st: Store)
      returns (outcome: Option<Cause>, ghost end: (Store, Run))
      requires Valid() && Holds(st) && run.worker == id && run.pc.Putting?
      modifies queue, sessions, publisher.objects, publisher.versions
      ensures Valid() && Holds(end.0) && end == Drive(hash, st, run, world) && end.1.pc == Stopped(outcome)
      decreases Rank(run.pc), 1
    {
      DriveTwo(hash, st, run, world);
      var version, after := PublishOnce(run, world(run.pc), st);
      outcome, end := Published(run, version, world, after);
    }

    method Published(run: Run, version: Result<CardVersion, PublishError>, world: Pc -> Env, ghost after: Store)
      returns (outcome: Option<Cause>, ghost end: (Store, Run))
      requires Valid() && Holds(after) && run.worker == id && run.pc.Putting?
      modifies queue, sessions, publisher.objects, publisher.versions
      ensures Valid() && Holds(end.0) && end.1.pc == Stopped(outcome)
      ensures end == Drive(hash, after, run.(pc := AfterPublish(run, version)), world)
      decreases Rank(run.pc), 0
    {
      var s, publication := run.pc.session, run.pc.publication;
      if version == Err(P.DisplayConflict) && HasBase(s) && !run.pc.again {
        outcome, end := Renumber(run.(pc := Renumbering(s, publication)), world, after);
      } else if version.Err? {
        outcome, end := Fail(run.(pc := FailAt(run, "ARTIFACT_PUBLISH_FAILED", Refused)), world, after);
      } else {
        outcome, end := MarkReady(run.(pc := MarkingReady(s, publication, version.value.versionId)), world, after);
      }
    }

    method Renumber(run: Run, world: Pc -> Env, ghost st: Store)
      returns (outcome: Option<Cause>, ghost end: (Store, Run))
      requires Valid() && Holds(st) && run.worker == id && run.pc.Renumbering?
      modifies queue, sessions, publisher.objects, publisher.versions
      ensures Valid() && Holds(end.0) && end == Drive(hash, st, run, world) && end.1.pc == Stopped(outcome)
      decreases Rank(run.pc)
    {
      var next := NextDisplay(run.pc.session, run.pc.publication, st);
      DriveRenumbered(hash, st, run, world);
      if next.Err? {
        outcome, end := Fail(run.(pc := FailAt(run, "VERSION_HISTORY_INVALID", Refused)), world, st);
      } else {
        outcome, end :=
          PublishVersion(run.(pc := Putting(run.pc.session, run.pc.publication, next.value, true)), world, st);
      }
    }

    method NextDisplay(s: S.Session, publication: J.Publication, ghost st: Store)
      returns (next: Result<string, D.VersionError>)
      requires Valid() && Holds(st)
      ensures next == D.NextOf(Displays(st.versions, s.userId, publication.cardId))
    {
      next := publisher.NextDisplayVersion(s.userId, publication.cardId);
      ghost var displays := Displays(st.versions, s.userId, publication.cardId);
      D.NextIsUnique(displays, next, D.NextOf(displays));
    }

    /** Ask the model, mark the session as validating, and publish. */
    method Produce(run: Run, world: Pc -> Env, ghost st: Store)
      returns (outcome: Option<Cause>, ghost end: (Store, Run))
      requires Valid() && Holds(st) && run.worker == id && run.pc.Generating?
      modifies queue, sessions, publisher.objects, publisher.versions
      ensures Valid() && Holds(end.0) && end == Drive(hash, st, run, world) && end.1.pc == Stopped(outcome)
    {
      DriveOne(hash, st, run, world);
      var s, publication, display := run.pc.session, run.pc.publication, run.pc.display;
      ghost var asked := Generate(st, run, world(run.pc)).0;
      var env := world(run.pc);
      var generated, calls := A.Ask(env.agent);
      if !generated {
        outcome, end := Fail(run.(pc := FailAt(run, "VALIDATION_FAILED", Faulted(env.failure))), world, asked);
        return;
      }
      if s.status == S.Validating {
        outcome, end := PublishVersion(run.(pc := Putting(s, publication, display, false)), world, asked);
      } else {
        outcome, end := Validate(run.(pc := StartingValidation(s, publication, display)), world, asked);
      }
    }

    method Validate(run: Run, world: Pc -> Env, ghost st: Store)
      returns (outcome: Option<Cause>, ghost end: (Store, Run))
      requires Valid() && Holds(st) && run.worker == id && run.pc.StartingValidation?
      modifies queue, sessions, publisher.objects, publisher.versions
      ensures Valid() && Holds(end.0) && end == Drive(hash, st, run, world) && end.1.pc == Stopped(outcome)
    {
      DriveOne(hash, st, run, world);
      ghost var after := StartValidation(st, run, world(run.pc)).0;
      var at := world(run.pc).at;
      var started := sessions.UpdateSystem(run.pc.session.id, s => S.Change(s, S.StartValidatingCall(at)));
      assert Holds(after);
      if started.Err? {
        outcome, end := Fail(run.(pc := FailAt(run, "GENERATION_STATE_INVALID", Refused)), world, after);
      } else {
        outcome, end :=
          PublishVersion(run.(pc := Putting(run.pc.session, run.pc.publication, run.pc.display, false)), world, after);
      }
    }

    /** If the reserved version is already published, only the end is left to do. */
    method LookUp(run: Run, world: Pc -> Env, ghost st: Store) returns (outcome: Option<Cause>, ghost end: (Store, Run))
      requires Valid() && Holds(st) && run.worker == id && run.pc.Looking?
      modifies queue, sessions, publisher.objects, publisher.versions
      ensures Valid() && Holds(end.0) && end == Drive(hash, st, run, world) && end.1.pc == Stopped(outcome)
    {
      DriveOne(hash, st, run, world);
      var s, publication := run.pc.session, run.pc.publication;
      var existing := publisher.versions.Find(s.userId, publication.cardId, publication.versionId);
      if existing.Ok? {
        if s.status != S.Ready {
          outcome, end := MarkReady(run.(pc := MarkingReady(s, publication, existing.value.versionId)), world, st);
        } else if s.versionId != existing.value.versionId {
          outcome, end := Fail(run.(pc := FailAt(run, "GENERATION_STATE_INVALID", ReadyMismatch)), world, st);
        } else {
          outcome, end := Complete(run.(pc := Completing(s, publication)), world, st);
        }
        return;
      }
      if s.status == S.Ready {
        outcome, end := Fail(run.(pc := FailAt(run, "GENERATION_STATE_INVALID", ReadyMissing)), world, st);
        return;
      }
      if !HasBase(s) {
        outcome, end := Produce(run.(pc := Generating(s, publication, FIRST_DISPLAY)), world, st);
        return;
      }
      outcome, end := Number(run.(pc := Numbering(s, publication)), world, st);
    }

    method Number(run: Run, world: Pc -> Env, ghost st: Store) returns (outcome: Option<Cause>, ghost end: (Store, Run))
      requires Valid() && Holds(st) && run.worker == id && run.pc.Numbering?
      modifies queue, sessions, publisher.objects, publisher.versions
      ensures Valid() && Holds(end.0) && end == Drive(hash, st, run, world) && end.1.pc == Stopped(outcome)
    {
      DriveOne(hash, st, run, world);
      var next := NextDisplay(run.pc.session, run.pc.publication, st);
      if next.Err? {
        outcome, end := Fail(run.(pc := FailAt(run, "VERSION_HISTORY_INVALID", Refused)), world, st);
      } else {
        outcome, end := Produce(run.(pc := Generating(run.pc.session, run.pc.publication, next.value)), world, st);
      }
    }

    method Reserve(run: Run, world: Pc -> Env, ghost st: Store)
      returns (outcome: Option<Cause>, ghost end: (Store, Run))
      requires Valid() && Holds(st) && run.worker == id && run.pc.Reserving?
      modifies queue, sessions, publisher.objects, publisher.versions
      ensures Valid() && Holds(end.0) && end == Drive(hash, st, run, world) && end.1.pc == Stopped(outcome)
    {
      DriveOne(hash, st, run, world);
      var s, env := run.pc.session, world(run.pc);
      ghost var after := Pipeline.Reserve(st, run, env).0;
      var card := if HasBase(s) then s.confirmed.value.baseCardId else env.newCard;
      var publication := queue.ReservePublication(run.job.id, id, card, env.newVersion, run.now);
      if publication.Err? {
        outcome, end := Some(Refused), (after, run.(pc := Stopped(Some(Refused))));
      } else if HasBase(s)
                && (publication.value.cardId != s.confirmed.value.baseCardId
                    || publication.value.versionId == s.confirmed.value.baseVersionId) {
        outcome, end := Fail(run.(pc := FailAt(run, "GENERATION_STATE_INVALID", IdentityInvalid)), world, after);
      } else {
        outcome, end := LookUp(run.(pc := Looking(s, publication.value)), world, after);
      }
    }

    /** Load the base artifact and check its hash; whether it parses is up to the archive. */
    method LoadBase(run: Run, world: Pc -> Env, ghost st: Store)
      returns (outcome: Option<Cause>, ghost end: (Store, Run))
      requires Valid() && Holds(st) && run.worker == id && run.pc.FindingBase? && run.pc.session.confirmed.Some?
      modifies queue, sessions, publisher.objects, publisher.versions
      ensures Valid() && Holds(end.0) && end == Drive(hash, st, run, world) && end.1.pc == Stopped(outcome)
    {
      DriveOne(hash, st, run, world);
      var s := run.pc.session;
      var card, version := s.confirmed.value.baseCardId, s.confirmed.value.baseVersionId;
      var base := publisher.versions.Find(s.userId, card, version);
      if base.Err? {
        outcome, end := Fail(run.(pc := FailAt(run, "BASE_ARTIFACT_LOAD_FAILED", Refused)), world, st);
        return;
      }
      outcome, end := ReadBase(run.(pc := ReadingBase(s, base.value)), world, st);
    }

    method ReadBase(run: Run, world: Pc -> Env, ghost st: Store)
      returns (outcome: Option<Cause>, ghost end: (Store, Run))
      requires Valid() && Holds(st) && run.worker == id && run.pc.ReadingBase?
      modifies queue, sessions, publisher.objects, publisher.versions
      ensures Valid() && Holds(end.0) && end == Drive(hash, st, run, world) && end.1.pc == Stopped(outcome)
    {
      DriveOne(hash, st, run, world);
      var archive := publisher.objects.Get(run.pc.base.artifactKey, MAX_ARCHIVE_BYTES);
      if archive.Err? || hash(archive.value) != run.pc.base.sha {
        outcome, end := Fail(run.(pc := FailAt(run, "BASE_ARTIFACT_LOAD_FAILED", Refused)), world, st);
      } else if !world(run.pc).parsed {
        outcome, end := Fail(run.(pc := FailAt(run, "BASE_ARTIFACT_INVALID", Refused)), world, st);
      } else {
        outcome, end := Reserve(run.(pc := Reserving(run.pc.session)), world, st);
      }
    }

    /** From the session's snapshot on. */
    method Resume(run: Run, s: S.Session, world: Pc -> Env, ghost st: Store)
      returns (outcome: Option<Cause>, ghost end: (Store, Run))
      requires Valid() && Holds(st) && run.worker == id && (run.pc.Loading? || run.pc.Starting?)
      modifies queue, sessions, publisher.objects, publisher.versions
      ensures Valid() && Holds(end.0) && end.1.pc == Stopped(outcome)
      ensures end == Drive(hash, st, run.(pc := AfterStart(run, s)), world)
    {
      if s.confirmed.None? {
        outcome, end := Fail(run.(pc := FailAt(run, "GENERATION_REQUIREMENTS_MISSING", SnapshotMissing)), world, st);
      } else if HasBase(s) {
        outcome, end := LoadBase(run.(pc := FindingBase(s)), world, st);
      } else {
        outcome, end := Reserve(run.(pc := Reserving(s)), world, st);
      }
    }

    method StartSession(run: Run, world: Pc -> Env, ghost st: Store)
      returns (outcome: Option<Cause>, ghost end: (Store, Run))
      requires Valid() && Holds(st) && run.worker == id && run.pc.Starting?
      modifies queue, sessions, publisher.objects, publisher.versions
      ensures Valid() && Holds(end.0) && end == Drive(hash, st, run, world) && end.1.pc == Stopped(outcome)
    {
      DriveOne(hash, st, run, world);
      ghost var after := Start(st, run, world(run.pc)).0;
      var at := world(run.pc).at;
      var started := sessions.UpdateSystem(run.job.sessionId, s => S.Change(s, S.StartGeneratingCall(at)));
      assert Holds(after);
      if started.Err? {
        outcome, end := Fail(run.(pc := FailAt(run, "GENERATION_STATE_INVALID", Refused)), world, after);
      } else {
        outcome, end := Resume(run, started.value, world, after);
      }
    }

    /** RunOnce on a claimed job. */
    method Work(run: Run, world: Pc -> Env, ghost st: Store) returns (outcome: Option<Cause>, ghost end: (Store, Run))
      requires Valid() && Holds(st) && run.worker == id && run.pc.Loading?
      modifies queue, sessions, publisher.objects, publisher.versions
      ensures Valid() && Holds(end.0) && end == Drive(hash, st, run, world) && end.1.pc == Stopped(outcome)
    {
      DriveOne(hash, st, run, world);
      if run.job.sessionId !in sessions.sessions {
        outcome, end := Fail(run.(pc := FailAt(run, "GENERATION_STATE_INVALID", Refused)), world, st);
        return;
      }
      var s := sessions.sessions[run.job.sessionId];
      if s.status == S.Queued {
        outcome, end := StartSession(run.(pc := Starting), world, st);
      } else if s.status != S.Generating && s.status != S.Validating && s.status != S.Ready {
        outcome, end := Fail(run.(pc := FailAt(run, "GENERATION_STATE_INVALID", CannotResume)), world, st);
      } else {
        outcome, end := Resume(run, s, world, st);
      }
    }

    /** Claim a job and work on it; a lease lost while at work is reported whatever the work came to. */
    method RunOnce(now: Time, world: Pc -> Env, beat: Heartbeat.Ending, ghost st: Store)
      returns (report: Report, ghost end: Store)
      requires Valid() && Holds(st)
      modifies queue, sessions, publisher.objects, publisher.versions
      ensures Valid() && Holds(end)
      ensures var (jobs, job) := J.Claim(st.jobs, id, now, lease);
              if job.Err? then report == NothingToDo && end == st.(jobs := jobs)
              else
                var (last, run) := Drive(hash, st.(jobs := jobs), Run(id, now, job.value, Loading), world);
                && end == last && run.pc.Stopped?
                && report == if beat.LeaseLost? then LeaseGone(beat.error) else Ended(run.pc.outcome)
      ensures GoodStart(hash, st, id, now, lease, world) && !beat.LeaseLost? ==>
                var job := J.Claim(st.jobs, id, now, lease).1.value;
                report == Ended(None) && exists v :: Delivered(hash, end, job.id, job.sessionId, v)
    {
      var job := queue.Claim(id, now, lease);
      ghost var after := st.(jobs := queue.jobs);
      if job.Err? {
        return NothingToDo, after;
      }
      ghost var last: (Store, Run);
      var outcome: Option<Cause>;
      outcome, last := Work(Run(id, now, job.value, Loading), world, after);
      end := last.0;
      if GoodStart(hash, st, id, now, lease, world) {
        ghost var v := ClaimDelivers(hash, st, Run(id, now, job.value, Loading), lease, world);
      }
      report := if beat.LeaseLost? then LeaseGone(beat.error) else Ended(outcome);
    }
  }

  function AfterPublish(run: Run, version: Result<CardVersion, PublishError>): Pc
    requires run.pc.Putting?
  {
    if version == Err(P.DisplayConflict) && HasBase(run.pc.session) && !run.pc.again then
      Renumbering(run.pc.session, run.pc.publication)
    else if version.Err? then FailAt(run, "ARTIFACT_PUBLISH_FAILED", Refused)
    else MarkingReady(run.pc.session, run.pc.publication, version.value.versionId)
  }

  ghost function PutAndCreate(hash: Hash, st: Store, run: Run, env: Env): (Store, Pc)
    requires run.pc.Putting?
  {
    var put := Put(hash, st, run, env);
    if put.1.Creating? then CreateVersion(put.0, run.(pc := put.1)) else put
  }

  lemma DriveRenumbered(hash: Hash, st: Store, run: Run, world: Pc -> Env)
    requires run.pc.Renumbering?
    ensures var next := D.NextOf(Displays(st.versions, run.pc.session.userId, run.pc.publication.cardId));
            var pc := if next.Err? then FailAt(run, "VERSION_HISTORY_INVALID", Refused)
                      else Putting(run.pc.session, run.pc.publication, next.value, true);
            Drive(hash, st, run, world) == Drive(hash, st, run.(pc := pc), world)
  {
    DriveOne(hash, st, run, world);
    assert Effect(hash, st, run, world(run.pc)) == (st, Number(st, run));
  }

  lemma DrivePut(hash: Hash, st: Store, run: Run, world: Pc -> Env)
    requires run.pc.Putting?
    ensures var (after, pc) := Put(hash, st, run, world(run.pc));
            Drive(hash, st, run, world) == Drive(hash, after, run.(pc := pc), world)
  {
    DriveOne(hash, st, run, world);
    assert Effect(hash, st, run, world(run.pc)) == Put(hash, st, run, world(run.pc));
  }

  lemma DriveCreate(hash: Hash, st: Store, run: Run, world: Pc -> Env)
    requires run.pc.Creating?
    ensures var (after, pc) := CreateVersion(st, run);
            Drive(hash, st, run, world) == Drive(hash, after, run.(pc := pc), world)
  {
    DriveOne(hash, st, run, world);
    assert Effect(hash, st, run, world(run.pc)) == CreateVersion(st, run);
  }

  lemma DriveTwo(hash: Hash, st: Store, run: Run, world: Pc -> Env)
    requires run.pc.Putting?
    ensures var (after, pc) := PutAndCreate(hash, st, run, world(run.pc));
            Drive(hash, st, run, world) == Drive(hash, after, run.(pc := pc), world)
  {
    var put := Put(hash, st, run, world(run.pc));
    DrivePut(hash, st, run, world);
    if put.1.Creating? {
      var creating := run.(pc := put.1);
      DriveCreate(hash, put.0, creating, world);
      var pc := CreateVersion(put.0, creating).1;
      assert creating.(pc := pc) == run.(pc := pc);
    }
  }

  function InputOf(run: Run, env: Env): Input
    requires run.pc.Putting?
  {
    Input(run.pc.session.userId, run.pc.publication.cardId, run.pc.publication.versionId, run.pc.display,
          env.runtime, env.title, env.description, run.job.createdAt)
  }

  function BuildOf(hash: Hash, env: Env): Result<Built, PublishError>
  {
    if env.archive.None? || |env.archive.value| > MAX_ARCHIVE_BYTES then Err(BuildFailed)
    else Ok(Built(env.archive.value, hash(env.archive.value), env.keyId))
  }

  /** What Publish returns is what the two store calls come to. */
  lemma PublishedAs(hash: Hash, st: Store, run: Run, env: Env, version: Result<CardVersion, PublishError>)
    requires run.pc.Putting?
    requires var build := BuildOf(hash, env);
             if build.Err? then version == Err(build.error)
             else
               var put := PutIfAbsent(st.objects, KeyOf(build.value.sha), build.value.archive);
               version == if put.1.Err? then Err(put.1.error)
                          else Create(st.versions, VersionOf(InputOf(run, env), build.value)).1
    ensures PutAndCreate(hash, st, run, env).1 == AfterPublish(run, version)
    ensures var build, after := BuildOf(hash, env), PutAndCreate(hash, st, run, env).0;
            && after.jobs == st.jobs && after.index == st.index && after.sessions == st.sessions
            && if build.Err? then after.objects == st.objects && after.versions == st.versions
               else
                 var put := PutIfAbsent(st.objects, KeyOf(build.value.sha), build.value.archive);
                 && after.objects == put.0
                 && after.versions == if put.1.Err? then st.versions
                                      else Create(st.versions, VersionOf(InputOf(run, env), build.value)).0
  {
    var put := Put(hash, st, run, env);
    if put.1.Creating? {
      assert put.1.version == VersionOf(InputOf(run, env), BuildOf(hash, env).value);
    }
  }
}
