/**
 The later part of a run that nothing disturbs, proved from its end backwards: from the reservation and
 the lookup of its version to the completion of its job.
 */
module PipelineProgress {
  import opened Prelude
  import opened P = PublishModel
  import opened Pipeline
  import opened PipelineInvariant
  import opened PipelineRuns
  import opened PipelineSteps
  import opened PipelineSafety
  import opened PipelineDrive
  import opened PipelineOrder
  import S = SessionModel
  import J = JobModel
  import A = ModelAttempts
  import D = DisplayVersion

  /** The run holds its job, and every clock reading of its world lies within the lease. */
  ghost predicate Held(st: Store, run: Run, world: Pc -> Env)
  {
    && run.job.id in st.jobs
    && var job := st.jobs[run.job.id];
       && job.status == J.Running && job.leaseOwner == run.worker && run.now < job.leaseUntil
       && forall pc :: world(pc).at < job.leaseUntil
  }

  /** Left alone, the run ends without an error, its job completed and this version published for it. */
  ghost predicate EndsWell(hash: Hash, st: Store, run: Run, world: Pc -> Env, v: CardVersion)
  {
    var (end, last) := Drive(hash, st, run, world);
    && last.pc == Stopped(None) && StoreOk(hash, end)
    && run.job.id in end.jobs && end.jobs[run.job.id].sessionId == run.job.sessionId
    && end.jobs[run.job.id].status == J.Completed && end.jobs[run.job.id].versionId == v.versionId
    && v.versionId in end.versions && end.versions[v.versionId] == v
  }

  lemma StepEnds(hash: Hash, st: Store, run: Run, world: Pc -> Env, after: Store, pc: Pc, v: CardVersion)
    requires !run.pc.Stopped? && Effect(hash, st, run, world(run.pc)) == (after, pc)
    requires EndsWell(hash, after, run.(pc := pc), world, v)
    ensures EndsWell(hash, st, run, world, v)
  {
    DriveOne(hash, st, run, world);
  }

  // ----- the end of a run -----

  lemma Completes(hash: Hash, st: Store, run: Run, env: Env)
    requires RunFits(st, run) && run.pc.Completing? && J.HeldBy(st.jobs[run.job.id], run.worker, env.at)
    ensures var after, id := Complete(st, run, env).0, run.job.id;
            && Effect(hash, st, run, env) == (after, Stopped(None)) && after == st.(jobs := after.jobs)
            && id in after.jobs && after.jobs[id].status == J.Completed
            && after.jobs[id].sessionId == st.jobs[id].sessionId && after.jobs[id].versionId == st.jobs[id].versionId
  {
    assert Effect(hash, st, run, env) == Complete(st, run, env);
  }

  lemma CompletingEnds(hash: Hash, st: Store, run: Run, world: Pc -> Env, v: CardVersion)
    requires StoreOk(hash, st) && RunFits(st, run) && run.pc.Completing? && Held(st, run, world)
    requires v.versionId in st.versions && st.versions[v.versionId] == v && run.pc.publication.versionId == v.versionId
    ensures EndsWell(hash, st, run, world, v)
  {
    var env := world(run.pc);
    var after, pc := Complete(st, run, env).0, Stopped(None);
    Completes(hash, st, run, env);
    CompleteAdvances(hash, st, run, env);
    DriveOne(hash, after, run.(pc := pc), world);
    StepEnds(hash, st, run, world, after, pc, v);
  }

  lemma Marks(hash: Hash, st: Store, run: Run, env: Env)
    requires RunFits(st, run) && run.pc.MarkingReady? && st.sessions[run.job.sessionId].status == S.Validating
    ensures var after := MarkReady(st, run, env).0;
            && Effect(hash, st, run, env) == (after, Completing(run.pc.session, run.pc.publication))
            && after.jobs == st.jobs && after.versions == st.versions
  {
    assert Effect(hash, st, run, env) == MarkReady(st, run, env);
  }

  lemma MarkingEnds(hash: Hash, st: Store, run: Run, world: Pc -> Env, v: CardVersion)
    requires StoreOk(hash, st) && RunFits(st, run) && run.pc.MarkingReady? && Held(st, run, world)
    requires v.versionId in st.versions && st.versions[v.versionId] == v && run.pc.publication.versionId == v.versionId
    requires st.sessions[run.job.sessionId].status == S.Validating
    ensures EndsWell(hash, st, run, world, v)
  {
    var after, pc := MarkReady(st, run, world(run.pc)).0, Completing(run.pc.session, run.pc.publication);
    Marks(hash, st, run, world(run.pc));
    ReadyAdvances(hash, st, run, world(run.pc));
    CompletingEnds(hash, after, run.(pc := pc), world, v);
    StepEnds(hash, st, run, world, after, pc, v);
  }

  // ----- publishing -----

  /** Nothing stands under the card's display version or the version's id. */
  ghost predicate Unpublished(st: Store, userId: string, publication: J.Publication, display: string)
  {
    publication.versionId !in st.versions && display !in Displays(st.versions, userId, publication.cardId)
  }

  lemma Creates(hash: Hash, st: Store, run: Run, env: Env)
    requires RunFits(st, run) && run.pc.Creating?
    requires Unpublished(st, run.pc.version.userId, run.pc.publication, run.pc.version.display)
    ensures var after, v := CreateVersion(st, run).0, run.pc.version;
            && Effect(hash, st, run, env) == (after, MarkingReady(run.pc.session, run.pc.publication, v.versionId))
            && after.jobs == st.jobs && after.sessions == st.sessions && after.versions == st.versions[v.versionId := v]
  {
    assert Effect(hash, st, run, env) == CreateVersion(st, run);
    assert !Taken(st.versions, run.pc.version);
  }

  lemma CreatingEnds(hash: Hash, st: Store, run: Run, world: Pc -> Env)
    requires StoreOk(hash, st) && RunFits(st, run) && run.pc.Creating? && Held(st, run, world)
    requires Unpublished(st, run.pc.version.userId, run.pc.publication, run.pc.version.display)
    requires st.sessions[run.job.sessionId].status == S.Validating
    ensures EndsWell(hash, st, run, world, run.pc.version)
  {
    var v := run.pc.version;
    var after, pc := CreateVersion(st, run).0, MarkingReady(run.pc.session, run.pc.publication, v.versionId);
    Creates(hash, st, run, world(run.pc));
    CreateAdvances(hash, st, run, world(run.pc));
    MarkingEnds(hash, after, run.(pc := pc), world, v);
    StepEnds(hash, st, run, world, after, pc, v);
  }

  /** The archive is built, within its limit, and no other content lies under its hash. */
  predicate Puttable(hash: Hash, st: Store, env: Env)
  {
    && env.archive.Some? && |env.archive.value| <= MAX_ARCHIVE_BYTES
    && (KeyOf(hash(env.archive.value)) in st.objects ==>
          st.objects[KeyOf(hash(env.archive.value))] == env.archive.value)
  }

  /** The version that a run publishes in this environment. */
  predicate Publishes(hash: Hash, userId: string, publication: J.Publication, display: string, job: J.Job, env: Env,
                      v: CardVersion)
  {
    && v.versionId == publication.versionId && v.cardId == publication.cardId && v.userId == userId
    && v.display == display && v.runtime == env.runtime && v.title == env.title && v.description == env.description
    && env.archive.Some? && v.sha == hash(env.archive.value) && v.keyId == env.keyId && v.createdAt == job.createdAt
  }

  lemma Puts(hash: Hash, st: Store, run: Run, env: Env) returns (v: CardVersion)
    requires run.pc.Putting? && Puttable(hash, st, env)
    ensures var after := Put(hash, st, run, env).0;
            && Effect(hash, st, run, env) == (after, Creating(run.pc.session, run.pc.publication, v, run.pc.again))
            && after.jobs == st.jobs && after.sessions == st.sessions && after.versions == st.versions
    ensures Publishes(hash, run.pc.session.userId, run.pc.publication, run.pc.display, run.job, env, v)
  {
    assert Effect(hash, st, run, env) == Put(hash, st, run, env);
    v := Put(hash, st, run, env).1.version;
  }

  lemma PuttingEnds(hash: Hash, st: Store, run: Run, world: Pc -> Env) returns (v: CardVersion)
    requires StoreOk(hash, st) && RunFits(st, run) && run.pc.Putting? && Held(st, run, world)
    requires Unpublished(st, run.pc.session.userId, run.pc.publication, run.pc.display)
    requires st.sessions[run.job.sessionId].status == S.Validating && Puttable(hash, st, world(run.pc))
    ensures EndsWell(hash, st, run, world, v)
    ensures Publishes(hash, run.pc.session.userId, run.pc.publication, run.pc.display, run.job, world(run.pc), v)
  {
    var after := Put(hash, st, run, world(run.pc)).0;
    v := Puts(hash, st, run, world(run.pc));
    var pc := Creating(run.pc.session, run.pc.publication, v, run.pc.again);
    PutAdvances(hash, st, run, world(run.pc));
    CreatingEnds(hash, after, run.(pc := pc), world);
    StepEnds(hash, st, run, world, after, pc, v);
  }

  // ----- asking the model -----

  /** The agent answers, and what it answers can be published. */
  predicate Fair(hash: Hash, st: Store, env: Env)
  {
    A.Succeeds(env.agent) && Puttable(hash, st, env)
  }

  lemma Validates(hash: Hash, st: Store, run: Run, env: Env)
    requires RunFits(st, run) && run.pc.StartingValidation?
    requires st.sessions[run.job.sessionId].status == S.Generating
    ensures var after := StartValidation(st, run, env).0;
            && Effect(hash, st, run, env)
               == (after, Putting(run.pc.session, run.pc.publication, run.pc.display, false))
            && after.jobs == st.jobs && after.versions == st.versions && after.objects == st.objects
            && run.job.sessionId in after.sessions && after.sessions[run.job.sessionId].status == S.Validating
  {
    assert Effect(hash, st, run, env) == StartValidation(st, run, env);
  }

  lemma ValidationEnds(hash: Hash, st: Store, run: Run, world: Pc -> Env) returns (v: CardVersion)
    requires StoreOk(hash, st) && RunFits(st, run) && run.pc.StartingValidation? && Held(st, run, world)
    requires Unpublished(st, run.pc.session.userId, run.pc.publication, run.pc.display)
    requires st.sessions[run.job.sessionId].status == S.Generating && forall pc :: Fair(hash, st, world(pc))
    ensures EndsWell(hash, st, run, world, v)
    ensures Publishes(hash, run.pc.session.userId, run.pc.publication, run.pc.display, run.job,
              world(Putting(run.pc.session, run.pc.publication, run.pc.display, false)), v)
  {
    var after := StartValidation(st, run, world(run.pc)).0;
    var pc := Putting(run.pc.session, run.pc.publication, run.pc.display, false);
    Validates(hash, st, run, world(run.pc));
    ValidationAdvances(hash, st, run, world(run.pc));
    assert Fair(hash, st, world(pc));
    v := PuttingEnds(hash, after, run.(pc := pc), world);
    StepEnds(hash, st, run, world, after, pc, v);
  }

  lemma Generates(hash: Hash, st: Store, run: Run, env: Env)
    requires RunFits(st, run) && run.pc.Generating? && A.Succeeds(env.agent)
    ensures var after, s := Generate(st, run, env).0, run.pc.session;
            && Effect(hash, st, run, env)
               == (after, if s.status == S.Validating then Putting(s, run.pc.publication, run.pc.display, false)
                          else StartingValidation(s, run.pc.publication, run.pc.display))
            && after == st.(modelCalls := after.modelCalls)
  {
    assert Effect(hash, st, run, env) == Generate(st, run, env);
  }

  lemma GeneratingEnds(hash: Hash, st: Store, run: Run, world: Pc -> Env) returns (v: CardVersion)
    requires StoreOk(hash, st) && RunFits(st, run) && run.pc.Generating? && Held(st, run, world)
    requires NotYetAsked(st, run) && Unpublished(st, run.pc.session.userId, run.pc.publication, run.pc.display)
    requires st.sessions[run.job.sessionId].status == run.pc.session.status
    requires run.pc.session.status == S.Generating || run.pc.session.status == S.Validating
    requires forall pc :: Fair(hash, st, world(pc))
    ensures EndsWell(hash, st, run, world, v)
    ensures Publishes(hash, run.pc.session.userId, run.pc.publication, run.pc.display, run.job,
              world(Putting(run.pc.session, run.pc.publication, run.pc.display, false)), v)
  {
    var s, env := run.pc.session, world(run.pc);
    var after, pc := Generate(st, run, env).0, Generate(st, run, env).1;
    assert Fair(hash, st, env);
    Generates(hash, st, run, env);
    GenerateStep(hash, st, run, env);
    assert forall p :: Fair(hash, after, world(p)) by {
      forall p ensures Fair(hash, after, world(p)) {
        assert Fair(hash, st, world(p));
      }
    }
    if s.status == S.Validating {
      v := PuttingEnds(hash, after, run.(pc := pc), world);
    } else {
      v := ValidationEnds(hash, after, run.(pc := pc), world);
    }
    StepEnds(hash, st, run, world, after, pc, v);
  }

  // ----- the display version -----

  /** The card has a display version left to give. */
  ghost predicate Numberable(st: Store, s: S.Session, cardId: string)
  {
    var displays := Displays(st.versions, s.userId, cardId);
    if s.baseCardId == "" then FIRST_DISPLAY !in displays
    else forall top: D.Triple :: D.IsHighest(displays, top) ==> top[2] < D.MAX_UINT64
  }

  /** The display version a new version gets. */
  ghost predicate Displayed(st: Store, s: S.Session, cardId: string, display: string)
  {
    if s.baseCardId == "" then display == FIRST_DISPLAY
    else D.IsNext(Displays(st.versions, s.userId, cardId), Ok(display))
  }

  lemma DisplaysParse(hash: Hash, st: Store, userId: string, cardId: string)
    requires StoreOk(hash, st)
    ensures forall d :: d in Displays(st.versions, userId, cardId) ==> D.Parses(d)
  {
    forall d | d in Displays(st.versions, userId, cardId) ensures D.Parses(d) {
      var id :| id in st.versions && SameCard(st.versions[id], userId, cardId) && st.versions[id].display == d;
      assert VersionFits(st, st.versions[id]);
    }
  }

  /** The base is listed, so there is a next number unless the last one is used up. */
  lemma NextThere(hash: Hash, st: Store, s: S.Session)
    requires StoreOk(hash, st) && s.baseCardId != "" && BaseOwned(st, s) && Numberable(st, s, s.baseCardId)
    ensures D.NextOf(Displays(st.versions, s.userId, s.baseCardId)).Ok?
  {
    var displays := Displays(st.versions, s.userId, s.baseCardId);
    DisplaysParse(hash, st, s.userId, s.baseCardId);
    assert st.versions[s.baseVersionId].display in displays;
    var next := D.NextOf(displays);
    assert D.IsNext(displays, next);
    var top: D.Triple :| D.IsHighest(displays, top) && next == D.After(top);
  }

  lemma NumberingEnds(hash: Hash, st: Store, run: Run, world: Pc -> Env) returns (v: CardVersion)
    requires StoreOk(hash, st) && RunFits(st, run) && run.pc.Numbering? && Held(st, run, world)
    requires NotYetAsked(st, run) && run.pc.publication.versionId !in st.versions
    requires run.pc.session.baseCardId != "" && run.pc.publication.cardId == run.pc.session.baseCardId
    requires Numberable(st, run.pc.session, run.pc.session.baseCardId)
    requires st.sessions[run.job.sessionId].status == run.pc.session.status
    requires run.pc.session.status == S.Generating || run.pc.session.status == S.Validating
    requires forall pc :: Fair(hash, st, world(pc))
    ensures EndsWell(hash, st, run, world, v) && Displayed(st, run.pc.session, run.pc.publication.cardId, v.display)
    ensures Publishes(hash, run.pc.session.userId, run.pc.publication, v.display, run.job,
              world(Putting(run.pc.session, run.pc.publication, v.display, false)), v)
  {
    var s, publication := run.pc.session, run.pc.publication;
    var displays := Displays(st.versions, s.userId, publication.cardId);
    NextThere(hash, st, s);
    var pc := Generating(s, publication, D.NextOf(displays).value);
    assert Effect(hash, st, run, world(run.pc)) == (st, pc);
    NumberingAdvances(hash, st, run, world(run.pc));
    D.NextIsAbove(displays, pc.display);
    v := GeneratingEnds(hash, st, run.(pc := pc), world);
    StepEnds(hash, st, run, world, st, pc, v);
  }

  // ----- looking for the version of an earlier attempt -----

  /** A version stored under the run's reservation is its own job's. */
  lemma OwnVersion(hash: Hash, st: Store, run: Run, s: S.Session, publication: J.Publication)
    requires StoreOk(hash, st) && JobKnown(st, run) && SessionKnown(st, run, s) && Reserved(st, run, publication)
    requires publication.versionId in st.versions
    ensures Find(st.versions, s.userId, publication.cardId, publication.versionId).Ok?
  {
    assert VersionFits(st, st.versions[publication.versionId]);
    assert SameReservation(st.jobs, st.publishers[publication.versionId], run.job.id);
  }

  /** What the run leaves: the version it finds, or the one it makes of what its world supplies. */
  ghost predicate Yields(hash: Hash, st: Store, job: J.Job, s: S.Session, publication: J.Publication,
                         world: Pc -> Env, v: CardVersion)
  {
    if publication.versionId in st.versions then v == st.versions[publication.versionId]
    else
      && Displayed(st, s, publication.cardId, v.display)
      && exists pc: Pc :: Publishes(hash, s.userId, publication, v.display, job, world(pc), v)
  }

  /** The session as the run read it is the stored one, and the run can go on from there. */
  predicate UnderWay(st: Store, run: Run, s: S.Session)
  {
    && run.job.sessionId in st.sessions && st.sessions[run.job.sessionId] == s
    && (s.status == S.Generating || s.status == S.Validating || s.status == S.Ready)
  }

  /** Every call of the run so far and to come finds what it needs. */
  ghost predicate Undisturbed(hash: Hash, st: Store, run: Run, world: Pc -> Env)
  {
    && StoreOk(hash, st) && RunFits(st, run) && VersionsLate(st) && Held(st, run, world) && NotYetAsked(st, run)
    && forall pc :: Fair(hash, st, world(pc))
  }

  /** The version there was published after validation, and a ready session names it. */
  lemma FoundThere(hash: Hash, st: Store, run: Run, s: S.Session, publication: J.Publication)
    requires StoreOk(hash, st) && RunFits(st, run) && VersionsLate(st) && run.pc == Looking(s, publication)
    requires UnderWay(st, run, s) && publication.versionId in st.versions
    ensures Find(st.versions, s.userId, publication.cardId, publication.versionId).Ok?
    ensures s.status == S.Validating || s.status == S.Ready
    ensures s.status == S.Ready ==> s.versionId == publication.versionId
  {
    OwnVersion(hash, st, run, s, publication);
    FoundValidated(hash, st, run, publication.versionId);
    if s.status == S.Ready {
      ReadyIsReserved(hash, st, run, s, publication);
    }
  }

  lemma Finds(hash: Hash, st: Store, run: Run, env: Env, s: S.Session, publication: J.Publication)
    requires run.pc == Looking(s, publication) && Keyed(st.versions)
    requires Find(st.versions, s.userId, publication.cardId, publication.versionId).Ok?
    requires s.status == S.Ready ==> s.versionId == publication.versionId
    ensures Effect(hash, st, run, env)
            == (st, if s.status == S.Ready then Completing(s, publication)
                    else MarkingReady(s, publication, publication.versionId))
  {
    assert Effect(hash, st, run, env) == (st, Look(st, run));
  }

  lemma FoundEnds(hash: Hash, st: Store, run: Run, world: Pc -> Env, v: CardVersion)
    requires Undisturbed(hash, st, run, world) && run.pc.Looking? && UnderWay(st, run, run.pc.session)
    requires run.pc.publication.versionId in st.versions && v == st.versions[run.pc.publication.versionId]
    ensures EndsWell(hash, st, run, world, v)
  {
    var s, publication := run.pc.session, run.pc.publication;
    FoundThere(hash, st, run, s, publication);
    Finds(hash, st, run, world(run.pc), s, publication);
    ReadingAdvances(hash, st, run, world(run.pc));
    if s.status == S.Ready {
      CompletingEnds(hash, st, run.(pc := Completing(s, publication)), world, v);
      StepEnds(hash, st, run, world, st, Completing(s, publication), v);
    } else {
      var pc := MarkingReady(s, publication, publication.versionId);
      MarkingEnds(hash, st, run.(pc := pc), world, v);
      StepEnds(hash, st, run, world, st, pc, v);
    }
  }

  lemma MissingEnds(hash: Hash, st: Store, run: Run, world: Pc -> Env) returns (v: CardVersion)
    requires Undisturbed(hash, st, run, world) && run.pc.Looking? && UnderWay(st, run, run.pc.session)
    requires run.pc.publication.versionId !in st.versions
    requires Numberable(st, run.pc.session, run.pc.publication.cardId)
    ensures EndsWell(hash, st, run, world, v)
    ensures Yields(hash, st, run.job, run.pc.session, run.pc.publication, world, v)
  {
    var s, publication := run.pc.session, run.pc.publication;
    if s.status == S.Ready {
      ReadyIsReserved(hash, st, run, s, publication);
    }
    BaseFromSnapshot(s);
    IdentityHolds(hash, st, run, publication);
    var pc := if HasBase(s) then Numbering(s, publication) else Generating(s, publication, FIRST_DISPLAY);
    assert Effect(hash, st, run, world(run.pc)) == (st, pc);
    ReadingAdvances(hash, st, run, world(run.pc));
    if HasBase(s) {
      v := NumberingEnds(hash, st, run.(pc := pc), world);
    } else {
      v := GeneratingEnds(hash, st, run.(pc := pc), world);
    }
    StepEnds(hash, st, run, world, st, pc, v);
  }

  lemma LookingEnds(hash: Hash, st: Store, run: Run, world: Pc -> Env) returns (v: CardVersion)
    requires Undisturbed(hash, st, run, world) && run.pc.Looking? && UnderWay(st, run, run.pc.session)
    requires run.pc.publication.versionId in st.versions || Numberable(st, run.pc.session, run.pc.publication.cardId)
    ensures EndsWell(hash, st, run, world, v)
    ensures Yields(hash, st, run.job, run.pc.session, run.pc.publication, world, v)
  {
    if run.pc.publication.versionId in st.versions {
      v := st.versions[run.pc.publication.versionId];
      FoundEnds(hash, st, run, world, v);
    } else {
      v := MissingEnds(hash, st, run, world);
    }
  }

  // ----- the reservation -----

  /** The ids drawn for a new card and a new version. */
  predicate NewIds(st: Store, env: Env)
  {
    env.newCard != "" && env.newVersion != "" && env.newVersion !in st.versionIds
  }

  /** What the run publishes under: the job's reservation, or else the base's card and new ids. */
  function PairOf(job: J.Job, s: S.Session, env: Env): J.Publication
  {
    if job.versionId != "" then J.Publication(job.cardId, job.versionId)
    else J.Publication(if s.baseCardId != "" then s.baseCardId else env.newCard, env.newVersion)
  }

  lemma ReserveAnswers(job: J.Job, worker: string, card: string, version: string, at: Time)
    requires J.HeldBy(job, worker, at) && (job.cardId == "" <==> job.versionId == "") && card != "" && version != ""
    ensures var (after, r) := J.ReserveJob(job, worker, card, version, at);
            && r == Ok(if job.versionId != "" then J.Publication(job.cardId, job.versionId)
                       else J.Publication(card, version))
            && after.status == job.status && after.leaseOwner == job.leaseOwner && after.leaseUntil == job.leaseUntil
  {
  }

  /** The card the run asks for. */
  function CardOf(s: S.Session, env: Env): string
  {
    if HasBase(s) then s.confirmed.value.baseCardId else env.newCard
  }

  lemma ReservedPair(hash: Hash, st: Store, run: Run, env: Env)
    requires StoreOk(hash, st) && RunFits(st, run) && run.pc.Reserving? && NewIds(st, env)
    requires J.HeldBy(st.jobs[run.job.id], run.worker, run.now)
    ensures var s, job := run.pc.session, st.jobs[run.job.id];
            var pair := PairOf(job, s, env);
            var (row, r) := J.ReserveJob(job, run.worker, CardOf(s, env), env.newVersion, run.now);
            && r == Ok(pair) && row.status == job.status && row.leaseOwner == job.leaseOwner
            && row.leaseUntil == job.leaseUntil
            && (HasBase(s) ==> pair.cardId == s.confirmed.value.baseCardId
                               && pair.versionId != s.confirmed.value.baseVersionId)
  {
    var s, job := run.pc.session, st.jobs[run.job.id];
    BaseFromSnapshot(s);
    JobStored(hash, st, run.job.id);
    ReserveAnswers(job, run.worker, CardOf(s, env), env.newVersion, run.now);
    CardFits(st, run, s, CardOf(s, env));
    ReserveRow(hash, st, run, CardOf(s, env), env.newVersion);
    ReservedLeads(hash, st, Reserve(st, run, env).0, run, s, PairOf(job, s, env));
  }

  lemma Reserves(hash: Hash, st: Store, run: Run, env: Env)
    requires StoreOk(hash, st) && RunFits(st, run) && run.pc.Reserving? && NewIds(st, env)
    requires J.HeldBy(st.jobs[run.job.id], run.worker, run.now)
    ensures var after, s := Reserve(st, run, env).0, run.pc.session;
            && Effect(hash, st, run, env) == (after, Looking(s, PairOf(st.jobs[run.job.id], s, env)))
            && after == st.(jobs := after.jobs, versionIds := after.versionIds)
            && run.job.id in after.jobs && after.jobs[run.job.id].status == st.jobs[run.job.id].status
            && after.jobs[run.job.id].leaseOwner == st.jobs[run.job.id].leaseOwner
            && after.jobs[run.job.id].leaseUntil == st.jobs[run.job.id].leaseUntil
  {
    ReservedPair(hash, st, run, env);
    assert Effect(hash, st, run, env) == Reserve(st, run, env);
  }
}
