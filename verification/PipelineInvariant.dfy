/** What every reachable state of the pipeline satisfies, and what no step undoes. */
module PipelineInvariant {
  import opened Prelude
  import opened P = PublishModel
  import opened Pipeline
  import S = SessionModel
  import J = JobModel
  import A = ModelAttempts
  import D = DisplayVersion

  // ----- the invariant, one row at a time -----

  /** The user's base version exists. */
  predicate BaseOwned(st: Store, s: S.Session)
  {
    s.baseCardId != "" ==> Find(st.versions, s.userId, s.baseCardId, s.baseVersionId).Ok?
  }

  /** The session's job has published the version, under the user and the reserved card. */
  predicate Published(st: Store, s: S.Session)
  {
    && s.id in st.index && st.index[s.id] in st.jobs
    && var job := st.jobs[st.index[s.id]];
       job.versionId == s.versionId && s.versionId != "" && Find(st.versions, s.userId, job.cardId, job.versionId).Ok?
  }

  predicate SessionFits(st: Store, s: S.Session)
  {
    && S.Resumable(s) && BaseOwned(st, s)
    && (s.status == S.Ready ==> Published(st, s))
  }

  predicate ReservationFits(st: Store, job: J.Job, s: S.Session)
  {
    && job.versionId in st.versionIds
    && (s.baseCardId != "" ==> job.cardId == s.baseCardId && job.versionId != s.baseVersionId)
  }

  predicate ReadyWith(s: S.Session, versionId: string)
  {
    s.status == S.Ready && s.versionId == versionId && versionId != ""
  }

  ghost predicate JobFits(st: Store, job: J.Job)
  {
    && job.sessionId in st.sessions
    && job.attempts <= job.maxAttempts == J.MAX_ATTEMPTS
    && (job.cardId == "" <==> job.versionId == "")
    && var s := st.sessions[job.sessionId];
       && s.confirmed.Some?
       && (job.versionId != "" ==> ReservationFits(st, job, s))
       && (job.status == J.Completed ==> ReadyWith(s, job.versionId))
       && (job.status == J.Cancelled ==> s.status == S.Cancelled)
  }

  /** A version made from a base is numbered strictly above it. */
  predicate AboveBase(versions: Versions, s: S.Session, display: string)
  {
    s.baseCardId != "" ==>
      && D.Parses(display) && s.baseVersionId in versions && D.Parses(versions[s.baseVersionId].display)
      && D.Below(D.Parsed(versions[s.baseVersionId].display), D.Parsed(display))
  }

  predicate Numbered(st: Store, s: S.Session, display: string)
  {
    D.Parses(display) && AboveBase(st.versions, s, display)
  }

  /** A version is published by one job, under its reservation and for its session's user. */
  predicate PublishedBy(st: Store, v: CardVersion, jobId: string)
  {
    && jobId in st.jobs && st.jobs[jobId].cardId == v.cardId && st.jobs[jobId].versionId == v.versionId
    && v.versionId != "" && st.jobs[jobId].sessionId in st.sessions
    && var s := st.sessions[st.jobs[jobId].sessionId]; s.userId == v.userId && Numbered(st, s, v.display)
  }

  ghost predicate VersionFits(st: Store, v: CardVersion)
  {
    && v.versionId in st.versionIds && Stored(st.objects, v)
    && v.versionId in st.publishers && PublishedBy(st, v, st.publishers[v.versionId])
  }

  /** Job ids and attempts under which the model may already have been asked. */
  predicate AttemptMade(st: Store, jobId: string, attempt: nat)
  {
    jobId in st.jobs && 1 <= attempt <= st.jobs[jobId].attempts
  }

  // ----- the invariant of the stores -----

  ghost predicate SessionsFit(st: Store)
  {
    forall id {:trigger SessionFits(st, st.sessions[id])} ::
      id in st.sessions ==> st.sessions[id].id == id && SessionFits(st, st.sessions[id])
  }

  ghost predicate JobsFit(st: Store)
  {
    forall id {:trigger JobFits(st, st.jobs[id])} :: id in st.jobs ==> JobFits(st, st.jobs[id])
  }

  predicate SameReservation(jobs: J.Jobs, a: string, b: string)
  {
    a in jobs && b in jobs && jobs[a].versionId == jobs[b].versionId && jobs[a].versionId != ""
  }

  /** No two jobs reserve the same version. */
  ghost predicate Distinct(jobs: J.Jobs)
  {
    forall a, b :: SameReservation(jobs, a, b) ==> a == b
  }

  ghost predicate VersionsFit(st: Store)
  {
    forall id {:trigger VersionFits(st, st.versions[id])} :: id in st.versions ==> VersionFits(st, st.versions[id])
  }

  ghost predicate CallsFit(st: Store)
  {
    forall key :: key in st.modelCalls ==> AttemptMade(st, key.0, key.1) && st.modelCalls[key] <= A.MAX_MODEL_ATTEMPTS
  }

  ghost predicate StoreOk(hash: Hash, st: Store)
  {
    && J.Indexed(st.jobs, st.index) && Distinct(st.jobs)
    && SessionsFit(st) && JobsFit(st)
    && Keyed(st.versions) && UniqueDisplays(st.versions) && VersionsFit(st)
    && st.publishers.Keys <= st.versions.Keys
    && Addressed(hash, st.objects) && CallsFit(st)
  }

  // ----- what no step undoes -----

  predicate JobGrows(before: J.Job, after: J.Job)
  {
    && after.id == before.id && after.sessionId == before.sessionId && after.maxAttempts == before.maxAttempts
    && before.attempts <= after.attempts
    && (before.versionId != "" ==> after.cardId == before.cardId && after.versionId == before.versionId)
  }

  /** Sessions follow, reservations stay, versions and objects are immutable. */
  ghost predicate Evolves(a: Store, b: Store)
  {
    && (forall id :: id in a.sessions ==> id in b.sessions && S.Follows(a.sessions[id], b.sessions[id]))
    && (forall id :: id in a.jobs ==> id in b.jobs && JobGrows(a.jobs[id], b.jobs[id]))
    && (forall s :: s in a.index ==> s in b.index && b.index[s] == a.index[s])
    && (forall id :: id in a.versions ==> id in b.versions && b.versions[id] == a.versions[id])
    && (forall key :: key in a.objects ==> key in b.objects && b.objects[key] == a.objects[key])
    && (forall id :: id in a.publishers ==> id in b.publishers && b.publishers[id] == a.publishers[id])
    && a.versionIds <= b.versionIds
    && (forall key :: key in a.modelCalls ==> key in b.modelCalls)
  }

  lemma EvolvesReflexive(a: Store)
    ensures Evolves(a, a)
  {
  }

  lemma EvolvesTransitive(a: Store, b: Store, c: Store)
    requires Evolves(a, b) && Evolves(b, c)
    ensures Evolves(a, c)
  {
  }

  // ----- each row's part of the invariant survives what other rows do -----

  lemma BaseOwnedStays(a: Store, b: Store, s: S.Session)
    requires Evolves(a, b) && BaseOwned(a, s)
    ensures BaseOwned(b, s)
  {
  }

  lemma PublishedStays(a: Store, b: Store, s: S.Session)
    requires Evolves(a, b) && Published(a, s)
    ensures Published(b, s)
  {
    assert JobGrows(a.jobs[a.index[s.id]], b.jobs[b.index[s.id]]);
  }

  lemma SessionFitsStays(a: Store, b: Store, s: S.Session)
    requires Evolves(a, b) && SessionFits(a, s)
    ensures SessionFits(b, s)
  {
    BaseOwnedStays(a, b, s);
    if s.status == S.Ready {
      PublishedStays(a, b, s);
    }
  }

  lemma JobFitsStays(a: Store, b: Store, job: J.Job)
    requires Evolves(a, b) && JobFits(a, job)
    ensures JobFits(b, job)
  {
    assert S.Follows(a.sessions[job.sessionId], b.sessions[job.sessionId]);
  }

  lemma NumberedStays(a: Store, b: Store, s: S.Session, t: S.Session, display: string)
    requires Evolves(a, b) && S.Follows(s, t) && Numbered(a, s, display)
    ensures Numbered(b, t, display)
  {
  }

  lemma VersionFitsStays(a: Store, b: Store, v: CardVersion)
    requires Evolves(a, b) && VersionFits(a, v)
    ensures VersionFits(b, v)
  {
    var jobId := a.publishers[v.versionId];
    assert JobGrows(a.jobs[jobId], b.jobs[jobId]);
    var id := a.jobs[jobId].sessionId;
    NumberedStays(a, b, a.sessions[id], b.sessions[id], v.display);
  }

  lemma AttemptMadeStays(a: Store, b: Store, jobId: string, attempt: nat)
    requires Evolves(a, b) && AttemptMade(a, jobId, attempt)
    ensures AttemptMade(b, jobId, attempt)
  {
    assert JobGrows(a.jobs[jobId], b.jobs[jobId]);
  }

  lemma SessionsStay(a: Store, b: Store)
    requires Evolves(a, b) && SessionsFit(a)
    requires forall id :: id in b.sessions ==>
               (id in a.sessions && b.sessions[id] == a.sessions[id])
                 || (b.sessions[id].id == id && SessionFits(b, b.sessions[id]))
    ensures SessionsFit(b)
  {
    forall id | id in b.sessions ensures b.sessions[id].id == id && SessionFits(b, b.sessions[id]) {
      if id in a.sessions && b.sessions[id] == a.sessions[id] {
        SessionFitsStays(a, b, a.sessions[id]);
      }
    }
  }

  lemma JobsStay(a: Store, b: Store)
    requires Evolves(a, b) && JobsFit(a)
    requires forall id :: id in b.jobs ==> (id in a.jobs && b.jobs[id] == a.jobs[id]) || JobFits(b, b.jobs[id])
    ensures JobsFit(b)
  {
    forall id | id in b.jobs ensures JobFits(b, b.jobs[id]) {
      if id in a.jobs && b.jobs[id] == a.jobs[id] {
        JobFitsStays(a, b, a.jobs[id]);
      }
    }
  }

  lemma VersionsStay(a: Store, b: Store)
    requires Evolves(a, b) && VersionsFit(a)
    requires forall id :: id in b.versions ==> id in a.versions || VersionFits(b, b.versions[id])
    ensures VersionsFit(b)
  {
    forall id | id in b.versions ensures VersionFits(b, b.versions[id]) {
      if id in a.versions {
        VersionFitsStays(a, b, a.versions[id]);
      }
    }
  }

  lemma CallsStay(a: Store, b: Store)
    requires Evolves(a, b) && CallsFit(a) && b.modelCalls == a.modelCalls
    ensures CallsFit(b)
  {
    forall key | key in b.modelCalls ensures AttemptMade(b, key.0, key.1) && b.modelCalls[key] <= A.MAX_MODEL_ATTEMPTS {
      AttemptMadeStays(a, b, key.0, key.1);
    }
  }

  lemma SameSessionsStay(a: Store, b: Store)
    requires Evolves(a, b) && SessionsFit(a) && b.sessions == a.sessions
    ensures SessionsFit(b)
  {
    SessionsStay(a, b);
  }

  lemma SameJobsStay(a: Store, b: Store)
    requires Evolves(a, b) && JobsFit(a) && b.jobs == a.jobs
    ensures JobsFit(b)
  {
    JobsStay(a, b);
  }

  lemma SameVersionsStay(a: Store, b: Store)
    requires Evolves(a, b) && VersionsFit(a) && b.versions == a.versions
    ensures VersionsFit(b)
  {
    VersionsStay(a, b);
  }

  // ----- changing one row -----

  function WithJob(st: Store, id: string, job: J.Job, ids: set<string>): Store
  {
    st.(jobs := st.jobs[id := job], versionIds := st.versionIds + ids)
  }

  function WithSession(st: Store, id: string, s: S.Session): Store
  {
    st.(sessions := st.sessions[id := s])
  }

  lemma WithJobEvolves(st: Store, id: string, job: J.Job, ids: set<string>)
    requires id in st.jobs && JobGrows(st.jobs[id], job)
    ensures Evolves(st, WithJob(st, id, job, ids))
  {
  }

  lemma WithSessionEvolves(st: Store, id: string, s: S.Session)
    requires id in st.sessions && S.Follows(st.sessions[id], s)
    ensures Evolves(st, WithSession(st, id, s))
  {
    var b := WithSession(st, id, s);
    forall x | x in st.sessions ensures x in b.sessions && S.Follows(st.sessions[x], b.sessions[x]) {
      if x != id {
        assert b.sessions[x] == st.sessions[x];
      }
    }
  }

  lemma OneJobStays(a: Store, b: Store, id: string, job: J.Job)
    requires Evolves(a, b) && JobsFit(a) && b.jobs == a.jobs[id := job] && JobFits(b, job)
    ensures JobsFit(b)
  {
    forall x | x in b.jobs ensures JobFits(b, b.jobs[x]) {
      if x != id {
        JobFitsStays(a, b, a.jobs[x]);
      }
    }
  }

  lemma OneSessionStays(a: Store, b: Store, id: string, s: S.Session)
    requires Evolves(a, b) && SessionsFit(a) && b.sessions == a.sessions[id := s] && s.id == id && SessionFits(b, s)
    ensures SessionsFit(b)
  {
    forall x | x in b.sessions ensures b.sessions[x].id == x && SessionFits(b, b.sessions[x]) {
      if x != id {
        SessionFitsStays(a, b, a.sessions[x]);
      }
    }
  }

  /** Replacing one job, handing out version ids on the way. */
  lemma JobPut(hash: Hash, st: Store, id: string, job: J.Job, ids: set<string>)
    requires StoreOk(hash, st) && id in st.jobs && JobGrows(st.jobs[id], job)
    requires JobFits(WithJob(st, id, job, ids), job) && Distinct(st.jobs[id := job])
    ensures StoreOk(hash, WithJob(st, id, job, ids)) && Evolves(st, WithJob(st, id, job, ids))
  {
    var b := WithJob(st, id, job, ids);
    J.IndexedPut(st.jobs, st.index, id, job);
    WithJobEvolves(st, id, job, ids);
    SameSessionsStay(st, b);
    OneJobStays(st, b, id, job);
    SameVersionsStay(st, b);
    CallsStay(st, b);
  }

  lemma SessionPut(hash: Hash, st: Store, id: string, s: S.Session)
    requires StoreOk(hash, st) && id in st.sessions && S.Follows(st.sessions[id], s)
    requires SessionFits(WithSession(st, id, s), s)
    ensures StoreOk(hash, WithSession(st, id, s)) && Evolves(st, WithSession(st, id, s))
  {
    var b := WithSession(st, id, s);
    assert SessionFits(st, st.sessions[id]);
    WithSessionEvolves(st, id, s);
    OneSessionStays(st, b, id, s);
    SameJobsStay(st, b);
    SameVersionsStay(st, b);
    CallsStay(st, b);
  }
}
