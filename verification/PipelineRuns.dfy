/** What a run may rely on between two of its store calls, and what each call leaves behind. */
module PipelineRuns {
  import opened Prelude
  import opened P = PublishModel
  import opened Pipeline
  import opened PipelineInvariant
  import S = SessionModel
  import J = JobModel

  /** The failures the worker guards against although the stores should never cause them. */
  predicate Defensive(cause: Cause)
  {
    cause == SnapshotMissing || cause == IdentityInvalid || cause == ReadyMismatch || cause == ReadyMissing
  }

  predicate JobKnown(st: Store, run: Run)
  {
    && run.job.id in st.jobs && st.jobs[run.job.id].sessionId == run.job.sessionId
    && 1 <= run.job.attempts <= st.jobs[run.job.id].attempts
    && run.job.maxAttempts == J.MAX_ATTEMPTS
  }

  /** A session as the run read it: the stored one follows it. */
  ghost predicate SessionKnown(st: Store, run: Run, s: S.Session)
  {
    && s.id == run.job.sessionId && s.id in st.sessions && S.Follows(s, st.sessions[s.id])
    && s.confirmed.Some? && SessionFits(st, s)
  }

  predicate Reserved(st: Store, run: Run, publication: J.Publication)
  {
    && run.job.id in st.jobs && publication.versionId != ""
    && st.jobs[run.job.id].cardId == publication.cardId && st.jobs[run.job.id].versionId == publication.versionId
  }

  ghost predicate ToCreate(st: Store, s: S.Session, publication: J.Publication, v: CardVersion)
  {
    && v.versionId == publication.versionId && v.cardId == publication.cardId && v.userId == s.userId
    && Stored(st.objects, v) && Numbered(st, s, v.display)
  }

  ghost predicate PcFits(st: Store, run: Run)
  {
    match run.pc
    case Loading => true
    case Starting => true
    case FindingBase(s) => SessionKnown(st, run, s) && HasBase(s)
    case ReadingBase(s, base) => SessionKnown(st, run, s)
    case Reserving(s) => SessionKnown(st, run, s)
    case Looking(s, publication) => SessionKnown(st, run, s) && Reserved(st, run, publication)
    case Numbering(s, publication) => SessionKnown(st, run, s) && Reserved(st, run, publication)
    case Renumbering(s, publication) => SessionKnown(st, run, s) && Reserved(st, run, publication)
    case Generating(s, publication, display) =>
      SessionKnown(st, run, s) && Reserved(st, run, publication) && Numbered(st, s, display)
    case StartingValidation(s, publication, display) =>
      SessionKnown(st, run, s) && Reserved(st, run, publication) && Numbered(st, s, display)
    case Putting(s, publication, display, again) =>
      SessionKnown(st, run, s) && Reserved(st, run, publication) && Numbered(st, s, display)
    case Creating(s, publication, v, again) =>
      SessionKnown(st, run, s) && Reserved(st, run, publication) && ToCreate(st, s, publication, v)
    case MarkingReady(s, publication, versionId) =>
      SessionKnown(st, run, s) && Reserved(st, run, publication) && versionId == publication.versionId
      && Find(st.versions, s.userId, publication.cardId, versionId).Ok?
    case Completing(s, publication) =>
      SessionKnown(st, run, s) && Reserved(st, run, publication)
      && ReadyWith(st.sessions[s.id], publication.versionId)
    case Retrying(cause) => !Defensive(cause)
    case MarkingFailed(code, cause) => !Defensive(cause)
    case Failing(cause) => !Defensive(cause)
    case Stopped(outcome) => outcome.Some? ==> !Defensive(outcome.value)
  }

  ghost predicate RunFits(st: Store, run: Run)
  {
    JobKnown(st, run) && PcFits(st, run)
  }

  ghost predicate ClientFits(st: Store, client: Client)
  {
    match client
    case Inserting(s) => SessionFits(st, s) && s.status == S.AwaitingConfirmation
    case Enqueueing(id, at) => id in st.sessions && st.sessions[id].confirmed.Some?
    case QueueDown(id) => id in st.sessions
    case CancellingJob(id) => id in st.sessions && st.sessions[id].status == S.Cancelled
    case Idle => true
  }

  // ----- what others do does not disturb a run or a client -----

  lemma SessionKnownStays(a: Store, b: Store, run: Run, s: S.Session)
    requires Evolves(a, b) && SessionKnown(a, run, s)
    ensures SessionKnown(b, run, s)
  {
    S.FollowsTransitive(s, a.sessions[s.id], b.sessions[s.id]);
    SessionFitsStays(a, b, s);
  }

  lemma ReservedStays(a: Store, b: Store, run: Run, publication: J.Publication)
    requires Evolves(a, b) && Reserved(a, run, publication)
    ensures Reserved(b, run, publication)
  {
    assert JobGrows(a.jobs[run.job.id], b.jobs[run.job.id]);
  }

  lemma JobKnownStays(a: Store, b: Store, run: Run)
    requires Evolves(a, b) && JobKnown(a, run)
    ensures JobKnown(b, run)
  {
    assert JobGrows(a.jobs[run.job.id], b.jobs[run.job.id]);
  }

  lemma PcFitsStays(a: Store, b: Store, run: Run)
    requires Evolves(a, b) && PcFits(a, run)
    ensures PcFits(b, run)
  {
    match run.pc
    case FindingBase(s) => SessionKnownStays(a, b, run, s);
    case ReadingBase(s, _) => SessionKnownStays(a, b, run, s);
    case Reserving(s) => SessionKnownStays(a, b, run, s);
    case Looking(s, p) => SessionKnownStays(a, b, run, s); ReservedStays(a, b, run, p);
    case Numbering(s, p) => SessionKnownStays(a, b, run, s); ReservedStays(a, b, run, p);
    case Renumbering(s, p) => SessionKnownStays(a, b, run, s); ReservedStays(a, b, run, p);
    case Generating(s, p, d) =>
      SessionKnownStays(a, b, run, s); ReservedStays(a, b, run, p); NumberedStays(a, b, s, s, d);
    case StartingValidation(s, p, d) =>
      SessionKnownStays(a, b, run, s); ReservedStays(a, b, run, p); NumberedStays(a, b, s, s, d);
    case Putting(s, p, d, _) =>
      SessionKnownStays(a, b, run, s); ReservedStays(a, b, run, p); NumberedStays(a, b, s, s, d);
    case Creating(s, p, v, _) =>
      SessionKnownStays(a, b, run, s); ReservedStays(a, b, run, p); NumberedStays(a, b, s, s, v.display);
    case MarkingReady(s, p, _) => SessionKnownStays(a, b, run, s); ReservedStays(a, b, run, p);
    case Completing(s, p) => SessionKnownStays(a, b, run, s); ReservedStays(a, b, run, p);
      assert S.Follows(a.sessions[s.id], b.sessions[s.id]);
    case _ =>
  }

  lemma RunFitsStays(a: Store, b: Store, run: Run)
    requires Evolves(a, b) && RunFits(a, run)
    ensures RunFits(b, run)
  {
    JobKnownStays(a, b, run);
    PcFitsStays(a, b, run);
  }

  lemma ClientFitsStays(a: Store, b: Store, client: Client)
    requires Evolves(a, b) && ClientFits(a, client)
    ensures ClientFits(b, client)
  {
    match client
    case Inserting(s) => SessionFitsStays(a, b, s);
    case Enqueueing(id, at) => assert S.Follows(a.sessions[id], b.sessions[id]);
    case CancellingJob(id) => assert S.Follows(a.sessions[id], b.sessions[id]);
    case _ =>
  }
}
