/**
 What holds in every state the pipeline can reach from empty stores, whatever the workers, the
 users, the clocks and the failures do.
 */
module PipelineTheorems {
  import opened Prelude
  import opened P = PublishModel
  import opened Pipeline
  import opened PipelineInvariant
  import opened PipelineRuns
  import opened PipelineSteps
  import opened PipelineSystem
  import S = SessionModel
  import J = JobModel
  import A = ModelAttempts
  import D = DisplayVersion

  ghost function Reached(hash: Hash, actions: seq<Action>): Store
  {
    Pipeline.After(hash, EMPTY, actions).store
  }

  lemma ReachedOk(hash: Hash, actions: seq<Action>)
    ensures StoreOk(hash, Reached(hash, actions))
    ensures SystemOk(hash, Pipeline.After(hash, EMPTY, actions))
  {
    EmptyOk(hash);
    ReachableOk(hash, EMPTY, actions);
  }

  lemma {:induction false} AfterAppends(hash: Hash, sys: System, actions: seq<Action>, more: seq<Action>)
    ensures Pipeline.After(hash, sys, actions + more) == Pipeline.After(hash, Pipeline.After(hash, sys, actions), more)
    decreases |actions|
  {
    if actions == [] {
      assert actions + more == more;
    } else {
      assert (actions + more)[1..] == actions[1..] + more;
      AfterAppends(hash, if Enabled(sys, actions[0]) then Next(hash, sys, actions[0]) else sys, actions[1..], more);
    }
  }

  /** The session a published version was made for. */
  function SessionOf(st: Store, versionId: string): string
    requires versionId in st.publishers && st.publishers[versionId] in st.jobs
  {
    st.jobs[st.publishers[versionId]].sessionId
  }

  /** Every version was published by a job, under its reservation and for the session's user. */
  lemma PublishedUnderReservation(hash: Hash, actions: seq<Action>, v: string)
    requires v in Reached(hash, actions).versions
    ensures var st := Reached(hash, actions);
            && v in st.publishers && st.publishers[v] in st.jobs && SessionOf(st, v) in st.sessions
            && st.jobs[st.publishers[v]].versionId == v == st.versions[v].versionId
            && st.jobs[st.publishers[v]].cardId == st.versions[v].cardId
            && st.sessions[SessionOf(st, v)].userId == st.versions[v].userId
  {
    ReachedOk(hash, actions);
    assert VersionFits(Reached(hash, actions), Reached(hash, actions).versions[v]);
  }

  /** A session ends with at most one published version. */
  lemma OneVersionPerSession(hash: Hash, actions: seq<Action>, a: string, b: string)
    requires a in Reached(hash, actions).versions && b in Reached(hash, actions).versions
    ensures var st := Reached(hash, actions);
            && a in st.publishers && st.publishers[a] in st.jobs && b in st.publishers && st.publishers[b] in st.jobs
            && (SessionOf(st, a) == SessionOf(st, b) ==> a == b)
  {
    ReachedOk(hash, actions);
    PublishedUnderReservation(hash, actions, a);
    PublishedUnderReservation(hash, actions, b);
  }

  /** A reservation, once made, is never changed, and no other job ever holds the same version. */
  lemma ReservationIsFinal(hash: Hash, actions: seq<Action>, more: seq<Action>, id: string)
    requires id in Reached(hash, actions).jobs && Reached(hash, actions).jobs[id].versionId != ""
    ensures var job, st := Reached(hash, actions).jobs[id], Reached(hash, actions + more);
            && id in st.jobs && st.jobs[id].cardId == job.cardId && st.jobs[id].versionId == job.versionId
            && forall other :: other in st.jobs && other != id ==> st.jobs[other].versionId != job.versionId
  {
    ReachedOk(hash, actions);
    AfterAppends(hash, EMPTY, actions, more);
    ReachableOk(hash, Pipeline.After(hash, EMPTY, actions), more);
    var before, st := Reached(hash, actions), Reached(hash, actions + more);
    assert JobGrows(before.jobs[id], st.jobs[id]);
    forall other | other in st.jobs && other != id ensures st.jobs[other].versionId != before.jobs[id].versionId {
      assert !SameReservation(st.jobs, other, id);
    }
  }

  /** Versions and objects, once there, stay as they are; a finished session stays finished. */
  lemma NothingIsUndone(hash: Hash, actions: seq<Action>, more: seq<Action>)
    ensures Evolves(Reached(hash, actions), Reached(hash, actions + more))
  {
    ReachedOk(hash, actions);
    AfterAppends(hash, EMPTY, actions, more);
    ReachableOk(hash, Pipeline.After(hash, EMPTY, actions), more);
  }

  /** An existing version loads, with the recorded hash, under the worker's 8 MiB limit. */
  lemma VersionsLoad(hash: Hash, actions: seq<Action>, v: string)
    requires v in Reached(hash, actions).versions
    ensures var st := Reached(hash, actions);
            var r := Load(hash, st.objects, st.versions, st.versions[v].userId, st.versions[v].cardId, v,
              MAX_ARCHIVE_BYTES);
            r.Ok? && hash(r.value) == st.versions[v].sha
  {
    ReachedOk(hash, actions);
    var st := Reached(hash, actions);
    assert VersionFits(st, st.versions[v]);
    StoredLoads(hash, st.objects, st.versions, v);
  }

  /** A ready session names a version of its user, published by its own job. */
  lemma ReadyIsPublished(hash: Hash, actions: seq<Action>, id: string)
    requires id in Reached(hash, actions).sessions && Reached(hash, actions).sessions[id].status == S.Ready
    ensures var st := Reached(hash, actions);
            var s := st.sessions[id];
            && id in st.index && st.index[id] in st.jobs
            && Find(st.versions, s.userId, st.jobs[st.index[id]].cardId, s.versionId).Ok?
            && s.versionId == st.jobs[st.index[id]].versionId
            && s.versionId in st.publishers && st.publishers[s.versionId] == st.index[id]
  {
    ReachedOk(hash, actions);
    var st := Reached(hash, actions);
    assert SessionFits(st, st.sessions[id]);
    var v := st.sessions[id].versionId;
    assert VersionFits(st, st.versions[v]);
    assert SameReservation(st.jobs, st.publishers[v], st.index[id]);
  }

  /** A completed job left its session ready with the reserved version; a cancelled one, cancelled. */
  lemma FinishedJobsAgreeWithSessions(hash: Hash, actions: seq<Action>, id: string)
    requires id in Reached(hash, actions).jobs
    ensures var st := Reached(hash, actions);
            var job := st.jobs[id];
            && job.sessionId in st.sessions
            && (job.status == J.Completed ==> ReadyWith(st.sessions[job.sessionId], job.versionId))
            && (job.status == J.Cancelled ==> st.sessions[job.sessionId].status == S.Cancelled)
  {
    ReachedOk(hash, actions);
    JobStored(hash, Reached(hash, actions), id);
  }

  /** Within a user's card every display version parses and is used once. */
  lemma DisplaysAreUnique(hash: Hash, actions: seq<Action>, a: string, b: string)
    requires a in Reached(hash, actions).versions && b in Reached(hash, actions).versions
    ensures var va, vb := Reached(hash, actions).versions[a], Reached(hash, actions).versions[b];
            && D.Parses(va.display)
            && (SameCard(va, vb.userId, vb.cardId) && va.display == vb.display ==> a == b)
  {
    ReachedOk(hash, actions);
    var st := Reached(hash, actions);
    assert VersionFits(st, st.versions[a]);
    assert SameDisplay(st.versions, a, b) ==> a == b;
  }

  /** A version made from a base belongs to the same card and is numbered above it. */
  lemma IterationsGoUp(hash: Hash, actions: seq<Action>, v: string)
    requires v in Reached(hash, actions).versions
    ensures var st := Reached(hash, actions);
            && v in st.publishers && st.publishers[v] in st.jobs && SessionOf(st, v) in st.sessions
            && var s := st.sessions[SessionOf(st, v)];
               s.baseCardId != "" ==>
                 && s.baseVersionId in st.versions && s.baseVersionId != v
                 && st.versions[s.baseVersionId].cardId == st.versions[v].cardId
                 && D.Parses(st.versions[s.baseVersionId].display) && D.Parses(st.versions[v].display)
                 && D.Below(D.Parsed(st.versions[s.baseVersionId].display), D.Parsed(st.versions[v].display))
  {
    ReachedOk(hash, actions);
    var st := Reached(hash, actions);
    assert VersionFits(st, st.versions[v]);
    var jobId := st.publishers[v];
    JobStored(hash, st, jobId);
    SessionStored(hash, st, st.jobs[jobId].sessionId);
  }

  function CauseOf(pc: Pc): Option<Cause>
  {
    match pc
    case Retrying(cause) => Some(cause)
    case MarkingFailed(_, cause) => Some(cause)
    case Failing(cause) => Some(cause)
    case Stopped(outcome) => outcome
    case _ => None
  }

  /** The worker's four defensive failures never happen. */
  lemma DefensiveFailuresNeverHappen(hash: Hash, actions: seq<Action>, handle: nat)
    requires handle in Pipeline.After(hash, EMPTY, actions).runs
    ensures var cause := CauseOf(Pipeline.After(hash, EMPTY, actions).runs[handle].pc);
            && cause != Some(SnapshotMissing) && cause != Some(IdentityInvalid)
            && cause != Some(ReadyMismatch) && cause != Some(ReadyMissing)
  {
    ReachedOk(hash, actions);
    var sys := Pipeline.After(hash, EMPTY, actions);
    assert RunFits(sys.store, sys.runs[handle]);
  }

  /** The model is asked at most nine times for a job, all within its three attempts. */
  lemma ModelCallsAreBounded(hash: Hash, actions: seq<Action>, id: string)
    ensures var st := Reached(hash, actions);
            && CallsAt(st, id, 1) + CallsAt(st, id, 2) + CallsAt(st, id, 3) <= 9
            && forall key :: key in st.modelCalls && key.0 == id ==> 1 <= key.1 <= 3
  {
    ReachedOk(hash, actions);
    var st := Reached(hash, actions);
    forall key | key in st.modelCalls && key.0 == id ensures 1 <= key.1 <= 3 {
      assert AttemptMade(st, key.0, key.1);
      JobStored(hash, st, id);
    }
    assert forall n :: 1 <= n <= 3 ==> CallsAt(st, id, n) <= 3 by {
      forall n | 1 <= n <= 3 ensures CallsAt(st, id, n) <= 3 {
        if (id, n) in st.modelCalls {
          assert st.modelCalls[(id, n)] <= A.MAX_MODEL_ATTEMPTS;
        }
      }
    }
  }
}
