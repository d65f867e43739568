/**
 When every new card id is really new, the card of a first version belongs to its job alone, so its
 display version "1.0.0" is always free.
 */
module PipelineCardIds {
  import opened Prelude
  import opened P = PublishModel
  import opened Pipeline
  import opened PipelineInvariant
  import opened PipelineRuns
  import opened PipelineSteps
  import opened PipelineSafety
  import opened PipelineCalls
  import opened PipelineSystem
  import PipelineArchives
  import PipelineTheorems
  import S = SessionModel
  import J = JobModel

  /** The job has reserved a card of its own, not one of a base. */
  predicate OwnsCard(st: Store, jobId: string)
  {
    && jobId in st.jobs && st.jobs[jobId].cardId != "" && st.jobs[jobId].sessionId in st.sessions
    && st.sessions[st.jobs[jobId].sessionId].baseCardId == ""
  }

  predicate SameOwnCard(st: Store, a: string, b: string)
  {
    OwnsCard(st, a) && OwnsCard(st, b) && st.jobs[a].cardId == st.jobs[b].cardId
  }

  /** No two jobs own a card, and nothing is published on an owned card before the job's own version. */
  ghost predicate CardsOwned(st: Store)
  {
    && (forall a, b :: SameOwnCard(st, a, b) ==> a == b)
    && (forall a, v :: OwnsCard(st, a) && v in st.versions && st.versions[v].cardId == st.jobs[a].cardId ==>
          st.jobs[a].versionId in st.versions)
  }

  predicate NewCard(st: Store, card: string)
  {
    forall id :: id in st.jobs && st.jobs[id].cardId != "" ==> st.jobs[id].cardId != card
  }

  /** Whenever a run is about to reserve, the card id it draws is new. */
  ghost predicate NewCards(hash: Hash, sys: System, actions: seq<Action>)
    decreases |actions|
  {
    actions == []
    || (if Enabled(sys, actions[0]) then
         (actions[0].WorkStep? ==> NewCard(sys.store, actions[0].env.newCard))
         && NewCards(hash, Next(hash, sys, actions[0]), actions[1..])
       else NewCards(hash, sys, actions[1..]))
  }

  // ----- steps that reserve and publish nothing -----

  predicate SamePair(a: J.Job, b: J.Job)
  {
    a.cardId == b.cardId && a.versionId == b.versionId && a.sessionId == b.sessionId
  }

  ghost predicate PairsKept(a: J.Jobs, b: J.Jobs)
  {
    forall id :: id in b ==> (id in a && SamePair(a[id], b[id])) || b[id].cardId == ""
  }

  lemma OwnedBefore(a: Store, b: Store, jobId: string)
    requires Evolves(a, b) && JobsFit(a) && OwnsCard(b, jobId)
    requires jobId in a.jobs && SamePair(a.jobs[jobId], b.jobs[jobId])
    ensures OwnsCard(a, jobId)
  {
    assert JobFits(a, a.jobs[jobId]);
    assert S.Follows(a.sessions[a.jobs[jobId].sessionId], b.sessions[b.jobs[jobId].sessionId]);
  }

  lemma KeptOwned(a: Store, b: Store)
    requires Evolves(a, b) && JobsFit(a) && CardsOwned(a) && PairsKept(a.jobs, b.jobs) && b.versions == a.versions
    ensures CardsOwned(b)
  {
    forall x, y | SameOwnCard(b, x, y) ensures x == y {
      OwnedBefore(a, b, x);
      OwnedBefore(a, b, y);
      assert SameOwnCard(a, x, y);
    }
    forall x, v | OwnsCard(b, x) && v in b.versions && b.versions[v].cardId == b.jobs[x].cardId
      ensures b.jobs[x].versionId in b.versions
    {
      OwnedBefore(a, b, x);
    }
  }

  lemma ClaimPairs(jobs: J.Jobs, worker: string, at: Time, lease: int)
    requires J.Keyed(jobs)
    ensures PairsKept(jobs, J.Claim(jobs, worker, at, lease).0)
  {
    forall id | id in jobs ensures SamePair(jobs[id], J.Claim(jobs, worker, at, lease).0[id]) {
      ClaimRow(jobs, worker, at, lease, id);
    }
  }

  lemma ClientPairs(hash: Hash, sys: System, action: Action)
    requires Enabled(sys, action) && (action.ConfirmStep? || action.EnqueueStep? || action.CancelJobStep?)
    ensures PairsKept(sys.store.jobs, Next(hash, sys, action).store.jobs)
    ensures Next(hash, sys, action).store.versions == sys.store.versions
  {
  }

  lemma SessionPairs(hash: Hash, sys: System, action: Action)
    requires Enabled(sys, action) && !action.WorkStep? && !action.ClaimStep? && !action.BeatStep?
    requires !action.ConfirmStep? && !action.EnqueueStep? && !action.CancelJobStep?
    ensures Next(hash, sys, action).store.jobs == sys.store.jobs
    ensures Next(hash, sys, action).store.versions == sys.store.versions
  {
  }

  lemma OtherPairs(hash: Hash, sys: System, action: Action)
    requires SystemOk(hash, sys) && Enabled(sys, action) && !action.WorkStep?
    ensures PairsKept(sys.store.jobs, Next(hash, sys, action).store.jobs)
    ensures Next(hash, sys, action).store.versions == sys.store.versions
  {
    if action.ClaimStep? {
      ClaimPairs(sys.store.jobs, action.worker, action.at, action.lease);
    } else if action.BeatStep? {
    } else if action.ConfirmStep? || action.EnqueueStep? || action.CancelJobStep? {
      ClientPairs(hash, sys, action);
    } else {
      SessionPairs(hash, sys, action);
    }
  }

  lemma SessionCallPairs(hash: Hash, st: Store, run: Run, env: Env)
    requires run.pc.Starting? || run.pc.StartingValidation? || run.pc.MarkingReady?
    ensures Effect(hash, st, run, env).0.jobs == st.jobs
  {
    match run.pc
    case Starting => assert Effect(hash, st, run, env) == Start(st, run, env);
    case StartingValidation(_, _, _) => assert Effect(hash, st, run, env) == StartValidation(st, run, env);
    case MarkingReady(_, _, _) => assert Effect(hash, st, run, env) == MarkReady(st, run, env);
  }

  lemma PublishPairs(hash: Hash, st: Store, run: Run, env: Env)
    requires run.pc.Generating? || run.pc.Putting? || run.pc.Creating?
    ensures Effect(hash, st, run, env).0.jobs == st.jobs
  {
    match run.pc
    case Generating(_, _, _) => assert Effect(hash, st, run, env) == Generate(st, run, env);
    case Putting(_, _, _, _) => assert Effect(hash, st, run, env) == Put(hash, st, run, env);
    case Creating(_, _, _, _) => assert Effect(hash, st, run, env) == CreateVersion(st, run);
  }

  lemma EndPairs(hash: Hash, st: Store, run: Run, env: Env)
    requires run.pc.Completing? || run.pc.Retrying? || run.pc.Failing?
    ensures PairsKept(st.jobs, Effect(hash, st, run, env).0.jobs)
  {
    if run.pc.Completing? {
      assert Effect(hash, st, run, env) == Complete(st, run, env);
    }
  }

  lemma WorkPairs(hash: Hash, st: Store, run: Run, env: Env)
    requires !run.pc.Reserving?
    ensures PairsKept(st.jobs, Effect(hash, st, run, env).0.jobs)
  {
    if run.pc.Starting? || run.pc.StartingValidation? || run.pc.MarkingReady? {
      SessionCallPairs(hash, st, run, env);
    } else if run.pc.Generating? || run.pc.Putting? || run.pc.Creating? {
      PublishPairs(hash, st, run, env);
    } else if run.pc.Completing? || run.pc.Retrying? || run.pc.Failing? {
      EndPairs(hash, st, run, env);
    }
  }

  // ----- reserving and publishing -----

  lemma VersionCard(hash: Hash, st: Store, v: string)
    requires StoreOk(hash, st) && v in st.versions
    ensures v in st.publishers && st.publishers[v] in st.jobs && st.versions[v].versionId == v
    ensures st.jobs[st.publishers[v]].cardId == st.versions[v].cardId != ""
    ensures st.jobs[st.publishers[v]].versionId == v
  {
    assert VersionFits(st, st.versions[v]);
    JobStored(hash, st, st.publishers[v]);
  }

  /** A card id that no job has reserved carries no version. */
  lemma NewCardEmpty(hash: Hash, st: Store, card: string, v: string)
    requires StoreOk(hash, st) && NewCard(st, card) && v in st.versions
    ensures st.versions[v].cardId != card
  {
    VersionCard(hash, st, v);
  }

  /** The run's job keeps its pair or gets one, on its base's card or on a new card. */
  ghost predicate PairMade(a: Store, b: Store, jobId: string, card: string)
  {
    && jobId in a.jobs && jobId in b.jobs && b.versions == a.versions && b.sessions == a.sessions
    && (forall id :: id in b.jobs && id != jobId ==> id in a.jobs && b.jobs[id] == a.jobs[id])
    && b.jobs[jobId].sessionId == a.jobs[jobId].sessionId
    && (SamePair(a.jobs[jobId], b.jobs[jobId]) || b.jobs[jobId].cardId == card)
  }

  lemma MadeOwned(hash: Hash, a: Store, b: Store, jobId: string, card: string)
    requires StoreOk(hash, a) && CardsOwned(a) && PairMade(a, b, jobId, card)
    requires OwnsCard(b, jobId) ==> NewCard(a, card)
    ensures CardsOwned(b)
  {
    forall x, y | SameOwnCard(b, x, y) ensures x == y {
      assert x != jobId ==> OwnsCard(a, x);
      assert y != jobId ==> OwnsCard(a, y);
      if (x != jobId && y != jobId) || SamePair(a.jobs[jobId], b.jobs[jobId]) {
        assert SameOwnCard(a, x, y);
      }
    }
    forall x, v | OwnsCard(b, x) && v in b.versions && b.versions[v].cardId == b.jobs[x].cardId
      ensures b.jobs[x].versionId in b.versions
    {
      if SamePair(a.jobs[x], b.jobs[x]) {
        assert OwnsCard(a, x);
      } else {
        NewCardEmpty(hash, a, card, v);
      }
    }
  }

  lemma ReservePairs(hash: Hash, st: Store, run: Run, env: Env)
    requires RunFits(st, run) && run.pc.Reserving?
    ensures var s := run.pc.session;
            PairMade(st, Reserve(st, run, env).0, run.job.id,
              if HasBase(s) then s.confirmed.value.baseCardId else env.newCard)
  {
  }

  lemma ReserveOwned(hash: Hash, st: Store, run: Run, env: Env)
    requires StoreOk(hash, st) && RunFits(st, run) && run.pc.Reserving? && NewCard(st, env.newCard) && CardsOwned(st)
    ensures CardsOwned(Reserve(st, run, env).0)
  {
    var s := run.pc.session;
    BaseFromSnapshot(s);
    ReservePairs(hash, st, run, env);
    MadeOwned(hash, st, Reserve(st, run, env).0, run.job.id,
              if HasBase(s) then s.confirmed.value.baseCardId else env.newCard);
  }

  /** On the card of a base something is published already, so it is not an owned card without versions. */
  lemma BaseCardUsed(hash: Hash, st: Store, run: Run, s: S.Session, publication: J.Publication, x: string)
    requires StoreOk(hash, st) && JobKnown(st, run) && SessionKnown(st, run, s) && Reserved(st, run, publication)
    requires CardsOwned(st) && OwnsCard(st, x) && st.jobs[x].cardId == publication.cardId && x != run.job.id
    ensures st.jobs[x].versionId in st.versions
  {
    JobStored(hash, st, run.job.id);
    IdentityHolds(hash, st, run, publication);
    assert !SameOwnCard(st, x, run.job.id);
    assert BaseOwned(st, s);
    assert st.versions[s.baseVersionId].cardId == st.jobs[x].cardId;
  }

  /** A version goes to the card of its job. */
  lemma CreateOwned(hash: Hash, st: Store, run: Run)
    requires StoreOk(hash, st) && RunFits(st, run) && run.pc.Creating? && CardsOwned(st)
    ensures CardsOwned(CreateVersion(st, run).0)
  {
    var b := CreateVersion(st, run).0;
    forall x, y | SameOwnCard(b, x, y) ensures x == y {
      assert SameOwnCard(st, x, y);
    }
    forall x, v | OwnsCard(b, x) && v in b.versions && b.versions[v].cardId == b.jobs[x].cardId
      ensures b.jobs[x].versionId in b.versions
    {
      assert OwnsCard(st, x);
      if v !in st.versions && x != run.job.id {
        BaseCardUsed(hash, st, run, run.pc.session, run.pc.publication, x);
      }
    }
  }

  // ----- any step, and any run of them -----

  lemma EffectOwned(hash: Hash, st: Store, run: Run, env: Env)
    requires StoreOk(hash, st) && RunFits(st, run) && NewCard(st, env.newCard) && CardsOwned(st)
    requires Evolves(st, Effect(hash, st, run, env).0)
    ensures CardsOwned(Effect(hash, st, run, env).0)
  {
    if run.pc.Reserving? {
      assert Effect(hash, st, run, env) == Reserve(st, run, env);
      ReserveOwned(hash, st, run, env);
    } else if run.pc.Creating? {
      assert Effect(hash, st, run, env) == CreateVersion(st, run);
      CreateOwned(hash, st, run);
    } else {
      WorkPairs(hash, st, run, env);
      PipelineArchives.VersionsLeft(hash, st, run, env);
      KeptOwned(st, Effect(hash, st, run, env).0);
    }
  }

  lemma WorkOwned(hash: Hash, sys: System, action: Action)
    requires SystemOk(hash, sys) && Enabled(sys, action) && action.WorkStep?
    requires CardsOwned(sys.store) && NewCard(sys.store, action.env.newCard)
    ensures CardsOwned(Next(hash, sys, action).store)
  {
    var run := sys.runs[action.handle];
    assert RunFits(sys.store, run);
    EffectAdvances(hash, sys.store, run, action.env);
    EffectOwned(hash, sys.store, run, action.env);
  }

  lemma {:induction false} RunOwned(hash: Hash, sys: System, actions: seq<Action>)
    requires SystemOk(hash, sys) && CardsOwned(sys.store) && NewCards(hash, sys, actions)
    ensures CardsOwned(Pipeline.After(hash, sys, actions).store)
    decreases |actions|
  {
    if actions != [] {
      if Enabled(sys, actions[0]) {
        var next := Next(hash, sys, actions[0]);
        NextKeeps(hash, sys, actions[0]);
        if actions[0].WorkStep? {
          WorkOwned(hash, sys, actions[0]);
        } else {
          OtherPairs(hash, sys, actions[0]);
          KeptOwned(sys.store, next.store);
        }
        RunOwned(hash, next, actions[1..]);
      } else {
        RunOwned(hash, sys, actions[1..]);
      }
    }
  }

  /** A job without a base publishes on a card of its own, where nothing stands before its version. */
  lemma FirstIsFree(hash: Hash, actions: seq<Action>, jobId: string, card: string)
    requires NewCards(hash, EMPTY, actions) && jobId in PipelineTheorems.Reached(hash, actions).jobs
    requires var st := PipelineTheorems.Reached(hash, actions);
             var job := st.jobs[jobId];
             && job.sessionId in st.sessions && st.sessions[job.sessionId].baseCardId == ""
             && if job.cardId == "" then NewCard(st, card) else card == job.cardId && job.versionId !in st.versions
    ensures forall v :: v in PipelineTheorems.Reached(hash, actions).versions ==>
              PipelineTheorems.Reached(hash, actions).versions[v].cardId != card
  {
    var st := PipelineTheorems.Reached(hash, actions);
    PipelineTheorems.ReachedOk(hash, actions);
    EmptyOk(hash);
    RunOwned(hash, EMPTY, actions);
    forall v | v in st.versions ensures st.versions[v].cardId != card {
      if st.jobs[jobId].cardId == "" {
        NewCardEmpty(hash, st, card, v);
      } else {
        assert OwnsCard(st, jobId);
      }
    }
  }
}
