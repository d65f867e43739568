/** The invariant of the whole system, and what it says about every run of any number of workers. */
module PipelineSystem {
  import opened Prelude
  import opened P = PublishModel
  import opened Pipeline
  import opened PipelineInvariant
  import opened PipelineRuns
  import opened PipelineSteps
  import opened PipelineSafety
  import opened PipelineCalls
  import S = SessionModel
  import J = JobModel
  import A = ModelAttempts

  predicate SameAttempt(runs: map<nat, Run>, g: nat, h: nat)
  {
    g in runs && h in runs && runs[g].job.id == runs[h].job.id && runs[g].job.attempts == runs[h].job.attempts
  }

  /** No two runs share an attempt at a job. */
  ghost predicate OneRunPerAttempt(runs: map<nat, Run>)
  {
    forall g, h :: SameAttempt(runs, g, h) ==> g == h
  }

  ghost predicate RunsFit(st: Store, runs: map<nat, Run>)
  {
    forall h {:trigger RunFits(st, runs[h])} :: h in runs ==> RunFits(st, runs[h]) && NotYetAsked(st, runs[h])
  }

  ghost predicate ClientsFit(st: Store, clients: map<nat, Client>)
  {
    forall c {:trigger ClientFits(st, clients[c])} :: c in clients ==> ClientFits(st, clients[c])
  }

  ghost predicate SystemOk(hash: Hash, sys: System)
  {
    && StoreOk(hash, sys.store)
    && RunsFit(sys.store, sys.runs) && OneRunPerAttempt(sys.runs)
    && ClientsFit(sys.store, sys.clients)
  }

  // ----- what one participant does leaves the others in order -----

  lemma RunsStay(a: Store, b: Store, runs: map<nat, Run>)
    requires Evolves(a, b) && RunsFit(a, runs) && b.modelCalls == a.modelCalls
    ensures RunsFit(b, runs)
  {
    forall h | h in runs ensures RunFits(b, runs[h]) && NotYetAsked(b, runs[h]) {
      assert RunFits(a, runs[h]);
      RunFitsStays(a, b, runs[h]);
    }
  }

  lemma ClientsStay(a: Store, b: Store, clients: map<nat, Client>)
    requires Evolves(a, b) && ClientsFit(a, clients)
    ensures ClientsFit(b, clients)
  {
    forall c | c in clients ensures ClientFits(b, clients[c]) {
      assert ClientFits(a, clients[c]);
      ClientFitsStays(a, b, clients[c]);
    }
  }

  lemma ClientPut(st: Store, clients: map<nat, Client>, handle: nat, client: Client)
    requires ClientsFit(st, clients) && ClientFits(st, client)
    ensures ClientsFit(st, clients[handle := client])
  {
    var after := clients[handle := client];
    forall c | c in after ensures ClientFits(st, after[c]) {
      assert c != handle ==> ClientFits(st, clients[c]);
    }
  }

  /** A step of the stores alone, or of one client over them. */
  lemma StoreMoves(hash: Hash, sys: System, after: Store)
    requires SystemOk(hash, sys) && Keeps(hash, sys.store, after)
    ensures SystemOk(hash, sys.(store := after))
  {
    RunsStay(sys.store, after, sys.runs);
    ClientsStay(sys.store, after, sys.clients);
  }

  lemma ClientMoves(hash: Hash, sys: System, after: Store, handle: nat, client: Client)
    requires SystemOk(hash, sys) && Keeps(hash, sys.store, after) && ClientFits(after, client)
    ensures SystemOk(hash, System(after, sys.runs, sys.clients[handle := client]))
  {
    RunsStay(sys.store, after, sys.runs);
    ClientsStay(sys.store, after, sys.clients);
    ClientPut(after, sys.clients, handle, client);
  }

  // ----- a step of a run -----

  /** Only this run's attempt is entered in the record of model calls. */
  lemma OthersNotAsked(a: Store, b: Store, runs: map<nat, Run>, handle: nat, h: nat, n: nat)
    requires handle in runs && h in runs && h != handle && OneRunPerAttempt(runs) && NotYetAsked(a, runs[h])
    requires b.modelCalls == a.modelCalls
             || b.modelCalls == a.modelCalls[(runs[handle].job.id, runs[handle].job.attempts) := n]
    ensures NotYetAsked(b, runs[h])
  {
    assert !SameAttempt(runs, handle, h);
  }

  lemma CallsRecorded(hash: Hash, st: Store, run: Run, env: Env, fault: Fault)
    requires run.pc.Generating? && NotYetAsked(st, run)
    ensures var after := StepRun(hash, st, run, env, fault).0;
            after.modelCalls == st.modelCalls
            || after.modelCalls == st.modelCalls[(run.job.id, run.job.attempts) := A.CallsBy(env.agent)]
  {
    assert Effect(hash, st, run, env) == Generate(st, run, env);
  }

  /** The other runs rely on nothing this one touched. */
  lemma OthersStay(hash: Hash, st: Store, runs: map<nat, Run>, handle: nat, env: Env, fault: Fault)
    requires StoreOk(hash, st) && RunsFit(st, runs) && OneRunPerAttempt(runs) && handle in runs && EnvFits(st, env)
    ensures var (after, run) := StepRun(hash, st, runs[handle], env, fault);
            forall h :: h in runs && h != handle ==> RunFits(after, runs[h]) && NotYetAsked(after, runs[h])
  {
    var was := runs[handle];
    assert RunFits(st, was);
    var (after, run) := StepRun(hash, st, was, env, fault);
    StepAdvances(hash, st, was, env, fault);
    if was.pc.Generating? {
      CallsRecorded(hash, st, was, env, fault);
    }
    forall h | h in runs && h != handle ensures RunFits(after, runs[h]) && NotYetAsked(after, runs[h]) {
      assert RunFits(st, runs[h]);
      RunFitsStays(st, after, runs[h]);
      OthersNotAsked(st, after, runs, handle, h, A.CallsBy(env.agent));
    }
  }

  lemma SameRuns(runs: map<nat, Run>, handle: nat, run: Run)
    requires OneRunPerAttempt(runs) && handle in runs && run.job == runs[handle].job
    ensures OneRunPerAttempt(runs[handle := run])
  {
    var after := runs[handle := run];
    forall g, h | SameAttempt(after, g, h) ensures g == h {
      assert SameAttempt(runs, g, h);
    }
  }

  lemma RunPut(st: Store, runs: map<nat, Run>, handle: nat, run: Run)
    requires handle in runs && RunFits(st, run) && NotYetAsked(st, run)
    requires forall h :: h in runs && h != handle ==> RunFits(st, runs[h]) && NotYetAsked(st, runs[h])
    ensures RunsFit(st, runs[handle := run])
  {
  }

  lemma RunMoves(hash: Hash, sys: System, handle: nat, env: Env, fault: Fault)
    requires SystemOk(hash, sys) && handle in sys.runs && EnvFits(sys.store, env)
    ensures var (after, run) := StepRun(hash, sys.store, sys.runs[handle], env, fault);
            Evolves(sys.store, after) && SystemOk(hash, sys.(store := after, runs := sys.runs[handle := run]))
  {
    var st, was := sys.store, sys.runs[handle];
    assert RunFits(st, was);
    var (after, run) := StepRun(hash, st, was, env, fault);
    StepAdvances(hash, st, was, env, fault);
    OthersStay(hash, st, sys.runs, handle, env, fault);
    RunPut(after, sys.runs, handle, run);
    SameRuns(sys.runs, handle, run);
    ClientsStay(st, after, sys.clients);
  }

  // ----- claims and clients -----

  lemma ClaimMoves(hash: Hash, sys: System, handle: nat, worker: string, at: Time, lease: int, lost: bool)
    requires SystemOk(hash, sys) && handle !in sys.runs
    ensures var next := Next(hash, sys, ClaimStep(handle, worker, at, lease, lost));
            Evolves(sys.store, next.store) && SystemOk(hash, next)
  {
    var st := sys.store;
    var (jobs, claimed) := J.Claim(st.jobs, worker, at, lease);
    var after := st.(jobs := jobs);
    ClaimKeeps(hash, st, worker, at, lease);
    StoreMoves(hash, sys, after);
    if claimed.Ok? && !lost {
      var run := Run(worker, at, claimed.value, Loading);
      ClaimedRun(hash, st, run, worker, at, lease);
      RunAdded(hash, sys.(store := after), handle, run, st);
    }
  }

  /** The claim raised the job's attempts, so nothing has happened yet under the new number. */
  lemma ClaimedRun(hash: Hash, st: Store, run: Run, worker: string, at: Time, lease: int)
    requires StoreOk(hash, st) && J.Claim(st.jobs, worker, at, lease).1 == Ok(run.job) && run.pc == Loading
    ensures RunFits(st.(jobs := J.Claim(st.jobs, worker, at, lease).0), run)
    ensures run.job.id in st.jobs && run.job.attempts == st.jobs[run.job.id].attempts + 1
  {
    var id := J.Winner(st.jobs, at).value;
    assert J.IsWinner(st.jobs, at, id);
    JobStored(hash, st, id);
  }

  lemma RunAdded(hash: Hash, sys: System, handle: nat, run: Run, before: Store)
    requires SystemOk(hash, sys) && handle !in sys.runs && RunFits(sys.store, run)
    requires StoreOk(hash, before) && RunsFit(before, sys.runs) && before.modelCalls == sys.store.modelCalls
    requires run.job.id in before.jobs && run.job.attempts == before.jobs[run.job.id].attempts + 1
    ensures SystemOk(hash, sys.(runs := sys.runs[handle := run]))
  {
    var runs := sys.runs[handle := run];
    assert !AttemptMade(before, run.job.id, run.job.attempts);
    forall h | h in runs ensures RunFits(sys.store, runs[h]) && NotYetAsked(sys.store, runs[h]) {
      assert h != handle ==> RunFits(sys.store, sys.runs[h]);
    }
    forall g, h | SameAttempt(runs, g, h) ensures g == h {
      if g != h {
        var other := if g == handle then h else g;
        assert RunFits(before, sys.runs[other]);
        assert SameAttempt(sys.runs, g, h);
      }
    }
  }

  lemma OpenMoves(hash: Hash, sys: System, action: Action)
    requires SystemOk(hash, sys) && action.OpenStep? && Enabled(sys, action)
    ensures Next(hash, sys, action).store == sys.store && SystemOk(hash, Next(hash, sys, action))
  {
    var created := S.Opened(action.newId, action.userId, action.prompt, action.target, action.locale,
                            action.baseCard, action.baseVersion, action.at);
    if created.Ok? {
      S.OpenedResumable(action.newId, action.userId, action.prompt, action.target, action.locale,
                        action.baseCard, action.baseVersion, action.at);
      var client := Inserting(created.value);
      if BaseOwned(sys.store, created.value) {
        ClientPut(sys.store, sys.clients, action.handle, client);
      }
    }
  }

  lemma InsertMoves(hash: Hash, sys: System, handle: nat)
    requires SystemOk(hash, sys) && Enabled(sys, InsertStep(handle))
    ensures var next := Next(hash, sys, InsertStep(handle)); Evolves(sys.store, next.store) && SystemOk(hash, next)
  {
    var s := sys.clients[handle].session;
    assert ClientFits(sys.store, sys.clients[handle]);
    var after := Next(hash, sys, InsertStep(handle)).store;
    EvolvesReflexive(sys.store);
    if s.id !in sys.store.sessions {
      InsertKeeps(hash, sys.store, s);
    }
    ClientMoves(hash, sys, after, handle, Idle);
  }

  lemma ConfirmedThere(s: S.Session, at: Time)
    requires S.Change(s, S.ConfirmCall(at)).Ok?
    ensures S.Change(s, S.ConfirmCall(at)).value.confirmed.Some?
  {
  }

  lemma CancelledThere(s: S.Session, at: Time)
    requires S.Change(s, S.CancelCall(at)).Ok?
    ensures S.Change(s, S.CancelCall(at)).value.status == S.Cancelled
  {
  }

  lemma ConfirmMoves(hash: Hash, sys: System, action: Action)
    requires SystemOk(hash, sys) && action.ConfirmStep? && Enabled(sys, action)
    ensures Evolves(sys.store, Next(hash, sys, action).store) && SystemOk(hash, Next(hash, sys, action))
  {
    var st, id := sys.store, action.sessionId;
    EvolvesReflexive(st);
    var (after, confirmed) := UpdateOwned(st, action.userId, id, S.ConfirmCall(action.at));
    OwnedKeeps(hash, st, action.userId, id, S.ConfirmCall(action.at));
    if confirmed.Ok? {
      ConfirmedThere(st.sessions[id], action.at);
      if action.atomic {
        EnqueueKeeps(hash, after, action.jobId, id, action.at);
        EvolvesTransitive(st, after, EnqueueJob(after, action.jobId, id, action.at));
        StoreMoves(hash, sys, EnqueueJob(after, action.jobId, id, action.at));
      } else {
        ClientMoves(hash, sys, after, action.handle, Enqueueing(id, action.at));
      }
    }
  }

  lemma EnqueueMoves(hash: Hash, sys: System, action: Action)
    requires SystemOk(hash, sys) && action.EnqueueStep? && Enabled(sys, action)
    ensures Evolves(sys.store, Next(hash, sys, action).store) && SystemOk(hash, Next(hash, sys, action))
  {
    var client := sys.clients[action.handle];
    assert ClientFits(sys.store, client);
    EvolvesReflexive(sys.store);
    EnqueueKeeps(hash, sys.store, action.jobId, client.sessionId, client.at);
    var next := Next(hash, sys, action);
    var then_ := if action.fault == NoFault then Idle else QueueDown(client.sessionId);
    assert Keeps(hash, sys.store, next.store);
    assert ClientFits(next.store, then_);
    ClientMoves(hash, sys, next.store, action.handle, then_);
  }

  lemma QueueDownMoves(hash: Hash, sys: System, action: Action)
    requires SystemOk(hash, sys) && action.QueueDownStep? && Enabled(sys, action)
    ensures Evolves(sys.store, Next(hash, sys, action).store) && SystemOk(hash, Next(hash, sys, action))
  {
    var call := S.MarkFailedCall("JOB_ENQUEUE_FAILED", action.at);
    UpdateKeeps(hash, sys.store, sys.clients[action.handle].sessionId, call);
    ClientMoves(hash, sys, UpdateSession(sys.store, sys.clients[action.handle].sessionId, call).0, action.handle, Idle);
  }

  lemma CancelMoves(hash: Hash, sys: System, action: Action)
    requires SystemOk(hash, sys) && action.CancelStep? && Enabled(sys, action)
    ensures Evolves(sys.store, Next(hash, sys, action).store) && SystemOk(hash, Next(hash, sys, action))
  {
    var st, id, call := sys.store, action.sessionId, S.CancelCall(action.at);
    EvolvesReflexive(st);
    OwnedKeeps(hash, st, action.userId, id, call);
    var (after, cancelled) := UpdateOwned(st, action.userId, id, call);
    if cancelled.Ok? {
      CancelledThere(st.sessions[id], action.at);
      ClientMoves(hash, sys, after, action.handle, CancellingJob(id));
    }
  }

  lemma CancelJobMoves(hash: Hash, sys: System, action: Action)
    requires SystemOk(hash, sys) && action.CancelJobStep? && Enabled(sys, action)
    ensures Evolves(sys.store, Next(hash, sys, action).store) && SystemOk(hash, Next(hash, sys, action))
  {
    var st, id := sys.store, sys.clients[action.handle].sessionId;
    assert ClientFits(st, sys.clients[action.handle]);
    CancelKeeps(hash, st, id, action.at);
    ClientMoves(hash, sys, st.(jobs := J.Cancel(st.jobs, st.index, id, action.at)), action.handle, Idle);
  }

  lemma BeatMoves(hash: Hash, sys: System, handle: nat, at: Time, lease: int)
    requires SystemOk(hash, sys) && handle in sys.runs
    ensures var next := Next(hash, sys, BeatStep(handle, at, lease));
            Evolves(sys.store, next.store) && SystemOk(hash, next)
  {
    assert RunFits(sys.store, sys.runs[handle]);
    BeatKeeps(hash, sys.store, sys.runs[handle], at, lease);
    StoreMoves(hash, sys, Next(hash, sys, BeatStep(handle, at, lease)).store);
  }

  lemma MessageMoves(hash: Hash, sys: System, userId: string, id: string, content: string, at: Time)
    requires SystemOk(hash, sys)
    ensures var next := sys.(store := UpdateOwned(sys.store, userId, id, S.AddMessageCall(content, at)).0);
            Evolves(sys.store, next.store) && SystemOk(hash, next)
  {
    OwnedKeeps(hash, sys.store, userId, id, S.AddMessageCall(content, at));
    StoreMoves(hash, sys, UpdateOwned(sys.store, userId, id, S.AddMessageCall(content, at)).0);
  }

  /** Every step of every participant keeps the invariant and undoes nothing. */
  lemma NextKeeps(hash: Hash, sys: System, action: Action)
    requires SystemOk(hash, sys) && Enabled(sys, action)
    ensures SystemOk(hash, Next(hash, sys, action)) && Evolves(sys.store, Next(hash, sys, action).store)
  {
    match action
    case ClaimStep(handle, worker, at, lease, lost) => ClaimMoves(hash, sys, handle, worker, at, lease, lost);
    case WorkStep(handle, env, fault) => RunMoves(hash, sys, handle, env, fault);
    case BeatStep(handle, at, lease) => BeatMoves(hash, sys, handle, at, lease);
    case OpenStep(_, _, _, _, _, _, _, _, _) => EvolvesReflexive(sys.store); OpenMoves(hash, sys, action);
    case InsertStep(handle) => InsertMoves(hash, sys, handle);
    case MessageStep(userId, id, content, at) => MessageMoves(hash, sys, userId, id, content, at);
    case ConfirmStep(_, _, _, _, _, _) => ConfirmMoves(hash, sys, action);
    case EnqueueStep(_, _, _) => EnqueueMoves(hash, sys, action);
    case QueueDownStep(_, _) => QueueDownMoves(hash, sys, action);
    case CancelStep(_, _, _, _) => CancelMoves(hash, sys, action);
    case CancelJobStep(_, _) => CancelJobMoves(hash, sys, action);
  }

  lemma EmptyOk(hash: Hash)
    ensures SystemOk(hash, EMPTY)
  {
  }

  /** Every state any run can reach satisfies the invariant; later states undo nothing of earlier ones. */
  lemma {:induction false} ReachableOk(hash: Hash, sys: System, actions: seq<Action>)
    requires SystemOk(hash, sys)
    ensures SystemOk(hash, Pipeline.After(hash, sys, actions))
    ensures Evolves(sys.store, Pipeline.After(hash, sys, actions).store)
    decreases |actions|
  {
    if actions == [] {
      EvolvesReflexive(sys.store);
    } else {
      var next := if Enabled(sys, actions[0]) then Next(hash, sys, actions[0]) else sys;
      if Enabled(sys, actions[0]) {
        NextKeeps(hash, sys, actions[0]);
      } else {
        EvolvesReflexive(sys.store);
      }
      ReachableOk(hash, next, actions[1..]);
      EvolvesTransitive(sys.store, next.store, Pipeline.After(hash, next, actions[1..]).store);
    }
  }
}
