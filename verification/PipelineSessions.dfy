/** Every session the pipeline ever holds keeps its snapshot, messages and events in order. */
module PipelineSessions {
  import opened Prelude
  import opened P = PublishModel
  import opened Pipeline
  import S = SessionModel

  ghost predicate Sound(sessions: map<string, S.Session>)
  {
    forall id {:trigger S.SessionOk(sessions[id])} :: id in sessions ==> S.SessionOk(sessions[id])
  }

  ghost predicate ClientsSound(clients: map<nat, Client>)
  {
    forall c :: c in clients && clients[c].Inserting? ==> S.SessionOk(clients[c].session)
  }

  lemma UpdateSound(st: Store, id: string, call: S.ServiceCall)
    requires Sound(st.sessions) && S.TimeOf(call) != S.ZERO_TIME
    ensures Sound(UpdateSession(st, id, call).0.sessions)
  {
    if id in st.sessions {
      assert S.SessionOk(st.sessions[id]);
      S.ChangeOk(st.sessions[id], call);
      var after := UpdateSession(st, id, call).0.sessions;
      forall x | x in after ensures S.SessionOk(after[x]) {
        assert x != id ==> S.SessionOk(st.sessions[x]);
      }
    }
  }

  predicate ChangesSession(pc: Pc)
  {
    pc.Starting? || pc.StartingValidation? || pc.MarkingReady? || pc.MarkingFailed?
  }

  function SessionCall(run: Run, at: Time): S.ServiceCall
    requires ChangesSession(run.pc)
  {
    match run.pc
    case Starting => S.StartGeneratingCall(at)
    case StartingValidation(_, _, _) => S.StartValidatingCall(at)
    case MarkingReady(_, _, versionId) => S.MarkReadyCall(versionId, at)
    case MarkingFailed(code, _) => S.MarkFailedCall(code, at)
  }

  function SessionChanged(run: Run): string
    requires ChangesSession(run.pc)
  {
    match run.pc
    case StartingValidation(s, _, _) => s.id
    case MarkingReady(s, _, _) => s.id
    case _ => run.job.sessionId
  }

  /** A run changes sessions only through the service's calls. */
  lemma EffectChanges(hash: Hash, st: Store, run: Run, env: Env)
    requires ChangesSession(run.pc)
    ensures Effect(hash, st, run, env).0 == UpdateSession(st, SessionChanged(run), SessionCall(run, env.at)).0
  {
    match run.pc
    case Starting => assert Effect(hash, st, run, env).0 == Start(st, run, env).0;
    case StartingValidation(_, _, _) => assert Effect(hash, st, run, env).0 == StartValidation(st, run, env).0;
    case MarkingReady(_, _, _) => assert Effect(hash, st, run, env).0 == MarkReady(st, run, env).0;
    case MarkingFailed(_, _) =>
  }

  lemma StoresLeave(hash: Hash, st: Store, run: Run, env: Env)
    requires run.pc.Reserving? || run.pc.Generating? || run.pc.Putting? || run.pc.Creating? || run.pc.Completing?
    ensures Effect(hash, st, run, env).0.sessions == st.sessions
  {
    match run.pc
    case Reserving(_) => assert Effect(hash, st, run, env) == Reserve(st, run, env);
    case Generating(_, _, _) => assert Effect(hash, st, run, env) == Generate(st, run, env);
    case Putting(_, _, _, _) => assert Effect(hash, st, run, env) == Put(hash, st, run, env);
    case Creating(_, _, _, _) => assert Effect(hash, st, run, env) == CreateVersion(st, run);
    case Completing(_, _) => assert Effect(hash, st, run, env) == Complete(st, run, env);
  }

  lemma EffectLeaves(hash: Hash, st: Store, run: Run, env: Env)
    requires !ChangesSession(run.pc)
    ensures Effect(hash, st, run, env).0.sessions == st.sessions
  {
    if run.pc.Reserving? || run.pc.Generating? || run.pc.Putting? || run.pc.Creating? || run.pc.Completing? {
      StoresLeave(hash, st, run, env);
    }
  }

  lemma StepSound(hash: Hash, st: Store, run: Run, env: Env, fault: Fault)
    requires Sound(st.sessions) && env.at != S.ZERO_TIME
    ensures Sound(StepRun(hash, st, run, env, fault).0.sessions)
  {
    var after := Effect(hash, st, run, env).0;
    assert Sound(after.sessions) by {
      if !ChangesSession(run.pc) {
        EffectLeaves(hash, st, run, env);
      } else {
        EffectChanges(hash, st, run, env);
        UpdateSound(st, SessionChanged(run), SessionCall(run, env.at));
      }
    }
  }

  lemma ClientSound(clients: map<nat, Client>, handle: nat, client: Client)
    requires ClientsSound(clients) && (client.Inserting? ==> S.SessionOk(client.session))
    ensures ClientsSound(clients[handle := client])
  {
  }

  lemma InsertSound(sessions: map<string, S.Session>, s: S.Session)
    requires Sound(sessions) && S.SessionOk(s)
    ensures Sound(sessions[s.id := s])
  {
    var after := sessions[s.id := s];
    forall x | x in after ensures S.SessionOk(after[x]) {
      assert x != s.id ==> S.SessionOk(sessions[x]);
    }
  }

  lemma NextSound(hash: Hash, sys: System, action: Action)
    requires Sound(sys.store.sessions) && ClientsSound(sys.clients) && Enabled(sys, action)
    ensures Sound(Next(hash, sys, action).store.sessions) && ClientsSound(Next(hash, sys, action).clients)
  {
    var st, next := sys.store, Next(hash, sys, action);
    match action
    case ClaimStep(_, _, _, _, _) =>
    case WorkStep(handle, env, fault) => StepSound(hash, st, sys.runs[handle], env, fault);
    case BeatStep(_, _, _) =>
    case OpenStep(handle, newId, userId, prompt, target, locale, baseCard, baseVersion, at) =>
      if next != sys {
        S.OpenedOk(newId, userId, prompt, target, locale, baseCard, baseVersion, at);
        ClientSound(sys.clients, handle, next.clients[handle]);
      }
    case InsertStep(handle) => InsertSound(st.sessions, sys.clients[handle].session);
    case MessageStep(_, id, content, at) => UpdateSound(st, id, S.AddMessageCall(content, at));
    case ConfirmStep(_, _, id, _, at, _) => UpdateSound(st, id, S.ConfirmCall(at));
    case EnqueueStep(_, _, _) =>
    case QueueDownStep(handle, at) =>
      UpdateSound(st, sys.clients[handle].sessionId, S.MarkFailedCall("JOB_ENQUEUE_FAILED", at));
    case CancelStep(_, _, id, at) => UpdateSound(st, id, S.CancelCall(at));
    case CancelJobStep(_, _) =>
  }

  lemma {:induction false} RunSound(hash: Hash, sys: System, actions: seq<Action>)
    requires Sound(sys.store.sessions) && ClientsSound(sys.clients)
    ensures Sound(Pipeline.After(hash, sys, actions).store.sessions)
    decreases |actions|
  {
    if actions != [] {
      if Enabled(sys, actions[0]) {
        NextSound(hash, sys, actions[0]);
        RunSound(hash, Next(hash, sys, actions[0]), actions[1..]);
      } else {
        RunSound(hash, sys, actions[1..]);
      }
    }
  }

  /** In every reachable state the snapshot is absent before queueing, and present and faithful after it. */
  lemma SnapshotsHold(hash: Hash, actions: seq<Action>, id: string)
    requires id in Pipeline.After(hash, EMPTY, actions).store.sessions
    ensures S.SessionOk(Pipeline.After(hash, EMPTY, actions).store.sessions[id])
  {
    RunSound(hash, EMPTY, actions);
  }

  /** Only its owner can add to a session, confirm it or cancel it. */
  lemma StrangersChangeNothing(hash: Hash, sys: System, action: Action)
    requires Enabled(sys, action) && (action.MessageStep? || action.ConfirmStep? || action.CancelStep?)
    requires action.sessionId in sys.store.sessions ==>
               sys.store.sessions[action.sessionId].userId != action.userId
    ensures Next(hash, sys, action) == sys
  {
    var call := if action.MessageStep? then S.AddMessageCall(action.content, action.at)
                else if action.ConfirmStep? then S.ConfirmCall(action.at) else S.CancelCall(action.at);
    assert UpdateOwned(sys.store, action.userId, action.sessionId, call) == (sys.store, Err(S.NotFound));
  }
}
