/**
 Where the content of a version comes from: whatever is loaded for a published version is an archive
 that some run put for that very version.
 */
module PipelineArchives {
  import opened Prelude
  import opened P = PublishModel
  import opened Pipeline
  import opened PipelineInvariant
  import opened PipelineRuns
  import opened PipelineSystem
  import J = JobModel
  import PipelineTheorems

  /** A card and version, and an archive that a run built for them. */
  type Handed = (J.Publication, Bytes)

  /** What a step puts: the archive of a run about to publish, for the version it reserved. */
  function GivenBy(sys: System, action: Action): set<Handed>
    requires Enabled(sys, action)
  {
    if action.WorkStep? && sys.runs[action.handle].pc.Putting? && action.env.archive.Some? then
      {(sys.runs[action.handle].pc.publication, action.env.archive.value)}
    else {}
  }

  /** Everything put along the actions. */
  ghost function Given(hash: Hash, sys: System, actions: seq<Action>): set<Handed>
    decreases |actions|
  {
    if actions == [] then {}
    else if !Enabled(sys, actions[0]) then Given(hash, sys, actions[1..])
    else GivenBy(sys, actions[0]) + Given(hash, Next(hash, sys, actions[0]), actions[1..])
  }

  predicate Traced(objects: Objects, given: set<Handed>, v: CardVersion)
  {
    v.artifactKey in objects && (J.Publication(v.cardId, v.versionId), objects[v.artifactKey]) in given
  }

  ghost predicate VersionsTraced(st: Store, given: set<Handed>)
  {
    forall id :: id in st.versions ==> st.versions[id].versionId == id && Traced(st.objects, given, st.versions[id])
  }

  ghost predicate RunsTraced(st: Store, runs: map<nat, Run>, given: set<Handed>)
  {
    forall h :: h in runs && runs[h].pc.Creating? ==> Traced(st.objects, given, runs[h].pc.version)
  }

  // ----- one step -----

  /** Only creating a version adds one. */
  lemma SessionCallsLeave(hash: Hash, st: Store, run: Run, env: Env)
    requires run.pc.Starting? || run.pc.StartingValidation? || run.pc.MarkingReady? || run.pc.MarkingFailed?
    ensures Effect(hash, st, run, env).0.versions == st.versions
  {
    match run.pc
    case Starting => assert Effect(hash, st, run, env).0 == Start(st, run, env).0;
    case StartingValidation(_, _, _) => assert Effect(hash, st, run, env).0 == StartValidation(st, run, env).0;
    case MarkingReady(_, _, _) => assert Effect(hash, st, run, env).0 == MarkReady(st, run, env).0;
    case MarkingFailed(_, _) =>
  }

  lemma StoreCallsLeave(hash: Hash, st: Store, run: Run, env: Env)
    requires run.pc.Reserving? || run.pc.Generating? || run.pc.Putting? || run.pc.Completing?
    ensures Effect(hash, st, run, env).0.versions == st.versions
  {
    match run.pc
    case Reserving(_) => assert Effect(hash, st, run, env) == Reserve(st, run, env);
    case Generating(_, _, _) => assert Effect(hash, st, run, env) == Generate(st, run, env);
    case Putting(_, _, _, _) => assert Effect(hash, st, run, env) == Put(hash, st, run, env);
    case Completing(_, _) => assert Effect(hash, st, run, env) == Complete(st, run, env);
  }

  lemma VersionsLeft(hash: Hash, st: Store, run: Run, env: Env)
    requires !run.pc.Creating?
    ensures Effect(hash, st, run, env).0.versions == st.versions
  {
    if run.pc.Starting? || run.pc.StartingValidation? || run.pc.MarkingReady? || run.pc.MarkingFailed? {
      SessionCallsLeave(hash, st, run, env);
    } else if run.pc.Reserving? || run.pc.Generating? || run.pc.Putting? || run.pc.Completing? {
      StoreCallsLeave(hash, st, run, env);
    }
  }

  /** A run comes to create a version only by putting its archive. */
  lemma OnlyPuttingLeadsToCreating(hash: Hash, st: Store, run: Run, env: Env)
    requires !run.pc.Putting?
    ensures !Effect(hash, st, run, env).1.Creating?
  {
  }

  lemma NoFaultCreates(run: Run, kind: Kind)
    ensures !OnFault(run, kind).Creating?
  {
  }

  lemma PutTraced(hash: Hash, st: Store, run: Run, env: Env, given: set<Handed>)
    requires run.pc.Putting? && env.archive.Some? && (run.pc.publication, env.archive.value) in given
    ensures var (after, pc) := Put(hash, st, run, env); pc.Creating? ==> Traced(after.objects, given, pc.version)
  {
  }

  lemma StepTraced(hash: Hash, st: Store, run: Run, env: Env, fault: Fault, given: set<Handed>)
    requires run.pc.Putting? && env.archive.Some? ==> (run.pc.publication, env.archive.value) in given
    ensures var (after, next) := StepRun(hash, st, run, env, fault);
            next.pc.Creating? ==> Traced(after.objects, given, next.pc.version)
  {
    if fault.Fault? {
      NoFaultCreates(run, fault.kind);
    } else if run.pc.Putting? {
      assert Effect(hash, st, run, env) == Put(hash, st, run, env);
      if env.archive.Some? {
        PutTraced(hash, st, run, env, given);
      }
    } else {
      OnlyPuttingLeadsToCreating(hash, st, run, env);
    }
  }

  lemma CreatedTraced(hash: Hash, st: Store, run: Run, env: Env, fault: Fault, given: set<Handed>)
    requires VersionsTraced(st, given) && (run.pc.Creating? ==> Traced(st.objects, given, run.pc.version))
    requires Evolves(st, StepRun(hash, st, run, env, fault).0)
    ensures VersionsTraced(StepRun(hash, st, run, env, fault).0, given)
  {
    var after := StepRun(hash, st, run, env, fault).0;
    if run.pc.Creating? {
      assert Effect(hash, st, run, env) == CreateVersion(st, run);
    } else {
      VersionsLeft(hash, st, run, env);
    }
    forall id | id in after.versions
      ensures after.versions[id].versionId == id && Traced(after.objects, given, after.versions[id])
    {
      assert id in st.versions ==> Traced(st.objects, given, st.versions[id]);
    }
  }

  // ----- any step, and any run of them -----

  lemma TracedStays(a: Store, b: Store, given: set<Handed>, more: set<Handed>)
    requires Evolves(a, b) && VersionsTraced(a, given) && b.versions == a.versions
    ensures VersionsTraced(b, given + more)
  {
    forall id | id in b.versions
      ensures b.versions[id].versionId == id && Traced(b.objects, given + more, b.versions[id])
    {
      assert Traced(a.objects, given, a.versions[id]);
    }
  }

  lemma RunsStay(a: Store, b: Store, runs: map<nat, Run>, given: set<Handed>, more: set<Handed>)
    requires Evolves(a, b) && RunsTraced(a, runs, given)
    ensures RunsTraced(b, runs, given + more)
  {
    forall h | h in runs && runs[h].pc.Creating? ensures Traced(b.objects, given + more, runs[h].pc.version) {
      assert Traced(a.objects, given, runs[h].pc.version);
    }
  }

  lemma WorkTraced(hash: Hash, sys: System, action: Action, given: set<Handed>)
    requires SystemOk(hash, sys) && Enabled(sys, action) && action.WorkStep?
    requires VersionsTraced(sys.store, given) && RunsTraced(sys.store, sys.runs, given)
    ensures var next, more := Next(hash, sys, action), given + GivenBy(sys, action);
            VersionsTraced(next.store, more) && RunsTraced(next.store, next.runs, more)
  {
    var next, more := Next(hash, sys, action), given + GivenBy(sys, action);
    var run := sys.runs[action.handle];
    NextKeeps(hash, sys, action);
    EvolvesReflexive(sys.store);
    TracedStays(sys.store, sys.store, given, GivenBy(sys, action));
    RunsStay(sys.store, next.store, sys.runs, given, GivenBy(sys, action));
    StepTraced(hash, sys.store, run, action.env, action.fault, more);
    CreatedTraced(hash, sys.store, run, action.env, action.fault, more);
  }

  lemma OthersLeave(hash: Hash, sys: System, action: Action)
    requires Enabled(sys, action) && !action.WorkStep?
    ensures var next := Next(hash, sys, action);
            && next.store.versions == sys.store.versions
            && forall h :: h in next.runs && next.runs[h].pc.Creating? ==> h in sys.runs && next.runs[h] == sys.runs[h]
  {
  }

  lemma NextTraced(hash: Hash, sys: System, action: Action, given: set<Handed>)
    requires SystemOk(hash, sys) && Enabled(sys, action)
    requires VersionsTraced(sys.store, given) && RunsTraced(sys.store, sys.runs, given)
    ensures var next, more := Next(hash, sys, action), given + GivenBy(sys, action);
            VersionsTraced(next.store, more) && RunsTraced(next.store, next.runs, more)
  {
    if action.WorkStep? {
      WorkTraced(hash, sys, action, given);
    } else {
      var next := Next(hash, sys, action);
      NextKeeps(hash, sys, action);
      OthersLeave(hash, sys, action);
      TracedStays(sys.store, next.store, given, GivenBy(sys, action));
      RunsStay(sys.store, next.store, sys.runs, given, GivenBy(sys, action));
    }
  }

  lemma {:induction false} RunTraced(hash: Hash, sys: System, actions: seq<Action>, given: set<Handed>)
    requires SystemOk(hash, sys)
    requires VersionsTraced(sys.store, given) && RunsTraced(sys.store, sys.runs, given)
    ensures VersionsTraced(Pipeline.After(hash, sys, actions).store, given + Given(hash, sys, actions))
    decreases |actions|
  {
    if actions == [] {
      assert given + {} == given;
    } else if !Enabled(sys, actions[0]) {
      RunTraced(hash, sys, actions[1..], given);
    } else {
      var next, more := Next(hash, sys, actions[0]), given + GivenBy(sys, actions[0]);
      NextKeeps(hash, sys, actions[0]);
      NextTraced(hash, sys, actions[0], given);
      RunTraced(hash, next, actions[1..], more);
      assert more + Given(hash, next, actions[1..]) == given + Given(hash, sys, actions);
    }
  }

  /** What a published version loads is an archive some run put for this very version. */
  lemma LoadedWasPut(hash: Hash, actions: seq<Action>, v: string)
    requires v in PipelineTheorems.Reached(hash, actions).versions
    ensures var st := PipelineTheorems.Reached(hash, actions);
            var r := Load(hash, st.objects, st.versions, st.versions[v].userId, st.versions[v].cardId, v,
                          MAX_ARCHIVE_BYTES);
            r.Ok? && (J.Publication(st.versions[v].cardId, v), r.value) in Given(hash, EMPTY, actions)
  {
    EmptyOk(hash);
    RunTraced(hash, EMPTY, actions, {});
    PipelineTheorems.VersionsLoad(hash, actions, v);
    var st := PipelineTheorems.Reached(hash, actions);
    assert Traced(st.objects, {} + Given(hash, EMPTY, actions), st.versions[v]);
  }
}
