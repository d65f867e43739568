/** A run of the pipeline that nothing disturbs: its store calls one after the other, until it stops. */
module PipelineDrive {
  import opened Prelude
  import opened P = PublishModel
  import opened Pipeline

  /** The store calls still ahead of a run, at most. */
  function Rank(pc: Pc): nat
  {
    match pc
    case Loading => 20
    case Starting => 19
    case FindingBase(_) => 18
    case ReadingBase(_, _) => 17
    case Reserving(_) => 16
    case Looking(_, _) => 15
    case Numbering(_, _) => 14
    case Generating(_, _, _) => 13
    case StartingValidation(_, _, _) => 12
    case Putting(_, _, _, again) => if again then 8 else 11
    case Creating(_, _, _, again) => if again then 7 else 10
    case Renumbering(_, _) => 9
    case MarkingReady(_, _, _) => 6
    case Completing(_, _) => 5
    case Retrying(_) => 1
    case MarkingFailed(_, _) => 3
    case Failing(_) => 2
    case Stopped(_) => 0
  }

  lemma FailDescends(run: Run, code: string, cause: Cause)
    ensures Rank(FailAt(run, code, cause)) <= 3
  {
  }

  lemma StartDescends(hash: Hash, st: Store, run: Run, env: Env)
    requires run.pc.Loading? || run.pc.Starting?
    ensures Rank(Effect(hash, st, run, env).1) < Rank(run.pc)
  {
    match run.pc
    case Loading => assert Effect(hash, st, run, env).1 == LoadSession(st, run);
    case Starting => assert Effect(hash, st, run, env).1 == Start(st, run, env).1;
  }

  lemma BaseDescends(hash: Hash, st: Store, run: Run, env: Env)
    requires run.pc.FindingBase? || run.pc.ReadingBase? || run.pc.Reserving?
    ensures Rank(Effect(hash, st, run, env).1) < Rank(run.pc)
  {
    match run.pc
    case FindingBase(_) => assert Effect(hash, st, run, env).1 == FindBase(st, run);
    case ReadingBase(_, _) => assert Effect(hash, st, run, env).1 == ReadBase(hash, st, run, env);
    case Reserving(_) => assert Effect(hash, st, run, env).1 == Reserve(st, run, env).1;
  }

  lemma LookDescends(hash: Hash, st: Store, run: Run, env: Env)
    requires run.pc.Looking?
    ensures Rank(Effect(hash, st, run, env).1) < Rank(run.pc)
  {
    assert Effect(hash, st, run, env).1 == Look(st, run);
  }

  lemma NumberDescends(st: Store, run: Run)
    requires run.pc.Numbering? || run.pc.Renumbering?
    ensures Rank(Number(st, run)) < Rank(run.pc)
  {
    FailDescends(run, CodeOf(run.pc), Refused);
  }

  lemma GenerateDescends(hash: Hash, st: Store, run: Run, env: Env)
    requires run.pc.Generating? || run.pc.StartingValidation?
    ensures Rank(Effect(hash, st, run, env).1) < Rank(run.pc)
  {
    match run.pc
    case Generating(_, _, _) => assert Effect(hash, st, run, env).1 == Generate(st, run, env).1;
    case StartingValidation(_, _, _) => assert Effect(hash, st, run, env).1 == StartValidation(st, run, env).1;
  }

  lemma PutDescends(hash: Hash, st: Store, run: Run, env: Env)
    requires run.pc.Putting?
    ensures Rank(Effect(hash, st, run, env).1) < Rank(run.pc)
  {
    assert Effect(hash, st, run, env).1 == Put(hash, st, run, env).1;
  }

  lemma CreateDescends(hash: Hash, st: Store, run: Run, env: Env)
    requires run.pc.Creating?
    ensures Rank(Effect(hash, st, run, env).1) < Rank(run.pc)
  {
    assert Effect(hash, st, run, env).1 == CreateVersion(st, run).1;
  }

  lemma FinishDescends(hash: Hash, st: Store, run: Run, env: Env)
    requires run.pc.MarkingReady? || run.pc.Completing?
    ensures Rank(Effect(hash, st, run, env).1) < Rank(run.pc)
  {
    match run.pc
    case MarkingReady(_, _, _) => assert Effect(hash, st, run, env).1 == MarkReady(st, run, env).1;
    case Completing(_, _) => assert Effect(hash, st, run, env).1 == Complete(st, run, env).1;
  }

  predicate Early(pc: Pc)
  {
    pc.Loading? || pc.Starting? || pc.FindingBase? || pc.ReadingBase? || pc.Reserving?
  }

  predicate Ending(pc: Pc)
  {
    pc.Retrying? || pc.MarkingFailed? || pc.Failing?
  }

  /** Every store call brings a run closer to its end. */
  lemma EffectDescends(hash: Hash, st: Store, run: Run, env: Env)
    requires !run.pc.Stopped?
    ensures Rank(Effect(hash, st, run, env).1) < Rank(run.pc)
  {
    if run.pc.Loading? || run.pc.Starting? {
      StartDescends(hash, st, run, env);
    } else if Early(run.pc) {
      BaseDescends(hash, st, run, env);
    } else if run.pc.Putting? {
      PutDescends(hash, st, run, env);
    } else if run.pc.Creating? {
      CreateDescends(hash, st, run, env);
    } else if run.pc.MarkingReady? || run.pc.Completing? {
      FinishDescends(hash, st, run, env);
    } else if run.pc.Generating? || run.pc.StartingValidation? {
      GenerateDescends(hash, st, run, env);
    } else if run.pc.Looking? {
      LookDescends(hash, st, run, env);
    } else if !Ending(run.pc) {
      assert Effect(hash, st, run, env).1 == Number(st, run);
      NumberDescends(st, run);
    }
  }

  /** A run left alone: its store calls one after the other until it stops. */
  ghost function Drive(hash: Hash, st: Store, run: Run, world: Pc -> Env): (r: (Store, Run))
    ensures r.1.pc.Stopped? && r.1 == run.(pc := r.1.pc)
    decreases Rank(run.pc)
  {
    if run.pc.Stopped? then (st, run)
    else
      EffectDescends(hash, st, run, world(run.pc));
      var (after, pc) := Effect(hash, st, run, world(run.pc));
      Drive(hash, after, run.(pc := pc), world)
  }

  lemma DriveOne(hash: Hash, st: Store, run: Run, world: Pc -> Env)
    ensures run.pc.Stopped? ==> Drive(hash, st, run, world) == (st, run)
    ensures !run.pc.Stopped? ==>
              var (after, pc) := Effect(hash, st, run, world(run.pc));
              Drive(hash, st, run, world) == Drive(hash, after, run.(pc := pc), world)
  {
  }
}
