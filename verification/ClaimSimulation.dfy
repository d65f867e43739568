/**
 The two job stores, call by call.  Postgres rolls back the "failed" marks of a claim that
 finds nothing, so the tables drift apart on exhausted jobs; the relation below absorbs the
 drift and the stores still hand out the same jobs.
 */
module ClaimSimulation {
  import opened Prelude
  import opened JobModel
  import opened JobCalls
  import opened PostgresJobs

  ghost function PostgresStep(p: Jobs, call: Call): (Jobs, Outcome)
  {
    match call
    case EnqueueCall(newId, sessionId, at) => (PgEnqueue(p, newId, sessionId, at), Enqueued)
    case ClaimCall(worker, at, lease) =>
      var (jobs, r) := PgClaim(p, worker, at, lease);
      (jobs, Claimed(r))
    case ExtendCall(id, worker, at, lease) =>
      var (jobs, r) := ExtendLease(p, id, worker, at, lease);
      (jobs, Done(r))
    case ReserveCall(id, worker, card, version, at) =>
      var (jobs, r) := PgReserve(p, id, worker, card, version, at);
      (jobs, Reserved(r))
    case RetryCall(id, worker, at, availableAt) =>
      var (jobs, r) := Retry(p, id, worker, at, availableAt);
      (jobs, Done(r))
    case CompleteCall(id, worker, at) =>
      var (jobs, r) := PgFinish(p, id, worker, Completed, at);
      (jobs, Done(r))
    case FailCall(id, worker, at) =>
      var (jobs, r) := PgFinish(p, id, worker, Failed, at);
      (jobs, Done(r))
    case CancelCall(sessionId, at) => (PgCancel(p, sessionId, at), Done(Ok(())))
  }

  ghost function PostgresRun(p: Jobs, calls: seq<Call>): (r: seq<Outcome>)
    ensures |r| == |calls|
    decreases |calls|
  {
    if calls == [] then [] else
      var (next, outcome) := PostgresStep(p, calls[0]);
      [outcome] + PostgresRun(next, calls[1..])
  }

  /** The table after the first n calls. */
  ghost function TableAfter(p: Jobs, calls: seq<Call>, n: nat): Jobs
    requires n <= |calls|
    decreases n
  {
    if n == 0 then p else TableAfter(PostgresStep(p, calls[0]).0, calls[1..], n - 1)
  }

  lemma {:induction false} TableSteps(p: Jobs, calls: seq<Call>, n: nat)
    requires n < |calls|
    ensures TableAfter(p, calls, n + 1) == PostgresStep(TableAfter(p, calls, n), calls[n]).0
    decreases n
  {
    if n > 0 {
      assert calls[1..][n - 1] == calls[n];
      TableSteps(PostgresStep(p, calls[0]).0, calls[1..], n - 1);
    }
  }

  /** Times that never go back, and reservations with both ids given. */
  predicate Orderly(calls: seq<Call>, clock: Time)
  {
    calls != [] ==>
      && clock <= calls[0].at
      && (calls[0].ReserveCall? ==> calls[0].card != "" && calls[0].version != "")
      && Orderly(calls[1..], calls[0].at)
  }

  // ----- the simulation relation -----

  ghost predicate Same(job: Job, row: Job)
  {
    job == row.(updatedAt := job.updatedAt)
  }

  /** Memory failed an exhausted job that Postgres rolled back. */
  ghost predicate Absorbed(job: Job, row: Job)
  {
    && job.status == Failed && Exhausted(row)
    && job.id == row.id && job.sessionId == row.sessionId
  }

  ghost predicate Paired(job: Job)
  {
    job.cardId == "" <==> job.versionId == ""
  }

  ghost predicate RowRelated(job: Job, row: Job)
  {
    (Same(job, row) && Paired(job)) || Absorbed(job, row)
  }

  ghost predicate Related(m: Memory, p: Jobs)
  {
    && Indexed(m.jobs, m.index) && Keyed(p) && p.Keys == m.jobs.Keys
    && forall id :: id in p ==> RowRelated(m.jobs[id], p[id])
  }

  lemma RelatedWinner(m: Memory, p: Jobs, now: Time)
    requires Related(m, p)
    ensures Winner(m.jobs, now) == Winner(p, now)
  {
    WinnerIffAvailable(m.jobs, now);
    WinnerIffAvailable(p, now);
    forall id ensures IsWinner(m.jobs, now, id) <==> IsWinner(p, now, id) {
      SameWinner(m, p, now, id);
    }
    if Winner(m.jobs, now).Some? {
      WinnerUnique(p, now, Winner(m.jobs, now).value, Winner(p, now).value);
    }
  }

  lemma SameWinner(m: Memory, p: Jobs, now: Time, id: string)
    requires Related(m, p)
    ensures IsWinner(m.jobs, now, id) <==> IsWinner(p, now, id)
  {
    assert forall x :: x in p ==> (Claimable(m.jobs[x], now) && !Exhausted(m.jobs[x])
                                   <==> Claimable(p[x], now) && !Exhausted(p[x])) by {
      forall x | x in p ensures (Claimable(m.jobs[x], now) && !Exhausted(m.jobs[x])
                                 <==> Claimable(p[x], now) && !Exhausted(p[x])) {
        assert RowRelated(m.jobs[x], p[x]);
      }
    }
    assert forall x :: x in p && !Exhausted(p[x]) ==> Same(m.jobs[x], p[x]) by {
      forall x | x in p && !Exhausted(p[x]) ensures Same(m.jobs[x], p[x]) {
        assert RowRelated(m.jobs[x], p[x]);
      }
    }
  }

  /** A claim treats related rows alike when both stores pick the same winner. */
  lemma ClaimedRowsRelated(job: Job, row: Job, winner: Job, won: Job, worker: string, at: Time, lease: int)
    requires RowRelated(job, row) && job.id == row.id
    requires Same(winner, won) && !Exhausted(won) && (row.id == won.id ==> job == winner && row == won && Paired(job))
    ensures RowRelated(ClaimedJob(job, Some(winner), worker, at, lease), ClaimedJob(row, Some(won), worker, at, lease))
  {
  }

  lemma UnclaimedRowsRelated(job: Job, row: Job, worker: string, at: Time, lease: int)
    requires RowRelated(job, row) && job.id == row.id
    ensures RowRelated(ClaimedJob(job, None, worker, at, lease), row)
  {
  }

  lemma ClaimRelated(m: Memory, p: Jobs, worker: string, at: Time, lease: int)
    requires Related(m, p)
    ensures Related(MemoryStep(m, ClaimCall(worker, at, lease)).0, PgClaim(p, worker, at, lease).0)
    ensures Claim(m.jobs, worker, at, lease).1 == PgClaim(p, worker, at, lease).1
  {
    RelatedWinner(m, p, at);
    ClaimIndexed(m.jobs, m.index, worker, at, lease);
    if Winner(p, at).Some? {
      var w := Winner(p, at).value;
      assert RowRelated(m.jobs[w], p[w]);
      forall id | id in p
        ensures RowRelated(Claim(m.jobs, worker, at, lease).0[id], PgClaim(p, worker, at, lease).0[id])
      {
        assert RowRelated(m.jobs[id], p[id]);
        ClaimedRowsRelated(m.jobs[id], p[id], m.jobs[w], p[w], worker, at, lease);
      }
    } else {
      forall id | id in p ensures RowRelated(Claim(m.jobs, worker, at, lease).0[id], p[id]) {
        assert RowRelated(m.jobs[id], p[id]);
        UnclaimedRowsRelated(m.jobs[id], p[id], worker, at, lease);
      }
    }
  }

  lemma SameSessions(m: Memory, p: Jobs)
    requires Related(m, p)
    ensures forall id :: id in p ==> p[id].sessionId == m.jobs[id].sessionId
  {
    forall id | id in p ensures p[id].sessionId == m.jobs[id].sessionId {
      assert RowRelated(m.jobs[id], p[id]);
    }
  }

  lemma EnqueueRelated(m: Memory, p: Jobs, newId: string, sessionId: string, at: Time)
    requires Related(m, p) && newId !in m.jobs
    ensures Related(MemoryStep(m, EnqueueCall(newId, sessionId, at)).0, PgEnqueue(p, newId, sessionId, at))
  {
    SameSessions(m, p);
    if sessionId in m.index {
      assert m.index[sessionId] in p;
    } else {
      var job := NewJob(newId, sessionId, at);
      IndexedAdd(m.jobs, m.index, job);
      assert RowRelated(job, job);
    }
  }

  lemma RelatedPut(m: Memory, p: Jobs, id: string, job: Job, row: Job)
    requires Related(m, p) && id in p && RowRelated(job, row)
    requires job.id == row.id == id && job.sessionId == m.jobs[id].sessionId
    ensures Related(Memory(m.jobs[id := job], m.index), p[id := row])
  {
    IndexedPut(m.jobs, m.index, id, job);
    var jobs, rows := m.jobs[id := job], p[id := row];
    forall other | other in rows ensures RowRelated(jobs[other], rows[other]) {
      assert other != id ==> RowRelated(m.jobs[other], p[other]);
    }
  }

  /** The cancel statement reaches the one row that the session index names. */
  lemma CancelReachesOne(m: Memory, p: Jobs, sessionId: string, at: Time)
    requires Related(m, p)
    ensures sessionId !in m.index ==> PgCancel(p, sessionId, at) == p
    ensures sessionId in m.index ==>
              var id := m.index[sessionId];
              id in p && m.jobs[id].sessionId == sessionId
              && PgCancel(p, sessionId, at) == p[id := PgCancelJob(p[id], sessionId, at)]
  {
    SameSessions(m, p);
    if sessionId in m.index {
      var id := m.index[sessionId];
      assert PgCancel(p, sessionId, at) == p[id := PgCancelJob(p[id], sessionId, at)];
    } else {
      assert PgCancel(p, sessionId, at) == p;
    }
  }

  lemma CancelRelated(m: Memory, p: Jobs, sessionId: string, at: Time)
    requires Related(m, p)
    ensures Related(MemoryStep(m, CancelCall(sessionId, at)).0, PgCancel(p, sessionId, at))
  {
    CancelReachesOne(m, p, sessionId, at);
    if sessionId in m.index {
      var id := m.index[sessionId];
      assert RowRelated(m.jobs[id], p[id]);
      CancelledRowsRelated(m.jobs[id], p[id], sessionId, at);
      RelatedPut(m, p, id, CancelJob(m.jobs[id], at), PgCancelJob(p[id], sessionId, at));
    }
  }

  lemma CancelledRowsRelated(job: Job, row: Job, sessionId: string, at: Time)
    requires RowRelated(job, row) && job.sessionId == sessionId
    ensures RowRelated(CancelJob(job, at), PgCancelJob(row, sessionId, at))
  {
  }

  function PostgresRow(job: Job, call: Call): (Job, Outcome)
    requires ByHolder(call)
  {
    match call
    case ReserveCall(id, worker, card, version, at) =>
      var (after, r) := PgReserveJob(job, worker, card, version, at); (after, Reserved(r))
    case CompleteCall(id, worker, at) =>
      var (after, r) := PgFinishJob(job, worker, Completed, at); (after, Done(r))
    case FailCall(id, worker, at) =>
      var (after, r) := PgFinishJob(job, worker, Failed, at); (after, Done(r))
    case _ => MemoryRow(job, call)
  }

  lemma HolderSteps(m: Memory, p: Jobs, call: Call)
    requires ByHolder(call) && call.id in m.jobs && call.id in p
    ensures MemoryStep(m, call) ==
            (Memory(m.jobs[call.id := MemoryRow(m.jobs[call.id], call).0], m.index), MemoryRow(m.jobs[call.id], call).1)
    ensures PostgresStep(p, call) ==
            (p[call.id := PostgresRow(p[call.id], call).0], PostgresRow(p[call.id], call).1)
  {
    HolderStep(m, call);
  }

  lemma HolderRowsRelated(job: Job, row: Job, call: Call)
    requires RowRelated(job, row) && ByHolder(call)
    ensures RowRelated(MemoryRow(job, call).0, PostgresRow(row, call).0)
    ensures MemoryRow(job, call).0.id == job.id && MemoryRow(job, call).0.sessionId == job.sessionId
    ensures PostgresRow(row, call).0.id == row.id
  {
  }

  lemma HolderRelated(m: Memory, p: Jobs, call: Call)
    requires Related(m, p) && ByHolder(call)
    ensures Related(MemoryStep(m, call).0, PostgresStep(p, call).0)
  {
    if call.id in p {
      assert RowRelated(m.jobs[call.id], p[call.id]);
      HolderSteps(m, p, call);
      HolderRowsRelated(m.jobs[call.id], p[call.id], call);
      RelatedPut(m, p, call.id, MemoryRow(m.jobs[call.id], call).0, PostgresRow(p[call.id], call).0);
    }
  }

  lemma StepRelated(m: Memory, p: Jobs, call: Call)
    requires Related(m, p) && (call.EnqueueCall? ==> call.newId !in m.jobs)
    ensures Related(MemoryStep(m, call).0, PostgresStep(p, call).0)
    ensures call.ClaimCall? ==> MemoryStep(m, call).1 == PostgresStep(p, call).1
  {
    match call
    case EnqueueCall(newId, sessionId, at) => EnqueueRelated(m, p, newId, sessionId, at);
    case ClaimCall(worker, at, lease) => ClaimRelated(m, p, worker, at, lease);
    case CancelCall(sessionId, at) => CancelRelated(m, p, sessionId, at);
    case _ => HolderRelated(m, p, call);
  }

  /** Over any calls at any times, both stores answer every claim with the same job. */
  lemma {:induction false} ClaimsAgree(m: Memory, p: Jobs, calls: seq<Call>)
    requires Related(m, p) && FreshIds(m, calls)
    ensures forall i :: 0 <= i < |calls| && calls[i].ClaimCall? ==> MemoryRun(m, calls)[i] == PostgresRun(p, calls)[i]
    decreases |calls|
  {
    if calls != [] {
      StepRelated(m, p, calls[0]);
      ClaimsAgree(MemoryStep(m, calls[0]).0, PostgresStep(p, calls[0]).0, calls[1..]);
      forall i | 0 <= i < |calls| && calls[i].ClaimCall?
        ensures MemoryRun(m, calls)[i] == PostgresRun(p, calls)[i]
      {
        if i > 0 {
          assert calls[i] == calls[1..][i - 1];
        }
      }
    }
  }

  lemma EmptyStoresClaimAlike(calls: seq<Call>)
    requires FreshIds(Memory(map[], map[]), calls)
    ensures forall i :: 0 <= i < |calls| && calls[i].ClaimCall? ==>
              MemoryRun(Memory(map[], map[]), calls)[i] == PostgresRun(map[], calls)[i]
  {
    ClaimsAgree(Memory(map[], map[]), map[], calls);
  }

  // ----- every answer but Fail's, when time does not go back -----

  /** An absorbed row nobody can revive at or after `clock`. */
  ghost predicate QuietRow(job: Job, row: Job, clock: Time)
  {
    || (Same(job, row) && Paired(job))
    || (Absorbed(job, row) && (row.status == Cancelled || row.status == Failed || Claimable(row, clock)))
  }

  ghost predicate Quiet(m: Memory, p: Jobs, clock: Time)
  {
    p.Keys == m.jobs.Keys && forall id :: id in p ==> QuietRow(m.jobs[id], p[id], clock)
  }

  lemma ClaimedRowsQuiet(job: Job, row: Job, winner: Option<Job>, won: Option<Job>, worker: string, at: Time,
                         lease: int, clock: Time)
    requires QuietRow(job, row, clock) && job.id == row.id && clock <= at && winner.Some? == won.Some?
    requires won.Some? ==> Same(winner.value, won.value) && !Exhausted(won.value)
                           && (row.id == won.value.id ==> job == winner.value && row == won.value && Paired(job))
    ensures won.Some? ==>
              QuietRow(ClaimedJob(job, winner, worker, at, lease), ClaimedJob(row, won, worker, at, lease), at)
    ensures won.None? ==> QuietRow(ClaimedJob(job, winner, worker, at, lease), row, at)
  {
  }

  lemma QuietClaim(m: Memory, p: Jobs, worker: string, at: Time, lease: int, clock: Time)
    requires Related(m, p) && Quiet(m, p, clock) && clock <= at
    ensures Quiet(MemoryStep(m, ClaimCall(worker, at, lease)).0, PgClaim(p, worker, at, lease).0, at)
  {
    RelatedWinner(m, p, at);
    var winner, won := WinnerJob(m.jobs, at), WinnerJob(p, at);
    if won.Some? {
      assert QuietRow(winner.value, won.value, clock);
    }
    forall id | id in p
      ensures QuietRow(Claim(m.jobs, worker, at, lease).0[id], PgClaim(p, worker, at, lease).0[id], at)
    {
      assert QuietRow(m.jobs[id], p[id], clock);
      ClaimedRowsQuiet(m.jobs[id], p[id], winner, won, worker, at, lease, clock);
    }
  }

  lemma QuietEnqueue(m: Memory, p: Jobs, newId: string, sessionId: string, at: Time, clock: Time)
    requires Related(m, p) && Quiet(m, p, clock) && clock <= at && newId !in m.jobs
    ensures Quiet(MemoryStep(m, EnqueueCall(newId, sessionId, at)).0, PgEnqueue(p, newId, sessionId, at), at)
  {
    var after := MemoryStep(m, EnqueueCall(newId, sessionId, at)).0.jobs;
    var rows := PgEnqueue(p, newId, sessionId, at);
    forall id | id in rows ensures QuietRow(after[id], rows[id], at) {
      if id in p {
        assert QuietRow(m.jobs[id], p[id], clock);
      }
    }
  }

  lemma CancelledRowsQuiet(job: Job, row: Job, sessionId: string, at: Time, clock: Time)
    requires QuietRow(job, row, clock) && clock <= at && job.sessionId == sessionId
    ensures QuietRow(CancelJob(job, at), PgCancelJob(row, sessionId, at), at)
  {
  }

  lemma QuietLater(m: Memory, p: Jobs, clock: Time, at: Time)
    requires Quiet(m, p, clock) && clock <= at
    ensures Quiet(m, p, at)
  {
    forall id | id in p ensures QuietRow(m.jobs[id], p[id], at) {
      assert QuietRow(m.jobs[id], p[id], clock);
    }
  }

  lemma QuietPut(m: Memory, p: Jobs, id: string, job: Job, row: Job, at: Time)
    requires Quiet(m, p, at) && id in p && QuietRow(job, row, at)
    ensures Quiet(Memory(m.jobs[id := job], m.index), p[id := row], at)
  {
    var jobs, rows := m.jobs[id := job], p[id := row];
    forall other | other in rows ensures QuietRow(jobs[other], rows[other], at) {
      assert other != id ==> QuietRow(m.jobs[other], p[other], at);
    }
  }

  lemma QuietCancel(m: Memory, p: Jobs, sessionId: string, at: Time, clock: Time)
    requires Related(m, p) && Quiet(m, p, clock) && clock <= at
    ensures Quiet(MemoryStep(m, CancelCall(sessionId, at)).0, PgCancel(p, sessionId, at), at)
  {
    CancelReachesOne(m, p, sessionId, at);
    QuietLater(m, p, clock, at);
    if sessionId in m.index {
      var id := m.index[sessionId];
      assert QuietRow(m.jobs[id], p[id], at);
      CancelledRowsQuiet(m.jobs[id], p[id], sessionId, at, at);
      QuietPut(m, p, id, CancelJob(m.jobs[id], at), PgCancelJob(p[id], sessionId, at), at);
    }
  }

  lemma QuietHolder(m: Memory, p: Jobs, call: Call, clock: Time)
    requires Related(m, p) && Quiet(m, p, clock) && clock <= call.at && ByHolder(call)
    requires call.ReserveCall? ==> call.card != "" && call.version != ""
    ensures Quiet(MemoryStep(m, call).0, PostgresStep(p, call).0, call.at)
    ensures !call.FailCall? ==> MemoryStep(m, call).1 == PostgresStep(p, call).1
  {
    QuietLater(m, p, clock, call.at);
    if call.id in p {
      assert QuietRow(m.jobs[call.id], p[call.id], call.at);
      HolderSteps(m, p, call);
      HolderRowsQuiet(m.jobs[call.id], p[call.id], call, call.at);
      QuietPut(m, p, call.id, MemoryRow(m.jobs[call.id], call).0, PostgresRow(p[call.id], call).0, call.at);
    }
  }

  lemma HolderRowsQuiet(job: Job, row: Job, call: Call, clock: Time)
    requires QuietRow(job, row, clock) && ByHolder(call) && clock <= call.at
    requires call.ReserveCall? ==> call.card != "" && call.version != ""
    ensures QuietRow(MemoryRow(job, call).0, PostgresRow(row, call).0, call.at)
    ensures !call.FailCall? ==> MemoryRow(job, call).1 == PostgresRow(row, call).1
  {
  }

  lemma StepQuiet(m: Memory, p: Jobs, call: Call, clock: Time)
    requires Related(m, p) && Quiet(m, p, clock) && clock <= call.at
    requires call.EnqueueCall? ==> call.newId !in m.jobs
    requires call.ReserveCall? ==> call.card != "" && call.version != ""
    ensures Related(MemoryStep(m, call).0, PostgresStep(p, call).0)
    ensures Quiet(MemoryStep(m, call).0, PostgresStep(p, call).0, call.at)
    ensures !call.FailCall? ==> MemoryStep(m, call).1 == PostgresStep(p, call).1
  {
    StepRelated(m, p, call);
    match call
    case EnqueueCall(newId, sessionId, at) => QuietEnqueue(m, p, newId, sessionId, at, clock);
    case ClaimCall(worker, at, lease) => QuietClaim(m, p, worker, at, lease, clock);
    case CancelCall(sessionId, at) => QuietCancel(m, p, sessionId, at, clock);
    case _ => QuietHolder(m, p, call, clock);
  }

  lemma PrependAnswers(calls: seq<Call>, a: Outcome, b: Outcome, mem: seq<Outcome>, pg: seq<Outcome>)
    requires calls != [] && |mem| == |pg| == |calls| - 1
    requires !calls[0].FailCall? ==> a == b
    requires forall i :: 0 <= i < |pg| && !calls[1..][i].FailCall? ==> mem[i] == pg[i]
    ensures forall i :: 0 <= i < |calls| && !calls[i].FailCall? ==> ([a] + mem)[i] == ([b] + pg)[i]
  {
    forall i | 0 <= i < |calls| && !calls[i].FailCall? ensures ([a] + mem)[i] == ([b] + pg)[i] {
      if i > 0 {
        assert calls[i] == calls[1..][i - 1];
      }
    }
  }

  /** With times in order, the stores also agree on every lease, reservation, retry and completion. */
  lemma {:induction false} AnswersAgree(m: Memory, p: Jobs, calls: seq<Call>, clock: Time)
    requires Related(m, p) && Quiet(m, p, clock) && FreshIds(m, calls) && Orderly(calls, clock)
    ensures forall i :: 0 <= i < |calls| && !calls[i].FailCall? ==> MemoryRun(m, calls)[i] == PostgresRun(p, calls)[i]
    decreases |calls|
  {
    if calls != [] {
      StepQuiet(m, p, calls[0], clock);
      var (m1, answer) := MemoryStep(m, calls[0]);
      var (p1, other) := PostgresStep(p, calls[0]);
      AnswersAgree(m1, p1, calls[1..], calls[0].at);
      PrependAnswers(calls, answer, other, MemoryRun(m1, calls[1..]), PostgresRun(p1, calls[1..]));
    }
  }
}
