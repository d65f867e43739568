/**
 The generation job table and what each store call does to it, as functions on values.
 MemoryStore and PostgresStore are proved against these functions; the pipeline, the lease
 and the simulation results are proved about them.
 */
module JobModel {
  import opened Prelude
  import StringOrder

  type Time = int

  // Go's zero time.Time; it sorts before every time a clock returns.
  const ZERO_TIME: Time := 0

  const MAX_ATTEMPTS: nat := 3

  datatype Status = Queued | Running | Completed | Failed | Cancelled

  datatype JobError = NoJob | NotFound | Conflict

  datatype Publication = Publication(cardId: string, versionId: string)

  datatype Job = Job(
    id: string,
    sessionId: string,
    status: Status,
    attempts: nat,
    maxAttempts: nat,
    leaseOwner: string,
    leaseUntil: Time,
    availableAt: Time,
    cardId: string,
    versionId: string,
    createdAt: Time,
    updatedAt: Time)

  type Jobs = map<string, Job>

  predicate Terminal(status: Status)
  {
    status == Completed || status == Failed || status == Cancelled
  }

  predicate HeldBy(job: Job, worker: string, at: Time)
  {
    job.status == Running && job.leaseOwner == worker && job.leaseUntil > at
  }

  function NewJob(id: string, sessionId: string, at: Time): Job
  {
    Job(id, sessionId, Queued, 0, MAX_ATTEMPTS, "", ZERO_TIME, at, "", "", at, at)
  }

  function Released(job: Job, status: Status, at: Time): Job
  {
    job.(status := status, leaseOwner := "", leaseUntil := ZERO_TIME, updatedAt := at)
  }

  // ----- Claim -----

  predicate Claimable(job: Job, now: Time)
  {
    || (job.status == Queued && job.availableAt <= now)
    || (job.status == Running && job.leaseUntil <= now)
  }

  /** Queued and due, or left behind by a lease that has run out. */
  predicate WasOpen(job: Job, at: Time)
  {
    match job.status
    case Queued => job.availableAt <= at
    case Running => job.leaseUntil <= at
    case _ => false
  }

  predicate Exhausted(job: Job)
  {
    job.attempts >= job.maxAttempts
  }

  /** Claim order: creation time, then id. */
  predicate Before(left: Job, right: Job)
  {
    if left.createdAt == right.createdAt then StringOrder.Less(left.id, right.id)
    else left.createdAt < right.createdAt
  }

  function Granted(job: Job, worker: string, now: Time, lease: int): Job
  {
    job.(status := Running, attempts := job.attempts + 1, leaseOwner := worker,
         leaseUntil := now + lease, updatedAt := now)
  }

  /** Rows are stored under their own id. */
  ghost predicate Keyed(jobs: Jobs)
  {
    forall id :: id in jobs ==> jobs[id].id == id
  }

  /** The job a claim should return: the first claimable one with an attempt left. */
  ghost predicate IsWinner(jobs: Jobs, now: Time, id: string)
  {
    && id in jobs && Claimable(jobs[id], now) && !Exhausted(jobs[id])
    && forall other :: other in jobs && other != id && Claimable(jobs[other], now) && !Exhausted(jobs[other])
                       ==> Before(jobs[id], jobs[other])
  }

  ghost function Winner(jobs: Jobs, now: Time): (w: Option<string>)
    ensures w.Some? ==> IsWinner(jobs, now, w.value)
    ensures w.None? ==> forall id :: !IsWinner(jobs, now, id)
  {
    if id :| IsWinner(jobs, now, id) then Some(id) else None
  }

  /** One job after MemoryStore.Claim: exhausted claimable ones met before the winner fail. */
  function ClaimedJob(job: Job, winner: Option<Job>, worker: string, now: Time, lease: int): Job
  {
    if winner.Some? && winner.value.id == job.id then Granted(job, worker, now, lease)
    else if Claimable(job, now) && Exhausted(job) && (winner.None? || Before(job, winner.value)) then
      Released(job, Failed, now)
    else job
  }

  ghost function WinnerJob(jobs: Jobs, now: Time): Option<Job>
  {
    if Winner(jobs, now).Some? then Some(jobs[Winner(jobs, now).value]) else None
  }

  ghost function Claim(jobs: Jobs, worker: string, now: Time, lease: int): (r: (Jobs, Result<Job, JobError>))
  {
    var winner := WinnerJob(jobs, now);
    (map id | id in jobs :: ClaimedJob(jobs[id], winner, worker, now, lease),
     if winner.Some? then Ok(Granted(winner.value, worker, now, lease)) else Err(NoJob))
  }

  // ----- guarded updates of one job -----

  function ExtendJob(job: Job, worker: string, now: Time, lease: int): (Job, Result<(), JobError>)
  {
    if lease <= 0 || !HeldBy(job, worker, now) then (job, Err(Conflict))
    else (job.(leaseUntil := now + lease, updatedAt := now), Ok(()))
  }

  function ReserveJob(job: Job, worker: string, card: string, version: string, at: Time)
    : (Job, Result<Publication, JobError>)
  {
    if !HeldBy(job, worker, at) then (job, Err(Conflict))
    else if job.cardId == "" && job.versionId == "" then
      if card == "" || version == "" then (job, Err(Conflict))
      else (job.(cardId := card, versionId := version, updatedAt := at), Ok(Publication(card, version)))
    else (job, Ok(Publication(job.cardId, job.versionId)))
  }

  function RetryJob(job: Job, worker: string, at: Time, availableAt: Time): (Job, Result<(), JobError>)
  {
    if !HeldBy(job, worker, at) || availableAt < at then (job, Err(Conflict))
    else (Released(job, Queued, at).(availableAt := availableAt), Ok(()))
  }

  function FinishJob(job: Job, worker: string, status: Status, at: Time): (Job, Result<(), JobError>)
  {
    if job.status == status then (job, Ok(()))
    else if !HeldBy(job, worker, at) then (job, Err(Conflict))
    else (Released(job, status, at), Ok(()))
  }

  function CancelJob(job: Job, at: Time): Job
  {
    if Terminal(job.status) then job else Released(job, Cancelled, at)
  }

  // ----- the same updates on the table -----

  function ExtendLease(jobs: Jobs, id: string, worker: string, now: Time, lease: int): (Jobs, Result<(), JobError>)
  {
    if id !in jobs then (jobs, Err(Conflict))
    else var (job, r) := ExtendJob(jobs[id], worker, now, lease); (jobs[id := job], r)
  }

  function ReservePublication(jobs: Jobs, id: string, worker: string, card: string, version: string, at: Time)
    : (Jobs, Result<Publication, JobError>)
  {
    if id !in jobs then (jobs, Err(Conflict))
    else var (job, r) := ReserveJob(jobs[id], worker, card, version, at); (jobs[id := job], r)
  }

  function Retry(jobs: Jobs, id: string, worker: string, at: Time, availableAt: Time): (Jobs, Result<(), JobError>)
  {
    if id !in jobs then (jobs, Err(Conflict))
    else var (job, r) := RetryJob(jobs[id], worker, at, availableAt); (jobs[id := job], r)
  }

  function Finish(jobs: Jobs, id: string, worker: string, status: Status, at: Time): (Jobs, Result<(), JobError>)
  {
    if id !in jobs then (jobs, Err(NotFound))
    else var (job, r) := FinishJob(jobs[id], worker, status, at); (jobs[id := job], r)
  }

  lemma SameRow(jobs: Jobs, id: string)
    ensures id in jobs ==> jobs[id := jobs[id]] == jobs
  {
    if id in jobs {
      assert jobs[id := jobs[id]] == jobs;
    }
  }

  // ----- calls by session -----

  /** At most one job a session, found through the session index. */
  ghost predicate Indexed(jobs: Jobs, index: map<string, string>)
  {
    && Keyed(jobs)
    && (forall s :: s in index ==> index[s] in jobs && jobs[index[s]].sessionId == s)
    && (forall id :: id in jobs ==> jobs[id].sessionId in index && index[jobs[id].sessionId] == id)
  }

  function Enqueue(jobs: Jobs, index: map<string, string>, id: string, sessionId: string, at: Time)
    : (Jobs, map<string, string>)
  {
    if sessionId in index then (jobs, index)
    else (jobs[id := NewJob(id, sessionId, at)], index[sessionId := id])
  }

  function Cancel(jobs: Jobs, index: map<string, string>, sessionId: string, at: Time): Jobs
  {
    if sessionId !in index || index[sessionId] !in jobs then jobs
    else jobs[index[sessionId] := CancelJob(jobs[index[sessionId]], at)]
  }

  // ----- a claim met row by row -----

  ghost function Expired(jobs: Jobs, done: set<string>, now: Time): Jobs
  {
    map id | id in jobs :: if id in done then Released(jobs[id], Failed, now) else jobs[id]
  }

  /** Rows a claim has failed so far: exhausted ones that precede everything still claimable. */
  ghost predicate PassedOver(jobs: Jobs, now: Time, done: set<string>)
  {
    && (forall d :: d in done ==> d in jobs && Claimable(jobs[d], now) && Exhausted(jobs[d]))
    && (forall d, x :: d in done && x in jobs && Claimable(jobs[x], now) && x !in done ==> Before(jobs[d], jobs[x]))
  }

  /** Handing out the first claimable row that is left is Claim, whoever walked the rows. */
  lemma ClaimStops(jobs: Jobs, worker: string, now: Time, lease: int, done: set<string>, w: string)
    requires Keyed(jobs) && PassedOver(jobs, now, done)
    requires w in jobs && w !in done && Claimable(jobs[w], now) && !Exhausted(jobs[w])
    requires forall x :: x in jobs && Claimable(jobs[x], now) && x !in done && x != w ==> Before(jobs[w], jobs[x])
    ensures Expired(jobs, done, now)[w := Granted(jobs[w], worker, now, lease)] == Claim(jobs, worker, now, lease).0
    ensures Claim(jobs, worker, now, lease).1 == Ok(Granted(jobs[w], worker, now, lease))
  {
    assert IsWinner(jobs, now, w);
    WinnerUnique(jobs, now, w, Winner(jobs, now).value);
    forall id | id in jobs && id != w
      ensures id in done <==> Claimable(jobs[id], now) && Exhausted(jobs[id]) && Before(jobs[id], jobs[w])
    {
      if Claimable(jobs[id], now) && Before(jobs[id], jobs[w]) && id !in done {
        BeforeAsymmetric(jobs[id], jobs[w]);
      }
    }
    assert Expired(jobs, done, now)[w := Granted(jobs[w], worker, now, lease)] == Claim(jobs, worker, now, lease).0;
  }

  lemma ClaimFindsNone(jobs: Jobs, worker: string, now: Time, lease: int, done: set<string>)
    requires PassedOver(jobs, now, done)
    requires forall x :: x in jobs && Claimable(jobs[x], now) ==> x in done
    ensures Winner(jobs, now).None?
    ensures Claim(jobs, worker, now, lease) == (Expired(jobs, done, now), Err(NoJob))
  {
    assert Claim(jobs, worker, now, lease).0 == Expired(jobs, done, now);
  }

  /** Replacing a job by one with the same id and session keeps the index. */
  lemma IndexedPut(jobs: Jobs, index: map<string, string>, id: string, job: Job)
    requires Indexed(jobs, index) && id in jobs && job.id == id && job.sessionId == jobs[id].sessionId
    ensures Indexed(jobs[id := job], index)
  {
  }

  lemma IndexedAdd(jobs: Jobs, index: map<string, string>, job: Job)
    requires Indexed(jobs, index) && job.id !in jobs && job.sessionId !in index
    ensures Indexed(jobs[job.id := job], index[job.sessionId := job.id])
  {
  }

  lemma ClaimIndexed(jobs: Jobs, index: map<string, string>, worker: string, now: Time, lease: int)
    requires Indexed(jobs, index)
    ensures Indexed(Claim(jobs, worker, now, lease).0, index)
  {
  }

  // ----- the claim order is a strict total order on keyed rows -----

  lemma BeforeTransitive(a: Job, b: Job, c: Job)
    requires Before(a, b) && Before(b, c)
    ensures Before(a, c)
  {
    if a.createdAt == b.createdAt == c.createdAt {
      StringOrder.Transitive(a.id, b.id, c.id);
    }
  }

  lemma BeforeAsymmetric(a: Job, b: Job)
    requires Before(a, b)
    ensures !Before(b, a)
  {
    if a.createdAt == b.createdAt {
      StringOrder.Asymmetric(a.id, b.id);
    }
  }

  lemma BeforeTotal(a: Job, b: Job)
    requires a.id != b.id
    ensures Before(a, b) || Before(b, a)
  {
    StringOrder.Total(a.id, b.id);
  }

  /** There is one winner exactly when some claimable job has an attempt left. */
  lemma WinnerIffAvailable(jobs: Jobs, now: Time)
    requires Keyed(jobs)
    ensures Winner(jobs, now).Some? <==> exists id :: id in jobs && Claimable(jobs[id], now) && !Exhausted(jobs[id])
  {
    var open := set id | id in jobs && Claimable(jobs[id], now) && !Exhausted(jobs[id]);
    if open != {} {
      FirstExists(jobs, open);
      var first :| IsFirst(jobs, open, first);
      assert IsWinner(jobs, now, first);
    } else {
      forall id | id in jobs ensures !(Claimable(jobs[id], now) && !Exhausted(jobs[id])) {
        assert id !in open;
      }
    }
  }

  lemma WinnerUnique(jobs: Jobs, now: Time, a: string, b: string)
    requires IsWinner(jobs, now, a) && IsWinner(jobs, now, b)
    ensures a == b
  {
    if a != b {
      BeforeAsymmetric(jobs[a], jobs[b]);
    }
  }

  ghost predicate IsFirst(jobs: Jobs, ids: set<string>, first: string)
  {
    && first in ids && first in jobs
    && forall id :: id in ids && id in jobs && id != first ==> Before(jobs[first], jobs[id])
  }

  lemma {:induction false} FirstExists(jobs: Jobs, ids: set<string>)
    requires Keyed(jobs) && ids != {} && ids <= jobs.Keys
    ensures exists first :: IsFirst(jobs, ids, first)
    decreases |ids|
  {
    var a :| a in ids;
    var rest := ids - {a};
    assert ids == rest + {a};
    if rest == {} {
      assert ids == {a};
      assert IsFirst(jobs, ids, a);
    } else {
      FirstExists(jobs, rest);
      var first :| IsFirst(jobs, rest, first);
      ExtendFirst(jobs, rest, a, first);
    }
  }

  lemma ExtendFirst(jobs: Jobs, rest: set<string>, a: string, first: string)
    requires Keyed(jobs) && IsFirst(jobs, rest, first) && a in jobs && a !in rest
    ensures exists best :: IsFirst(jobs, rest + {a}, best)
  {
    BeforeTotal(jobs[a], jobs[first]);
    if Before(jobs[first], jobs[a]) {
      assert IsFirst(jobs, rest + {a}, first);
    } else {
      forall id | id in rest && id in jobs ensures Before(jobs[a], jobs[id]) {
        if id != first {
          BeforeTransitive(jobs[a], jobs[first], jobs[id]);
        }
      }
      assert IsFirst(jobs, rest + {a}, a);
    }
  }
}
