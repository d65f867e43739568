/** The lease heartbeat of a worker: a loop that extends, until told to stop or refused. */
module Heartbeat {
  import opened Prelude
  import opened JobModel
  import MemoryJobs

  /** What the loop wakes up for; a tick may find that the heartbeat was cancelled meanwhile. */
  datatype Signal = Stop | Tick(at: Time, cancelled: bool)

  /** Waiting for more, stopped on request, or stopped because the lease is gone. */
  datatype Ending = Waiting | Stopped | LeaseLost(error: JobError)

  /** The loop on one job's row. */
  function Beat(job: Job, worker: string, lease: int, signals: seq<Signal>): (Job, Ending)
    decreases |signals|
  {
    if signals == [] then (job, Waiting)
    else
      match signals[0]
      case Stop => (job, Stopped)
      case Tick(at, cancelled) =>
        var (after, r) := ExtendJob(job, worker, at, lease);
        if r.Ok? then Beat(after, worker, lease, signals[1..])
        else (after, if cancelled then Stopped else LeaseLost(r.error))
  }

  /** runLeaseHeartbeat over the signals that arrive; `cancelWork` is what the worker's context sees. */
  method RunLeaseHeartbeat(store: MemoryJobs.MemoryStore, id: string, worker: string, lease: int, signals: seq<Signal>)
    returns (ending: Ending, cancelWork: bool)
    requires store.Valid() && id in store.jobs
    modifies store`jobs
    ensures store.Valid()
    ensures var (job, end) := Beat(old(store.jobs)[id], worker, lease, signals);
            ending == end && store.jobs == old(store.jobs)[id := job]
    ensures cancelWork <==> ending.LeaseLost?
  {
    ghost var start := store.jobs;
    SameRow(start, id);
    for i := 0 to |signals|
      invariant store.Valid() && id in store.jobs
      invariant store.jobs == start[id := store.jobs[id]]
      invariant Beat(start[id], worker, lease, signals) == Beat(store.jobs[id], worker, lease, signals[i..])
    {
      assert signals[i..][0] == signals[i] && signals[i..][1..] == signals[i + 1..];
      match signals[i] {
        case Stop =>
          return Stopped, false;
        case Tick(at, cancelled) =>
          var r := store.ExtendLease(id, worker, at, lease);
          if r.Err? {
            return if cancelled then Stopped else LeaseLost(r.error), !cancelled;
          }
      }
    }
    assert signals[|signals|..] == [];
    return Waiting, false;
  }

  /** Ticks that all come before the lease they extend has run out. */
  predicate InTime(signals: seq<Signal>, until: Time, lease: int)
    decreases |signals|
  {
    signals == [] || signals[0].Stop?
    || (signals[0].at < until && InTime(signals[1..], signals[0].at + lease, lease))
  }

  /** A heartbeat in time never loses the lease, and changes nothing but the lease. */
  lemma {:induction false} InTimeKeepsLease(job: Job, worker: string, lease: int, signals: seq<Signal>)
    requires job.status == Running && job.leaseOwner == worker && lease > 0 && InTime(signals, job.leaseUntil, lease)
    ensures var (after, ending) := Beat(job, worker, lease, signals);
            && !ending.LeaseLost? && after.status == Running && after.leaseOwner == worker
            && after == job.(leaseUntil := after.leaseUntil, updatedAt := after.updatedAt)
    decreases |signals|
  {
    if signals != [] && signals[0].Tick? {
      InTimeKeepsLease(ExtendJob(job, worker, signals[0].at, lease).0, worker, lease, signals[1..]);
    }
  }

  /** Once the lease is gone, the first tick leaves the job alone and cancels the work. */
  lemma LostLeaseStopsWork(job: Job, worker: string, lease: int, signals: seq<Signal>)
    requires signals != [] && signals[0].Tick? && !HeldBy(job, worker, signals[0].at)
    ensures Beat(job, worker, lease, signals) == (job, if signals[0].cancelled then Stopped else LeaseLost(Conflict))
  {
  }

  /** Work is cancelled exactly when some tick, before any stop, came too late or to another's job. */
  lemma {:induction false} LostIffLate(job: Job, worker: string, lease: int, signals: seq<Signal>)
    requires job.status == Running && job.leaseOwner == worker && lease > 0
    requires forall i :: 0 <= i < |signals| && signals[i].Tick? ==> !signals[i].cancelled
    ensures Beat(job, worker, lease, signals).1.LeaseLost? <==> !InTime(signals, job.leaseUntil, lease)
    decreases |signals|
  {
    if signals != [] && signals[0].Tick? {
      var after := ExtendJob(job, worker, signals[0].at, lease).0;
      assert forall i :: 0 <= i < |signals[1..]| ==> signals[1..][i] == signals[i + 1];
      if signals[0].at < job.leaseUntil {
        LostIffLate(after, worker, lease, signals[1..]);
      }
    }
  }
}
