/** The in-memory job store, with its maps as fields and its claim as sort and scan. */
module MemoryJobs {
  import opened Prelude
  import opened JobModel

  // ----- sort.Slice over the claim order -----

  function InsertJob(sorted: seq<Job>, job: Job): (r: seq<Job>)
  {
    if sorted == [] then [job]
    else if Before(job, sorted[0]) then [job] + sorted
    else [sorted[0]] + InsertJob(sorted[1..], job)
  }

  function SortJobs(jobs: seq<Job>): (r: seq<Job>)
  {
    if jobs == [] then [] else InsertJob(SortJobs(jobs[1..]), jobs[0])
  }

  ghost predicate InOrder(jobs: seq<Job>)
  {
    forall i, j :: 0 <= i < j < |jobs| ==> Before(jobs[i], jobs[j])
  }

  ghost predicate DistinctIds(jobs: seq<Job>)
  {
    forall i, j :: 0 <= i < j < |jobs| ==> jobs[i].id != jobs[j].id
  }

  lemma {:induction false} InsertMembers(sorted: seq<Job>, job: Job)
    ensures |InsertJob(sorted, job)| == |sorted| + 1
    ensures forall x :: x in InsertJob(sorted, job) <==> x == job || x in sorted
  {
    if sorted != [] && !Before(job, sorted[0]) {
      InsertMembers(sorted[1..], job);
      assert sorted == [sorted[0]] + sorted[1..];
    }
  }

  lemma {:induction false} InsertInOrder(sorted: seq<Job>, job: Job)
    requires InOrder(sorted) && forall x :: x in sorted ==> x.id != job.id
    ensures InOrder(InsertJob(sorted, job))
  {
    if sorted == [] {
    } else if Before(job, sorted[0]) {
      forall k | 0 <= k < |sorted| ensures Before(job, sorted[k]) {
        if k > 0 {
          BeforeTransitive(job, sorted[0], sorted[k]);
        }
      }
    } else {
      assert sorted[0] in sorted;
      BeforeTotal(job, sorted[0]);
      var tail := InsertJob(sorted[1..], job);
      InsertInOrder(sorted[1..], job);
      InsertMembers(sorted[1..], job);
      forall k | 0 <= k < |tail| ensures Before(sorted[0], tail[k]) {
        assert tail[k] in tail;
        if tail[k] != job {
          var i :| 0 <= i < |sorted[1..]| && sorted[1..][i] == tail[k];
          assert Before(sorted[0], sorted[1 + i]);
        }
      }
    }
  }

  /** Sorting keeps exactly the jobs given and puts them in claim order. */
  lemma {:induction false} SortSorts(jobs: seq<Job>)
    requires DistinctIds(jobs)
    ensures InOrder(SortJobs(jobs)) && |SortJobs(jobs)| == |jobs|
    ensures forall x :: x in SortJobs(jobs) <==> x in jobs
  {
    if jobs != [] {
      SortSorts(jobs[1..]);
      InsertMembers(SortJobs(jobs[1..]), jobs[0]);
      forall x | x in SortJobs(jobs[1..]) ensures x.id != jobs[0].id {
        var i :| 0 <= i < |jobs[1..]| && jobs[1..][i] == x;
        assert jobs[0].id != jobs[1 + i].id;
      }
      InsertInOrder(SortJobs(jobs[1..]), jobs[0]);
      assert jobs == [jobs[0]] + jobs[1..];
    }
  }

  // ----- the scan over the sorted candidates -----

  ghost predicate IsCandidateList(jobs: Jobs, now: Time, list: seq<Job>)
  {
    && InOrder(list)
    && (forall i :: 0 <= i < |list| ==> list[i].id in jobs && jobs[list[i].id] == list[i] && Claimable(list[i], now))
    && (forall id :: id in jobs && Claimable(jobs[id], now) ==> jobs[id] in list)
  }

  /** The claimable jobs outside `rest`, each once. */
  ghost predicate Gathered(jobs: Jobs, rest: Jobs, now: Time, list: seq<Job>)
  {
    && rest.Keys <= jobs.Keys && (forall id :: id in rest ==> rest[id] == jobs[id]) && DistinctIds(list)
    && (forall i :: 0 <= i < |list| ==>
          list[i].id in jobs && list[i].id !in rest && jobs[list[i].id] == list[i] && Claimable(list[i], now))
    && forall id :: id in jobs && id !in rest && Claimable(jobs[id], now) ==> jobs[id] in list
  }

  lemma GatherNext(jobs: Jobs, rest: Jobs, now: Time, list: seq<Job>, id: string)
    requires Keyed(jobs) && Gathered(jobs, rest, now, list) && id in rest
    ensures Gathered(jobs, rest - {id}, now, if Claimable(rest[id], now) then list + [rest[id]] else list)
  {
  }

  /** All claimable jobs, each once, make up the candidates when they are sorted. */
  lemma CandidatesSorted(jobs: Jobs, now: Time, list: seq<Job>)
    requires Keyed(jobs) && DistinctIds(list)
    requires forall i :: 0 <= i < |list| ==>
               list[i].id in jobs && jobs[list[i].id] == list[i] && Claimable(list[i], now)
    requires forall id :: id in jobs && Claimable(jobs[id], now) ==> jobs[id] in list
    ensures IsCandidateList(jobs, now, SortJobs(list))
    ensures forall id :: id in jobs ==> (jobs[id] in list <==> WasOpen(jobs[id], now))
  {
    var sorted := SortJobs(list);
    SortSorts(list);
    forall i | 0 <= i < |sorted|
      ensures sorted[i].id in jobs && jobs[sorted[i].id] == sorted[i] && Claimable(sorted[i], now)
    {
      assert sorted[i] in sorted;
      assert sorted[i] in list;
    }
  }

  ghost function Ids(list: seq<Job>, n: nat): set<string>
    requires n <= |list|
  {
    set i | 0 <= i < n :: list[i].id
  }

  lemma ScanPasses(jobs: Jobs, now: Time, list: seq<Job>, i: nat)
    requires IsCandidateList(jobs, now, list) && i < |list|
    ensures Expired(jobs, Ids(list, i + 1), now) ==
            Expired(jobs, Ids(list, i), now)[list[i].id := Released(list[i], Failed, now)]
  {
    assert Ids(list, i + 1) == Ids(list, i) + {list[i].id};
  }

  /** The first i candidates, all exhausted, are a set of rows a claim passes over. */
  lemma ScanPassedOver(jobs: Jobs, now: Time, list: seq<Job>, i: nat)
    requires Keyed(jobs) && IsCandidateList(jobs, now, list) && i <= |list|
    requires forall k :: 0 <= k < i ==> Exhausted(list[k])
    ensures PassedOver(jobs, now, Ids(list, i))
  {
    var done := Ids(list, i);
    forall d, x | d in done && x in jobs && Claimable(jobs[x], now) && x !in done
      ensures d in jobs && Before(jobs[d], jobs[x])
    {
      var k :| 0 <= k < i && list[k].id == d;
      var m :| 0 <= m < |list| && list[m] == jobs[x];
      assert m >= i;
    }
  }

  lemma ScanFirst(jobs: Jobs, now: Time, list: seq<Job>, i: nat)
    requires Keyed(jobs) && IsCandidateList(jobs, now, list) && i < |list|
    ensures forall x :: x in jobs && Claimable(jobs[x], now) && x !in Ids(list, i) && x != list[i].id
                        ==> Before(list[i], jobs[x])
    ensures list[i].id !in Ids(list, i)
  {
    forall x | x in jobs && Claimable(jobs[x], now) && x !in Ids(list, i) && x != list[i].id
      ensures Before(list[i], jobs[x])
    {
      var m :| 0 <= m < |list| && list[m] == jobs[x];
      assert m > i;
    }
    if list[i].id in Ids(list, i) {
      var k :| 0 <= k < i && list[k].id == list[i].id;
      BeforeAsymmetric(list[k], list[i]);
    }
  }

  lemma ScanCovers(jobs: Jobs, now: Time, list: seq<Job>)
    requires Keyed(jobs) && IsCandidateList(jobs, now, list)
    ensures forall x :: x in jobs && Claimable(jobs[x], now) ==> x in Ids(list, |list|)
  {
    forall x | x in jobs && Claimable(jobs[x], now) ensures x in Ids(list, |list|) {
      var m :| 0 <= m < |list| && list[m] == jobs[x];
      assert list[m].id == x;
    }
  }

  class MemoryStore {
    var jobs: Jobs
    var session: map<string, string>

    ghost predicate Valid()
      reads this
    {
      Indexed(jobs, session)
    }

    constructor ()
      ensures Valid() && jobs == map[] && session == map[]
    {
      jobs, session := map[], map[];
    }

    method Enqueue(newId: string, sessionId: string, at: Time) returns (job: Job)
      requires Valid() && newId !in jobs
      modifies this
      ensures Valid()
      ensures (jobs, session) == JobModel.Enqueue(old(jobs), old(session), newId, sessionId, at)
      ensures sessionId in session && session[sessionId] in jobs && job == jobs[session[sessionId]]
    {
      if sessionId in session {
        return jobs[session[sessionId]];
      }
      job := NewJob(newId, sessionId, at);
      jobs := jobs[job.id := job];
      session := session[sessionId := job.id];
    }

    method Candidates(now: Time) returns (list: seq<Job>)
      requires Valid()
      ensures IsCandidateList(jobs, now, SortJobs(list))
      ensures forall id :: id in jobs ==> (jobs[id] in list <==> WasOpen(jobs[id], now))
    {
      list := [];
      var rest := jobs;
      while rest != map[]
        invariant Gathered(jobs, rest, now, list)
        decreases |rest|
      {
        var id :| id in rest;
        GatherNext(jobs, rest, now, list, id);
        if Claimable(rest[id], now) {
          list := list + [rest[id]];
        }
        rest := rest - {id};
      }
      CandidatesSorted(jobs, now, list);
    }

    /** Sort the claimable jobs, fail the exhausted ones on the way, hand out the first other one. */
    method Claim(worker: string, now: Time, lease: int) returns (r: Result<Job, JobError>)
      requires Valid()
      modifies this`jobs
      ensures Valid()
      ensures (jobs, r) == JobModel.Claim(old(jobs), worker, now, lease)
      ensures r.Ok? ==> r.value.id in old(jobs) && WasOpen(old(jobs[r.value.id]), now)
    {
      var candidates := Candidates(now);
      ClaimIndexed(jobs, session, worker, now, lease);
      r := Scan(SortJobs(candidates), worker, now, lease);
    }

    method Scan(candidates: seq<Job>, worker: string, now: Time, lease: int) returns (r: Result<Job, JobError>)
      requires Keyed(jobs) && IsCandidateList(jobs, now, candidates)
      modifies this`jobs
      ensures (jobs, r) == JobModel.Claim(old(jobs), worker, now, lease)
    {
      ghost var before := jobs;
      assert jobs == Expired(before, {}, now);
      for i := 0 to |candidates|
        invariant jobs == Expired(before, Ids(candidates, i), now)
        invariant forall k :: 0 <= k < i ==> Exhausted(candidates[k])
      {
        var job := candidates[i];
        if job.attempts >= job.maxAttempts {
          ScanPasses(before, now, candidates, i);
          jobs := jobs[job.id := Released(job, Failed, now)];
        } else {
          ScanPassedOver(before, now, candidates, i);
          ScanFirst(before, now, candidates, i);
          ClaimStops(before, worker, now, lease, Ids(candidates, i), job.id);
          job := Granted(job, worker, now, lease);
          jobs := jobs[job.id := job];
          return Ok(job);
        }
      }
      ScanPassedOver(before, now, candidates, |candidates|);
      ScanCovers(before, now, candidates);
      ClaimFindsNone(before, worker, now, lease, Ids(candidates, |candidates|));
      return Err(NoJob);
    }

    method ExtendLease(id: string, worker: string, now: Time, lease: int) returns (r: Result<(), JobError>)
      requires Valid()
      modifies this`jobs
      ensures Valid() && (jobs, r) == JobModel.ExtendLease(old(jobs), id, worker, now, lease)
    {
      SameRow(jobs, id);
      if lease <= 0 {
        return Err(Conflict);
      }
      if id !in jobs || !HeldBy(jobs[id], worker, now) {
        return Err(Conflict);
      }
      jobs := jobs[id := jobs[id].(leaseUntil := now + lease, updatedAt := now)];
      return Ok(());
    }

    method ReservePublication(id: string, worker: string, card: string, version: string, at: Time)
      returns (r: Result<Publication, JobError>)
      requires Valid()
      modifies this`jobs
      ensures Valid() && (jobs, r) == JobModel.ReservePublication(old(jobs), id, worker, card, version, at)
    {
      SameRow(jobs, id);
      if id !in jobs || !HeldBy(jobs[id], worker, at) {
        return Err(Conflict);
      }
      if jobs[id].cardId == "" && jobs[id].versionId == "" {
        if card == "" || version == "" {
          return Err(Conflict);
        }
        jobs := jobs[id := jobs[id].(cardId := card, versionId := version, updatedAt := at)];
      }
      return Ok(Publication(jobs[id].cardId, jobs[id].versionId));
    }

    method Retry(id: string, worker: string, at: Time, availableAt: Time) returns (r: Result<(), JobError>)
      requires Valid()
      modifies this`jobs
      ensures Valid() && (jobs, r) == JobModel.Retry(old(jobs), id, worker, at, availableAt)
    {
      SameRow(jobs, id);
      if id !in jobs || !HeldBy(jobs[id], worker, at) || availableAt < at {
        return Err(Conflict);
      }
      jobs := jobs[id := jobs[id].(status := Queued, leaseOwner := "", leaseUntil := ZERO_TIME,
                                   availableAt := availableAt, updatedAt := at)];
      return Ok(());
    }

    method Finish(id: string, worker: string, status: Status, at: Time) returns (r: Result<(), JobError>)
      requires Valid()
      modifies this`jobs
      ensures Valid() && (jobs, r) == JobModel.Finish(old(jobs), id, worker, status, at)
    {
      SameRow(jobs, id);
      if id !in jobs {
        return Err(NotFound);
      }
      if jobs[id].status == status {
        return Ok(());
      }
      if !HeldBy(jobs[id], worker, at) {
        return Err(Conflict);
      }
      jobs := jobs[id := jobs[id].(status := status, leaseOwner := "", leaseUntil := ZERO_TIME, updatedAt := at)];
      return Ok(());
    }

    method CancelBySession(sessionId: string, at: Time)
      requires Valid()
      modifies this`jobs
      ensures Valid() && jobs == JobModel.Cancel(old(jobs), session, sessionId, at)
    {
      if sessionId !in session {
        return;
      }
      var id := session[sessionId];
      if jobs[id].status == Completed || jobs[id].status == Failed || jobs[id].status == Cancelled {
        return;
      }
      jobs := jobs[id := jobs[id].(status := Cancelled, leaseOwner := "", leaseUntil := ZERO_TIME, updatedAt := at)];
    }
  }
}
