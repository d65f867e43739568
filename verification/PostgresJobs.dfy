/**
 The Postgres job store: statements as guarded updates on a table whose empty columns are
 NULL, and a claim that selects one row at a time inside a transaction.
 */
module PostgresJobs {
  import opened Prelude
  import opened JobModel

  datatype Row = Row(
    id: string,
    sessionId: string,
    status: Status,
    attempts: nat,
    maxAttempts: nat,
    leaseOwner: Option<string>,
    leaseUntil: Option<Time>,
    availableAt: Time,
    cardId: Option<string>,
    versionId: Option<string>,
    createdAt: Time,
    updatedAt: Time)

  type Table = map<string, Row>

  function TextOf(column: Option<string>): string
  {
    if column.Some? then column.value else ""
  }

  /** scanJob: NULL columns come back as Go zero values. */
  function Scan(row: Row): Job
  {
    Job(row.id, row.sessionId, row.status, row.attempts, row.maxAttempts, TextOf(row.leaseOwner),
        if row.leaseUntil.Some? then row.leaseUntil.value else ZERO_TIME, row.availableAt,
        TextOf(row.cardId), TextOf(row.versionId), row.createdAt, row.updatedAt)
  }

  function View(rows: Table): Jobs
  {
    map id | id in rows :: Scan(rows[id])
  }

  /** A lease is recorded exactly while a row runs, and no identity column holds an empty string. */
  predicate RowOk(row: Row)
  {
    && (row.status == Running <==> row.leaseUntil.Some?)
    && (row.status == Running <==> row.leaseOwner.Some?)
    && row.cardId != Some("") && row.versionId != Some("")
  }

  predicate HeldRow(row: Row, worker: string, at: Time)
  {
    && row.status == Running && row.leaseOwner == Some(worker)
    && row.leaseUntil.Some? && row.leaseUntil.value > at
  }

  /** Rows under their own id, and the unique session_id constraint. */
  ghost predicate TableOk(rows: Table)
  {
    && (forall id :: id in rows ==> RowOk(rows[id]) && rows[id].id == id)
    && (forall a, b :: a in rows && b in rows && rows[a].sessionId == rows[b].sessionId ==> a == b)
  }

  lemma PutRow(rows: Table, id: string, row: Row)
    requires TableOk(rows) && RowOk(row) && row.id == id
    requires forall other :: other in rows && other != id ==> rows[other].sessionId != row.sessionId
    ensures TableOk(rows[id := row]) && View(rows[id := row]) == View(rows)[id := Scan(row)]
  {
  }

  // ----- the statements, on scanned rows -----

  ghost function PgClaim(jobs: Jobs, worker: string, now: Time, lease: int): (Jobs, Result<Job, JobError>)
  {
    if Winner(jobs, now).None? then (jobs, Err(NoJob)) else Claim(jobs, worker, now, lease)
  }

  /** A claim that passes over the rows other transactions have locked. */
  ghost function SkippingClaim(jobs: Jobs, locked: set<string>, worker: string, now: Time, lease: int)
    : (Jobs, Result<Job, JobError>)
  {
    var (free, r) := PgClaim(jobs - locked, worker, now, lease);
    (jobs + free, r)
  }

  function Coalesce(column: string, value: string): string
  {
    if column == "" then value else column
  }

  function PgReserveJob(job: Job, worker: string, card: string, version: string, at: Time)
    : (Job, Result<Publication, JobError>)
  {
    if card == "" || version == "" || !HeldBy(job, worker, at) then (job, Err(Conflict))
    else
      var row := job.(cardId := Coalesce(job.cardId, card), versionId := Coalesce(job.versionId, version),
        updatedAt := at);
      (row, Ok(Publication(row.cardId, row.versionId)))
  }

  function PgFinishJob(job: Job, worker: string, status: Status, at: Time): (Job, Result<(), JobError>)
  {
    if HeldBy(job, worker, at) then (Released(job, status, at), Ok(()))
    else if job.status == status then (job, Ok(()))
    else (job, Err(Conflict))
  }

  function PgReserve(jobs: Jobs, id: string, worker: string, card: string, version: string, at: Time)
    : (Jobs, Result<Publication, JobError>)
  {
    if id !in jobs then (jobs, Err(Conflict))
    else var (job, r) := PgReserveJob(jobs[id], worker, card, version, at); (jobs[id := job], r)
  }

  function PgFinish(jobs: Jobs, id: string, worker: string, status: Status, at: Time): (Jobs, Result<(), JobError>)
  {
    if id !in jobs then (jobs, Err(NotFound))
    else var (job, r) := PgFinishJob(jobs[id], worker, status, at); (jobs[id := job], r)
  }

  function PgCancelJob(job: Job, sessionId: string, at: Time): Job
  {
    if job.sessionId == sessionId && (job.status == Queued || job.status == Running)
    then Released(job, Cancelled, at) else job
  }

  function PgCancel(jobs: Jobs, sessionId: string, at: Time): Jobs
  {
    map id | id in jobs :: PgCancelJob(jobs[id], sessionId, at)
  }

  ghost function PgEnqueue(jobs: Jobs, id: string, sessionId: string, at: Time): Jobs
  {
    if exists other :: other in jobs && jobs[other].sessionId == sessionId then jobs
    else jobs[id := NewJob(id, sessionId, at)]
  }

  /** The row claimJobQuery selects: the first claimable one, exhausted or not. */
  predicate IsSelected(rows: Table, now: Time, id: string)
  {
    && id in rows && Claimable(Scan(rows[id]), now)
    && forall other :: other in rows && other != id && Claimable(Scan(rows[other]), now)
                       ==> Before(Scan(rows[id]), Scan(rows[other]))
  }

  /** The update half of claimJobQuery: one row fails or is handed to the worker. */
  function ClaimUpdate(row: Row, worker: string, now: Time, lease: int): Row
  {
    if row.attempts >= row.maxAttempts then
      row.(status := Failed, leaseOwner := None, leaseUntil := None, updatedAt := now)
    else
      row.(status := Running, attempts := row.attempts + 1, leaseOwner := Some(worker),
           leaseUntil := Some(now + lease), updatedAt := now)
  }

  lemma SelectionExists(rows: Table, now: Time)
    requires Keyed(View(rows)) && exists id :: id in rows && Claimable(Scan(rows[id]), now)
    ensures exists id :: IsSelected(rows, now, id)
  {
    var open := set id | id in rows && Claimable(Scan(rows[id]), now);
    var some :| some in rows && Claimable(Scan(rows[some]), now);
    assert some in open;
    FirstExists(View(rows), open);
    var first :| IsFirst(View(rows), open, first);
    forall other | other in rows && other != first && Claimable(Scan(rows[other]), now)
      ensures Before(Scan(rows[first]), Scan(rows[other]))
    {
      assert other in open && other in View(rows);
    }
    assert IsSelected(rows, now, first);
  }

  /** Failing the selected exhausted row keeps the rows failed so far a set the claim passes over. */
  lemma SelectPasses(jobs: Jobs, now: Time, done: set<string>, id: string)
    requires PassedOver(jobs, now, done)
    requires id in jobs && id !in done && Claimable(jobs[id], now) && Exhausted(jobs[id])
    requires forall x :: x in jobs && Claimable(jobs[x], now) && x !in done && x != id ==> Before(jobs[id], jobs[x])
    ensures PassedOver(jobs, now, done + {id})
    ensures Expired(jobs, done + {id}, now) == Expired(jobs, done, now)[id := Released(jobs[id], Failed, now)]
  {
  }

  class PostgresStore {
    var rows: Table

    ghost predicate Valid()
      reads this
    {
      TableOk(rows)
    }

    constructor ()
      ensures Valid() && rows == map[]
    {
      rows := map[];
    }

    /**
     Select, update, and either go on past a failed row or commit; no commit when none is left.
     `locked` are the rows that other transactions hold, which a select never returns.
     */
    method Claim(locked: set<string>, worker: string, now: Time, lease: int) returns (r: Result<Job, JobError>)
      requires Valid()
      modifies this
      ensures Valid() && (View(rows), r) == SkippingClaim(old(View(rows)), locked, worker, now, lease)
      ensures r.Ok? ==> r.value.id in old(rows) && WasOpen(old(View(rows)[r.value.id]), now)
    {
      var work := rows - locked;
      ghost var jobs := View(work);
      FreeRows(rows, locked);
      ghost var done: set<string> := {};
      assert View(work) == Expired(jobs, done, now);
      while true
        invariant rows == old(rows) && TableOk(work)
        invariant View(work) == Expired(jobs, done, now) && PassedOver(jobs, now, done)
        decreases jobs.Keys - done
      {
        if id :| id in work && IsSelected(work, now, id) {
          var row := ClaimUpdate(work[id], worker, now, lease);
          if row.status == Failed {
            ClaimContinues(work, jobs, done, worker, now, lease, id);
            work := work[id := row];
            done := done + {id};
          } else {
            ClaimCommits(work, jobs, done, worker, now, lease, id);
            MergedRows(rows, locked, work[id := row], worker, now, lease);
            rows := rows + work[id := row];
            return Ok(Scan(row));
          }
        } else {
          NothingLeft(work, jobs, done, now);
          ClaimFindsNone(jobs, worker, now, lease, done);
          return Err(NoJob);
        }
      }
    }

    method Enqueue(newId: string, sessionId: string, at: Time) returns (job: Job)
      requires Valid() && newId !in rows
      modifies this
      ensures Valid() && View(rows) == PgEnqueue(old(View(rows)), newId, sessionId, at)
      ensures job.id in rows && View(rows)[job.id] == job && job.sessionId == sessionId
    {
      if existing :| existing in rows && rows[existing].sessionId == sessionId {
        assert existing in View(rows) && View(rows)[existing] == Scan(rows[existing]);
        return Scan(rows[existing]);
      }
      var row := Row(newId, sessionId, Queued, 0, MAX_ATTEMPTS, None, None, at, None, None, at, at);
      assert forall other :: other in View(rows) ==> View(rows)[other].sessionId == rows[other].sessionId;
      PutRow(rows, newId, row);
      rows := rows[newId := row];
      return Scan(row);
    }

    method ExtendLease(id: string, worker: string, now: Time, lease: int) returns (r: Result<(), JobError>)
      requires Valid()
      modifies this
      ensures Valid() && (View(rows), r) == JobModel.ExtendLease(old(View(rows)), id, worker, now, lease)
    {
      SameRow(View(rows), id);
      if lease <= 0 {
        return Err(Conflict);
      }
      if id !in rows || !HeldRow(rows[id], worker, now) {
        return Err(Conflict);
      }
      var row := rows[id].(leaseUntil := Some(now + lease), updatedAt := now);
      PutRow(rows, id, row);
      rows := rows[id := row];
      return Ok(());
    }

    method ReservePublication(id: string, worker: string, card: string, version: string, at: Time)
      returns (r: Result<Publication, JobError>)
      requires Valid()
      modifies this
      ensures Valid() && (View(rows), r) == PgReserve(old(View(rows)), id, worker, card, version, at)
    {
      SameRow(View(rows), id);
      if card == "" || version == "" || id !in rows || !HeldRow(rows[id], worker, at) {
        return Err(Conflict);
      }
      var row := rows[id];
      row := row.(cardId := Some(if row.cardId.Some? then row.cardId.value else card),
                  versionId := Some(if row.versionId.Some? then row.versionId.value else version), updatedAt := at);
      PutRow(rows, id, row);
      rows := rows[id := row];
      return Ok(Publication(row.cardId.value, row.versionId.value));
    }

    method Retry(id: string, worker: string, at: Time, availableAt: Time) returns (r: Result<(), JobError>)
      requires Valid()
      modifies this
      ensures Valid() && (View(rows), r) == JobModel.Retry(old(View(rows)), id, worker, at, availableAt)
    {
      SameRow(View(rows), id);
      if availableAt < at || id !in rows || !HeldRow(rows[id], worker, at) {
        return Err(Conflict);
      }
      var row := rows[id].(status := Queued, leaseOwner := None, leaseUntil := None,
                           availableAt := availableAt, updatedAt := at);
      PutRow(rows, id, row);
      rows := rows[id := row];
      return Ok(());
    }

    method Finish(id: string, worker: string, status: Status, at: Time) returns (r: Result<(), JobError>)
      requires Valid() && status != Running
      modifies this
      ensures Valid() && (View(rows), r) == PgFinish(old(View(rows)), id, worker, status, at)
    {
      SameRow(View(rows), id);
      if id in rows && HeldRow(rows[id], worker, at) {
        var row := rows[id].(status := status, leaseOwner := None, leaseUntil := None, updatedAt := at);
        PutRow(rows, id, row);
        rows := rows[id := row];
        return Ok(());
      }
      if id !in rows {
        return Err(NotFound);
      }
      return if rows[id].status == status then Ok(()) else Err(Conflict);
    }

    method CancelBySession(sessionId: string, at: Time)
      requires Valid()
      modifies this
      ensures Valid() && View(rows) == PgCancel(old(View(rows)), sessionId, at)
    {
      CancelTable(rows, sessionId, at);
      rows := CancelRows(rows, sessionId, at);
    }
  }

  function CancelRow(row: Row, sessionId: string, at: Time): Row
  {
    if row.sessionId == sessionId && (row.status == Queued || row.status == Running)
    then row.(status := Cancelled, leaseOwner := None, leaseUntil := None, updatedAt := at)
    else row
  }

  function CancelRows(rows: Table, sessionId: string, at: Time): Table
  {
    map id | id in rows :: CancelRow(rows[id], sessionId, at)
  }

  lemma CancelTable(rows: Table, sessionId: string, at: Time)
    requires TableOk(rows)
    ensures TableOk(CancelRows(rows, sessionId, at))
    ensures View(CancelRows(rows, sessionId, at)) == PgCancel(View(rows), sessionId, at)
  {
    forall id | id in rows
      ensures RowOk(CancelRow(rows[id], sessionId, at))
      ensures Scan(CancelRow(rows[id], sessionId, at)) == PgCancelJob(Scan(rows[id]), sessionId, at)
    {
      CancelOne(rows[id], sessionId, at);
    }
    CancelView(rows, sessionId, at);
  }

  lemma CancelView(rows: Table, sessionId: string, at: Time)
    requires forall id :: id in rows ==>
               Scan(CancelRow(rows[id], sessionId, at)) == PgCancelJob(Scan(rows[id]), sessionId, at)
    ensures View(CancelRows(rows, sessionId, at)) == PgCancel(View(rows), sessionId, at)
  {
    var left, right := View(CancelRows(rows, sessionId, at)), PgCancel(View(rows), sessionId, at);
    assert forall id :: id in left ==> left[id] == right[id];
  }

  lemma CancelOne(row: Row, sessionId: string, at: Time)
    requires RowOk(row)
    ensures RowOk(CancelRow(row, sessionId, at))
    ensures Scan(CancelRow(row, sessionId, at)) == PgCancelJob(Scan(row), sessionId, at)
  {
  }

  lemma FreeRows(rows: Table, locked: set<string>)
    requires TableOk(rows)
    ensures TableOk(rows - locked) && View(rows - locked) == View(rows) - locked
    ensures View(rows) + View(rows - locked) == View(rows)
  {
  }

  lemma ClaimKeepsSessions(jobs: Jobs, worker: string, now: Time, lease: int)
    ensures var after := PgClaim(jobs, worker, now, lease).0;
            after.Keys == jobs.Keys && forall id :: id in jobs ==> after[id].sessionId == jobs[id].sessionId
  {
  }

  lemma MergedView(rows: Table, after: Table)
    ensures View(rows + after) == View(rows) + View(after)
  {
  }

  lemma MergedRow(rows: Table, after: Table, id: string)
    requires TableOk(rows) && TableOk(after) && after.Keys <= rows.Keys && id in rows
    requires id in after ==> after[id].sessionId == rows[id].sessionId
    ensures var merged := rows + after;
            RowOk(merged[id]) && merged[id].id == id && merged[id].sessionId == rows[id].sessionId
  {
    if id in after {
      assert RowOk(after[id]);
    } else {
      assert RowOk(rows[id]);
    }
  }

  lemma SameSessions(rows: Table, merged: Table)
    requires TableOk(rows) && merged.Keys == rows.Keys
    requires forall id :: id in rows ==>
               RowOk(merged[id]) && merged[id].id == id && merged[id].sessionId == rows[id].sessionId
    ensures TableOk(merged)
  {
    forall a, b | a in merged && b in merged && merged[a].sessionId == merged[b].sessionId ensures a == b {
      assert rows[a].sessionId == rows[b].sessionId;
    }
  }

  lemma Merge(rows: Table, after: Table)
    requires TableOk(rows) && TableOk(after) && after.Keys <= rows.Keys
    requires forall id :: id in after ==> after[id].sessionId == rows[id].sessionId
    ensures TableOk(rows + after)
  {
    var merged := rows + after;
    forall id | id in rows
      ensures RowOk(merged[id]) && merged[id].id == id && merged[id].sessionId == rows[id].sessionId
    {
      MergedRow(rows, after, id);
    }
    assert merged.Keys == rows.Keys;
    SameSessions(rows, merged);
  }

  /** What a claim made of the free rows, back among the locked ones. */
  lemma MergedRows(rows: Table, locked: set<string>, after: Table, worker: string, now: Time, lease: int)
    requires TableOk(rows) && TableOk(after)
    requires View(after) == PgClaim(View(rows) - locked, worker, now, lease).0
    ensures TableOk(rows + after) && View(rows + after) == View(rows) + View(after)
  {
    ClaimKeepsSessions(View(rows) - locked, worker, now, lease);
    forall id | id in after ensures id in rows && after[id].sessionId == rows[id].sessionId {
      assert id in View(after);
      assert View(after)[id].sessionId == View(rows)[id].sessionId;
    }
    assert after.Keys <= rows.Keys;
    Merge(rows, after);
    MergedView(rows, after);
  }

  lemma ClaimContinues(work: Table, jobs: Jobs, done: set<string>, worker: string, now: Time, lease: int, id: string)
    requires TableOk(work) && View(work) == Expired(jobs, done, now) && PassedOver(jobs, now, done)
    requires IsSelected(work, now, id) && work[id].attempts >= work[id].maxAttempts
    ensures id in jobs && id !in done && PassedOver(jobs, now, done + {id})
    ensures var after := work[id := ClaimUpdate(work[id], worker, now, lease)];
            TableOk(after) && View(after) == Expired(jobs, done + {id}, now)
  {
    SelectedRow(work, jobs, done, now, id);
    PutRow(work, id, ClaimUpdate(work[id], worker, now, lease));
    SelectPasses(jobs, now, done, id);
  }

  lemma ClaimCommits(work: Table, jobs: Jobs, done: set<string>, worker: string, now: Time, lease: int, id: string)
    requires TableOk(work) && View(work) == Expired(jobs, done, now) && PassedOver(jobs, now, done) && Keyed(jobs)
    requires IsSelected(work, now, id) && work[id].attempts < work[id].maxAttempts
    ensures var row := ClaimUpdate(work[id], worker, now, lease);
            TableOk(work[id := row]) && (View(work[id := row]), Ok(Scan(row))) == PgClaim(jobs, worker, now, lease)
  {
    SelectedRow(work, jobs, done, now, id);
    PutRow(work, id, ClaimUpdate(work[id], worker, now, lease));
    ClaimStops(jobs, worker, now, lease, done, id);
  }

  lemma SelectedRow(work: Table, jobs: Jobs, done: set<string>, now: Time, id: string)
    requires View(work) == Expired(jobs, done, now) && IsSelected(work, now, id)
    ensures id in jobs && id !in done && Scan(work[id]) == jobs[id] && Claimable(jobs[id], now)
    ensures forall x :: x in jobs && Claimable(jobs[x], now) && x !in done && x != id ==> Before(jobs[id], jobs[x])
  {
    assert View(work)[id] == Expired(jobs, done, now)[id];
    forall x | x in jobs && Claimable(jobs[x], now) && x !in done && x != id ensures Before(jobs[id], jobs[x]) {
      assert View(work)[x] == Expired(jobs, done, now)[x];
    }
  }

  lemma NothingLeft(work: Table, jobs: Jobs, done: set<string>, now: Time)
    requires View(work) == Expired(jobs, done, now) && Keyed(jobs)
    requires forall id :: id in work ==> !IsSelected(work, now, id)
    ensures forall x :: x in jobs && Claimable(jobs[x], now) ==> x in done
  {
    assert Keyed(View(work));
    forall x | x in jobs && Claimable(jobs[x], now) ensures x in done {
      if x !in done {
        assert View(work)[x] == Expired(jobs, done, now)[x];
        SelectionExists(work, now);
      }
    }
  }

  // ----- claims that overlap -----

  /** The rows a claim has locked by the time it commits: the job it takes and the exhausted ones before it. */
  ghost function Taken(jobs: Jobs, now: Time): set<string>
  {
    var winner := WinnerJob(jobs, now);
    set id | id in jobs && Claimable(jobs[id], now) && winner.Some?
             && (winner.value.id == id || (Exhausted(jobs[id]) && Before(jobs[id], winner.value)))
  }

  /** Passing over rows a claim could not have taken leaves its answer as it is. */
  lemma SkippedWinner(jobs: Jobs, locked: set<string>, now: Time)
    requires forall id :: id in locked && id in jobs ==> !Claimable(jobs[id], now) || Exhausted(jobs[id])
    ensures Winner(jobs - locked, now) == Winner(jobs, now) && WinnerJob(jobs - locked, now) == WinnerJob(jobs, now)
  {
    var free := jobs - locked;
    forall id ensures IsWinner(free, now, id) <==> IsWinner(jobs, now, id) {
      if IsWinner(free, now, id) {
        forall other | other in jobs && other != id && Claimable(jobs[other], now) && !Exhausted(jobs[other])
          ensures Before(jobs[id], jobs[other])
        {
          assert other in free;
        }
      }
    }
    if Winner(jobs, now).Some? && Winner(free, now).Some? {
      WinnerUnique(jobs, now, Winner(jobs, now).value, Winner(free, now).value);
    }
  }

  lemma SkippingAnswers(jobs: Jobs, locked: set<string>, worker: string, now: Time, lease: int)
    requires forall id :: id in locked && id in jobs ==> !Claimable(jobs[id], now) || Exhausted(jobs[id])
    ensures SkippingClaim(jobs, locked, worker, now, lease).1 == PgClaim(jobs, worker, now, lease).1
  {
    SkippedWinner(jobs, locked, now);
  }

  lemma SkippingClaims(jobs: Jobs, locked: set<string>, worker: string, now: Time, lease: int)
    requires Keyed(jobs) && forall id :: id in locked && id in jobs ==> !Claimable(jobs[id], now)
    ensures SkippingClaim(jobs, locked, worker, now, lease) == PgClaim(jobs, worker, now, lease)
  {
    SkippedWinner(jobs, locked, now);
    var left, right := SkippingClaim(jobs, locked, worker, now, lease).0, PgClaim(jobs, worker, now, lease).0;
    assert left.Keys == right.Keys;
    forall id | id in jobs ensures left[id] == right[id] {
      if id in locked {
        assert WinnerJob(jobs, now).None? || WinnerJob(jobs, now).value.id != id;
      }
    }
    assert left == right;
  }

  /** Once committed, the rows a claim took are failed or leased, and the others are as they were. */
  lemma CommittedRows(jobs: Jobs, worker: string, at: Time, lease: int, now: Time)
    requires Keyed(jobs) && Winner(jobs, at).Some? && now < at + lease
    ensures var committed := PgClaim(jobs, worker, at, lease).0;
            && Keyed(committed) && committed - Taken(jobs, at) == jobs - Taken(jobs, at)
            && forall id :: id in Taken(jobs, at) ==> id in committed && !Claimable(committed[id], now)
  {
    var committed := PgClaim(jobs, worker, at, lease).0;
    assert committed.Keys == jobs.Keys;
    forall id | id in jobs && id !in Taken(jobs, at) ensures committed[id] == jobs[id] {
    }
  }

  /**
   Two claims under way at once come to the same as one after the other, as long as the first
   one's lease has not run out by the second one's clock.
   */
  lemma OverlappingClaims(jobs: Jobs, first: string, at: Time, lease: int, second: string, now: Time, span: int)
    requires Keyed(jobs) && Winner(jobs, at).Some? && now < at + lease
    ensures var (committed, job) := PgClaim(jobs, first, at, lease);
            var (found, other) := SkippingClaim(jobs, Taken(jobs, at), second, now, span);
            && (committed + (found - Taken(jobs, at)), other) == PgClaim(committed, second, now, span)
            && (other.Ok? ==> other.value.id != job.value.id)
  {
    var taken, committed := Taken(jobs, at), PgClaim(jobs, first, at, lease).0;
    CommittedRows(jobs, first, at, lease, now);
    SkippingClaims(committed, taken, second, now, span);
    var free := PgClaim(jobs - taken, second, now, span).0;
    ClaimKeepsSessions(jobs - taken, second, now, span);
    assert (jobs + free) - taken == free;
    assert Winner(jobs, at).value in taken;
  }
}
