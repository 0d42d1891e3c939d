// The leased and versioned refresh queue of proxy reputations.
module ReputationQueue {
  import opened Options
  import opened Ids
  import Sorting

  const SECOND := 1_000_000_000
  const RETRY_AFTER := 5 * SECOND
  const CHUNK := 1000

  // Lease 0 is the zero time: never leased, or released.
  datatype Row = Row(version: nat, requestedAt: int, lease: int)

  datatype Job = Job(id: nat, version: nat, requestedAt: int, lease: int)

  // ---- The statements -----------------------------------------------------------------------------------------

  // A request for a queued route only raises its version.
  function Requested(rows: map<nat, Row>, ids: set<nat>, now: int): map<nat, Row> {
    map id | id in rows.Keys + ids ::
      if id !in rows then Row(1, now, 0)
      else if id in ids then rows[id].(version := rows[id].version + 1)
      else rows[id]
  }

  predicate Claimable(rows: map<nat, Row>, now: int, id: nat) {
    id in rows && rows[id].lease <= now
  }

  function Leased(rows: map<nat, Row>, ids: set<nat>, until: int): map<nat, Row> {
    map id | id in rows :: if id in ids then rows[id].(lease := until) else rows[id]
  }

  predicate Owns(job: Job, id: nat, row: Row) {
    job.id == id && job.lease == row.lease
  }

  predicate Owned(jobs: set<Job>, id: nat, row: Row) {
    exists job | job in jobs :: Owns(job, id, row)
  }

  // A success deletes the rows whose version and lease are those of its claim.
  predicate Finished(jobs: set<Job>, id: nat, row: Row) {
    exists job | job in jobs :: Owns(job, id, row) && job.version == row.version
  }

  // Rows the claim still owns are released, at once after a success and with a delay after a failure.
  function Completed(rows: map<nat, Row>, jobs: set<Job>, succeeded: bool, now: int): map<nat, Row> {
    map id | id in rows && !(succeeded && Finished(jobs, id, rows[id])) ::
      if Owned(jobs, id, rows[id]) then rows[id].(lease := if succeeded then 0 else now + RETRY_AFTER) else rows[id]
  }

  function JobOf(rows: map<nat, Row>, id: nat): Job
    requires id in rows
  {
    Job(id, rows[id].version, rows[id].requestedAt, rows[id].lease)
  }

  const OLDEST := (a: Job, b: Job) => a.requestedAt < b.requestedAt || (a.requestedAt == b.requestedAt && a.id <= b.id)

  function JobSet(list: seq<Job>): set<Job> {
    set job | job in list
  }

  function JobIds(list: seq<Job>): set<nat> {
    set job | job in list :: job.id
  }

  ghost predicate DistinctIds(list: seq<Job>) {
    forall i, j | 0 <= i < j < |list| :: list[i].id != list[j].id
  }

  // The job a claim hands out for a row.
  function Taking(rows: map<nat, Row>, id: nat, until: int): Job
    requires id in rows
  {
    JobOf(rows, id).(lease := until)
  }

  // The oldest requests that nobody holds, no more than the limit.
  ghost predicate OldestClaimable(rows: map<nat, Row>, limit: int, now: int, until: int, jobs: seq<Job>) {
    && |jobs| <= limit && DistinctIds(jobs)
    && (forall job | job in jobs :: Claimable(rows, now, job.id) && job == Taking(rows, job.id, until))
    && (forall id | Claimable(rows, now, id) && Taking(rows, id, until) !in jobs ::
          |jobs| == limit && forall job | job in jobs :: OLDEST(job, Taking(rows, id, until)))
  }

  // What is handed out is as it was requested, and nobody holds it; what could have been handed out too was requested
  // no earlier than any of it.
  ghost predicate TakesOldest(rows: map<nat, Row>, limit: int, now: int, jobs: seq<Job>) {
    && |jobs| <= limit
    && (forall job | job in jobs :: job.id in rows && rows[job.id].lease <= now && job.version == rows[job.id].version && job.requestedAt == rows[job.id].requestedAt)
    && (forall id | id in rows && rows[id].lease <= now && (forall job | job in jobs :: job.id != id) ::
          |jobs| == limit && forall job | job in jobs :: job.requestedAt <= rows[id].requestedAt)
  }

  lemma OldestIsTaken(rows: map<nat, Row>, limit: int, now: int, until: int, jobs: seq<Job>)
    requires OldestClaimable(rows, limit, now, until, jobs)
    ensures TakesOldest(rows, limit, now, jobs)
  {
    forall id | id in rows && rows[id].lease <= now && (forall job | job in jobs :: job.id != id)
      ensures |jobs| == limit && forall job | job in jobs :: job.requestedAt <= rows[id].requestedAt
    {
      assert Claimable(rows, now, id) && Taking(rows, id, until) !in jobs;
    }
  }

  // Every row that nobody holds, once.
  ghost predicate AllDue(rows: map<nat, Row>, now: int, until: int, jobs: seq<Job>) {
    && DistinctIds(jobs)
    && (forall job | job in jobs :: Claimable(rows, now, job.id) && job == Taking(rows, job.id, until))
    && (forall id | Claimable(rows, now, id) :: Taking(rows, id, until) in jobs)
  }

  class Queue {
    var rows: map<nat, Row>

    constructor ()
      ensures rows == map[]
    {
      rows := map[];
    }

    method QueueRefresh(ids: set<nat>, now: int)
      modifies this
      ensures rows == Requested(old(rows), ids, now)
    {
      var order := SortedIds(ids);
      var start := 0;
      while start < |order|
        invariant 0 <= start <= |order|
        invariant rows == Requested(old(rows), Elements(order[..start]), now)
      {
        var end := if start + CHUNK < |order| then start + CHUNK else |order|;
        assert order[..end] == order[..start] + order[start..end];
        DistinctChunks(order, start, end);
        RequestedTwice(old(rows), Elements(order[..start]), Elements(order[start..end]), now);
        rows := Requested(rows, Elements(order[start..end]), now);
        start := end;
      }
      assert order[..|order|] == order;
    }

    method Claim(limit: int, lease: int, now: int) returns (jobs: seq<Job>)
      modifies this
      ensures limit < 1 ==> jobs == [] && rows == old(rows)
      ensures limit >= 1 ==> OldestClaimable(old(rows), limit, now, now + lease, jobs) && rows == Leased(old(rows), JobIds(jobs), now + lease)
      ensures limit >= 1 ==> TakesOldest(old(rows), limit, now, jobs)
    {
      hide OldestClaimable, JobIds, Leased, TakesOldest;
      if limit < 1 { return []; }
      ghost var before := rows;
      jobs := OldestDue(rows, limit, now, now + lease);
      OldestIsTaken(before, limit, now, now + lease, jobs);
      rows := Leased(rows, JobIds(jobs), now + lease);
    }

    // Each chunk deletes what it finished, then releases what it still owns.
    method Complete(jobs: seq<Job>, succeeded: bool, now: int)
      requires DistinctIds(jobs)
      modifies this
      ensures rows == Completed(old(rows), JobSet(jobs), succeeded, now)
    {
      var start := 0;
      assert JobSet(jobs[..0]) == {};
      while start < |jobs|
        invariant 0 <= start <= |jobs|
        invariant rows == Completed(old(rows), JobSet(jobs[..start]), succeeded, now)
      {
        var end := if start + CHUNK < |jobs| then start + CHUNK else |jobs|;
        var chunk := JobSet(jobs[start..end]);
        CompletedTwice(old(rows), jobs, start, end, succeeded, now);
        if succeeded {
          rows := map id | id in rows && !Finished(chunk, id, rows[id]) :: rows[id];
        }
        rows := map id | id in rows ::
          if Owned(chunk, id, rows[id]) then rows[id].(lease := if succeeded then 0 else now + RETRY_AFTER) else rows[id];
        start := end;
      }
      assert jobs[..|jobs|] == jobs;
    }
  }

  method OldestDue(rows: map<nat, Row>, limit: int, now: int, until: int) returns (jobs: seq<Job>)
    requires limit >= 1
    ensures OldestClaimable(rows, limit, now, until, jobs)
  {
    hide AllDue, OldestClaimable, DistinctIds;
    var listed := DueJobs(rows, now, until);
    var due := Sorting.Sort(OLDEST, listed);
    Sorting.SortSorts(OLDEST, listed);
    SortedDue(rows, now, until, listed, due);
    jobs := if |due| <= limit then due else due[..limit];
    PrefixIsOldest(rows, limit, now, until, due);
  }

  method DueJobs(rows: map<nat, Row>, now: int, until: int) returns (jobs: seq<Job>)
    ensures AllDue(rows, now, until, jobs)
  {
    var ids := Listed(set id | id in rows && rows[id].lease <= now);
    forall k | 0 <= k < |ids| ensures Claimable(rows, now, ids[k]) { assert ids[k] in Elements(ids); }
    jobs := [];
    for k := 0 to |ids|
      invariant |jobs| == k
      invariant forall n | 0 <= n < k :: jobs[n] == Taking(rows, ids[n], until)
    {
      jobs := jobs + [Taking(rows, ids[k], until)];
    }
    forall id | Claimable(rows, now, id) ensures Taking(rows, id, until) in jobs {
      assert id in Elements(ids);
      var k :| 0 <= k < |ids| && ids[k] == id;
      assert jobs[k] in jobs;
    }
  }

  lemma SortedDue(rows: map<nat, Row>, now: int, until: int, jobs: seq<Job>, due: seq<Job>)
    requires AllDue(rows, now, until, jobs) && multiset(jobs) == multiset(due)
    ensures AllDue(rows, now, until, due)
  {
    PermutedIds(jobs, due);
    forall job ensures job in jobs <==> job in due {
      assert job in multiset(jobs) <==> job in multiset(due);
    }
  }

  lemma PermutedIds(jobs: seq<Job>, due: seq<Job>)
    requires DistinctIds(jobs) && multiset(jobs) == multiset(due)
    ensures DistinctIds(due)
  {
    PermutedDifferent(jobs, due);
    forall i, j | 0 <= i < j < |due| ensures due[i].id != due[j].id {
      assert due[i] in multiset(due) && due[j] in multiset(due);
      var a :| 0 <= a < |jobs| && jobs[a] == due[i];
      var b :| 0 <= b < |jobs| && jobs[b] == due[j];
    }
  }

  lemma PrefixIsOldest(rows: map<nat, Row>, limit: int, now: int, until: int, due: seq<Job>)
    requires limit >= 1 && AllDue(rows, now, until, due) && Sorting.Sorted(OLDEST, due)
    ensures OldestClaimable(rows, limit, now, until, if |due| <= limit then due else due[..limit])
  {
    if |due| > limit {
      forall id | Claimable(rows, now, id) && Taking(rows, id, until) !in due[..limit]
        ensures forall job | job in due[..limit] :: OLDEST(job, Taking(rows, id, until))
      {
        var k :| 0 <= k < |due| && due[k] == Taking(rows, id, until);
        forall job | job in due[..limit] ensures OLDEST(job, due[k]) {
          var n :| 0 <= n < limit && due[n] == job;
          assert due[k] in due[..limit] || k >= limit;
          assert OLDEST(due[n], due[k]);
        }
      }
    }
  }

  lemma DistinctChunks(order: seq<nat>, start: nat, end: nat)
    requires Ascending(order) && start <= end <= |order|
    ensures Elements(order[..start]) !! Elements(order[start..end])
    ensures Elements(order[..end]) == Elements(order[..start]) + Elements(order[start..end])
  {
    assert order[..end] == order[..start] + order[start..end];
  }

  lemma RequestedTwice(rows: map<nat, Row>, a: set<nat>, b: set<nat>, now: int)
    requires a !! b
    ensures Requested(Requested(rows, a, now), b, now) == Requested(rows, a + b, now)
  {
  }

  // Two sets of jobs for different routes act one after the other as they act together.
  lemma CompletedApart(rows: map<nat, Row>, a: set<Job>, b: set<Job>, succeeded: bool, now: int)
    requires forall x, y | x in a && y in b :: x.id != y.id
    ensures Completed(Completed(rows, a, succeeded, now), b, succeeded, now) == Completed(rows, a + b, succeeded, now)
  {
  }

  // Two chunks of a claim touch different rows, so they come to the same as one.
  lemma CompletedTwice(rows: map<nat, Row>, jobs: seq<Job>, start: nat, end: nat, succeeded: bool, now: int)
    requires DistinctIds(jobs) && start <= end <= |jobs|
    ensures Completed(Completed(rows, JobSet(jobs[..start]), succeeded, now), JobSet(jobs[start..end]), succeeded, now) ==
            Completed(rows, JobSet(jobs[..end]), succeeded, now)
  {
    hide Completed;
    var a, b := JobSet(jobs[..start]), JobSet(jobs[start..end]);
    assert jobs[..end] == jobs[..start] + jobs[start..end];
    assert JobSet(jobs[..end]) == a + b;
    forall x, y | x in a && y in b ensures x.id != y.id {
      var i :| 0 <= i < start && jobs[..start][i] == x;
      var j :| 0 <= j < end - start && jobs[start..end][j] == y;
      assert jobs[i].id != jobs[start + j].id;
    }
    CompletedApart(rows, a, b, succeeded, now);
  }
}
