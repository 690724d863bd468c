/** The `scheduled_jobs` table and the SQL statements the job worker runs on it.

    Rows are never inserted or deleted while the workers run, so the table is a sequence and
    a job's id is its index. Each statement is one atomic step on the committed rows. */
module Jobs {
  import opened Wrappers

  type JobId = nat

  type WorkerId = nat

  const BATCH_SIZE: nat := 10

  datatype Status = PENDING | RUNNING

  datatype Job = Job(
    name: string,
    interval: int, // seconds
    status: Status,
    nextRunAt: Time,
    lastRunAt: Option<Time>,
    lastError: Option<string>,
    runCount: nat,
    claimedBy: Option<WorkerId>,
    leaseUntil: Option<Time>)

  // What the `where` clauses of the statements test.

  predicate Due(job: Job, now: Time) {
    job.status == PENDING && job.nextRunAt <= now
  }

  predicate Stale(job: Job, now: Time) {
    job.status == RUNNING && (job.leaseUntil.None? || job.leaseUntil.value < now)
  }

  // What the `values` clauses write.

  function Release(job: Job): Job {
    job.(status := PENDING, claimedBy := None, leaseUntil := None)
  }

  function Claim(job: Job, worker: WorkerId, lease: Time): Job {
    job.(status := RUNNING, claimedBy := Some(worker), leaseUntil := Some(lease))
  }

  function Reschedule(job: Job, now: Time, interval: int, error: Option<string>): Job {
    Release(job).(
      nextRunAt := now + interval * SECOND,
      lastRunAt := Some(now),
      lastError := error,
      runCount := job.runCount + 1)
  }

  /** The update of `_recover_stale_jobs`, over the whole table. */
  function Recovered(jobs: seq<Job>, now: Time): seq<Job> {
    seq(|jobs|, j requires 0 <= j < |jobs| => if Stale(jobs[j], now) then Release(jobs[j]) else jobs[j])
  }

  predicate Distinct(ids: seq<nat>) {
    forall a, b :: 0 <= a < b < |ids| ==> ids[a] != ids[b]
  }

  /** `ids` is a possible answer of: select the due jobs, order by next_run_at, limit. Jobs
      with equal `nextRunAt` may come in any order, and a tie at the limit may go either way. */
  predicate IsPage(jobs: seq<Job>, now: Time, limit: nat, ids: seq<JobId>) {
    && |ids| <= limit
    && Distinct(ids)
    && (forall a :: 0 <= a < |ids| ==> ids[a] < |jobs| && Due(jobs[ids[a]], now))
    && (forall a, b :: 0 <= a < b < |ids| ==> jobs[ids[a]].nextRunAt <= jobs[ids[b]].nextRunAt)
    && (forall j :: 0 <= j < |jobs| && Due(jobs[j], now) && j !in ids ==>
          |ids| == limit && forall a :: 0 <= a < |ids| ==> jobs[ids[a]].nextRunAt <= jobs[j].nextRunAt)
  }

  /** Which rows these are, in the columns of the table. */
  lemma PageMeans(jobs: seq<Job>, now: Time, limit: nat, ids: seq<JobId>)
    requires IsPage(jobs, now, limit, ids)
    ensures |ids| <= limit
    ensures forall j :: j in ids ==> j < |jobs| && jobs[j].status == PENDING && jobs[j].nextRunAt <= now
    ensures forall a, b :: 0 <= a < b < |ids| ==>
      ids[a] != ids[b] && jobs[ids[a]].nextRunAt <= jobs[ids[b]].nextRunAt
    ensures forall j :: 0 <= j < |jobs| && jobs[j].status == PENDING && jobs[j].nextRunAt <= now && j !in ids ==>
      |ids| == limit && forall a :: 0 <= a < |ids| ==> jobs[ids[a]].nextRunAt <= jobs[j].nextRunAt
  {
    forall j | 0 <= j < |jobs| && jobs[j].status == PENDING && jobs[j].nextRunAt <= now && j !in ids
      ensures |ids| == limit
    {
      assert Due(jobs[j], now);
    }
    assert forall j :: 0 <= j < |jobs| && jobs[j].status == PENDING && jobs[j].nextRunAt <= now ==> Due(jobs[j], now);
  }

  /** The other due jobs that the candidate query may put before job `j`: earlier or tied. */
  function Ahead(jobs: seq<Job>, now: Time, j: JobId): set<JobId>
    requires j < |jobs|
  {
    set k: JobId | k < |jobs| && k != j && Due(jobs[k], now) && jobs[k].nextRunAt <= jobs[j].nextRunAt
  }

  /** The other jobs, of any status, scheduled no later than job `j`. */
  function Earlier(jobs: seq<Job>, j: JobId): set<JobId>
    requires j < |jobs|
  {
    set k: JobId | k < |jobs| && k != j && jobs[k].nextRunAt <= jobs[j].nextRunAt
  }

  function Elements(ids: seq<nat>): set<nat> { set id | id in ids }

  lemma {:induction false} DistinctCount(ids: seq<nat>)
    requires Distinct(ids)
    ensures |Elements(ids)| == |ids|
  {
    if ids != [] {
      var last, front := ids[|ids| - 1], ids[..|ids| - 1];
      DistinctCount(front);
      assert ids == front + [last];
      assert Elements(ids) == Elements(front) + {last};
      assert last !in front;
    }
  }

  /** A due job is on every page the query may return, as long as fewer than `limit` other
      due jobs are earlier or tied with it. */
  lemma FewAheadIsSelected(jobs: seq<Job>, now: Time, limit: nat, ids: seq<JobId>, j: JobId)
    requires j < |jobs| && Due(jobs[j], now)
    requires IsPage(jobs, now, limit, ids)
    requires |Ahead(jobs, now, j)| < limit
    ensures j in ids
  {
    if j !in ids {
      DistinctCount(ids);
      assert Elements(ids) <= Ahead(jobs, now, j);
      SubsetCount(Elements(ids), Ahead(jobs, now, j));
      assert false;
    }
  }

  lemma {:induction false} EarliestExists(jobs: seq<Job>, pool: set<JobId>) returns (first: JobId)
    requires pool != {}
    requires forall j :: j in pool ==> j < |jobs|
    ensures first in pool && forall j :: j in pool ==> jobs[first].nextRunAt <= jobs[j].nextRunAt
    decreases |pool|
  {
    first :| first in pool;
    var rest := pool - {first};
    if rest != {} {
      var next := EarliestExists(jobs, rest);
      first := if jobs[next].nextRunAt < jobs[first].nextRunAt then next else first;
    }
  }

  /** The candidate query always has an answer. */
  lemma {:induction false} PageExists(jobs: seq<Job>, now: Time, limit: nat) returns (ids: seq<JobId>)
    ensures IsPage(jobs, now, limit, ids)
    ensures limit > 0 && (exists j :: 0 <= j < |jobs| && Due(jobs[j], now)) ==> ids != []
  {
    ids := [];
    if limit > 0 {
      ids := PageExists(jobs, now, limit - 1);
      var left := set j: JobId | j < |jobs| && Due(jobs[j], now) && j !in ids;
      if left != {} {
        var next := EarliestExists(jobs, left);
        ids := ids + [next];
      } else {
        forall j | 0 <= j < |jobs| && Due(jobs[j], now) ensures j in ids {
          assert j !in left;
        }
      }
    }
  }
}
