/** The job worker as one process runs it. The store is the committed table; every method that
    opens a session is one atomic statement on it. What other workers may do between two
    statements is the subject of `JobProtocol`, which takes its steps from the same functions. */
module JobWorker {
  import opened Wrappers
  import opened Jobs

  /** One call of a handler: what it raised, when it ran, and the table while it ran. */
  datatype Ran = Ran(name: string, error: Option<string>, startedAt: Time, endedAt: Time, table: seq<Job>)

  class JobStore {
    var jobs: seq<Job>
    var clock: Time
    var runs: seq<Ran> // the handlers called so far
    var times: seq<Time> // the clock reads so far

    constructor (jobs: seq<Job>, clock: Time)
      ensures this.jobs == jobs && this.clock == clock && runs == [] && times == []
    {
      this.jobs, this.clock, runs, times := jobs, clock, [], [];
    }

    /** `datetime.now(UTC)`: any amount of time may have passed since the clock was last read. */
    method Now() returns (now: Time)
      modifies this`clock, this`times
      ensures old(clock) <= now == clock && times == old(times) + [now]
    {
      var elapsed: int :| elapsed >= 0;
      clock := clock + elapsed;
      now := clock;
      times := times + [now];
    }
  }

  /** What one poll did: the candidates it read at `now`, the table before and after, and the
      handlers it called, of those in `registry`. */
  datatype Poll = Poll(
    now: Time, ids: seq<JobId>, before: seq<Job>, after: seq<Job>, registry: set<string>, runs: seq<Ran>)

  predicate PositiveIntervals(jobs: seq<Job>) {
    forall j :: 0 <= j < |jobs| ==> jobs[j].interval > 0
  }

  /** The candidates ran exactly once each and moved past the poll; nothing else changed. */
  predicate Polled(p: Poll) {
    && |p.after| == |p.before|
    && IsPage(p.before, p.now, BATCH_SIZE, p.ids)
    && (forall j :: 0 <= j < |p.before| && j !in p.ids ==> p.after[j] == p.before[j])
    && (forall j :: 0 <= j < |p.before| && j in p.ids ==> RanOnce(p.before[j], p.after[j], p.now))
    && Logged(p.before, p.after, p.ids, p.registry, p.runs)
  }

  predicate RanOnce(before: Job, after: Job, now: Time) {
    && after.status == PENDING && after.claimedBy.None? && after.leaseUntil.None?
    && after.runCount == before.runCount + 1
    && after.name == before.name && after.interval == before.interval
    && after.lastRunAt.Some? && now <= after.lastRunAt.value
    && after.nextRunAt == after.lastRunAt.value + before.interval * SECOND
  }

  // Handlers.

  function NoHandler(name: string): string {
    "No handler registered for job '" + name + "'"
  }

  /** `error[-500:]` */
  function Tail(s: string): (tail: string)
    ensures |tail| == Min(|s|, 500) && s == s[..|s| - |tail|] + tail
  {
    if |s| <= 500 then s else s[|s| - 500..]
  }

  /** What the row keeps of an error. */
  function Kept(error: Option<string>): (kept: Option<string>)
    ensures kept.Some? <==> error.Some? && error.value != ""
    ensures kept.Some? ==> kept.value == Tail(error.value)
  {
    if error.Some? && error.value != "" then Some(Tail(error.value)) else None
  }

  /** The handler of the job was called, ended before the reschedule, and left its error. */
  predicate HandledBy(before: Job, after: Job, run: Ran) {
    && run.name == before.name
    && run.startedAt <= run.endedAt
    && after.lastRunAt.Some? && run.endedAt <= after.lastRunAt.value
    && after.lastError == Kept(run.error)
  }

  /** What one execution of a job adds to the log: one call of its handler, if there is one;
      otherwise the row says that there is none. */
  predicate LoggedAs(before: Job, after: Job, registry: set<string>, runs: seq<Ran>) {
    if before.name in registry then |runs| == 1 && HandledBy(before, after, runs[0])
    else runs == [] && after.lastError == Kept(Some(NoHandler(before.name)))
  }

  /** While the handler ran, the row was claimed by worker `id`, and nothing else was changed. */
  predicate ClaimedDuring(before: seq<Job>, run: Ran, j: JobId, id: WorkerId)
    requires j < |before|
  {
    && |run.table| == |before| && run.table[j].leaseUntil.Some?
    && run.table == before[j := before[j].(
         status := RUNNING, claimedBy := Some(id), leaseUntil := run.table[j].leaseUntil)]
  }

  /** The candidates with a handler, in the order of the page. */
  function WithHandler(jobs: seq<Job>, ids: seq<JobId>, registry: set<string>): seq<JobId> {
    if ids == [] then []
    else
      var n := |ids| - 1;
      WithHandler(jobs, ids[..n], registry)
      + (if ids[n] < |jobs| && jobs[ids[n]].name in registry then [ids[n]] else [])
  }

  /** Exactly the handlers of these candidates were called, once each and in order, and their
      errors are on the rows; where there is no handler, the row says so. */
  predicate Logged(before: seq<Job>, jobs: seq<Job>, ids: seq<JobId>, registry: set<string>, runs: seq<Ran>) {
    && |jobs| == |before|
    && |runs| == |WithHandler(before, ids, registry)|
    && (forall i :: 0 <= i < |runs| ==>
          var j := WithHandler(before, ids, registry)[i];
          j in ids && j < |before| && HandledBy(before[j], jobs[j], runs[i]))
    && (forall j :: 0 <= j < |before| && j in ids && before[j].name !in registry ==>
          jobs[j].lastError == Kept(Some(NoHandler(before[j].name))))
  }

  lemma {:induction false} WithHandlerHas(jobs: seq<Job>, ids: seq<JobId>, registry: set<string>, j: JobId)
    ensures j in WithHandler(jobs, ids, registry) <==> j in ids && j < |jobs| && jobs[j].name in registry
  {
    if ids != [] {
      var n := |ids| - 1;
      assert ids == ids[..n] + [ids[n]];
      WithHandlerHas(jobs, ids[..n], registry, j);
    }
  }

  // Polls.

  /** The first `n` candidates have run since `before` was read, and nothing else has. */
  predicate RanFirst(before: seq<Job>, jobs: seq<Job>, ids: seq<JobId>, n: nat, now: Time)
    requires n <= |ids|
  {
    && |jobs| == |before|
    && (forall j :: 0 <= j < |before| && j !in ids[..n] ==> jobs[j] == before[j])
    && (forall m :: 0 <= m < n ==> ids[m] < |before| && RanOnce(before[ids[m]], jobs[ids[m]], now))
  }

  lemma RanNext(
    before: seq<Job>, jobs: seq<Job>, jobs': seq<Job>, ids: seq<JobId>, n: nat, now: Time, seen: Time)
    requires n < |ids| && ids[n] < |before| && Distinct(ids)
    requires RanFirst(before, jobs, ids, n, now) && now <= seen
    requires |jobs'| == |jobs| && forall k :: 0 <= k < |jobs| && k != ids[n] ==> jobs'[k] == jobs[k]
    requires RanOnce(before[ids[n]], jobs'[ids[n]], seen)
    ensures RanFirst(before, jobs', ids, n + 1, now)
  {
    assert ids[..n + 1] == ids[..n] + [ids[n]];
  }

  lemma LoggedNext(
    before: seq<Job>, jobs: seq<Job>, jobs': seq<Job>, ids: seq<JobId>, n: nat, registry: set<string>,
    runs: seq<Ran>, more: seq<Ran>)
    requires n < |ids| && ids[n] < |before| && Distinct(ids)
    requires Logged(before, jobs, ids[..n], registry, runs)
    requires |jobs'| == |jobs| && forall k :: 0 <= k < |jobs| && k != ids[n] ==> jobs'[k] == jobs[k]
    requires LoggedAs(before[ids[n]], jobs'[ids[n]], registry, more)
    ensures Logged(before, jobs', ids[..n + 1], registry, runs + more)
  {
    assert ids[..n + 1] == ids[..n] + [ids[n]] && ids[..n + 1][..n] == ids[..n];
    assert ids[n] !in ids[..n];
    var done, all := WithHandler(before, ids[..n], registry), WithHandler(before, ids[..n + 1], registry);
    assert |all| == |runs + more|;
    forall i | 0 <= i < |all|
      ensures all[i] in ids[..n + 1] && all[i] < |before|
      ensures HandledBy(before[all[i]], jobs'[all[i]], (runs + more)[i])
    {
      if i < |done| {
        assert all[i] == done[i] && (runs + more)[i] == runs[i];
        assert HandledBy(before[done[i]], jobs[done[i]], runs[i]);
      }
    }
  }

  /** How far the poll has come. */
  predicate Progress(
    before: seq<Job>, jobs: seq<Job>, ids: seq<JobId>, n: nat, now: Time, registry: set<string>, runs: seq<Ran>)
    requires n <= |ids|
  {
    RanFirst(before, jobs, ids, n, now) && Logged(before, jobs, ids[..n], registry, runs)
  }

  lemma ProgressNext(
    before: seq<Job>, jobs: seq<Job>, jobs': seq<Job>, ids: seq<JobId>, n: nat, now: Time, seen: Time,
    registry: set<string>, runs: seq<Ran>, more: seq<Ran>)
    requires n < |ids| && ids[n] < |before| && Distinct(ids)
    requires Progress(before, jobs, ids, n, now, registry, runs) && now <= seen
    requires |jobs'| == |jobs| && forall k :: 0 <= k < |jobs| && k != ids[n] ==> jobs'[k] == jobs[k]
    requires RanOnce(before[ids[n]], jobs'[ids[n]], seen)
    requires LoggedAs(before[ids[n]], jobs'[ids[n]], registry, more)
    ensures Progress(before, jobs', ids, n + 1, now, registry, runs + more)
  {
    RanNext(before, jobs, jobs', ids, n, now, seen);
    LoggedNext(before, jobs, jobs', ids, n, registry, runs, more);
  }

  lemma NotYetRun(
    before: seq<Job>, jobs: seq<Job>, ids: seq<JobId>, n: nat, now: Time, registry: set<string>, runs: seq<Ran>)
    requires n < |ids| && Distinct(ids) && ids[n] < |before|
    requires Progress(before, jobs, ids, n, now, registry, runs)
    ensures ids[n] < |jobs| && jobs[ids[n]] == before[ids[n]]
  {
  }

  lemma RanAll(
    before: seq<Job>, after: seq<Job>, ids: seq<JobId>, now: Time, registry: set<string>, runs: seq<Ran>)
    requires IsPage(before, now, BATCH_SIZE, ids) && RanFirst(before, after, ids, |ids|, now)
    requires Logged(before, after, ids[..|ids|], registry, runs)
    ensures Polled(Poll(now, ids, before, after, registry, runs))
  {
    assert ids[..|ids|] == ids;
    forall j | 0 <= j < |before| && j in ids ensures RanOnce(before[j], after[j], now) {
      var m :| 0 <= m < |ids| && ids[m] == j;
    }
  }

  class JobWorker {
    const id: WorkerId
    const store: JobStore
    const leaseSeconds: int
    const registry: set<string> // the names that have a handler

    constructor (id: WorkerId, store: JobStore, leaseSeconds: int, registry: set<string>)
      ensures this.id == id && this.store == store
      ensures this.leaseSeconds == leaseSeconds && this.registry == registry
    {
      this.id, this.store, this.leaseSeconds, this.registry := id, store, leaseSeconds, registry;
    }

    /** Frees the RUNNING rows whose lease has expired or is missing. */
    method RecoverStaleJobs() returns (now: Time)
      modifies store`jobs, store`clock, store`times
      ensures old(store.clock) <= now == store.clock
      ensures |store.jobs| == |old(store.jobs)|
      ensures forall j :: 0 <= j < |store.jobs| ==>
        var was := old(store.jobs)[j];
        if was.status == RUNNING && (was.leaseUntil == None || was.leaseUntil.value < now)
        then store.jobs[j] == was.(status := PENDING, claimedBy := None, leaseUntil := None)
        else store.jobs[j] == was
    {
      now := store.Now();
      store.jobs := Recovered(store.jobs, now);
    }

    method ReadCandidates() returns (now: Time, ids: seq<JobId>)
      modifies store`clock, store`times
      ensures old(store.clock) <= now == store.clock
      ensures IsPage(store.jobs, now, 10, ids)
    {
      now := store.Now();
      ghost var page := PageExists(store.jobs, now, BATCH_SIZE);
      ids :| IsPage(store.jobs, now, BATCH_SIZE, ids);
    }

    /** Phase 1. The lease is counted from the clock read before the one the `where` clause uses. */
    method ClaimJob(j: JobId) returns (won: Option<(string, int)>, leaseUntil: Time, now: Time)
      modifies store`jobs, store`clock, store`times
      ensures store.times == old(store.times) + [leaseUntil - leaseSeconds * SECOND, now]
      ensures old(store.clock) <= leaseUntil - leaseSeconds * SECOND <= now == store.clock
      ensures won.Some? <==>
        j < |old(store.jobs)| && old(store.jobs)[j].status == PENDING && old(store.jobs)[j].nextRunAt <= now
      ensures won.Some? ==>
        var was := old(store.jobs)[j];
        && won.value == (was.name, was.interval)
        && store.jobs == old(store.jobs)[j :=
             was.(status := RUNNING, claimedBy := Some(id), leaseUntil := Some(leaseUntil))]
      ensures won.None? ==> store.jobs == old(store.jobs)
    {
      var start := store.Now();
      leaseUntil := start + leaseSeconds * SECOND;
      now := store.Now();
      if j < |store.jobs| && Due(store.jobs[j], now) {
        won := Some((store.jobs[j].name, store.jobs[j].interval));
        store.jobs := store.jobs[j := Claim(store.jobs[j], id, leaseUntil)];
      } else {
        won := None;
      }
    }

    /** The handler itself: it may finish, raise, or be cancelled at its timeout. */
    method CallHandler(name: string) returns (error: Option<string>)
      modifies store`clock, store`times, store`runs
      ensures old(store.clock) <= store.clock
      ensures store.runs == old(store.runs) + [Ran(name, error, old(store.clock), store.clock, store.jobs)]
    {
      var start := store.clock;
      var end := store.Now();
      error := *;
      store.runs := store.runs + [Ran(name, error, start, end, store.jobs)];
    }

    /** Phase 2. Whatever the handler did, the table is left to phase 3. */
    method RunHandler(name: string) returns (error: Option<string>)
      modifies store`clock, store`times, store`runs
      ensures old(store.clock) <= store.clock
      ensures name in registry ==>
        store.runs == old(store.runs) + [Ran(name, error, old(store.clock), store.clock, store.jobs)]
      ensures name !in registry ==>
        store.runs == old(store.runs) && error == Some("No handler registered for job '" + name + "'")
    {
      if name !in registry {
        error := Some(NoHandler(name));
      } else {
        error := CallHandler(name);
      }
    }

    /** Phase 3: no clause on `claimedBy` or `status`, so it writes whatever the row holds. */
    method RescheduleJob(j: JobId, interval: int, error: Option<string>) returns (now: Time)
      modifies store`jobs, store`clock, store`times
      ensures old(store.clock) <= now == store.clock
      ensures j >= |old(store.jobs)| ==> store.jobs == old(store.jobs)
      ensures j < |old(store.jobs)| ==>
        var was := old(store.jobs)[j];
        store.jobs == old(store.jobs)[j := was.(
          status := PENDING, claimedBy := None, leaseUntil := None,
          nextRunAt := now + interval * SECOND, lastRunAt := Some(now),
          runCount := was.runCount + 1, lastError := Kept(error))]
    {
      now := store.Now();
      if j < |store.jobs| {
        store.jobs := store.jobs[j := Reschedule(store.jobs[j], now, interval, Kept(error))];
      }
    }

    /** The three phases with nobody else writing: the job runs if and only if it is due when
        claimed. Then its handler, if there is one, is called once, under the claim, and the row
        is back to PENDING with the handler's error, one interval after the run. */
    method ExecuteJob(j: JobId) returns (ran: bool, seen: Time, ghost called: seq<Ran>)
      modifies store
      ensures old(store.clock) <= seen <= store.clock
      ensures ran <==>
        j < |old(store.jobs)| && old(store.jobs)[j].status == PENDING && old(store.jobs)[j].nextRunAt <= seen
      ensures !ran ==> store.jobs == old(store.jobs)
      ensures |store.jobs| == |old(store.jobs)|
      ensures forall k :: 0 <= k < |store.jobs| && k != j ==> store.jobs[k] == old(store.jobs)[k]
      ensures ran ==> RanOnce(old(store.jobs)[j], store.jobs[j], seen)
      ensures store.runs == old(store.runs) + called && (!ran ==> called == [])
      ensures ran ==>
        && LoggedAs(old(store.jobs)[j], store.jobs[j], registry, called)
        && forall run :: run in called ==>
             && seen <= run.startedAt && ClaimedDuring(old(store.jobs), run, j, id)
             && old(store.clock) <= run.table[j].leaseUntil.value - leaseSeconds * SECOND <= seen
    {
      called := [];
      var won, _, now := ClaimJob(j);
      seen := now;
      if won.None? {
        return false, seen, called;
      }
      var (name, interval) := won.value;
      var error := RunHandler(name);
      called := store.runs[|old(store.runs)|..];
      var _ := RescheduleJob(j, interval, error);
      ran := true;
    }

    /** One poll without interference runs every candidate it read. */
    method ProcessDueJobs() returns (now: Time, ids: seq<JobId>, ghost called: seq<Ran>)
      modifies store
      ensures old(store.clock) <= now <= store.clock
      ensures store.runs == old(store.runs) + called
      ensures Polled(Poll(now, ids, old(store.jobs), store.jobs, registry, called))
    {
      now, ids := ReadCandidates();
      ghost var before := store.jobs;
      called := [];
      for n := 0 to |ids|
        invariant now <= store.clock && store.runs == old(store.runs) + called
        invariant Progress(before, store.jobs, ids, n, now, registry, called)
      {
        NotYetRun(before, store.jobs, ids, n, now, registry, called);
        ghost var jobs := store.jobs;
        var ran, seen, more := ExecuteJob(ids[n]);
        ProgressNext(before, jobs, store.jobs, ids, n, now, seen, registry, called, more);
        AppendTwice(old(store.runs), called, more);
        called := called + more;
      }
      RanAll(before, store.jobs, ids, now, registry, called);
    }

    /** One turn of `_run`: recover, poll, sleep. */
    method RunTurn() returns (ghost turn: Turn)
      modifies store
      ensures Turned(turn) && turn.start == old(store.jobs) && turn.poll.after == store.jobs
      ensures turn.poll.registry == registry && store.runs == old(store.runs) + turn.poll.runs
      ensures old(store.clock) <= turn.seen && turn.poll.now <= store.clock
    {
      ghost var start := store.jobs;
      var seen := RecoverStaleJobs();
      assert store.jobs == Recovered(start, seen);
      ghost var before := store.jobs;
      var now, ids, called := ProcessDueJobs();
      turn := Turn(start, seen, Poll(now, ids, before, store.jobs, registry, called));
      var _ := store.Now(); // the sleep
    }

    /** The loop of `_run` until the shutdown event is seen after `turns` turns, with nobody else
        writing: a due job of rank r has run when r / BATCH_SIZE turns, rounded up, are over, and
        its handler has been called. */
    method Run(turns: nat) returns (ghost history: seq<Turn>)
      modifies store
      ensures |history| == turns && IsHistory(history)
      ensures LeadsTo(history, old(store.jobs), old(store.clock), store.jobs)
      ensures |store.jobs| == |old(store.jobs)| && AllOf(history, registry)
      ensures store.runs == old(store.runs) + AllRuns(history)
      ensures PositiveIntervals(old(store.jobs)) ==>
        forall j :: 0 <= j < |store.jobs| && Due(old(store.jobs)[j], old(store.clock))
                    && Rank(old(store.jobs), j) <= turns * 10 ==>
          CaughtUp(old(store.jobs)[j], store.jobs[j], registry, AllRuns(history))
    {
      history := [];
      for n := 0 to turns
        invariant |history| == n && store.runs == old(store.runs) + AllRuns(history)
        invariant SoFar(history, old(store.jobs), old(store.clock), store.jobs, store.clock, registry)
      {
        ghost var turn := RunTurn();
        SoFarGrows(history, old(store.jobs), old(store.clock), turn, store.clock, registry);
        RunsGrow(history, turn);
        AppendTwice(old(store.runs), AllRuns(history), turn.poll.runs);
        history := history + [turn];
      }
      DueJobsHaveRun(history, old(store.jobs), old(store.clock), store.jobs, registry);
    }
  }

  // Fairness with one worker. A job's rank is its place in the queue of all jobs, whatever their
  // status, with ties counted against it.

  function Rank(jobs: seq<Job>, j: JobId): nat
    requires j < |jobs|
  {
    |Earlier(jobs, j)| + 1
  }

  /** One turn of the loop: a recovery at `seen`, then a poll of the table that it left. */
  datatype Turn = Turn(start: seq<Job>, seen: Time, poll: Poll)

  predicate Turned(t: Turn) {
    && t.poll.before == Recovered(t.start, t.seen) && t.seen <= t.poll.now
    && Polled(t.poll)
  }

  /** The turns of one worker's loop: each starts from the table that the previous one left. */
  predicate IsHistory(ts: seq<Turn>) {
    && (forall n :: 0 <= n < |ts| ==> Turned(ts[n]))
    && (forall n :: 0 < n < |ts| ==> Follows(ts[n - 1], ts[n]))
  }

  predicate Follows(t: Turn, next: Turn) {
    next.start == t.poll.after && t.poll.now <= next.seen
  }

  /** The turns lead from one table to the other, starting at `clock` or later. */
  predicate LeadsTo(ts: seq<Turn>, start: seq<Job>, clock: Time, end: seq<Job>) {
    if ts == [] then end == start
    else ts[0].start == start && clock <= ts[0].seen && ts[|ts| - 1].poll.after == end
  }

  /** The handlers called in these turns. */
  function AllRuns(ts: seq<Turn>): seq<Ran> {
    if ts == [] then [] else AllRuns(ts[..|ts| - 1]) + ts[|ts| - 1].poll.runs
  }

  predicate AllOf(ts: seq<Turn>, registry: set<string>) {
    forall n :: 0 <= n < |ts| ==> ts[n].poll.registry == registry
  }

  predicate HasRun(runs: seq<Ran>, name: string) {
    exists i :: 0 <= i < |runs| && runs[i].name == name
  }

  lemma {:induction false} AllRunsHas(ts: seq<Turn>, n: nat, name: string)
    requires n < |ts| && HasRun(ts[n].poll.runs, name)
    ensures HasRun(AllRuns(ts), name)
  {
    var m := |ts| - 1;
    var front, last := AllRuns(ts[..m]), ts[m].poll.runs;
    if n < m {
      AllRunsHas(ts[..m], n, name);
      var i :| 0 <= i < |front| && front[i].name == name;
      assert (front + last)[i].name == name;
    } else {
      var i :| 0 <= i < |last| && last[i].name == name;
      assert (front + last)[|front| + i].name == name;
    }
  }

  /** A candidate with a handler has had it called. */
  lemma CandidateIsHandled(p: Poll, j: JobId)
    requires Polled(p) && j < |p.before| && j in p.ids && p.before[j].name in p.registry
    ensures HasRun(p.runs, p.before[j].name)
  {
    WithHandlerHas(p.before, p.ids, p.registry, j);
    var i :| 0 <= i < |p.runs| && WithHandler(p.before, p.ids, p.registry)[i] == j;
    assert p.runs[i].name == p.before[j].name;
  }

  lemma {:induction false} NamesKept(ts: seq<Turn>, n: nat, j: JobId)
    requires IsHistory(ts) && n < |ts| && j < |ts[0].start|
    ensures j < |ts[n].start| && j < |ts[n].poll.before|
    ensures ts[n].poll.before[j].name == ts[n].start[j].name == ts[0].start[j].name
  {
    if n > 0 {
      NamesKept(ts, n - 1, j);
      TurnKeeps(ts[n - 1]);
      assert Follows(ts[n - 1], ts[n]);
    }
  }

  /** The turns, of a worker with these handlers, lead from one table and time to another. */
  predicate SoFar(
    ts: seq<Turn>, start: seq<Job>, clock: Time, end: seq<Job>, now: Time, registry: set<string>)
  {
    && IsHistory(ts) && LeadsTo(ts, start, clock, end) && AllOf(ts, registry)
    && |end| == |start| && clock <= now
    && (ts != [] ==> ts[|ts| - 1].poll.now <= now)
  }

  lemma SoFarGrows(
    ts: seq<Turn>, start: seq<Job>, clock: Time, turn: Turn, now: Time, registry: set<string>)
    requires SoFar(ts, start, clock, turn.start, turn.seen, registry)
    requires Turned(turn) && turn.poll.registry == registry && turn.poll.now <= now
    ensures SoFar(ts + [turn], start, clock, turn.poll.after, now, registry)
  {
    HistoryGrows(ts, start, clock, turn);
    TurnKeeps(turn);
  }

  lemma RunsGrow(ts: seq<Turn>, turn: Turn)
    ensures AllRuns(ts + [turn]) == AllRuns(ts) + turn.poll.runs
  {
    assert (ts + [turn])[..|ts|] == ts;
  }

  lemma HistoryGrows(ts: seq<Turn>, start: seq<Job>, clock: Time, turn: Turn)
    requires IsHistory(ts) && LeadsTo(ts, start, clock, turn.start)
    requires Turned(turn)
    requires if ts == [] then clock <= turn.seen else ts[|ts| - 1].poll.now <= turn.seen
    ensures IsHistory(ts + [turn]) && LeadsTo(ts + [turn], start, clock, turn.poll.after)
  {
    var ts' := ts + [turn];
    forall n | 0 < n < |ts'| ensures Follows(ts'[n - 1], ts'[n]) {
      if n < |ts| { assert Follows(ts[n - 1], ts[n]); }
    }
  }

  lemma TurnKeeps(t: Turn)
    requires Turned(t)
    ensures |t.poll.after| == |t.poll.before| == |t.start|
    ensures PositiveIntervals(t.start) ==> PositiveIntervals(t.poll.after)
    ensures forall j :: 0 <= j < |t.start| ==> t.poll.after[j].name == t.start[j].name
  {
    var p := t.poll;
    forall j | 0 <= j < |p.before|
      ensures p.after[j].interval == p.before[j].interval == t.start[j].interval
      ensures p.after[j].name == p.before[j].name == t.start[j].name
    {
      assert j in p.ids || j !in p.ids;
    }
  }

  /** A due job that a poll does not run gets BATCH_SIZE places closer to the front, because
      every job that was run has moved beyond the clock, and no other job can overtake. */
  lemma PollLowersRank(p: Poll, j: JobId)
    requires Polled(p) && PositiveIntervals(p.before)
    requires j < |p.before| && Due(p.before[j], p.now) && j !in p.ids
    ensures p.after[j] == p.before[j]
    ensures Rank(p.after, j) == Rank(p.before, j) - 10
  {
    var earlier, left := Earlier(p.before, j), Earlier(p.after, j);
    assert Elements(p.ids) <= earlier;
    assert left == earlier - Elements(p.ids) by {
      forall k: JobId | k < |p.before| ensures k in left <==> k in earlier && k !in p.ids {
        if k in p.ids {
          assert p.after[k].nextRunAt > p.now;
        }
      }
    }
    DistinctCount(p.ids);
    SubsetCount(Elements(p.ids), earlier);
  }

  /** So does a whole turn: the recovery frees rows but reschedules none. */
  lemma TurnLowersRank(t: Turn, j: JobId)
    requires Turned(t) && PositiveIntervals(t.start)
    requires j < |t.start| && Due(t.poll.before[j], t.poll.now) && j !in t.poll.ids
    ensures j < |t.poll.after| && t.poll.after[j] == t.poll.before[j]
    ensures Rank(t.poll.after, j) == Rank(t.start, j) - 10
  {
    assert Earlier(t.poll.before, j) == Earlier(t.start, j);
    PollLowersRank(t.poll, j);
  }

  /** A job that is due at the first poll, or freed just before it, and has rank r is run within
      the first r / BATCH_SIZE polls, rounded up, whatever the other rows hold. */
  lemma {:induction false} DueJobRunsWithinItsRank(ts: seq<Turn>, j: JobId)
    requires ts != [] && IsHistory(ts)
    requires PositiveIntervals(ts[0].start)
    requires j < |ts[0].start| && Due(ts[0].poll.before[j], ts[0].poll.now)
    requires Rank(ts[0].start, j) <= |ts| * 10
    ensures exists n ::
              && 0 <= n < |ts|
              && n * 10 < Rank(ts[0].start, j)
              && j in ts[n].poll.ids
  {
    var t := ts[0];
    if j in t.poll.ids {
      assert 0 * BATCH_SIZE < Rank(t.start, j) && j in ts[0].poll.ids;
    } else {
      TurnLowersRank(t, j);
      TurnKeeps(t);
      var rest := ts[1..];
      if rest == [] {
        assert false;
      } else {
        assert Follows(ts[0], ts[1]);
        assert rest[0] == ts[1];
        DueJobRunsWithinItsRank(rest, j);
        var n :| 0 <= n < |rest| && n * BATCH_SIZE < Rank(rest[0].start, j) && j in rest[n].poll.ids;
        assert ts[n + 1] == rest[n];
      }
    }
  }

  /** How many of the turns ran job `j`. */
  function Runs(ts: seq<Turn>, j: JobId): nat {
    if ts == [] then 0 else (if j in ts[0].poll.ids then 1 else 0) + Runs(ts[1..], j)
  }

  lemma {:induction false} RunsCounts(ts: seq<Turn>, j: JobId, n: nat)
    requires n < |ts| && j in ts[n].poll.ids
    ensures Runs(ts, j) > 0
  {
    if n > 0 { RunsCounts(ts[1..], j, n - 1); }
  }

  lemma TurnCounts(t: Turn, j: JobId)
    requires Turned(t) && j < |t.start|
    ensures j < |t.poll.after|
    ensures t.poll.after[j].runCount == t.start[j].runCount + (if j in t.poll.ids then 1 else 0)
  {
    assert t.poll.before[j].runCount == t.start[j].runCount;
  }

  /** `run_count` counts them. */
  lemma {:induction false} CountsAreRuns(ts: seq<Turn>, j: JobId)
    requires ts != [] && IsHistory(ts) && j < |ts[0].start|
    ensures var after := ts[|ts| - 1].poll.after;
            j < |after| && after[j].runCount == ts[0].start[j].runCount + Runs(ts, j)
  {
    TurnCounts(ts[0], j);
    if |ts| > 1 {
      assert ts[1..][0] == ts[1];
      CountsAreRuns(ts[1..], j);
    } else {
      assert ts[1..] == [];
    }
  }

  /** The job has run since, and its handler, if there is one, was called. */
  predicate CaughtUp(before: Job, after: Job, registry: set<string>, runs: seq<Ran>) {
    after.runCount > before.runCount && (before.name in registry ==> HasRun(runs, before.name))
  }

  lemma DueJobsHaveRun(ts: seq<Turn>, start: seq<Job>, clock: Time, end: seq<Job>, registry: set<string>)
    requires IsHistory(ts) && LeadsTo(ts, start, clock, end) && AllOf(ts, registry) && |end| == |start|
    ensures PositiveIntervals(start) ==>
      forall j :: 0 <= j < |start| && Due(start[j], clock) && Rank(start, j) <= |ts| * BATCH_SIZE ==>
        CaughtUp(start[j], end[j], registry, AllRuns(ts))
  {
    forall j | PositiveIntervals(start) && 0 <= j < |start| && Due(start[j], clock)
               && Rank(start, j) <= |ts| * BATCH_SIZE
      ensures CaughtUp(start[j], end[j], registry, AllRuns(ts))
    {
      DueJobHasRun(ts, start, clock, end, j, registry);
    }
  }

  lemma DueJobHasRun(
    ts: seq<Turn>, start: seq<Job>, clock: Time, end: seq<Job>, j: JobId, registry: set<string>)
    requires IsHistory(ts) && LeadsTo(ts, start, clock, end) && AllOf(ts, registry)
    requires PositiveIntervals(start) && j < |start| && Due(start[j], clock)
    requires Rank(start, j) <= |ts| * BATCH_SIZE
    ensures j < |end| && end[j].runCount > start[j].runCount
    ensures start[j].name in registry ==> HasRun(AllRuns(ts), start[j].name)
  {
    assert ts != [] && Due(ts[0].poll.before[j], ts[0].poll.now);
    DueJobRunsWithinItsRank(ts, j);
    var n :| 0 <= n < |ts| && n * BATCH_SIZE < Rank(start, j) && j in ts[n].poll.ids;
    RunsCounts(ts, j, n);
    CountsAreRuns(ts, j);
    if start[j].name in registry {
      NamesKept(ts, n, j);
      CandidateIsHandled(ts[n].poll, j);
      AllRunsHas(ts, n, start[j].name);
    }
  }
}
