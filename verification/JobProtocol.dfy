/** Any number of job workers on one table, interleaved statement by statement.

    A worker is where its loop stands. `due` is the instant by which it takes its next step:
    the clock does not pass it, which is how the bounds on query time, on poll sleep and on a
    live run enter the model. `claims` and `lost` are history: the claims won on each job, and
    the runs that ended without a reschedule (crash, shutdown, error in a session). */
module JobProtocol {
  import opened Wrappers
  import opened Jobs

  /** `timeout` and `lease` are the settings; `slack` bounds what a run spends outside its
      handler, from the clock read that dates the lease to the commit of the reschedule;
      `query` bounds every other session. All in microseconds. */
  datatype Config = Config(timeout: nat, slack: nat, lease: int, poll: nat, query: nat) {
    function RunBound(): nat { timeout + slack }

    /** What the settings validator accepts. */
    predicate Validated() { lease >= 2 * timeout }
  }

  datatype Run = Run(job: JobId, start: Time, interval: int)

  datatype Phase =
    | Down
    | Sleeping
    | Recovering(seen: Time)                       // read the clock, update not yet committed
    | Querying(from: Time)                         // recovery committed at `from`
    | Executing(todo: seq<JobId>, start: Time)     // entered `_execute_job` for todo[0] at `start`
    | Running(todo: seq<JobId>, run: Run)          // holds a claim; todo is what comes after

  /** `swept` is the clock read of the last recovery, if the loop has not failed since. */
  datatype Worker = Worker(phase: Phase, due: Time, swept: Option<Time>)

  datatype State = State(
    clock: Time,
    jobs: seq<Job>,
    workers: map<WorkerId, Worker>,
    claims: seq<nat>,
    lost: seq<nat>)

  datatype Action =
    | Tick(now: Time)
    | Start(w: WorkerId)
    | Wake(w: WorkerId)
    | Recover(w: WorkerId)
    | Query(w: WorkerId, seen: Time, ids: seq<JobId>)
    | TryClaim(w: WorkerId, seen: Time)
    | Finish(w: WorkerId, now: Time, error: Option<string>)
    | Fail(w: WorkerId)     // an Exception: logged, and the loop goes to sleep
    | Crash(w: WorkerId)    // the process dies, or `stop()` cancels the task

  predicate Init(s: State) {
    && |s.claims| == |s.jobs| && |s.lost| == |s.jobs|
    && (forall j :: 0 <= j < |s.jobs| ==>
          && s.jobs[j].status == PENDING && s.jobs[j].claimedBy.None? && s.jobs[j].leaseUntil.None?
          && s.jobs[j].lastRunAt.None? && s.jobs[j].runCount == s.claims[j] == s.lost[j] == 0)
    && (forall w :: w in s.workers ==> s.workers[w].phase.Down? && s.workers[w].swept.None?)
  }

  predicate Enabled(c: Config, s: State, a: Action) {
    match a
    case Tick(now) =>
      s.clock <= now && forall w :: w in s.workers && !s.workers[w].phase.Down? ==> now <= s.workers[w].due
    case Start(w) => w in s.workers && s.workers[w].phase.Down?
    case Wake(w) => w in s.workers && s.workers[w].phase.Sleeping?
    case Recover(w) => w in s.workers && s.workers[w].phase.Recovering?
    case Query(w, seen, ids) =>
      && w in s.workers && s.workers[w].phase.Querying?
      && s.workers[w].phase.from <= seen <= s.clock
      && IsPage(s.jobs, seen, BATCH_SIZE, ids)
    case TryClaim(w, seen) =>
      && w in s.workers && s.workers[w].phase.Executing? && s.workers[w].phase.todo != []
      && s.workers[w].phase.start <= seen <= s.clock
    case Finish(w, now, _) =>
      && w in s.workers && s.workers[w].phase.Running?
      && s.workers[w].phase.run.start <= now <= s.clock
    case Fail(w) => w in s.workers && !s.workers[w].phase.Down? && !s.workers[w].phase.Sleeping?
    case Crash(w) => w in s.workers && !s.workers[w].phase.Down?
  }

  /** The worker enters `_execute_job` for its next candidate, or sleeps if there is none. */
  function Next(c: Config, s: State, todo: seq<JobId>, swept: Option<Time>): Worker {
    if todo == [] then Worker(Sleeping, s.clock + c.poll, swept)
    else Worker(Executing(todo, s.clock), s.clock + c.RunBound(), swept)
  }

  function Apply(c: Config, s: State, a: Action): State
    requires Enabled(c, s, a)
  {
    match a
    case Tick(now) => s.(clock := now)
    case Start(w) => s.(workers := s.workers[w := Worker(Sleeping, s.clock, None)])
    case Wake(w) =>
      s.(workers := s.workers[w := s.workers[w].(phase := Recovering(s.clock), due := s.clock + c.query)])
    case Recover(w) =>
      var seen := s.workers[w].phase.seen;
      s.(jobs := Recovered(s.jobs, seen),
         workers := s.workers[w := Worker(Querying(s.clock), s.clock + c.query, Some(seen))])
    case Query(w, seen, ids) =>
      s.(workers := s.workers[w := Next(c, s, ids, s.workers[w].swept)])
    case TryClaim(w, seen) =>
      var me := s.workers[w];
      var j, rest := me.phase.todo[0], me.phase.todo[1..];
      if j < |s.jobs| && Due(s.jobs[j], seen) then
        s.(jobs := s.jobs[j := Claim(s.jobs[j], w, me.phase.start + c.lease)],
           claims := Bump(s.claims, j),
           workers := s.workers[w := me.(phase := Running(rest, Run(j, me.phase.start, s.jobs[j].interval)))])
      else
        s.(workers := s.workers[w := Next(c, s, rest, me.swept)])
    case Finish(w, now, error) =>
      var me := s.workers[w];
      var j := me.phase.run.job;
      var s' := s.(workers := s.workers[w := Next(c, s, me.phase.todo, me.swept)]);
      if j < |s.jobs|
      then s'.(jobs := s.jobs[j := Reschedule(s.jobs[j], now, me.phase.run.interval, error)])
      else s'
    case Fail(w) =>
      var me := s.workers[w];
      Abandon(s, w).(workers := s.workers[w :=
        Worker(Sleeping, s.clock + c.poll, if me.phase.Recovering? then None else me.swept)])
    case Crash(w) =>
      Abandon(s, w).(workers := s.workers[w := Worker(Down, s.clock, None)])
  }

  /** The worker's run, if it has one, will never be rescheduled. */
  function Abandon(s: State, w: WorkerId): State
    requires w in s.workers
  {
    var phase := s.workers[w].phase;
    if phase.Running? then s.(lost := Bump(s.lost, phase.run.job)) else s
  }

  function Bump(counts: seq<nat>, j: nat): seq<nat> {
    if j < |counts| then counts[j := counts[j] + 1] else counts
  }

  predicate CanRun(c: Config, s: State, run: seq<Action>)
    decreases |run|
  {
    run == [] || (Enabled(c, s, run[0]) && CanRun(c, Apply(c, s, run[0]), run[1..]))
  }

  function After(c: Config, s: State, run: seq<Action>): State
    requires CanRun(c, s, run)
    decreases |run|
  {
    if run == [] then s else After(c, Apply(c, s, run[0]), run[1..])
  }

  ghost predicate Reachable(c: Config, s: State) {
    exists s0, run :: Init(s0) && CanRun(c, s0, run) && After(c, s0, run) == s
  }

  lemma {:induction false} RunThen(c: Config, s: State, run: seq<Action>, a: Action)
    requires CanRun(c, s, run) && Enabled(c, After(c, s, run), a)
    ensures CanRun(c, s, run + [a])
    ensures After(c, s, run + [a]) == Apply(c, After(c, s, run), a)
    decreases |run|
  {
    if run == [] {
      assert run + [a] == [a];
    } else {
      RunThen(c, Apply(c, s, run[0]), run[1..], a);
      assert (run + [a])[1..] == run[1..] + [a];
    }
  }

  /** Some list of actions leads from `s` to `s'`. */
  ghost predicate Leads(c: Config, s: State, s': State) {
    exists run :: CanRun(c, s, run) && After(c, s, run) == s'
  }

  lemma Begin(c: Config, s: State)
    ensures Leads(c, s, s)
  {
    assert CanRun(c, s, []) && After(c, s, []) == s;
  }

  lemma Step(c: Config, from: State, s: State, a: Action) returns (s': State)
    requires Leads(c, from, s) && Enabled(c, s, a)
    ensures s' == Apply(c, s, a) && Leads(c, from, s')
  {
    var run :| CanRun(c, from, run) && After(c, from, run) == s;
    RunThen(c, from, run, a);
    s' := Apply(c, s, a);
  }

  lemma ReachableStep(c: Config, s: State, a: Action)
    requires Reachable(c, s) && Enabled(c, s, a)
    ensures Reachable(c, Apply(c, s, a))
  {
    var s0, run :| Init(s0) && CanRun(c, s0, run) && After(c, s0, run) == s;
    RunThen(c, s0, run, a);
  }

  // Rows and history, whatever the timing.

  /** A row is either free, with no owner and no lease, or claimed, with both. */
  predicate RowOk(job: Job, now: Time) {
    && (job.status == PENDING <==> job.claimedBy.None?)
    && (job.status == PENDING <==> job.leaseUntil.None?)
    && (job.status == RUNNING ==> job.nextRunAt <= now)
    && (job.lastRunAt.Some? ==> job.nextRunAt == job.lastRunAt.value + job.interval * SECOND)
  }

  predicate Holds(worker: Worker, j: JobId) {
    worker.phase.Running? && worker.phase.run.job == j
  }

  /** The workers between claim and reschedule of job `j`. */
  function Holders(s: State, j: JobId): set<WorkerId> {
    set w | w in s.workers && Holds(s.workers[w], j)
  }

  predicate RunsMatchRows(s: State) {
    forall w :: w in s.workers && s.workers[w].phase.Running? ==>
      var run := s.workers[w].phase.run;
      run.job < |s.jobs| && run.interval == s.jobs[run.job].interval
  }

  predicate Accounted(s: State) {
    && |s.claims| == |s.jobs| && |s.lost| == |s.jobs|
    && forall j :: 0 <= j < |s.jobs| ==> s.claims[j] == s.jobs[j].runCount + |Holders(s, j)| + s.lost[j]
  }

  predicate Books(s: State) {
    && (forall j :: 0 <= j < |s.jobs| ==> RowOk(s.jobs[j], s.clock))
    && RunsMatchRows(s)
    && Accounted(s)
  }

  lemma WithAndWithout<T>(a: set<T>, x: T)
    ensures |a| == |a - {x}| + (if x in a then 1 else 0)
  {
    if x in a { assert a == (a - {x}) + {x}; } else { assert a == a - {x}; }
  }

  lemma OtherHolders(s: State, s': State, w: WorkerId, j: JobId)
    requires s'.workers.Keys == s.workers.Keys
    requires forall v :: v in s.workers && v != w ==> s'.workers[v] == s.workers[v]
    ensures Holders(s', j) - {w} == Holders(s, j) - {w}
  {
    forall v ensures v in Holders(s', j) - {w} <==> v in Holders(s, j) - {w} {
      assert v in s'.workers.Keys <==> v in s.workers.Keys;
    }
  }

  lemma HoldersAfter(s: State, s': State, w: WorkerId, j: JobId)
    requires w in s.workers && s'.workers.Keys == s.workers.Keys
    requires forall v :: v in s.workers && v != w ==> s'.workers[v] == s.workers[v]
    ensures |Holders(s', j)| + (if Holds(s.workers[w], j) then 1 else 0)
         == |Holders(s, j)| + (if Holds(s'.workers[w], j) then 1 else 0)
  {
    OtherHolders(s, s', w, j);
    WithAndWithout(Holders(s, j), w);
    WithAndWithout(Holders(s', j), w);
    assert w in s'.workers.Keys;
  }

  lemma RowsStep(c: Config, s: State, a: Action)
    requires Books(s) && Enabled(c, s, a)
    ensures var s' := Apply(c, s, a);
            && |s'.jobs| == |s.jobs| && s.clock <= s'.clock
            && (forall j :: 0 <= j < |s.jobs| ==> s'.jobs[j].interval == s.jobs[j].interval)
            && (forall j :: 0 <= j < |s.jobs| ==> RowOk(s'.jobs[j], s'.clock))
  {
  }

  lemma AccountStep(c: Config, s: State, a: Action, j: JobId)
    requires Books(s) && Enabled(c, s, a) && !a.Tick? && j < |s.jobs|
    ensures var s' := Apply(c, s, a);
            && |s'.claims| == |s'.lost| == |s'.jobs| == |s.jobs|
            && s'.claims[j] == s'.jobs[j].runCount + |Holders(s', j)| + s'.lost[j]
  {
    var s' := Apply(c, s, a);
    HoldersAfter(s, s', a.w, j);
    ChangeOfOne(c, s, a, j);
  }

  /** What one worker's step does to the four numbers of the balance. */
  lemma ChangeOfOne(c: Config, s: State, a: Action, j: JobId)
    requires Books(s) && Enabled(c, s, a) && !a.Tick? && j < |s.jobs|
    ensures var s' := Apply(c, s, a);
            var held, holds := Holds(s.workers[a.w], j), Holds(s'.workers[a.w], j);
            && |s'.claims| == |s'.lost| == |s'.jobs| == |s.jobs|
            && s'.claims[j] == s.claims[j] + (if holds && !held then 1 else 0)
            && s'.jobs[j].runCount + s'.lost[j]
               == s.jobs[j].runCount + s.lost[j] + (if held && !holds then 1 else 0)
  {
  }

  lemma BooksStep(c: Config, s: State, a: Action)
    requires Books(s) && Enabled(c, s, a)
    ensures Books(Apply(c, s, a))
  {
    var s' := Apply(c, s, a);
    RowsStep(c, s, a);
    if a.Tick? {
      forall j | 0 <= j < |s.jobs| ensures Holders(s', j) == Holders(s, j) {}
    } else {
      forall j | 0 <= j < |s.jobs|
        ensures |s'.claims| == |s'.lost| == |s'.jobs|
        ensures s'.claims[j] == s'.jobs[j].runCount + |Holders(s', j)| + s'.lost[j]
      {
        AccountStep(c, s, a, j);
      }
    }
  }

  lemma InitBooks(s: State)
    requires Init(s)
    ensures Books(s)
  {
    forall j | 0 <= j < |s.jobs| ensures Holders(s, j) == {} {}
  }

  lemma {:induction false} RunKeepsBooks(c: Config, s: State, run: seq<Action>)
    requires Books(s) && CanRun(c, s, run)
    ensures Books(After(c, s, run))
    decreases |run|
  {
    if run != [] {
      BooksStep(c, s, run[0]);
      RunKeepsBooks(c, Apply(c, s, run[0]), run[1..]);
    }
  }

  /** In every reachable state, for any settings and timing: every claim on a job has become
      a counted run, is still being executed, or was lost, even if several workers rescheduled
      the same row; and a row has an owner and a lease exactly while it is RUNNING. */
  lemma JobAccounting(c: Config, s: State, j: JobId)
    requires Reachable(c, s) && j < |s.jobs|
    ensures |s.claims| == |s.lost| == |s.jobs|
    ensures s.claims[j] == s.jobs[j].runCount + |Holders(s, j)| + s.lost[j]
    ensures s.jobs[j].status == PENDING <==> s.jobs[j].claimedBy.None?
    ensures s.jobs[j].status == PENDING <==> s.jobs[j].leaseUntil.None?
  {
    var s0, run :| Init(s0) && CanRun(c, s0, run) && After(c, s0, run) == s;
    InitBooks(s0);
    RunKeepsBooks(c, s0, run);
  }

  /** A claim is won no earlier than one interval after the job's last reschedule, however old
      the candidate list that led to it. */
  lemma ClaimsAreSpaced(c: Config, s: State, w: WorkerId, seen: Time)
    requires Reachable(c, s) && Enabled(c, s, TryClaim(w, seen))
    ensures var j := s.workers[w].phase.todo[0];
            Apply(c, s, TryClaim(w, seen)).workers[w].phase.Running? && s.jobs[j].lastRunAt.Some? ==>
              s.jobs[j].lastRunAt.value + s.jobs[j].interval * SECOND <= seen <= s.clock
  {
    var s0, run :| Init(s0) && CanRun(c, s0, run) && After(c, s0, run) == s;
    InitBooks(s0);
    RunKeepsBooks(c, s0, run);
  }
}
