/** Mutual exclusion of job runs by timing: the lease must outlast every live run. */
module JobLease {
  import opened Wrappers
  import opened Jobs
  import opened JobProtocol

  /** What the lease is for: at most one live worker is between claim and reschedule of a job. */
  ghost predicate Exclusive(s: State) {
    forall j: JobId, v, w :: v in Holders(s, j) && w in Holders(s, j) ==> v == w
  }

  /** A live run's row is RUNNING under that worker's own lease. */
  predicate OwnsItsRow(c: Config, s: State, w: WorkerId)
    requires w in s.workers && s.workers[w].phase.Running?
  {
    var run := s.workers[w].phase.run;
    && run.job < |s.jobs|
    && s.jobs[run.job].status == RUNNING
    && s.jobs[run.job].claimedBy == Some(w)
    && s.jobs[run.job].leaseUntil == Some(run.start + c.lease)
  }

  predicate Owned(c: Config, s: State) {
    forall w :: w in s.workers && s.workers[w].phase.Running? ==> OwnsItsRow(c, s, w)
  }

  /** A live worker is on time; inside `_execute_job` it is on time for that run's bound. */
  predicate Punctual(c: Config, me: Worker, now: Time) {
    && (!me.phase.Down? ==> now <= me.due)
    && (me.phase.Running? ==> me.due == me.phase.run.start + c.RunBound())
    && (me.phase.Executing? ==> me.due == me.phase.start + c.RunBound())
    && (me.phase.Recovering? ==> me.phase.seen <= now)
  }

  predicate OnTime(c: Config, s: State) {
    forall w :: w in s.workers ==> Punctual(c, s.workers[w], s.clock)
  }

  predicate Inv(c: Config, s: State) {
    Owned(c, s) && OnTime(c, s)
  }

  lemma OnTimeStep(c: Config, s: State, a: Action)
    requires OnTime(c, s) && Enabled(c, s, a)
    ensures OnTime(c, Apply(c, s, a))
  {
    var s' := Apply(c, s, a);
    if !a.Tick? {
      assert Punctual(c, s.workers[a.w], s.clock);
      assert Punctual(c, s'.workers[a.w], s'.clock);
    }
    forall w | w in s'.workers ensures Punctual(c, s'.workers[w], s'.clock) {
      if a.Tick? || w != a.w {
        assert Punctual(c, s.workers[w], s.clock);
      }
    }
  }

  /** A recovery does not touch a live run: its lease covers the time it may still take. */
  lemma OwnedStep(c: Config, s: State, a: Action)
    requires c.RunBound() <= c.lease
    requires Inv(c, s) && Enabled(c, s, a)
    ensures Owned(c, Apply(c, s, a))
  {
    var s' := Apply(c, s, a);
    forall w | w in s'.workers && s'.workers[w].phase.Running? ensures OwnsItsRow(c, s', w) {
      if !a.Tick? && a.w == w {
      } else {
        assert OwnsItsRow(c, s, w);
      }
    }
  }

  lemma {:induction false} RunKeepsInv(c: Config, s: State, run: seq<Action>)
    requires c.RunBound() <= c.lease
    requires Inv(c, s) && CanRun(c, s, run)
    ensures Inv(c, After(c, s, run))
    decreases |run|
  {
    if run != [] {
      OnTimeStep(c, s, run[0]);
      OwnedStep(c, s, run[0]);
      RunKeepsInv(c, Apply(c, s, run[0]), run[1..]);
    }
  }

  /** If a live run is never longer than the lease then, for any number of workers, jobs,
      crashes and interleavings, runs of a job exclude each other, a live run's row is RUNNING
      under its own lease, and its unguarded reschedule releases no other worker's claim. */
  lemma LeaseExclusion(c: Config, s: State)
    requires c.RunBound() <= c.lease
    requires Reachable(c, s)
    ensures Exclusive(s)
    ensures forall w :: w in s.workers && s.workers[w].phase.Running? ==> OwnsItsRow(c, s, w)
    ensures forall a: Action, w ::
      a.Finish? && Enabled(c, s, a) && w != a.w && w in s.workers && s.workers[w].phase.Running? ==>
        OwnsItsRow(c, Apply(c, s, a), w)
  {
    var s0, run :| Init(s0) && CanRun(c, s0, run) && After(c, s0, run) == s;
    RunKeepsInv(c, s0, run);
    assert forall w :: w in s.workers && s.workers[w].phase.Running? ==> OwnsItsRow(c, s, w);
  }

  /** The settings validator gives exclusion when what a run spends outside its handler is no
      more than the timeout again, or than whatever the lease has to spare. */
  lemma ValidatedSettingsExclude(c: Config, s: State)
    requires c.Validated() && c.slack <= c.timeout
    requires Reachable(c, s)
    ensures Exclusive(s)
  {
    LeaseExclusion(c, s);
  }

  /** The validator draws the line exactly: it accepts a timeout and a lease if and only if they
      give exclusion for every latency of up to one more timeout. */
  lemma ValidatorIsExact(c: Config)
    ensures c.Validated() <==>
      forall slack: nat, s ::
        slack <= c.timeout && Reachable(c.(slack := slack), s) ==> Exclusive(s)
  {
    if c.lease >= 2 * c.timeout {
      forall slack: nat, s | slack <= c.timeout && Reachable(c.(slack := slack), s) ensures Exclusive(s) {
        LeaseExclusion(c.(slack := slack), s);
      }
    } else {
      var s := ShortLeaseDoubleRun(c.(slack := c.timeout));
    }
  }

  /** With the default settings, a timeout of 55 s and a lease of 120 s, that is a latency of up
      to 65 s. */
  lemma DefaultsExcludeIff(slack: nat, poll: nat, query: nat)
    ensures var c := Config(55_000_000, slack, 120_000_000, poll, query);
            && c.Validated()
            && ((forall s :: Reachable(c, s) ==> Exclusive(s)) <==> slack <= 65_000_000)
  {
    ExclusionIffLeaseCoversRun(Config(55_000_000, slack, 120_000_000, poll, query));
  }

  function Fresh(): State {
    var job := Job("tle_refresh", 7200, PENDING, 0, None, None, 0, None, None);
    var down := Worker(Down, 0, None);
    State(0, [job], map[0 := down, 1 := down], [0], [0])
  }

  /** Worker `w` starts, sweeps, and is ready to read the candidates: the only job is due. */
  lemma Sweep(c: Config, from: State, s: State, w: WorkerId) returns (s': State)
    requires Leads(c, from, s)
    requires w in s.workers && s.workers[w].phase.Down? && |s.jobs| == |s.claims| == 1
    requires Due(s.jobs[0], s.clock) || (Stale(s.jobs[0], s.clock) && s.jobs[0].nextRunAt <= s.clock)
    ensures Leads(c, from, s')
    ensures s'.clock == s.clock && |s'.jobs| == |s'.claims| == 1
    ensures Due(s'.jobs[0], s'.clock)
    ensures s'.jobs[0].nextRunAt == s.jobs[0].nextRunAt && s'.jobs[0].interval == s.jobs[0].interval
    ensures s'.workers == s.workers[w := Worker(Querying(s.clock), s.clock + c.query, Some(s.clock))]
  {
    var s1 := Step(c, from, s, Start(w));
    var s2 := Step(c, from, s1, Wake(w));
    s' := Step(c, from, s2, Recover(w));
  }

  /** Worker `w` polls and claims the only job, which is due or about to be recovered. */
  lemma PollAndClaim(c: Config, from: State, s: State, w: WorkerId) returns (s': State)
    requires Leads(c, from, s)
    requires w in s.workers && s.workers[w].phase.Down? && |s.jobs| == |s.claims| == 1
    requires Due(s.jobs[0], s.clock) || (Stale(s.jobs[0], s.clock) && s.jobs[0].nextRunAt <= s.clock)
    ensures Leads(c, from, s')
    ensures s'.clock == s.clock && |s'.jobs| == |s'.claims| == 1
    ensures s'.jobs[0].nextRunAt == s.jobs[0].nextRunAt
    ensures s'.jobs[0].status == RUNNING && s'.jobs[0].leaseUntil == Some(s.clock + c.lease)
    ensures w in s'.workers && s'.workers == s.workers[w := s'.workers[w]]
    ensures s'.workers[w].phase == Running([], Run(0, s.clock, s.jobs[0].interval))
    ensures s'.workers[w].due == s.clock + c.RunBound()
  {
    var s1 := Sweep(c, from, s, w);
    var s2 := Step(c, from, s1, Query(w, s.clock, [0]));
    s' := Step(c, from, s2, TryClaim(w, s.clock));
  }

  /** When a live run may outlast the lease, two workers can be inside the same job at once. */
  lemma ShortLeaseDoubleRun(c: Config) returns (s: State)
    requires c.lease < c.RunBound()
    ensures Leads(c, Fresh(), s) && Reachable(c, s) && !Exclusive(s)
    ensures 0 in Holders(s, 0) && 1 in Holders(s, 0)
    ensures |s.jobs| == 1 && s.jobs[0].status == RUNNING
    ensures s.workers[0].phase.run.start <= s.clock
  {
    Begin(c, Fresh());
    var s1 := PollAndClaim(c, Fresh(), Fresh(), 0);
    assert Enabled(c, s1, Tick(c.RunBound()));
    var s2 := Step(c, Fresh(), s1, Tick(c.RunBound()));
    s := PollAndClaim(c, Fresh(), s2, 1);
    assert 0 in Holders(s, 0) && 1 in Holders(s, 0);
    assert Init(Fresh());
  }

  /** And then the slower one's reschedule frees the row while the other run is still live. */
  lemma ShortLeaseReleasesLiveClaim(c: Config) returns (s: State)
    requires c.lease < c.RunBound()
    ensures Reachable(c, s) && 1 in Holders(s, 0)
    ensures |s.jobs| == 1 && s.jobs[0].status == PENDING
  {
    var s1 := ShortLeaseDoubleRun(c);
    s := Step(c, Fresh(), s1, Finish(0, s1.clock, None));
    assert Init(Fresh());
  }

  /** Exactly when the lease works: exclusion holds in every reachable state if and only if the
      lease is at least the longest live run. The validator's inequality alone is not enough. */
  lemma ExclusionIffLeaseCoversRun(c: Config)
    ensures (forall s :: Reachable(c, s) ==> Exclusive(s)) <==> c.timeout + c.slack <= c.lease
  {
    if c.RunBound() <= c.lease {
      forall s | Reachable(c, s) ensures Exclusive(s) {
        LeaseExclusion(c, s);
      }
    } else {
      var s := ShortLeaseDoubleRun(c);
    }
  }

  // Bounded recovery.

  /** The time `n` candidates may take, one after the other. */
  function Turns(c: Config, n: nat): nat {
    if n == 0 then 0 else Turns(c, n - 1) + c.RunBound()
  }

  /** How far past its last recovery's clock read a worker may still be in its present step. */
  function StepBound(c: Config, phase: Phase): int
    requires |Todo(phase)| <= BATCH_SIZE
  {
    match phase
    case Down => 0
    case Querying(_) => 2 * c.query
    case Executing(todo, _) => 2 * c.query + Turns(c, BATCH_SIZE - |todo| + 1)
    case Running(todo, _) => 2 * c.query + Turns(c, BATCH_SIZE - |todo|)
    case Sleeping => 2 * c.query + Turns(c, BATCH_SIZE) + c.poll
    case Recovering(_) => 3 * c.query + Turns(c, BATCH_SIZE) + c.poll
  }

  function Todo(phase: Phase): seq<JobId> {
    if phase.Executing? || phase.Running? then phase.todo else []
  }

  predicate Looping(c: Config, s: State) {
    forall w :: w in s.workers ==> LoopOk(c, s.workers[w], s.clock)
  }

  /** By how much a live run may outlast its lease. */
  function Shortfall(c: Config): int { Max(0, c.RunBound() - c.lease) }

  /** No RUNNING row has a lease that expired before the last recovery of a healthy loop. (With
      a lease shorter than a run, a claim may commit when its lease is over already.) */
  predicate SweptBy(c: Config, me: Worker, job: Job) {
    me.swept.Some? && job.status == RUNNING ==>
      job.leaseUntil.Some? && me.swept.value <= job.leaseUntil.value + Shortfall(c)
  }

  predicate Swept(c: Config, s: State) {
    forall w, j :: w in s.workers && 0 <= j < |s.jobs| ==> SweptBy(c, s.workers[w], s.jobs[j])
  }

  lemma {:induction false} TurnsGrow(c: Config, m: nat, n: nat)
    requires m <= n
    ensures Turns(c, m) <= Turns(c, n)
  {
    if m < n { TurnsGrow(c, m, n - 1); }
  }

  predicate LoopOk(c: Config, me: Worker, now: Time) {
    && (me.phase.Down? ==> me.swept.None?)
    && (me.phase.Recovering? ==> me.due == me.phase.seen + c.query)
    && |Todo(me.phase)| <= BATCH_SIZE
    && (me.phase.Running? ==> |me.phase.todo| < BATCH_SIZE)
    && (me.phase.Executing? ==> me.phase.todo != [])
    && (me.swept.Some? ==> me.swept.value <= now && me.due <= me.swept.value + StepBound(c, me.phase))
  }

  lemma NextLoopOk(c: Config, s: State, todo: seq<JobId>, swept: Option<Time>)
    requires |todo| <= BATCH_SIZE
    requires swept.Some? ==>
      swept.value <= s.clock <= swept.value + 2 * c.query + Turns(c, BATCH_SIZE - |todo|)
    ensures LoopOk(c, Next(c, s, todo, swept), s.clock)
  {
    TurnsGrow(c, BATCH_SIZE - |todo|, BATCH_SIZE);
  }

  lemma WorkerLoopOk(c: Config, s: State, a: Action)
    requires OnTime(c, s) && Looping(c, s) && Enabled(c, s, a)
    requires a.Query? || a.TryClaim? || a.Finish?
    ensures LoopOk(c, Apply(c, s, a).workers[a.w], s.clock)
  {
    var me := s.workers[a.w];
    assert LoopOk(c, me, s.clock) && Punctual(c, me, s.clock);
    if a.Query? {
      TurnsGrow(c, 0, BATCH_SIZE - |a.ids|);
      NextLoopOk(c, s, a.ids, me.swept);
    } else if a.TryClaim? {
      NextLoopOk(c, s, me.phase.todo[1..], me.swept);
    } else {
      NextLoopOk(c, s, me.phase.todo, me.swept);
    }
  }

  lemma FailedLoopOk(c: Config, s: State, a: Action)
    requires OnTime(c, s) && Looping(c, s) && Enabled(c, s, a) && a.Fail?
    ensures LoopOk(c, Apply(c, s, a).workers[a.w], s.clock)
  {
    var me := s.workers[a.w];
    assert LoopOk(c, me, s.clock) && Punctual(c, me, s.clock);
    TurnsGrow(c, 0, BATCH_SIZE);
    TurnsGrow(c, BATCH_SIZE - |Todo(me.phase)|, BATCH_SIZE);
    if me.phase.Executing? { TurnsGrow(c, BATCH_SIZE - |Todo(me.phase)| + 1, BATCH_SIZE); }
  }

  lemma ActorLoopOk(c: Config, s: State, a: Action)
    requires OnTime(c, s) && Looping(c, s) && Enabled(c, s, a) && !a.Tick?
    ensures LoopOk(c, Apply(c, s, a).workers[a.w], s.clock)
  {
    assert LoopOk(c, s.workers[a.w], s.clock) && Punctual(c, s.workers[a.w], s.clock);
    if a.Query? || a.TryClaim? || a.Finish? {
      WorkerLoopOk(c, s, a);
    } else if a.Fail? {
      FailedLoopOk(c, s, a);
    }
  }

  lemma LoopingStep(c: Config, s: State, a: Action)
    requires OnTime(c, s) && Looping(c, s) && Enabled(c, s, a)
    ensures Looping(c, Apply(c, s, a))
  {
    if !a.Tick? {
      ActorLoopOk(c, s, a);
    }
  }

  /** A recovery leaves no lease that expired before its clock read. */
  lemma SweptByRecovery(c: Config, s: State, a: Action, w: WorkerId, j: JobId)
    requires OnTime(c, s) && Looping(c, s) && Enabled(c, s, a) && a.Recover?
    requires w in s.workers && j < |s.jobs| && SweptBy(c, s.workers[w], s.jobs[j]) && RowOk(s.jobs[j], s.clock)
    ensures w in Apply(c, s, a).workers && SweptBy(c, Apply(c, s, a).workers[w], Apply(c, s, a).jobs[j])
  {
  }

  /** A new lease ends after every recovery that has been made, but for the shortfall. */
  lemma SweptByClaim(c: Config, s: State, a: Action, w: WorkerId, j: JobId)
    requires OnTime(c, s) && Looping(c, s) && Enabled(c, s, a) && a.TryClaim?
    requires w in s.workers && j < |s.jobs| && SweptBy(c, s.workers[w], s.jobs[j])
    ensures w in Apply(c, s, a).workers && SweptBy(c, Apply(c, s, a).workers[w], Apply(c, s, a).jobs[j])
  {
    assert LoopOk(c, s.workers[w], s.clock) && Punctual(c, s.workers[a.w], s.clock);
  }

  lemma SweptByOthers(c: Config, s: State, a: Action, w: WorkerId, j: JobId)
    requires OnTime(c, s) && Looping(c, s) && Enabled(c, s, a) && !a.Recover? && !a.TryClaim?
    requires w in s.workers && j < |s.jobs| && SweptBy(c, s.workers[w], s.jobs[j])
    ensures w in Apply(c, s, a).workers && SweptBy(c, Apply(c, s, a).workers[w], Apply(c, s, a).jobs[j])
  {
    assert LoopOk(c, s.workers[w], s.clock);
  }

  lemma SweptStep(c: Config, s: State, a: Action)
    requires OnTime(c, s) && Looping(c, s) && Swept(c, s) && Enabled(c, s, a)
    requires forall j :: 0 <= j < |s.jobs| ==> RowOk(s.jobs[j], s.clock)
    ensures Swept(c, Apply(c, s, a))
  {
    var s' := Apply(c, s, a);
    forall w, j | w in s'.workers && 0 <= j < |s'.jobs| ensures SweptBy(c, s'.workers[w], s'.jobs[j]) {
      assert SweptBy(c, s.workers[w], s.jobs[j]) && RowOk(s.jobs[j], s.clock);
      if a.Recover? {
        SweptByRecovery(c, s, a, w, j);
      } else if a.TryClaim? {
        SweptByClaim(c, s, a, w, j);
      } else {
        SweptByOthers(c, s, a, w, j);
      }
    }
  }

  lemma {:induction false} RunKeepsSwept(c: Config, s: State, run: seq<Action>)
    requires Books(s) && OnTime(c, s) && Looping(c, s) && Swept(c, s)
    requires CanRun(c, s, run)
    ensures var s' := After(c, s, run); Books(s') && OnTime(c, s') && Looping(c, s') && Swept(c, s')
    decreases |run|
  {
    if run != [] {
      BooksStep(c, s, run[0]);
      OnTimeStep(c, s, run[0]);
      LoopingStep(c, s, run[0]);
      SweptStep(c, s, run[0]);
      RunKeepsSwept(c, Apply(c, s, run[0]), run[1..]);
    }
  }

  lemma {:induction false} TurnsTotal(c: Config, n: nat)
    ensures Turns(c, n) == n * c.RunBound()
  {
    if n > 0 { TurnsTotal(c, n - 1); }
  }

  /** One turn of a healthy loop: recovery, candidate query, a full page of runs, the sleep,
      and the next recovery. */
  function Period(c: Config): nat {
    3 * c.query + BATCH_SIZE * (c.timeout + c.slack) + c.poll
  }

  lemma StepWithinPeriod(c: Config, me: Worker, now: Time)
    requires LoopOk(c, me, now) && me.swept.Some?
    ensures me.due <= me.swept.value + Period(c)
  {
    TurnsTotal(c, BATCH_SIZE);
    TurnsGrow(c, 0, BATCH_SIZE);
    TurnsGrow(c, BATCH_SIZE - |Todo(me.phase)|, BATCH_SIZE);
    if me.phase.Executing? { TurnsGrow(c, BATCH_SIZE - |Todo(me.phase)| + 1, BATCH_SIZE); }
  }

  /** While one worker's loop is healthy, a row is RUNNING no later than one period after its
      lease ends, plus the time by which a run may outlast the lease, if any: a job orphaned by
      a crash is PENDING again by then. */
  lemma OrphansAreRecovered(c: Config, s: State, w: WorkerId, j: JobId)
    requires Reachable(c, s)
    requires w in s.workers && s.workers[w].swept.Some?
    requires j < |s.jobs|
    ensures s.jobs[j].status == RUNNING ==>
      s.jobs[j].leaseUntil.Some? && s.clock <= s.jobs[j].leaseUntil.value + Shortfall(c) + Period(c)
    ensures s.jobs[j].status == RUNNING && c.timeout + c.slack <= c.lease ==>
      s.clock <= s.jobs[j].leaseUntil.value + 3 * c.query + 10 * (c.timeout + c.slack) + c.poll
  {
    var s0, run :| Init(s0) && CanRun(c, s0, run) && After(c, s0, run) == s;
    InitBooks(s0);
    RunKeepsSwept(c, s0, run);
    StepWithinPeriod(c, s.workers[w], s.clock);
    assert Punctual(c, s.workers[w], s.clock) && SweptBy(c, s.workers[w], s.jobs[j]);
  }

  /** Recovery leaves `nextRunAt` alone, so the query that follows it in the same turn of the
      loop reads the freed job, unless another worker took it or BATCH_SIZE others precede it. */
  lemma RecoveredJobIsRead(
    c: Config, s: State, w: WorkerId, j: JobId, mid: seq<Action>, seen: Time, ids: seq<JobId>)
    requires Reachable(c, s) && Enabled(c, s, Recover(w))
    requires j < |s.jobs| && Stale(s.jobs[j], s.workers[w].phase.seen)
    requires CanRun(c, Apply(c, s, Recover(w)), mid)
    requires forall a :: a in mid ==> !a.Tick? ==> a.w != w
    requires var s' := After(c, Apply(c, s, Recover(w)), mid);
             && Enabled(c, s', Query(w, seen, ids))
             && j < |s'.jobs| && s'.jobs[j] == Release(s.jobs[j])
             && |Ahead(s'.jobs, seen, j)| < 10
    ensures j in ids
  {
    var s0, run :| Init(s0) && CanRun(c, s0, run) && After(c, s0, run) == s;
    InitBooks(s0);
    RunKeepsBooks(c, s0, run);
    var s1 := Apply(c, s, Recover(w));
    var s2 := After(c, s1, mid);
    OthersLeavePhase(c, s1, mid, w);
    assert s.jobs[j].nextRunAt <= s.clock;
    FewAheadIsSelected(s2.jobs, seen, BATCH_SIZE, ids, j);
  }

  lemma {:induction false} OthersLeavePhase(c: Config, s: State, run: seq<Action>, w: WorkerId)
    requires CanRun(c, s, run) && w in s.workers
    requires forall a :: a in run ==> !a.Tick? ==> a.w != w
    ensures w in After(c, s, run).workers && After(c, s, run).workers[w] == s.workers[w]
    decreases |run|
  {
    if run != [] {
      assert run[0] in run;
      OthersLeavePhase(c, Apply(c, s, run[0]), run[1..], w);
    }
  }
}
