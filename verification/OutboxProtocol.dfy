/** Any number of outbox workers on one table, interleaved step by step.

    A worker that has locked a row keeps what it read (`locked`) and the results so far. The
    effects of a handler are committed by the handler itself, so a success counts as soon as it
    happens, and an attempt that aborts afterwards loses its record. Each event has a history:
    how often each handler was run and succeeded, the aborted attempts, the committed failures. */
module OutboxProtocol {
  import opened Wrappers
  import opened Outbox

  type WorkerId = nat

  datatype Phase =
    | Idle
    | Handling(id: EventId, locked: Event, lockedAt: Time, results: seq<HandlerResult>)

  /** A committed failed attempt: locked, ended, and (unless it was the last) due again. */
  datatype Attempt = Attempt(lockedAt: Time, endedAt: Time, dueAt: Time)

  datatype History = History(calls: seq<nat>, wins: seq<nat>, aborts: nat, fails: seq<Attempt>)

  datatype State = State(clock: Time, rows: seq<Event>, workers: map<WorkerId, Phase>, history: seq<History>)

  datatype Action =
    | Tick(now: Time)
    | Publish(added: seq<Event>)                      // the commit of a transaction that published these
    | Lock(w: WorkerId, id: EventId, seen: Time)
    | Invoke(w: WorkerId, error: Option<string>)      // the next handler; skipped if it is completed
    | Commit(w: WorkerId, at: Time, now: Time, jitter: int)
    | Abort(w: WorkerId)                              // crash, shutdown, or error in the session

  predicate New(e: Event, now: Time) {
    && e.status == PENDING && e.retryCount == 0 && e.handlerState == map[]
    && e.processedAt.None? && e.lastError.None? && e.scheduledAt <= now
  }

  function NoHistory(handlers: nat): History {
    History(seq(handlers, _ => 0), seq(handlers, _ => 0), 0, [])
  }

  function Locked(s: State): set<EventId> {
    set w | w in s.workers && s.workers[w].Handling? :: s.workers[w].id
  }

  predicate Init(s: State) {
    s.rows == [] && s.history == [] && forall w :: w in s.workers ==> s.workers[w].Idle?
  }

  function Names(reg: Registry, s: State, w: WorkerId): seq<string>
    requires w in s.workers && s.workers[w].Handling?
  {
    Handlers(reg, s.workers[w].locked.eventType)
  }

  predicate Enabled(reg: Registry, s: State, a: Action) {
    match a
    case Tick(now) => s.clock <= now
    case Publish(added) => forall i :: 0 <= i < |added| ==> New(added[i], s.clock)
    case Lock(w, id, seen) =>
      && w in s.workers && s.workers[w].Idle?
      && seen <= s.clock && IsNext(s.rows, Locked(s), seen, id)
    case Invoke(w, _) =>
      && w in s.workers && s.workers[w].Handling?
      && |s.workers[w].results| < |Names(reg, s, w)|
    case Commit(w, at, now, jitter) =>
      && w in s.workers && s.workers[w].Handling?
      && |s.workers[w].results| == |Names(reg, s, w)|
      && s.workers[w].lockedAt <= at <= now <= s.clock && IsJitter(jitter)
    case Abort(w) => w in s.workers && s.workers[w].Handling?
  }

  function Result(name: string, completed: set<string>, error: Option<string>): HandlerResult {
    if name in completed then HandlerResult(name, true, None, true)
    else HandlerResult(name, error.None?, error, false)
  }

  function Bump(counts: seq<nat>, i: nat): seq<nat> {
    if i < |counts| then counts[i := counts[i] + 1] else counts
  }

  function Edit(history: seq<History>, id: EventId, h: History): seq<History> {
    if id < |history| then history[id := h] else history
  }

  function Past(s: State, id: EventId): History {
    if id < |s.history| then s.history[id] else NoHistory(0)
  }

  function Apply(reg: Registry, s: State, a: Action): State
    requires Enabled(reg, s, a)
  {
    match a
    case Tick(now) => s.(clock := now)
    case Publish(added) =>
      s.(rows := s.rows + added,
         history := s.history
                    + seq(|added|, i requires 0 <= i < |added| => NoHistory(|Handlers(reg, added[i].eventType)|)))
    case Lock(w, id, seen) =>
      s.(workers := s.workers[w := Handling(id, s.rows[id], s.clock, [])])
    case Invoke(w, error) =>
      var me := s.workers[w];
      var i, h := |me.results|, Past(s, me.id);
      var r := Result(Names(reg, s, w)[i], Completed(me.locked.handlerState), error);
      s.(workers := s.workers[w := me.(results := me.results + [r])],
         history := Edit(s.history, me.id, h.(
           calls := if r.skipped then h.calls else Bump(h.calls, i),
           wins := if r.skipped || !r.success then h.wins else Bump(h.wins, i))))
    case Commit(w, at, now, jitter) =>
      var me := s.workers[w];
      var h, row := Past(s, me.id), Handled(me.locked, me.results, at, now, jitter);
      s.(workers := s.workers[w := Idle],
         rows := if me.id < |s.rows| then s.rows[me.id := row] else s.rows,
         history := if row.status == PROCESSED then s.history
                    else Edit(s.history, me.id,
                              h.(fails := h.fails + [Attempt(me.lockedAt, now, row.scheduledAt)])))
    case Abort(w) =>
      var me := s.workers[w];
      var h := Past(s, me.id);
      s.(workers := s.workers[w := Idle], history := Edit(s.history, me.id, h.(aborts := h.aborts + 1)))
  }

  predicate CanRun(reg: Registry, s: State, run: seq<Action>)
    decreases |run|
  {
    run == [] || (Enabled(reg, s, run[0]) && CanRun(reg, Apply(reg, s, run[0]), run[1..]))
  }

  function After(reg: Registry, s: State, run: seq<Action>): State
    requires CanRun(reg, s, run)
    decreases |run|
  {
    if run == [] then s else After(reg, Apply(reg, s, run[0]), run[1..])
  }

  ghost predicate Reachable(reg: Registry, s: State) {
    exists s0, run :: Init(s0) && CanRun(reg, s0, run) && After(reg, s0, run) == s
  }

  lemma {:induction false} RunThen(reg: Registry, s: State, run: seq<Action>, a: Action)
    requires CanRun(reg, s, run) && Enabled(reg, After(reg, s, run), a)
    ensures CanRun(reg, s, run + [a])
    ensures After(reg, s, run + [a]) == Apply(reg, After(reg, s, run), a)
    decreases |run|
  {
    if run == [] {
      assert run + [a] == [a];
    } else {
      RunThen(reg, Apply(reg, s, run[0]), run[1..], a);
      assert (run + [a])[1..] == run[1..] + [a];
    }
  }

  lemma Begin(reg: Registry, s: State)
    requires Init(s)
    ensures Reachable(reg, s)
  {
    assert CanRun(reg, s, []) && After(reg, s, []) == s;
  }

  lemma Step(reg: Registry, s: State, a: Action) returns (s': State)
    requires Reachable(reg, s) && Enabled(reg, s, a)
    ensures s' == Apply(reg, s, a) && Reachable(reg, s')
  {
    var s0, run :| Init(s0) && CanRun(reg, s0, run) && After(reg, s0, run) == s;
    RunThen(reg, s0, run, a);
    s' := Apply(reg, s, a);
  }

  // Locks, rows and retries: the part of the invariant that needs nothing of the registry.

  predicate Exclusive(s: State) {
    forall v, w | v in s.workers && w in s.workers && s.workers[v].Handling? && s.workers[w].Handling? ::
      s.workers[v].id == s.workers[w].id ==> v == w
  }

  /** A worker that is handling an event holds the row as it is now, still PENDING, and the
      results it has are those of the first handlers. */
  predicate LockOk(reg: Registry, s: State, w: WorkerId)
    requires w in s.workers && s.workers[w].Handling?
  {
    var me := s.workers[w];
    && me.id < |s.rows|
    && me.locked == s.rows[me.id]
    && me.locked.status == PENDING
    && me.locked.scheduledAt <= me.lockedAt <= s.clock
    && ResultsFit(me.results, Handlers(reg, me.locked.eventType), Completed(me.locked.handlerState))
  }

  predicate LocksOk(reg: Registry, s: State) {
    forall w :: w in s.workers && s.workers[w].Handling? ==> LockOk(reg, s, w)
  }

  /** The retries an event may use: at least the first attempt is always made. */
  function Limit(e: Event): nat { Max(1, e.maxRetries) }

  /** The committed failures are as many as `retryCount`, each pair of consecutive ones apart by
      a backoff, and the last one decides when the row is due. */
  predicate RowOk(e: Event, fails: seq<Attempt>) {
    && |fails| == e.retryCount
    && (e.status == FAILED ==> e.retryCount == Limit(e))
    && (e.status != FAILED ==> e.retryCount < Limit(e))
    && (forall i :: 0 <= i < |fails| ==> fails[i].lockedAt <= fails[i].endedAt)
    && (forall i :: 0 < i < |fails| ==> Delayed(fails[i - 1], i) && fails[i - 1].dueAt <= fails[i].lockedAt)
    && (e.status == PENDING && fails != [] ==>
          Delayed(fails[|fails| - 1], |fails|) && fails[|fails| - 1].dueAt == e.scheduledAt)
  }

  /** The `k`-th failure was followed by a delay within the bounds of its backoff. */
  predicate Delayed(f: Attempt, k: nat) {
    f.endedAt + Backoff(k, 0) <= f.dueAt <= f.endedAt + Backoff(k, MAX_JITTER)
  }

  predicate RowsOk(s: State) {
    |s.history| == |s.rows| && forall id :: 0 <= id < |s.rows| ==> RowOk(s.rows[id], s.history[id].fails)
  }

  predicate Base(reg: Registry, s: State) {
    Exclusive(s) && LocksOk(reg, s) && RowsOk(s)
  }

  lemma ExclusiveStep(reg: Registry, s: State, a: Action)
    requires Exclusive(s) && Enabled(reg, s, a)
    ensures Exclusive(Apply(reg, s, a))
  {
    if a.Lock? {
      assert forall v :: v in s.workers && s.workers[v].Handling? ==> s.workers[v].id in Locked(s);
    }
  }

  /** Workers that do not act keep their lock, and nobody else writes the row under it. */
  lemma OthersKeepLocks(reg: Registry, s: State, a: Action, w: WorkerId)
    requires Exclusive(s) && LocksOk(reg, s) && Enabled(reg, s, a)
    requires w in s.workers && s.workers[w].Handling?
    requires a.Tick? || a.Publish? || a.w != w
    ensures w in Apply(reg, s, a).workers && Apply(reg, s, a).workers[w] == s.workers[w]
    ensures LockOk(reg, Apply(reg, s, a), w)
  {
    assert LockOk(reg, s, w);
  }

  lemma ActorKeepsLock(reg: Registry, s: State, a: Action)
    requires LocksOk(reg, s) && Enabled(reg, s, a) && (a.Lock? || a.Invoke?)
    ensures LockOk(reg, Apply(reg, s, a), a.w)
  {
    if a.Invoke? { assert LockOk(reg, s, a.w); }
  }

  lemma LockStep(reg: Registry, s: State, a: Action)
    requires Base(reg, s) && Enabled(reg, s, a)
    ensures Exclusive(Apply(reg, s, a)) && LocksOk(reg, Apply(reg, s, a))
  {
    var s' := Apply(reg, s, a);
    ExclusiveStep(reg, s, a);
    forall w | w in s'.workers && s'.workers[w].Handling? ensures LockOk(reg, s', w) {
      if a.Tick? || a.Publish? || a.w != w {
        OthersKeepLocks(reg, s, a, w);
      } else {
        ActorKeepsLock(reg, s, a);
      }
    }
  }

  lemma HandledRowOk(
    e: Event, fails: seq<Attempt>, results: seq<HandlerResult>, lockedAt: Time, at: Time, now: Time, jitter: int)
    requires RowOk(e, fails) && e.status == PENDING
    requires e.scheduledAt <= lockedAt <= now && IsJitter(jitter)
    ensures var e' := Handled(e, results, at, now, jitter);
            RowOk(e', if e'.status == PROCESSED then fails else fails + [Attempt(lockedAt, now, e'.scheduledAt)])
  {
  }

  lemma RowStep(reg: Registry, s: State, a: Action)
    requires Base(reg, s) && Enabled(reg, s, a)
    ensures RowsOk(Apply(reg, s, a))
  {
    var s' := Apply(reg, s, a);
    if a.Commit? {
      var me := s.workers[a.w];
      assert LockOk(reg, s, a.w);
      HandledRowOk(s.rows[me.id], s.history[me.id].fails, me.results, me.lockedAt, a.at, a.now, a.jitter);
    }
    forall id | 0 <= id < |s'.rows|
      ensures |s'.history| == |s'.rows| && RowOk(s'.rows[id], s'.history[id].fails)
    {
      if id < |s.rows| {
        assert RowOk(s.rows[id], s.history[id].fails);
      }
    }
  }

  lemma {:induction false} RunKeepsBase(reg: Registry, s: State, run: seq<Action>)
    requires Base(reg, s) && CanRun(reg, s, run)
    ensures Base(reg, After(reg, s, run))
    decreases |run|
  {
    if run != [] {
      LockStep(reg, s, run[0]);
      RowStep(reg, s, run[0]);
      RunKeepsBase(reg, Apply(reg, s, run[0]), run[1..]);
    }
  }

  lemma ReachableBase(reg: Registry, s: State)
    requires Reachable(reg, s)
    ensures Base(reg, s)
  {
    var s0, run :| Init(s0) && CanRun(reg, s0, run) && After(reg, s0, run) == s;
    RunKeepsBase(reg, s0, run);
  }

  /** In every interleaving: no two workers handle the same event, the row a worker is about to
      commit over is the row it locked, and `retryCount` is the number of committed failures. */
  lemma OutboxExclusion(reg: Registry, s: State, v: WorkerId, w: WorkerId)
    requires Reachable(reg, s)
    requires v in s.workers && s.workers[v].Handling?
    requires w in s.workers && s.workers[w].Handling?
    ensures v != w ==> s.workers[v].id != s.workers[w].id
    ensures s.workers[w].id < |s.rows| == |s.history|
    ensures s.rows[s.workers[w].id] == s.workers[w].locked
    ensures s.rows[s.workers[w].id].retryCount == |s.history[s.workers[w].id].fails|
  {
    ReachableBase(reg, s);
    assert LockOk(reg, s, w);
  }

  /** PENDING and PROCESSED rows have retries left, FAILED rows have used exactly all of them. */
  lemma RetriesMatchStatus(reg: Registry, s: State, id: EventId)
    requires Reachable(reg, s) && id < |s.rows|
    ensures |s.history| == |s.rows| && s.rows[id].retryCount == |s.history[id].fails|
    ensures s.rows[id].status == FAILED <==>
      s.rows[id].retryCount >= 1 && s.rows[id].retryCount >= s.rows[id].maxRetries
    ensures s.rows[id].retryCount <= Limit(s.rows[id])
  {
    ReachableBase(reg, s);
  }

  // Dead letters.

  lemma {:induction false} FailuresAreSpaced(e: Event, fails: seq<Attempt>, n: nat)
    requires RowOk(e, fails) && 1 <= n < |fails|
    ensures fails[0].endedAt + BackoffSum(n, 0) <= fails[n].lockedAt
  {
    assert Delayed(fails[n - 1], n);
    if n == 1 {
      assert BackoffSum(1, 0) == Backoff(1, 0);
    } else {
      FailuresAreSpaced(e, fails, n - 1);
    }
  }

  /** Whatever the jitters, crashes and interleavings, the attempt that sets FAILED starts at
      least the sum of the backoffs after the end of the first one: for N retries, 2^N - 2
      seconds up to N = 12, and one hour more for each further one. */
  lemma DeadLetterTiming(reg: Registry, s: State, id: EventId)
    requires Reachable(reg, s) && id < |s.rows| && s.rows[id].status == FAILED
    ensures |s.history| == |s.rows|
    ensures var n, fails := Limit(s.rows[id]), s.history[id].fails;
            && |fails| == n
            && (2 <= n <= 12 ==> fails[n - 1].lockedAt - fails[0].endedAt >= (Pow2(n) - 2) * SECOND)
            && (n >= 12 ==> fails[n - 1].lockedAt - fails[0].endedAt >= (4094 + 3600 * (n - 12)) * SECOND)
  {
    ReachableBase(reg, s);
    var n := Limit(s.rows[id]);
    if n >= 2 { FailuresAreSpaced(s.rows[id], s.history[id].fails, n - 1); }
    BackoffSumClosedForm(n - 1);
  }

  /** The delays of the failures `k` to `|fails|`, added up. */
  function DelaySum(fails: seq<Attempt>, n: nat): int
    requires n <= |fails|
  {
    if n == 0 then 0 else DelaySum(fails, n - 1) + fails[n - 1].dueAt - fails[n - 1].endedAt
  }

  lemma {:induction false} DelaysAreBounded(e: Event, fails: seq<Attempt>, n: nat)
    requires RowOk(e, fails) && n <= |fails| && (n < |fails| || e.status == PENDING)
    ensures BackoffSum(n, 0) <= DelaySum(fails, n) <= BackoffSum(n, MAX_JITTER)
  {
    if n > 0 {
      DelaysAreBounded(e, fails, n - 1);
      assert Delayed(fails[n - 1], n);
    }
  }

  /** The scheduled delays of an event, in all, are between the sums of the backoffs without
      jitter and with the greatest jitter. */
  lemma ScheduledDelays(reg: Registry, s: State, id: EventId, n: nat)
    requires Reachable(reg, s) && id < |s.rows|
    requires n <= s.rows[id].retryCount && (n < s.rows[id].retryCount || s.rows[id].status == PENDING)
    ensures |s.history| == |s.rows| && n <= |s.history[id].fails|
    ensures BackoffSum(n, 0) <= DelaySum(s.history[id].fails, n) <= BackoffSum(n, MAX_JITTER)
  {
    ReachableBase(reg, s);
    DelaysAreBounded(s.rows[id], s.history[id].fails, n);
  }

  // Drain.

  predicate NoPublish(run: seq<Action>) {
    forall i :: 0 <= i < |run| ==> !run[i].Publish?
  }

  function Commits(run: seq<Action>): nat {
    if run == [] then 0 else (if run[0].Commit? then 1 else 0) + Commits(run[1..])
  }

  lemma StepUsesAttempts(reg: Registry, s: State, a: Action)
    requires Base(reg, s) && Enabled(reg, s, a) && !a.Publish?
    ensures var rows := Apply(reg, s, a).rows;
            && |rows| == |s.rows|
            && TotalLeft(rows) + (if a.Commit? then 1 else 0) <= TotalLeft(s.rows)
            && (forall id :: 0 <= id < |s.rows| && s.rows[id].status != PENDING ==> rows[id] == s.rows[id])
  {
    if a.Commit? {
      var me := s.workers[a.w];
      assert LockOk(reg, s, a.w);
      TotalLeftUpdate(s.rows, me.id, Handled(me.locked, me.results, a.at, a.now, a.jitter));
    }
  }

  /** Without new publishes, every commit uses up an attempt. */
  lemma {:induction false} RunUsesAttempts(reg: Registry, s: State, run: seq<Action>)
    requires Base(reg, s) && CanRun(reg, s, run) && NoPublish(run)
    ensures var s' := After(reg, s, run);
            && |s'.rows| == |s.rows|
            && Commits(run) + TotalLeft(s'.rows) <= TotalLeft(s.rows)
            && (forall id :: 0 <= id < |s.rows| && s.rows[id].status != PENDING ==> s'.rows[id] == s.rows[id])
    decreases |run|
  {
    if run != [] {
      StepUsesAttempts(reg, s, run[0]);
      LockStep(reg, s, run[0]);
      RowStep(reg, s, run[0]);
      RunUsesAttempts(reg, Apply(reg, s, run[0]), run[1..]);
    }
  }

  predicate Settled(rows: seq<Event>) {
    forall id :: 0 <= id < |rows| ==> rows[id].status != PENDING
  }

  /** So there are at most as many commits as attempts left, however attempts interleave and
      abort, and if there are as many then no event is PENDING. */
  lemma Drain(reg: Registry, s: State, run: seq<Action>)
    requires Reachable(reg, s) && CanRun(reg, s, run) && NoPublish(run)
    ensures var s' := After(reg, s, run);
            && |s'.rows| == |s.rows|
            && Commits(run) + TotalLeft(s'.rows) <= TotalLeft(s.rows)
            && (Commits(run) == TotalLeft(s.rows) ==> Settled(s'.rows))
            && (forall id :: 0 <= id < |s.rows| && s.rows[id].status != PENDING ==> s'.rows[id] == s.rows[id])
  {
    ReachableBase(reg, s);
    RunUsesAttempts(reg, s, run);
    SettledIffNothingLeft(After(reg, s, run).rows);
  }

  lemma {:induction false} SettledIffNothingLeft(rows: seq<Event>)
    ensures Settled(rows) <==> TotalLeft(rows) == 0
  {
    if rows != [] {
      SettledIffNothingLeft(rows[1..]);
      assert rows == [rows[0]] + rows[1..];
    }
  }

  /** PROCESSED and FAILED are permanent, publishes or not. */
  lemma {:induction false} EndStatesArePermanent(reg: Registry, s: State, run: seq<Action>, id: EventId)
    requires Reachable(reg, s) && CanRun(reg, s, run)
    requires id < |s.rows| && s.rows[id].status != PENDING
    ensures id < |After(reg, s, run).rows| && After(reg, s, run).rows[id] == s.rows[id]
    decreases |run|
  {
    if run != [] {
      var a := run[0];
      ReachableBase(reg, s);
      var s1 := Step(reg, s, a);
      if a.Commit? { assert LockOk(reg, s, a.w); }
      EndStatesArePermanent(reg, s1, run[1..], id);
    }
  }

  // Fairness.

  /** The other PENDING events scheduled no later than event `id`. */
  function Before(rows: seq<Event>, id: EventId): set<EventId>
    requires id < |rows|
  {
    set k: EventId | k < |rows| && k != id && rows[k].status == PENDING && rows[k].scheduledAt <= rows[id].scheduledAt
  }

  /** Event `id` is PENDING and due, and nobody has it. */
  predicate Waiting(s: State, id: EventId) {
    && id < |s.rows| && s.rows[id].status == PENDING && s.rows[id].scheduledAt <= s.clock
    && forall w :: w in s.workers && s.workers[w].Handling? ==> s.workers[w].id != id
  }

  /** The attempts that were under way before event `id` became due, or are of events that are
      scheduled later. */
  function Strays(s: State, id: EventId): set<WorkerId>
    requires id < |s.rows|
  {
    set w | w in s.workers && IsStray(s.workers[w], s.rows[id].scheduledAt)
  }

  predicate IsStray(phase: Phase, due: Time) {
    phase.Handling? && !(phase.locked.scheduledAt <= due <= phase.lockedAt)
  }

  /** What may still be committed while event `id` waits. */
  function Overtaking(s: State, id: EventId): nat
    requires id < |s.rows|
  {
    |Before(s.rows, id)| + |Strays(s, id)|
  }

  predicate NeverLocked(run: seq<Action>, id: EventId) {
    forall i :: 0 <= i < |run| ==> !(run[i].Lock? && run[i].id == id)
  }

  /** An attempt that was locked since event `id` became due takes its own event out of those
      before it, whether it ends or is retried. */
  lemma CommitMovesPast(reg: Registry, s: State, a: Action, id: EventId)
    requires Base(reg, s) && Enabled(reg, s, a) && a.Commit?
    requires Waiting(s, id) && a.w !in Strays(s, id)
    ensures Waiting(Apply(reg, s, a), id)
    ensures |Before(Apply(reg, s, a).rows, id)| == |Before(s.rows, id)| - 1
    ensures Strays(Apply(reg, s, a), id) == Strays(s, id)
  {
    var me, s' := s.workers[a.w], Apply(reg, s, a);
    assert LockOk(reg, s, a.w);
    assert me.id in Before(s.rows, id);
    BackoffIsPositive(me.locked.retryCount + 1, a.jitter);
    assert Before(s'.rows, id) == Before(s.rows, id) - {me.id};
  }

  lemma StrayCommits(reg: Registry, s: State, a: Action, id: EventId)
    requires Base(reg, s) && Enabled(reg, s, a) && a.Commit?
    requires Waiting(s, id) && a.w in Strays(s, id)
    ensures Waiting(Apply(reg, s, a), id)
    ensures Overtaking(Apply(reg, s, a), id) < Overtaking(s, id)
  {
    var s' := Apply(reg, s, a);
    CommitBringsNoneBefore(reg, s, a, id);
    StrayLeaves(reg, s, a, id);
    SubsetCount(Before(s'.rows, id), Before(s.rows, id));
  }

  lemma StrayLeaves(reg: Registry, s: State, a: Action, id: EventId)
    requires Enabled(reg, s, a) && a.Commit? && id < |s.rows|
    requires id < |Apply(reg, s, a).rows| && Apply(reg, s, a).rows[id] == s.rows[id]
    ensures Strays(Apply(reg, s, a), id) == Strays(s, id) - {a.w}
  {
  }

  lemma CommitBringsNoneBefore(reg: Registry, s: State, a: Action, id: EventId)
    requires Base(reg, s) && Enabled(reg, s, a) && a.Commit?
    requires Waiting(s, id)
    ensures Waiting(Apply(reg, s, a), id) && Apply(reg, s, a).rows[id] == s.rows[id]
    ensures Before(Apply(reg, s, a).rows, id) <= Before(s.rows, id)
  {
    var me := s.workers[a.w];
    assert LockOk(reg, s, a.w);
    BackoffIsPositive(me.locked.retryCount + 1, a.jitter);
  }

  /** Locks, handlers and aborts bring no attempt that could overtake. */
  lemma OthersBringNoStray(reg: Registry, s: State, a: Action, id: EventId)
    requires Base(reg, s) && Enabled(reg, s, a) && !a.Publish? && !a.Commit?
    requires Waiting(s, id) && !(a.Lock? && a.id == id)
    ensures Apply(reg, s, a).rows == s.rows && Waiting(Apply(reg, s, a), id)
    ensures Strays(Apply(reg, s, a), id) <= Strays(s, id)
  {
    if a.Lock? {
      assert id !in Locked(s);
      assert s.rows[a.id].scheduledAt <= s.rows[id].scheduledAt;
    }
  }

  lemma WaitingStep(reg: Registry, s: State, a: Action, id: EventId)
    requires Base(reg, s) && Enabled(reg, s, a) && !a.Publish?
    requires Waiting(s, id) && !(a.Lock? && a.id == id)
    ensures var s' := Apply(reg, s, a);
            Waiting(s', id) && Overtaking(s', id) + (if a.Commit? then 1 else 0) <= Overtaking(s, id)
  {
    if !a.Commit? {
      OthersBringNoStray(reg, s, a, id);
      SubsetCount(Strays(Apply(reg, s, a), id), Strays(s, id));
    } else if a.w in Strays(s, id) {
      StrayCommits(reg, s, a, id);
    } else {
      CommitMovesPast(reg, s, a, id);
    }
  }

  /** Without new publishes, while an event is due and nobody locks it, commits are made by the
      attempts that were under way, once each, and of events scheduled no later, which then end
      or move past it. So it waits for no more commits than there are of these. */
  lemma {:induction false} BoundedOvertaking(reg: Registry, s: State, run: seq<Action>, id: EventId)
    requires Reachable(reg, s) && CanRun(reg, s, run)
    requires Waiting(s, id) && NoPublish(run) && NeverLocked(run, id)
    ensures Waiting(After(reg, s, run), id)
    ensures Commits(run) + Overtaking(After(reg, s, run), id) <= Overtaking(s, id)
    decreases |run|
  {
    if run != [] {
      ReachableBase(reg, s);
      var s1 := Step(reg, s, run[0]);
      WaitingStep(reg, s, run[0], id);
      BoundedOvertaking(reg, s1, run[1..], id);
    }
  }
}
