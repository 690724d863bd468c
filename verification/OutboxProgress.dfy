/** That a table without new publishes comes to rest: every run of its workers ends, and not
    before every event is PROCESSED or FAILED. */
module OutboxProgress {
  import opened Wrappers
  import opened Outbox
  import opened OutboxProtocol

  // Every run ends.

  /** The steps that workers take: everything but the clock. */
  function Work(run: seq<Action>): nat {
    if run == [] then 0 else (if run[0].Tick? then 0 else 1) + Work(run[1..])
  }

  function Aborts(run: seq<Action>): nat {
    if run == [] then 0 else (if run[0].Abort? then 1 else 0) + Aborts(run[1..])
  }

  /** The steps that a worker has taken in its present attempt. */
  function Taken(workers: map<WorkerId, Phase>, w: WorkerId): nat {
    if w in workers && workers[w].Handling? then 1 + |workers[w].results| else 0
  }

  function TotalTaken(workers: map<WorkerId, Phase>, ids: seq<WorkerId>): nat {
    if ids == [] then 0 else Taken(workers, ids[0]) + TotalTaken(workers, ids[1..])
  }

  /** `ids` lists every worker once. */
  predicate Lists(ids: seq<WorkerId>, workers: map<WorkerId, Phase>) {
    && (forall a, b :: 0 <= a < b < |ids| ==> ids[a] != ids[b])
    && (forall w :: w in workers ==> w in ids)
  }

  predicate AtMost(reg: Registry, handlers: nat) {
    forall t :: t in reg ==> |reg[t]| <= handlers
  }

  lemma {:induction false} TakenUpdate(
    before: map<WorkerId, Phase>, after: map<WorkerId, Phase>, ids: seq<WorkerId>, w: WorkerId)
    requires forall a, b :: 0 <= a < b < |ids| ==> ids[a] != ids[b]
    requires forall v :: v != w ==> Taken(after, v) == Taken(before, v)
    ensures TotalTaken(after, ids) - TotalTaken(before, ids)
         == if w in ids then Taken(after, w) - Taken(before, w) else 0
  {
    if ids != [] {
      assert ids == [ids[0]] + ids[1..];
      TakenUpdate(before, after, ids[1..], w);
    }
  }

  lemma {:induction false} TakenIsBounded(
    reg: Registry, s: State, ids: seq<WorkerId>, handlers: nat)
    requires LocksOk(reg, s) && AtMost(reg, handlers)
    ensures TotalTaken(s.workers, ids) <= |ids| * (handlers + 1)
  {
    if ids != [] {
      if ids[0] in s.workers && s.workers[ids[0]].Handling? { assert LockOk(reg, s, ids[0]); }
      TakenIsBounded(reg, s, ids[1..], handlers);
      assert |ids| * (handlers + 1) == (|ids| - 1) * (handlers + 1) + handlers + 1;
    }
  }

  lemma StepTakes(reg: Registry, s: State, a: Action, ids: seq<WorkerId>, handlers: nat)
    requires LocksOk(reg, s) && Enabled(reg, s, a) && !a.Publish?
    requires AtMost(reg, handlers) && Lists(ids, s.workers)
    ensures Lists(ids, Apply(reg, s, a).workers)
    ensures (if a.Tick? then 0 else 1) + TotalTaken(s.workers, ids)
         <= (if a.Commit? || a.Abort? then handlers + 2 else 0) + TotalTaken(Apply(reg, s, a).workers, ids)
  {
    if !a.Tick? {
      var s' := Apply(reg, s, a);
      if s.workers[a.w].Handling? { assert LockOk(reg, s, a.w); }
      assert forall v :: v != a.w ==> Taken(s'.workers, v) == Taken(s.workers, v);
      TakenUpdate(s.workers, s'.workers, ids, a.w);
    }
  }

  /** `each` for every attempt that ends. */
  function Allowed(run: seq<Action>, each: nat): nat {
    if run == [] then 0 else (if run[0].Commit? || run[0].Abort? then each else 0) + Allowed(run[1..], each)
  }

  lemma {:induction false} AllowedInAll(run: seq<Action>, each: nat)
    ensures Allowed(run, each) == each * (Commits(run) + Aborts(run))
  {
    if run != [] {
      AllowedInAll(run[1..], each);
      var n := Commits(run[1..]) + Aborts(run[1..]);
      assert each * (n + 1) == each * n + each;
    }
  }

  lemma {:induction false} RunTakes(
    reg: Registry, s: State, run: seq<Action>, ids: seq<WorkerId>, handlers: nat)
    requires Base(reg, s) && CanRun(reg, s, run) && NoPublish(run)
    requires AtMost(reg, handlers) && Lists(ids, s.workers)
    ensures Work(run) + TotalTaken(s.workers, ids)
         <= Allowed(run, handlers + 2) + TotalTaken(After(reg, s, run).workers, ids)
    decreases |run|
  {
    if run != [] {
      StepTakes(reg, s, run[0], ids, handlers);
      LockStep(reg, s, run[0]);
      RowStep(reg, s, run[0]);
      RunTakes(reg, Apply(reg, s, run[0]), run[1..], ids, handlers);
    }
  }

  lemma WorkAndEnds(reg: Registry, s: State, run: seq<Action>, ids: seq<WorkerId>, handlers: nat)
    requires Base(reg, s) && CanRun(reg, s, run) && NoPublish(run)
    requires AtMost(reg, handlers) && Lists(ids, s.workers)
    ensures Work(run) <= Allowed(run, handlers + 2) + |ids| * (handlers + 1)
  {
    RunTakes(reg, s, run, ids, handlers);
    RunKeepsBase(reg, s, run);
    TakenIsBounded(reg, After(reg, s, run), ids, handlers);
  }

  lemma EndsAreBounded(reg: Registry, s: State, run: seq<Action>, each: nat)
    requires Base(reg, s) && CanRun(reg, s, run) && NoPublish(run)
    ensures Allowed(run, each) <= each * (TotalLeft(s.rows) + Aborts(run))
  {
    RunUsesAttempts(reg, s, run);
    AllowedInAll(run, each);
    ProductGrows(each, Commits(run) + Aborts(run), TotalLeft(s.rows) + Aborts(run));
  }

  lemma ProductGrows(x: nat, m: nat, n: nat)
    requires m <= n
    ensures x * m <= x * n
  {
  }

  /** Without new publishes, any number of workers, in any interleaving, take no more steps than
      the attempts left and the aborted ones allow: a lock, the handlers and the end of each. */
  lemma WorkIsBounded(reg: Registry, s: State, run: seq<Action>, ids: seq<WorkerId>, handlers: nat)
    requires Reachable(reg, s) && CanRun(reg, s, run) && NoPublish(run)
    requires AtMost(reg, handlers) && Lists(ids, s.workers)
    ensures Work(run) <= (handlers + 2) * (TotalLeft(s.rows) + Aborts(run)) + |ids| * (handlers + 1)
  {
    ReachableBase(reg, s);
    WorkAndEnds(reg, s, run, ids, handlers);
    EndsAreBounded(reg, s, run, handlers + 2);
  }

  // No run ends early.

  /** A run in which the clock and the workers go on, and at worst every handler fails. */
  predicate AtWorst(run: seq<Action>) {
    forall i :: 0 <= i < |run| ==> !run[i].Publish? && !run[i].Abort? && (run[i].Invoke? ==> run[i].error.Some?)
  }

  lemma StartWith(reg: Registry, s: State, a: Action, rest: seq<Action>)
    requires Enabled(reg, s, a) && CanRun(reg, Apply(reg, s, a), rest)
    ensures CanRun(reg, s, [a] + rest)
    ensures After(reg, s, [a] + rest) == After(reg, Apply(reg, s, a), rest)
    ensures Commits([a] + rest) == (if a.Commit? then 1 else 0) + Commits(rest)
  {
    assert ([a] + rest)[1..] == rest;
  }

  lemma {:induction false} GoOn(reg: Registry, s: State, run: seq<Action>, rest: seq<Action>)
    requires CanRun(reg, s, run) && CanRun(reg, After(reg, s, run), rest)
    ensures CanRun(reg, s, run + rest)
    ensures After(reg, s, run + rest) == After(reg, After(reg, s, run), rest)
    decreases |run|
  {
    if run == [] {
      assert run + rest == rest;
    } else {
      GoOn(reg, Apply(reg, s, run[0]), run[1..], rest);
      assert (run + rest)[1..] == run[1..] + rest;
    }
  }

  /** A worker that has locked an event can always come to the commit. */
  lemma {:induction false} FinishAttempt(reg: Registry, s: State, w: WorkerId) returns (run: seq<Action>)
    requires Base(reg, s) && w in s.workers && s.workers[w].Handling?
    ensures CanRun(reg, s, run) && AtWorst(run) && Commits(run) == 1
    decreases |Names(reg, s, w)| - |s.workers[w].results|
  {
    assert LockOk(reg, s, w);
    var a, rest;
    if |s.workers[w].results| == |Names(reg, s, w)| {
      a, rest := Commit(w, s.clock, s.clock, 0), [];
    } else {
      a := Invoke(w, Some("error"));
      LockStep(reg, s, a);
      RowStep(reg, s, a);
      rest := FinishAttempt(reg, Apply(reg, s, a), w);
    }
    StartWith(reg, s, a, rest);
    run := [a] + rest;
  }

  lemma FirstDue(rows: seq<Event>, clock: Time) returns (now: Time, next: EventId)
    requires !Settled(rows)
    ensures clock <= now && IsNext(rows, {}, now, next)
  {
    var id :| 0 <= id < |rows| && rows[id].status == PENDING;
    now := Max(clock, rows[id].scheduledAt);
    assert Due(rows[id], now);
    NextExists(rows, {}, now);
    next :| next < |rows| && IsNext(rows, {}, now, next);
  }

  /** With nobody at work, any worker can lock an event as soon as the first one is due. */
  lemma FirstLock(reg: Registry, s: State, w: WorkerId) returns (s': State, run: seq<Action>)
    requires Base(reg, s) && w in s.workers
    requires forall v :: v in s.workers ==> s.workers[v].Idle?
    requires !Settled(s.rows)
    ensures CanRun(reg, s, run) && AtWorst(run) && Commits(run) == 0 && s' == After(reg, s, run)
    ensures w in s'.workers && s'.workers[w].Handling?
  {
    var now, next := FirstDue(s.rows, s.clock);
    var s1 := Apply(reg, s, Tick(now));
    assert Locked(s1) == {};
    s' := Apply(reg, s1, Lock(w, next, now));
    StartWith(reg, s1, Lock(w, next, now), []);
    StartWith(reg, s, Tick(now), [Lock(w, next, now)]);
    run := [Tick(now)] + [Lock(w, next, now)];
  }

  /** While an event is PENDING, another attempt can be committed. */
  lemma NextCommit(reg: Registry, s: State) returns (run: seq<Action>)
    requires Base(reg, s) && s.workers != map[] && !Settled(s.rows)
    ensures CanRun(reg, s, run) && AtWorst(run) && Commits(run) > 0
  {
    if w :| w in s.workers && s.workers[w].Handling? {
      run := FinishAttempt(reg, s, w);
    } else {
      var w :| w in s.workers;
      var s1, lock := FirstLock(reg, s, w);
      RunKeepsBase(reg, s, lock);
      var rest := FinishAttempt(reg, s1, w);
      GoOn(reg, s, lock, rest);
      CommitsAdd(lock, rest);
      run := lock + rest;
    }
  }

  lemma {:induction false} CommitsAdd(run: seq<Action>, rest: seq<Action>)
    ensures Commits(run + rest) == Commits(run) + Commits(rest)
  {
    if run == [] {
      assert run + rest == rest;
    } else {
      CommitsAdd(run[1..], rest);
      assert (run + rest)[1..] == run[1..] + rest;
    }
  }

  /** From every state, the workers can go on to one in which nothing is PENDING. */
  lemma {:induction false} ComesToRest(reg: Registry, s: State) returns (run: seq<Action>)
    requires Base(reg, s) && s.workers != map[]
    ensures CanRun(reg, s, run) && AtWorst(run) && Settled(After(reg, s, run).rows)
    decreases TotalLeft(s.rows)
  {
    if Settled(s.rows) {
      run := [];
    } else {
      var next := NextCommit(reg, s);
      RunUsesAttempts(reg, s, next);
      RunKeepsBase(reg, s, next);
      RunKeepsWorkers(reg, s, next);
      var rest := ComesToRest(reg, After(reg, s, next));
      GoOn(reg, s, next, rest);
      run := next + rest;
    }
  }

  lemma {:induction false} RunKeepsWorkers(reg: Registry, s: State, run: seq<Action>)
    requires CanRun(reg, s, run)
    ensures After(reg, s, run).workers.Keys == s.workers.Keys
    ensures s.workers != map[] ==> After(reg, s, run).workers != map[]
    decreases |run|
  {
    if run != [] {
      RunKeepsWorkers(reg, Apply(reg, s, run[0]), run[1..]);
    }
  }

  ghost predicate MayCommit(reg: Registry, s: State) {
    exists run :: CanRun(reg, s, run) && NoPublish(run) && Commits(run) > 0
  }

  /** Without new publishes, workers can commit another attempt exactly as long as some event is
      PENDING: they are done only when the table is. */
  lemma MayCommitIffPending(reg: Registry, s: State)
    requires Reachable(reg, s) && s.workers != map[]
    ensures MayCommit(reg, s) <==> !Settled(s.rows)
  {
    ReachableBase(reg, s);
    if Settled(s.rows) {
      SettledIffNothingLeft(s.rows);
      forall run | CanRun(reg, s, run) && NoPublish(run) ensures Commits(run) == 0 {
        RunUsesAttempts(reg, s, run);
      }
    } else {
      var run := NextCommit(reg, s);
      assert NoPublish(run);
    }
  }
}
