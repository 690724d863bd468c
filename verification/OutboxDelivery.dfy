/** How often each handler of an event takes effect. */
module OutboxDelivery {
  import opened Wrappers
  import opened Outbox
  import opened OutboxProtocol

  function One(b: bool): nat { if b then 1 else 0 }

  /** Handler `i` has succeeded in the attempt that holds `results`. */
  predicate InFlight(results: seq<HandlerResult>, i: nat) {
    i < |results| && results[i].success && !results[i].skipped
  }

  /** Successes of each handler: one that is recorded or in flight, and at most one for every
      attempt that was aborted. */
  predicate Balanced(names: seq<string>, e: Event, h: History, results: seq<HandlerResult>) {
    && |h.calls| == |h.wins| == |names|
    && forall i :: 0 <= i < |names| ==>
         var effective := One(Ok(e, names[i])) + One(InFlight(results, i));
         effective <= h.wins[i] <= effective + h.aborts
  }

  predicate Complete(names: seq<string>, e: Event) {
    e.status == PROCESSED ==> forall i :: 0 <= i < |names| ==> Ok(e, names[i])
  }

  predicate RowBalanced(reg: Registry, s: State, id: EventId)
    requires id < |s.rows| == |s.history|
  {
    var names := Handlers(reg, s.rows[id].eventType);
    Complete(names, s.rows[id]) && (id !in Locked(s) ==> Balanced(names, s.rows[id], s.history[id], []))
  }

  predicate WorkerBalanced(reg: Registry, s: State, w: WorkerId)
    requires |s.rows| == |s.history|
    requires w in s.workers && s.workers[w].Handling?
  {
    var me := s.workers[w];
    me.id < |s.rows| && Balanced(Names(reg, s, w), s.rows[me.id], s.history[me.id], me.results)
  }

  predicate Balances(reg: Registry, s: State) {
    && |s.history| == |s.rows|
    && (forall id :: 0 <= id < |s.rows| ==> RowBalanced(reg, s, id))
    && (forall w :: w in s.workers && s.workers[w].Handling? ==> WorkerBalanced(reg, s, w))
  }

  predicate DistinctHandlers(reg: Registry) {
    forall t :: t in reg ==> DistinctNames(reg[t])
  }

  lemma InvokeBalance(reg: Registry, s: State, a: Action)
    requires Base(reg, s) && Balances(reg, s) && Enabled(reg, s, a) && a.Invoke?
    ensures var s', id := Apply(reg, s, a), s.workers[a.w].id;
            && id < |s'.rows| == |s'.history|
            && Complete(Handlers(reg, s'.rows[id].eventType), s'.rows[id])
            && Balanced(Handlers(reg, s'.rows[id].eventType), s'.rows[id], s'.history[id], s'.workers[a.w].results)
  {
    assert LockOk(reg, s, a.w) && WorkerBalanced(reg, s, a.w);
  }

  lemma CommitBalance(reg: Registry, s: State, a: Action)
    requires DistinctHandlers(reg)
    requires Base(reg, s) && Balances(reg, s) && Enabled(reg, s, a) && a.Commit?
    ensures var s', id := Apply(reg, s, a), s.workers[a.w].id;
            && id < |s'.rows| == |s'.history|
            && Complete(Handlers(reg, s'.rows[id].eventType), s'.rows[id])
            && Balanced(Handlers(reg, s'.rows[id].eventType), s'.rows[id], s'.history[id], [])
  {
    var me, s' := s.workers[a.w], Apply(reg, s, a);
    var names := Handlers(reg, me.locked.eventType);
    assert LockOk(reg, s, a.w) && WorkerBalanced(reg, s, a.w);
    forall i | 0 <= i < |names|
      ensures Ok(s'.rows[me.id], names[i]) <==> Ok(me.locked, names[i]) || me.results[i].success
      ensures me.results[i].skipped <==> Ok(me.locked, names[i])
    {
      MergedOk(me.locked, me.results, names, a.at, i);
      assert ResultFits(me.results[i], names[i], Completed(me.locked.handlerState));
    }
  }

  /** What a step by a worker does to the event it is handling. */
  lemma ActorBalance(reg: Registry, s: State, a: Action)
    requires DistinctHandlers(reg)
    requires Base(reg, s) && Balances(reg, s) && Enabled(reg, s, a)
    requires a.Invoke? || a.Commit? || a.Abort?
    ensures var s', id := Apply(reg, s, a), s.workers[a.w].id;
            && id < |s'.rows| == |s'.history|
            && Complete(Handlers(reg, s'.rows[id].eventType), s'.rows[id])
            && Balanced(Handlers(reg, s'.rows[id].eventType), s'.rows[id], s'.history[id],
                        if a.Invoke? then s'.workers[a.w].results else [])
  {
    if a.Invoke? {
      InvokeBalance(reg, s, a);
    } else if a.Commit? {
      CommitBalance(reg, s, a);
    } else {
      assert LockOk(reg, s, a.w) && WorkerBalanced(reg, s, a.w);
    }
  }

  lemma PublishKeepsBalances(reg: Registry, s: State, a: Action)
    requires Base(reg, s) && Balances(reg, s) && Enabled(reg, s, a) && a.Publish?
    ensures Balances(reg, Apply(reg, s, a))
  {
    var s' := Apply(reg, s, a);
    assert Locked(s') == Locked(s);
    forall id | 0 <= id < |s'.rows| ensures RowBalanced(reg, s', id) {
      if id < |s.rows| {
        assert RowBalanced(reg, s, id);
      }
    }
    forall w | w in s'.workers && s'.workers[w].Handling? ensures WorkerBalanced(reg, s', w) {
      assert WorkerBalanced(reg, s, w);
    }
  }

  lemma LockKeepsBalances(reg: Registry, s: State, a: Action)
    requires Base(reg, s) && Balances(reg, s) && Enabled(reg, s, a) && a.Lock?
    ensures Balances(reg, Apply(reg, s, a))
  {
    var s' := Apply(reg, s, a);
    assert RowBalanced(reg, s, a.id);
    forall id | 0 <= id < |s'.rows| ensures RowBalanced(reg, s', id) {
      assert RowBalanced(reg, s, id);
      if id in Locked(s) {
        var v :| v in s.workers && s.workers[v].Handling? && s.workers[v].id == id;
        assert s'.workers[v] == s.workers[v];
      }
    }
    forall w | w in s'.workers && s'.workers[w].Handling? ensures WorkerBalanced(reg, s', w) {
      if w != a.w {
        assert WorkerBalanced(reg, s, w);
      }
    }
  }

  lemma ActorKeepsRow(reg: Registry, s: State, a: Action, id: EventId)
    requires DistinctHandlers(reg)
    requires Base(reg, s) && Balances(reg, s) && Enabled(reg, s, a)
    requires a.Invoke? || a.Commit? || a.Abort?
    requires id < |s.rows|
    ensures |Apply(reg, s, a).history| == |Apply(reg, s, a).rows| == |s.rows|
    ensures RowBalanced(reg, Apply(reg, s, a), id)
  {
    var s' := Apply(reg, s, a);
    if id == s.workers[a.w].id {
      ActorBalance(reg, s, a);
      if a.Invoke? { assert s'.workers[a.w].id in Locked(s'); }
    } else {
      assert RowBalanced(reg, s, id);
      if id in Locked(s) {
        var v :| v in s.workers && s.workers[v].Handling? && s.workers[v].id == id;
        assert s'.workers[v] == s.workers[v];
      }
    }
  }

  lemma ActorKeepsWorker(reg: Registry, s: State, a: Action, w: WorkerId)
    requires DistinctHandlers(reg)
    requires Base(reg, s) && Balances(reg, s) && Enabled(reg, s, a)
    requires a.Invoke? || a.Commit? || a.Abort?
    requires w in Apply(reg, s, a).workers && Apply(reg, s, a).workers[w].Handling?
    ensures |Apply(reg, s, a).history| == |Apply(reg, s, a).rows|
    ensures WorkerBalanced(reg, Apply(reg, s, a), w)
  {
    if w == a.w {
      ActorBalance(reg, s, a);
      assert LockOk(reg, s, w);
    } else {
      assert WorkerBalanced(reg, s, w);
      assert s.workers[w].id != s.workers[a.w].id;
    }
  }

  lemma ActorKeepsBalances(reg: Registry, s: State, a: Action)
    requires DistinctHandlers(reg)
    requires Base(reg, s) && Balances(reg, s) && Enabled(reg, s, a)
    requires a.Invoke? || a.Commit? || a.Abort?
    ensures Balances(reg, Apply(reg, s, a))
  {
    var s' := Apply(reg, s, a);
    assert |s'.history| == |s'.rows| == |s.rows|;
    forall id | 0 <= id < |s'.rows| ensures RowBalanced(reg, s', id) {
      ActorKeepsRow(reg, s, a, id);
    }
    forall w | w in s'.workers && s'.workers[w].Handling? ensures WorkerBalanced(reg, s', w) {
      ActorKeepsWorker(reg, s, a, w);
    }
  }

  lemma BalancesStep(reg: Registry, s: State, a: Action)
    requires DistinctHandlers(reg)
    requires Base(reg, s) && Balances(reg, s) && Enabled(reg, s, a)
    ensures Balances(reg, Apply(reg, s, a))
  {
    match a {
      case Tick(_) =>
        var s' := Apply(reg, s, a);
        assert Locked(s') == Locked(s);
        assert forall id :: 0 <= id < |s.rows| ==> RowBalanced(reg, s, id) == RowBalanced(reg, s', id);
        assert forall w :: w in s.workers && s.workers[w].Handling? ==>
          WorkerBalanced(reg, s, w) == WorkerBalanced(reg, s', w);
      case Publish(_) => PublishKeepsBalances(reg, s, a);
      case Lock(_, _, _) => LockKeepsBalances(reg, s, a);
      case _ => ActorKeepsBalances(reg, s, a);
    }
  }

  lemma {:induction false} RunKeepsBalances(reg: Registry, s: State, run: seq<Action>)
    requires DistinctHandlers(reg)
    requires Base(reg, s) && Balances(reg, s) && CanRun(reg, s, run)
    ensures Balances(reg, After(reg, s, run)) && Base(reg, After(reg, s, run))
    decreases |run|
  {
    if run != [] {
      BalancesStep(reg, s, run[0]);
      LockStep(reg, s, run[0]);
      RowStep(reg, s, run[0]);
      RunKeepsBalances(reg, Apply(reg, s, run[0]), run[1..]);
    }
  }

  /** When the handlers of each event type have distinct names, then in every interleaving each
      of them succeeds at most once more than the event's attempts were aborted; PROCESSED means
      that every one of them has succeeded, and exactly once if no attempt was aborted. */
  lemma Delivery(reg: Registry, s: State, id: EventId, i: nat)
    requires DistinctHandlers(reg)
    requires Reachable(reg, s) && id < |s.rows| && i < |Handlers(reg, s.rows[id].eventType)|
    ensures |s.history| == |s.rows| && i < |s.history[id].wins|
    ensures s.history[id].wins[i] <= 1 + s.history[id].aborts
    ensures s.rows[id].status == PROCESSED ==>
      && Ok(s.rows[id], Handlers(reg, s.rows[id].eventType)[i])
      && s.history[id].wins[i] >= 1
      && (s.history[id].aborts == 0 ==> s.history[id].wins[i] == 1)
  {
    var s0, run :| Init(s0) && CanRun(reg, s0, run) && After(reg, s0, run) == s;
    RunKeepsBalances(reg, s0, run);
    assert RowBalanced(reg, s, id);
    if id in Locked(s) {
      var w :| w in s.workers && s.workers[w].Handling? && s.workers[w].id == id;
      assert LockOk(reg, s, w) && WorkerBalanced(reg, s, w);
    }
  }

  /** The history counts calls for every handler of the event. */
  predicate CallsFit(reg: Registry, e: Event, h: History) {
    |h.calls| == |Handlers(reg, e.eventType)|
  }

  predicate AllCallsFit(reg: Registry, s: State) {
    && |s.history| == |s.rows|
    && forall id :: 0 <= id < |s.rows| ==> CallsFit(reg, s.rows[id], s.history[id])
  }

  lemma CallsStep(reg: Registry, s: State, a: Action)
    requires Base(reg, s) && AllCallsFit(reg, s) && Enabled(reg, s, a)
    ensures AllCallsFit(reg, Apply(reg, s, a))
  {
    var s' := Apply(reg, s, a);
    if a.Commit? || a.Invoke? || a.Abort? { assert LockOk(reg, s, a.w); }
    forall id | 0 <= id < |s'.rows|
      ensures |s'.history| == |s'.rows| && CallsFit(reg, s'.rows[id], s'.history[id])
    {
      if id < |s.rows| { assert CallsFit(reg, s.rows[id], s.history[id]); }
    }
  }

  lemma {:induction false} RunKeepsCalls(reg: Registry, s: State, run: seq<Action>)
    requires Base(reg, s) && AllCallsFit(reg, s) && CanRun(reg, s, run)
    ensures AllCallsFit(reg, After(reg, s, run))
    decreases |run|
  {
    if run != [] {
      CallsStep(reg, s, run[0]);
      LockStep(reg, s, run[0]);
      RowStep(reg, s, run[0]);
      RunKeepsCalls(reg, Apply(reg, s, run[0]), run[1..]);
    }
  }

  lemma ReachableCalls(reg: Registry, s: State)
    requires Reachable(reg, s)
    ensures AllCallsFit(reg, s)
  {
    var s0, run :| Init(s0) && CanRun(reg, s0, run) && After(reg, s0, run) == s;
    RunKeepsCalls(reg, s0, run);
  }

  /** A handler that a committed row records as ok stays ok and is never run again, with or
      without distinct names. */
  lemma {:induction false} OkIsFinal(reg: Registry, s: State, run: seq<Action>, id: EventId, i: nat)
    requires Reachable(reg, s) && CanRun(reg, s, run)
    requires id < |s.rows| && i < |Handlers(reg, s.rows[id].eventType)|
    requires Ok(s.rows[id], Handlers(reg, s.rows[id].eventType)[i])
    ensures var s' := After(reg, s, run);
            && id < |s'.rows| && s'.rows[id].eventType == s.rows[id].eventType
            && |s.history| == |s.rows| && |s'.history| == |s'.rows|
            && Ok(s'.rows[id], Handlers(reg, s.rows[id].eventType)[i])
            && i < |s.history[id].calls| && i < |s'.history[id].calls|
            && s'.history[id].calls[i] == s.history[id].calls[i]
    decreases |run|
  {
    ReachableBase(reg, s);
    ReachableCalls(reg, s);
    assert CallsFit(reg, s.rows[id], s.history[id]);
    if run != [] {
      var a := run[0];
      var s1 := Step(reg, s, a);
      if (a.Commit? || a.Invoke? || a.Abort?) && s.workers[a.w].id == id {
        OkStep(reg, s, a, i);
      }
      OkIsFinal(reg, s1, run[1..], id, i);
    }
  }

  lemma OkStep(reg: Registry, s: State, a: Action, i: nat)
    requires Base(reg, s) && Enabled(reg, s, a) && (a.Commit? || a.Invoke? || a.Abort?)
    requires i < |Names(reg, s, a.w)| && Ok(s.workers[a.w].locked, Names(reg, s, a.w)[i])
    ensures var s', id := Apply(reg, s, a), s.workers[a.w].id;
            && id < |s.rows| == |s'.rows| == |s.history| == |s'.history|
            && s'.rows[id].eventType == s.rows[id].eventType
            && Ok(s'.rows[id], Names(reg, s, a.w)[i])
            && |s'.history[id].calls| == |s.history[id].calls|
            && (i < |s.history[id].calls| ==> s'.history[id].calls[i] == s.history[id].calls[i])
  {
    assert LockOk(reg, s, a.w);
    if a.Commit? {
      var me := s.workers[a.w];
      MergeKeeps(me.locked.handlerState, me.results, a.at, Names(reg, s, a.w)[i]);
    }
  }

  // Shared names.

  /** So far, worker `w` has had a success from every handler but the one at `bad`, which has
      failed unless it was skipped. */
  predicate OnlyFails(reg: Registry, s: State, w: WorkerId, bad: nat)
    requires w in s.workers && s.workers[w].Handling?
  {
    var me := s.workers[w];
    && |me.results| <= |Names(reg, s, w)|
    && (forall i :: 0 <= i < |me.results| && i != bad ==> me.results[i].success)
    && (bad < |me.results| ==>
          me.results[bad].success == (Names(reg, s, w)[bad] in Completed(me.locked.handlerState)))
  }

  /** Two states that differ only in how far worker `w` has come with its dispatch: each handler
      run in between has succeeded once, but for the one at `bad`. */
  predicate SameButResults(reg: Registry, s: State, s': State, w: WorkerId, bad: nat)
    requires w in s.workers && s.workers[w].Handling? && s.workers[w].id < |s.history|
  {
    && s'.clock == s.clock && s'.rows == s.rows && |s'.history| == |s.history|
    && w in s'.workers && s'.workers[w].Handling?
    && s'.workers == s.workers[w := s.workers[w].(results := s'.workers[w].results)]
    && var h, h' := s.history[s.workers[w].id], s'.history[s.workers[w].id];
       && |h'.wins| == |h.wins| && h'.aborts == h.aborts
       && |s.workers[w].results| <= |s'.workers[w].results| <= |Names(reg, s, w)|
       && forall i :: 0 <= i < |h.wins| ==>
            h'.wins[i] == h.wins[i] + One(i != bad && RunBetween(reg, s, s', w, i))
  }

  /** The handler at `i` was run, not skipped, between the two states. */
  predicate RunBetween(reg: Registry, s: State, s': State, w: WorkerId, i: nat)
    requires w in s.workers && s.workers[w].Handling? && w in s'.workers && s'.workers[w].Handling?
    requires |s'.workers[w].results| <= |Names(reg, s, w)|
  {
    && |s.workers[w].results| <= i < |s'.workers[w].results|
    && Names(reg, s, w)[i] !in Completed(s.workers[w].locked.handlerState)
  }

  lemma InvokeNext(reg: Registry, s: State, w: WorkerId, bad: nat) returns (s': State)
    requires Reachable(reg, s)
    requires w in s.workers && s.workers[w].Handling? && s.workers[w].id < |s.history|
    requires |s.workers[w].results| < |Names(reg, s, w)| && OnlyFails(reg, s, w, bad)
    ensures Reachable(reg, s') && SameButResults(reg, s, s', w, bad) && OnlyFails(reg, s', w, bad)
    ensures |s'.workers[w].results| == |s.workers[w].results| + 1
  {
    s' := Step(reg, s, Invoke(w, if |s.workers[w].results| == bad then Some("error") else None));
  }

  /** Worker `w` runs the rest of its dispatch; only the handler at `bad` fails. */
  lemma {:induction false} InvokeRest(reg: Registry, s: State, w: WorkerId, bad: nat) returns (s': State)
    requires Reachable(reg, s)
    requires w in s.workers && s.workers[w].Handling? && s.workers[w].id < |s.history|
    requires OnlyFails(reg, s, w, bad)
    ensures Reachable(reg, s') && SameButResults(reg, s, s', w, bad) && OnlyFails(reg, s', w, bad)
    ensures |s'.workers[w].results| == |Names(reg, s, w)|
    decreases |Names(reg, s, w)| - |s.workers[w].results|
  {
    if |s.workers[w].results| == |Names(reg, s, w)| {
      s' := s;
    } else {
      var s1 := InvokeNext(reg, s, w, bad);
      s' := InvokeRest(reg, s1, w, bad);
    }
  }

  /** An event of type `t` is published and locked, and its first dispatch fails at `a` only. */
  lemma FirstDispatch(reg: Registry, t: string, a: nat) returns (s: State)
    requires t in reg && a < |reg[t]|
    ensures Reachable(reg, s) && s.clock == 0 && |s.rows| == |s.history| == 1
    ensures s.rows[0] == Event(t, Payload(0, 0), PENDING, 0, 2, 0, None, None, map[])
    ensures 0 in s.workers && s.workers[0].Handling?
    ensures s.workers == map[0 := Handling(0, s.rows[0], 0, s.workers[0].results)]
    ensures |s.workers[0].results| == |reg[t]| && OnlyFails(reg, s, 0, a)
    ensures |s.history[0].wins| == |reg[t]| && s.history[0].aborts == 0
    ensures forall i :: 0 <= i < |reg[t]| ==> s.history[0].wins[i] == One(i != a)
  {
    var e := Event(t, Payload(0, 0), PENDING, 0, 2, 0, None, None, map[]);
    var s0 := State(0, [], map[0 := Idle], []);
    Begin(reg, s0);
    var s1 := Step(reg, s0, Publish([e]));
    assert s1.rows == [e] && s1.history == [NoHistory(|reg[t]|)];
    var s2 := Step(reg, s1, Lock(0, 0, 0));
    s := InvokeRest(reg, s2, 0, a);
  }

  /** The first attempt of an event fails at handler `a` only. */
  lemma FirstAttempt(reg: Registry, t: string, a: nat) returns (s: State, results: seq<HandlerResult>)
    requires t in reg && a < |reg[t]|
    ensures Reachable(reg, s) && s.clock == 0 && s.workers == map[0 := Idle]
    ensures |s.rows| == |s.history| == 1
    ensures |results| == |reg[t]| && ResultsFit(results, reg[t], {})
    ensures forall i :: 0 <= i < |results| ==> results[i].success == (i != a)
    ensures s.rows[0].eventType == t && s.rows[0].status == PENDING && s.rows[0].scheduledAt == 2 * SECOND
    ensures s.rows[0].handlerState == Merge(map[], results, 0)
    ensures |s.history[0].wins| == |reg[t]| && s.history[0].aborts == 0
    ensures forall i :: 0 <= i < |reg[t]| ==> s.history[0].wins[i] == One(i != a)
  {
    var s1 := FirstDispatch(reg, t, a);
    results := s1.workers[0].results;
    ReachableBase(reg, s1);
    assert LockOk(reg, s1, 0);
    assert Pow2(1) == 2;
    assert !AllSucceeded(results);
    s := Step(reg, s1, Commit(0, 0, 0, 0));
  }

  /** The second one finds every name recorded as ok. */
  lemma SkippingAttempt(reg: Registry, s: State, a: nat) returns (s': State)
    requires Reachable(reg, s) && s.clock == 0 && s.workers == map[0 := Idle]
    requires |s.rows| == |s.history| == 1
    requires s.rows[0].status == PENDING && s.rows[0].scheduledAt == 2 * SECOND
    requires a < |Handlers(reg, s.rows[0].eventType)|
    requires forall i :: 0 <= i < |Handlers(reg, s.rows[0].eventType)| ==>
      Ok(s.rows[0], Handlers(reg, s.rows[0].eventType)[i])
    requires a < |s.history[0].wins|
    ensures Reachable(reg, s') && |s'.rows| == |s'.history| == 1
    ensures s'.rows[0].eventType == s.rows[0].eventType && s'.rows[0].status == PROCESSED
    ensures |s'.history[0].wins| == |s.history[0].wins| && s'.history[0].wins[a] == s.history[0].wins[a]
  {
    var now := 2 * SECOND;
    var s1 := Step(reg, s, Tick(now));
    assert Locked(s1) == {};
    var s2 := Step(reg, s1, Lock(0, 0, now));
    var s3 := InvokeRest(reg, s2, 0, a);
    assert AllSucceeded(s3.workers[0].results);
    s' := Step(reg, s3, Commit(0, now, now, 0));
  }

  /** Two handlers `a` and `b` of an event type share a name. If `a` fails and `b` succeeds, the
      merged state says ok, the retry skips both, and the event ends PROCESSED although `a` has
      never succeeded. */
  lemma SharedNameLosesHandler(reg: Registry, t: string, a: nat, b: nat) returns (s: State)
    requires t in reg && a < b < |reg[t]| && reg[t][a] == reg[t][b]
    ensures Reachable(reg, s) && |s.rows| == |s.history| == 1
    ensures s.rows[0].eventType == t && s.rows[0].status == PROCESSED
    ensures |s.history[0].wins| == |reg[t]| && s.history[0].wins[a] == 0
  {
    var names := reg[t];
    var s1, results := FirstAttempt(reg, t, a);
    forall i | 0 <= i < |names| ensures Ok(s1.rows[0], names[i]) {
      var last := LastOf(names, i);
      assert last != a;
      assert ResultFits(results[last], names[last], {});
      forall j | last < j < |results| ensures results[j].handlerName != names[i] {
        assert ResultFits(results[j], names[j], {});
      }
      MergeSets(map[], results, 0, last);
    }
    s := SkippingAttempt(reg, s1, a);
  }

  lemma {:induction false} LastOf(names: seq<string>, i: nat) returns (last: nat)
    requires i < |names|
    ensures i <= last < |names| && names[last] == names[i]
    ensures forall j :: last < j < |names| ==> names[j] != names[i]
    decreases |names| - i
  {
    if j :| i < j < |names| && names[j] == names[i] {
      last := LastOf(names, j);
    } else {
      last := i;
    }
  }

  /** PROCESSED stands for "every registered handler has succeeded". */
  predicate Delivered(reg: Registry, s: State) {
    && |s.history| == |s.rows|
    && forall id :: 0 <= id < |s.rows| && s.rows[id].status == PROCESSED ==>
         var names := Handlers(reg, s.rows[id].eventType);
         |s.history[id].wins| == |names| && forall i :: 0 <= i < |names| ==> s.history[id].wins[i] >= 1
  }

  /** It does, in every reachable state, exactly when no event type has two handlers with the
      same name. */
  lemma DeliveryIffDistinctNames(reg: Registry)
    ensures (forall s :: Reachable(reg, s) ==> Delivered(reg, s)) <==> DistinctHandlers(reg)
  {
    if DistinctHandlers(reg) {
      forall s | Reachable(reg, s) ensures Delivered(reg, s) {
        var s0, run :| Init(s0) && CanRun(reg, s0, run) && After(reg, s0, run) == s;
        RunKeepsBalances(reg, s0, run);
        forall id | 0 <= id < |s.rows| && s.rows[id].status == PROCESSED
          ensures |s.history[id].wins| == |Handlers(reg, s.rows[id].eventType)|
          ensures forall i :: 0 <= i < |Handlers(reg, s.rows[id].eventType)| ==> s.history[id].wins[i] >= 1
        {
          forall w | w in s.workers && s.workers[w].Handling? ensures s.workers[w].id != id {
            assert LockOk(reg, s, w);
          }
          assert id !in Locked(s) && RowBalanced(reg, s, id);
        }
      }
    } else {
      var t :| t in reg && !DistinctNames(reg[t]);
      var a, b :| 0 <= a < b < |reg[t]| && reg[t][a] == reg[t][b];
      var s := SharedNameLosesHandler(reg, t, a, b);
      assert !Delivered(reg, s);
    }
  }

  /** If it is the last of the handlers that share a name which fails, the merged state says
      failed, and the retry runs them all again. */
  lemma SharedNameRunsTwice(reg: Registry, t: string, a: nat, b: nat) returns (s: State)
    requires t in reg && a < b < |reg[t]| && reg[t][a] == reg[t][b]
    ensures Reachable(reg, s) && |s.rows| == |s.history| == 1 && s.rows[0].eventType == t
    ensures |s.history[0].wins| == |reg[t]| && s.history[0].wins[a] == 2 && s.history[0].aborts == 0
  {
    var last := LastOf(reg[t], b);
    var s1, results := FirstAttempt(reg, t, last);
    forall j | last < j < |results| ensures results[j].handlerName != reg[t][last] {
      assert ResultFits(results[j], reg[t][j], {});
    }
    assert ResultFits(results[last], reg[t][last], {});
    MergeSets(map[], results, 0, last);
    var now := 2 * SECOND;
    var s2 := Step(reg, s1, Tick(now));
    assert Locked(s2) == {};
    var s3 := Step(reg, s2, Lock(0, 0, now));
    s := InvokeRest(reg, s3, 0, last);
    assert RunBetween(reg, s3, s, 0, a);
  }

  /** No handler succeeds more than once but for aborted attempts. */
  predicate NotRepeated(s: State) {
    forall id, i | 0 <= id < |s.history| && 0 <= i < |s.history[id].wins| ::
      s.history[id].wins[i] <= 1 + s.history[id].aborts
  }

  /** That holds in every reachable state exactly under the same condition. */
  lemma NotRepeatedIffDistinctNames(reg: Registry)
    ensures (forall s :: Reachable(reg, s) ==> NotRepeated(s)) <==> DistinctHandlers(reg)
  {
    if DistinctHandlers(reg) {
      forall s | Reachable(reg, s) ensures NotRepeated(s) {
        WinsFit(reg, s);
        forall id, i | 0 <= id < |s.history| && 0 <= i < |s.history[id].wins|
          ensures s.history[id].wins[i] <= 1 + s.history[id].aborts
        {
          Delivery(reg, s, id, i);
        }
      }
    } else {
      var t :| t in reg && !DistinctNames(reg[t]);
      var a, b :| 0 <= a < b < |reg[t]| && reg[t][a] == reg[t][b];
      var s := SharedNameRunsTwice(reg, t, a, b);
      assert !NotRepeated(s);
    }
  }

  lemma WinsFit(reg: Registry, s: State)
    requires DistinctHandlers(reg) && Reachable(reg, s)
    ensures |s.history| == |s.rows|
    ensures forall id :: 0 <= id < |s.rows| ==>
      |s.history[id].wins| == |Handlers(reg, s.rows[id].eventType)|
  {
    var s0, run :| Init(s0) && CanRun(reg, s0, run) && After(reg, s0, run) == s;
    RunKeepsBalances(reg, s0, run);
    forall id | 0 <= id < |s.rows| ensures |s.history[id].wins| == |Handlers(reg, s.rows[id].eventType)| {
      assert RowBalanced(reg, s, id);
      if id in Locked(s) {
        var w :| w in s.workers && s.workers[w].Handling? && s.workers[w].id == id;
        assert LockOk(reg, s, w) && WorkerBalanced(reg, s, w);
      }
    }
  }
}
