/** The variant that `_process_batch` avoids: one select locks a whole batch and the loop commits
    event by event in the same session, so that the first commit releases every lock. */
module OutboxBatchSelect {
  import opened Wrappers
  import opened Outbox

  type WorkerId = nat

  /** `todo[0]` is being dispatched, or about to be; `locking` until the session first commits. */
  datatype Batch = Batch(todo: seq<EventId>, dispatching: bool, locking: bool)

  datatype State = State(clock: Time, rows: seq<Event>, workers: map<WorkerId, Batch>)

  datatype Action =
    | Select(w: WorkerId, ids: seq<EventId>)
    | Begin(w: WorkerId)
    | Commit(w: WorkerId, results: seq<HandlerResult>, jitter: int)

  function Locked(s: State): set<EventId> {
    set w, id | w in s.workers && s.workers[w].locking && id in s.workers[w].todo :: id
  }

  /** `ids` is a possible answer of: select the due rows, skip the locked ones, order by
      scheduled_at, limit. */
  predicate IsBatch(rows: seq<Event>, locked: set<EventId>, now: Time, limit: nat, ids: seq<EventId>) {
    && |ids| <= limit
    && AreNext(rows, locked, now, ids)
    && forall k :: 0 <= k < |rows| && Due(rows[k], now) && k !in locked && k !in ids ==>
         |ids| == limit && NoEarlier(rows, ids, rows[k].scheduledAt)
  }

  /** Different rows that are due and free, in order. */
  predicate AreNext(rows: seq<Event>, locked: set<EventId>, now: Time, ids: seq<EventId>) {
    && (forall a, b :: 0 <= a < b < |ids| ==> ids[a] != ids[b])
    && (forall a :: 0 <= a < |ids| ==> ids[a] < |rows| && Due(rows[ids[a]], now) && ids[a] !in locked)
    && (forall a, b :: 0 <= a < b < |ids| ==> rows[ids[a]].scheduledAt <= rows[ids[b]].scheduledAt)
  }

  predicate NoEarlier(rows: seq<Event>, ids: seq<EventId>, due: Time)
    requires forall a :: 0 <= a < |ids| ==> ids[a] < |rows|
  {
    forall a :: 0 <= a < |ids| ==> rows[ids[a]].scheduledAt <= due
  }

  predicate Enabled(reg: Registry, s: State, a: Action) {
    match a
    case Select(w, ids) =>
      w in s.workers && s.workers[w].todo == [] && IsBatch(s.rows, Locked(s), s.clock, BATCH_SIZE, ids)
    case Begin(w) => w in s.workers && s.workers[w].todo != [] && !s.workers[w].dispatching
    case Commit(w, results, jitter) =>
      && w in s.workers && s.workers[w].todo != [] && s.workers[w].dispatching && s.workers[w].todo[0] < |s.rows|
      && Dispatched(reg, s.rows[s.workers[w].todo[0]], results) && IsJitter(jitter)
  }

  /** The results of a whole dispatch of the event. */
  predicate Dispatched(reg: Registry, e: Event, results: seq<HandlerResult>) {
    && |results| == |Handlers(reg, e.eventType)|
    && ResultsFit(results, Handlers(reg, e.eventType), Completed(e.handlerState))
  }

  function Apply(reg: Registry, s: State, a: Action): State
    requires Enabled(reg, s, a)
  {
    match a
    case Select(w, ids) => s.(workers := s.workers[w := Batch(ids, false, true)])
    case Begin(w) => s.(workers := s.workers[w := s.workers[w].(dispatching := true)])
    case Commit(w, results, jitter) =>
      var id := s.workers[w].todo[0];
      s.(rows := s.rows[id := Handled(s.rows[id], results, s.clock, s.clock, jitter)],
         workers := s.workers[w := Batch(s.workers[w].todo[1..], false, false)])
  }

  /** Two workers are running the handlers of the same event. */
  predicate DoubleDispatch(s: State, v: WorkerId, w: WorkerId) {
    && v != w && v in s.workers && w in s.workers
    && s.workers[v].dispatching && s.workers[w].dispatching
    && s.workers[v].todo != [] && s.workers[w].todo != [] && s.workers[v].todo[0] == s.workers[w].todo[0]
  }

  predicate IsTrace(reg: Registry, states: seq<State>, actions: seq<Action>) {
    && |states| == |actions| + 1
    && forall i :: 0 <= i < |actions| ==>
         Enabled(reg, states[i], actions[i]) && states[i + 1] == Apply(reg, states[i], actions[i])
  }

  /** A batch with a higher limit may begin with the same rows. */
  lemma MoreOfBatch(rows: seq<Event>, locked: set<EventId>, now: Time, limit: nat, ids: seq<EventId>)
    returns (more: seq<EventId>)
    requires IsBatch(rows, locked, now, limit, ids)
    ensures IsBatch(rows, locked, now, limit + 1, more) && ids <= more
  {
    var taken := locked + set id | id in ids;
    if exists k :: 0 <= k < |rows| && Due(rows[k], now) && k !in taken {
      NextExists(rows, taken, now);
      var next: nat :| next < |rows| && IsNext(rows, taken, now, next);
      more := ids + [next];
    } else {
      more := ids;
    }
  }

  lemma {:induction false} BatchExists(rows: seq<Event>, locked: set<EventId>, now: Time, limit: nat)
    returns (ids: seq<EventId>)
    ensures IsBatch(rows, locked, now, limit, ids)
  {
    if limit == 0 {
      ids := [];
    } else {
      var fewer := BatchExists(rows, locked, now, limit - 1);
      ids := MoreOfBatch(rows, locked, now, limit - 1, fewer);
    }
  }

  /** An outcome of a whole dispatch: the handlers at `fails` fail, unless they are skipped. */
  function Outcome(names: seq<string>, completed: set<string>, fails: set<nat>): (results: seq<HandlerResult>)
    ensures |results| == |names| && ResultsFit(results, names, completed)
  {
    seq(|names|, i requires 0 <= i < |names| =>
      if names[i] in completed then HandlerResult(names[i], true, None, true)
      else if i in fails then HandlerResult(names[i], false, Some("error"), false)
      else HandlerResult(names[i], true, None, false))
  }

  /** The table after the first event of a batch has been handled and committed. */
  function AfterFirst(
    rows: seq<Event>, now: Time, ids: seq<EventId>, results: seq<HandlerResult>, jitter: int): seq<Event>
    requires ids != [] && ids[0] < |rows|
  {
    rows[ids[0] := Handled(rows[ids[0]], results, now, now, jitter)]
  }

  lemma FirstIsOver(e: Event, results: seq<HandlerResult>, now: Time, jitter: int)
    requires IsJitter(jitter)
    ensures !Due(Handled(e, results, now, now, jitter), now)
  {
    BackoffIsPositive(e.retryCount + 1, jitter);
  }

  lemma TailIsNext(rows: seq<Event>, after: seq<Event>, now: Time, ids: seq<EventId>)
    requires ids != [] && AreNext(rows, {}, now, ids)
    requires |after| == |rows| && forall k :: 0 <= k < |rows| && k != ids[0] ==> after[k] == rows[k]
    ensures AreNext(after, {}, now, ids[1..])
  {
  }

  lemma TailIsBatch(rows: seq<Event>, after: seq<Event>, now: Time, limit: nat, ids: seq<EventId>)
    requires limit > 0 && ids != [] && IsBatch(rows, {}, now, limit, ids)
    requires |after| == |rows| && !Due(after[ids[0]], now)
    requires forall k :: 0 <= k < |rows| && k != ids[0] ==> after[k] == rows[k]
    ensures IsBatch(after, {}, now, limit - 1, ids[1..])
  {
    var rest := ids[1..];
    TailIsNext(rows, after, now, ids);
    forall k | 0 <= k < |after| && Due(after[k], now) && k !in rest
      ensures |rest| == limit - 1 && NoEarlier(after, rest, after[k].scheduledAt)
    {
      assert ids == [ids[0]] + rest;
      assert k !in ids && after[k] == rows[k];
      assert NoEarlier(rows, ids, rows[k].scheduledAt);
    }
  }

  /** Then the rest of the batch is what a select would return with a limit lower by one. */
  lemma RestIsBatch(
    rows: seq<Event>, now: Time, limit: nat, ids: seq<EventId>, results: seq<HandlerResult>, jitter: int)
    requires limit > 0 && ids != [] && IsBatch(rows, {}, now, limit, ids) && IsJitter(jitter)
    ensures IsBatch(AfterFirst(rows, now, ids, results, jitter), {}, now, limit - 1, ids[1..])
  {
    FirstIsOver(rows[ids[0]], results, now, jitter);
    TailIsBatch(rows, AfterFirst(rows, now, ids, results, jitter), now, limit, ids);
  }

  lemma TwoDue(rows: seq<Event>, now: Time, limit: nat, ids: seq<EventId>, a: EventId, b: EventId)
    requires IsBatch(rows, {}, now, limit, ids) && limit >= 2
    requires a < |rows| && b < |rows| && a != b && Due(rows[a], now) && Due(rows[b], now)
    ensures |ids| >= 2
  {
  }

  predicate AllIdle(s: State) {
    forall k :: k in s.workers ==> s.workers[k] == Batch([], false, false)
  }

  lemma ThreeSteps(reg: Registry, s: State, s1: State, s2: State, a: Action, b: Action, c: Action)
    returns (states: seq<State>, actions: seq<Action>)
    requires Enabled(reg, s, a) && s1 == Apply(reg, s, a)
    requires Enabled(reg, s1, b) && s2 == Apply(reg, s1, b)
    requires Enabled(reg, s2, c)
    ensures IsTrace(reg, states, actions) && actions == [a, b, c]
    ensures states[0] == s && states[3] == Apply(reg, s2, c)
  {
    states, actions := [s, s1, s2, Apply(reg, s2, c)], [a, b, c];
  }

  /** Worker `v` selects a batch, handles its first event and commits it. */
  lemma FirstCommit(reg: Registry, s: State, ids: seq<EventId>, v: WorkerId, fails: set<nat>, jitter: int)
    returns (states: seq<State>, actions: seq<Action>, results: seq<HandlerResult>)
    requires v in s.workers && AllIdle(s) && IsJitter(jitter)
    requires ids != [] && IsBatch(s.rows, {}, s.clock, BATCH_SIZE, ids)
    ensures IsTrace(reg, states, actions) && |actions| == 3 && states[0] == s
    ensures states[3] == State(s.clock, AfterFirst(s.rows, s.clock, ids, results, jitter),
                               s.workers[v := Batch(ids[1..], false, false)])
  {
    assert Locked(s) == {};
    var first := s.rows[ids[0]];
    results := Outcome(Handlers(reg, first.eventType), Completed(first.handlerState), fails);
    var s1 := Apply(reg, s, Select(v, ids));
    var s2 := Apply(reg, s1, Begin(v));
    states, actions := ThreeSteps(reg, s, s1, s2, Select(v, ids), Begin(v), Commit(v, results, jitter));
  }

  /** No lock is left, so worker `w` may select what `v` goes on with. */
  lemma SecondSelect(reg: Registry, s: State, ids: seq<EventId>, again: seq<EventId>, v: WorkerId, w: WorkerId)
    returns (states: seq<State>, actions: seq<Action>)
    requires v != w && v in s.workers && w in s.workers
    requires s.workers[v] == Batch(ids, false, false) && ids != []
    requires forall k :: k in s.workers && k != v ==> s.workers[k] == Batch([], false, false)
    requires IsBatch(s.rows, {}, s.clock, BATCH_SIZE, again) && again != [] && again[0] == ids[0]
    ensures IsTrace(reg, states, actions) && |actions| == 3 && states[0] == s
    ensures states[3].rows == s.rows && states[3].clock == s.clock
    ensures DoubleDispatch(states[3], v, w) && states[3].workers[v].todo == ids
  {
    assert Locked(s) == {};
    var s1 := Apply(reg, s, Select(w, again));
    var s2 := Apply(reg, s1, Begin(w));
    states, actions := ThreeSteps(reg, s, s1, s2, Select(w, again), Begin(w), Begin(v));
  }

  lemma JoinTraces(reg: Registry, a: seq<State>, b: seq<State>, x: seq<Action>, y: seq<Action>)
    requires IsTrace(reg, a, x) && IsTrace(reg, b, y) && a[|x|] == b[0]
    ensures IsTrace(reg, a + b[1..], x + y) && (a + b[1..])[|x| + |y|] == b[|y|]
  {
    var states, actions := a + b[1..], x + y;
    assert forall i :: |x| <= i <= |x| + |y| ==> states[i] == b[i - |x|];
    forall i | 0 <= i < |actions|
      ensures Enabled(reg, states[i], actions[i]) && states[i + 1] == Apply(reg, states[i], actions[i])
    {
      if i < |x| {
        assert a[i + 1] == Apply(reg, a[i], x[i]);
      } else {
        assert b[i - |x| + 1] == Apply(reg, b[i - |x|], y[i - |x|]);
      }
    }
  }

  /** From any table with two due events, and whatever the handlers of the first one do, two idle
      workers can reach a double dispatch of an event that is still due. */
  lemma BatchSelectDoubleDispatches(
    reg: Registry, s: State, a: EventId, b: EventId, v: WorkerId, w: WorkerId, fails: set<nat>, jitter: int)
    returns (states: seq<State>, actions: seq<Action>)
    requires a < |s.rows| && b < |s.rows| && a != b && v != w && IsJitter(jitter)
    requires Due(s.rows[a], s.clock) && Due(s.rows[b], s.clock)
    requires v in s.workers && w in s.workers && AllIdle(s)
    ensures IsTrace(reg, states, actions) && states[0] == s
    ensures var s' := states[|actions|];
            && DoubleDispatch(s', v, w)
            && s'.workers[v].todo[0] < |s'.rows| && Due(s'.rows[s'.workers[v].todo[0]], s'.clock)
  {
    var ids := BatchExists(s.rows, {}, s.clock, BATCH_SIZE);
    TwoDue(s.rows, s.clock, BATCH_SIZE, ids, a, b);
    var first, x, results := FirstCommit(reg, s, ids, v, fails, jitter);
    RestIsBatch(s.rows, s.clock, BATCH_SIZE, ids, results, jitter);
    var again := MoreOfBatch(first[3].rows, {}, s.clock, BATCH_SIZE - 1, ids[1..]);
    assert again[0] == ids[1..][0] == ids[1];
    var second, y := SecondSelect(reg, first[3], ids[1..], again, v, w);
    JoinTraces(reg, first, second, x, y);
    states, actions := first + second[1..], x + y;
  }
}
