/** Dispatch, handling and batch loop of one outbox worker, on mutable objects. */
module OutboxWorker {
  import opened Wrappers
  import opened Outbox

  class Clock {
    var time: Time

    constructor (time: Time)
      ensures this.time == time
    {
      this.time := time;
    }

    /** `datetime.now(UTC)`: any amount of time may have passed since the clock was last read. */
    method Now() returns (now: Time)
      modifies this
      ensures old(time) <= now == time
    {
      var elapsed: int :| elapsed >= 0;
      time := time + elapsed;
      now := time;
    }
  }

  /** One call of a handler, by event type and position, what it raised, and when it ended. */
  datatype Call = Call(eventType: string, position: nat, error: Option<string>, endedAt: Time)

  class EventDispatcher {
    const clock: Clock
    var handlers: Registry
    var calls: seq<Call> // the handlers called so far

    constructor (clock: Clock)
      ensures this.clock == clock && handlers == map[] && calls == []
    {
      this.clock, handlers, calls := clock, map[], [];
    }

    method Register(eventType: string, name: string)
      modifies this`handlers
      ensures Handlers(handlers, eventType) == Handlers(old(handlers), eventType) + [name]
      ensures forall t :: t != eventType ==> Handlers(handlers, t) == Handlers(old(handlers), t)
    {
      handlers := handlers[eventType := Handlers(handlers, eventType) + [name]];
    }

    /** The handler itself: it returns, raises, or is cancelled at its timeout; the error is its
        traceback. */
    method CallHandler(eventType: string, position: nat) returns (error: Option<string>)
      modifies this`calls, clock
      ensures old(clock.time) <= clock.time
      ensures calls == old(calls) + [Call(eventType, position, error, clock.time)]
    {
      var end := clock.Now();
      error := *;
      calls := calls + [Call(eventType, position, error, end)];
    }

    /** Calls the handlers that are not completed, each once and in order, and reports what they
        raised; a failure of one does not stop the others. */
    method Dispatch(eventType: string, completed: set<string>)
      returns (results: seq<HandlerResult>, ghost called: seq<Call>)
      modifies this`calls, clock
      ensures old(clock.time) <= clock.time
      ensures |results| == |Handlers(handlers, eventType)|
      ensures ResultsFit(results, Handlers(handlers, eventType), completed)
      ensures calls == old(calls) + called
      ensures Reported(called, eventType, Handlers(handlers, eventType), completed, results, clock.time)
    {
      var names := Handlers(handlers, eventType);
      results, called := [], [];
      if names == [] {
        return;
      }
      for i := 0 to |names|
        invariant |results| == i && ResultsFit(results, names, completed)
        invariant calls == old(calls) + called && old(clock.time) <= clock.time
        invariant Reported(called, eventType, names[..i], completed, results, clock.time)
      {
        ghost var before, time := results, clock.time;
        if names[i] in completed {
          results := results + [HandlerResult(names[i], true, None, true)];
          ReportedNext(called, eventType, names, completed, before, results[i], [], time, time);
          continue;
        }
        var error := CallHandler(eventType, i);
        results := results + [HandlerResult(names[i], error.None?, error, false)];
        ghost var call := [Call(eventType, i, error, clock.time)];
        ReportedNext(called, eventType, names, completed, before, results[i], call, time, clock.time);
        AppendTwice(old(calls), called, call);
        called := called + call;
      }
      assert names[..|names|] == names;
    }
  }

  /** The positions of the handlers that a dispatch calls. */
  function ToRun(names: seq<string>, completed: set<string>): seq<nat> {
    if names == [] then []
    else
      var n := |names| - 1;
      ToRun(names[..n], completed) + (if names[n] in completed then [] else [n])
  }

  /** Every position that is not completed is called exactly once. */
  lemma {:induction false} ToRunOnce(names: seq<string>, completed: set<string>, i: nat)
    ensures multiset(ToRun(names, completed))[i] == if i < |names| && names[i] !in completed then 1 else 0
  {
    if names != [] {
      ToRunOnce(names[..|names| - 1], completed, i);
    }
  }

  /** These are the calls of a dispatch up to now, and the results say what each of them raised. */
  predicate Reported(
    calls: seq<Call>, eventType: string, names: seq<string>, completed: set<string>,
    results: seq<HandlerResult>, now: Time)
  {
    && |calls| == |ToRun(names, completed)|
    && forall n :: 0 <= n < |calls| ==>
         ReportedBy(calls[n], eventType, ToRun(names, completed)[n], results, now)
  }

  predicate ReportedBy(call: Call, eventType: string, position: nat, results: seq<HandlerResult>, now: Time) {
    && call.eventType == eventType && call.position == position && call.endedAt <= now
    && position < |results| && !results[position].skipped
    && results[position].error == call.error && results[position].success == call.error.None?
  }

  lemma ReportedNext(
    calls: seq<Call>, eventType: string, names: seq<string>, completed: set<string>,
    results: seq<HandlerResult>, r: HandlerResult, more: seq<Call>, time: Time, now: Time)
    requires |results| < |names| && time <= now
    requires Reported(calls, eventType, names[..|results|], completed, results, time)
    requires if names[|results|] in completed then more == []
             else |more| == 1 && ReportedBy(more[0], eventType, |results|, results + [r], now)
    ensures Reported(calls + more, eventType, names[..|results| + 1], completed, results + [r], now)
  {
    var i := |results|;
    assert names[..i + 1][..i] == names[..i];
    var done, all := ToRun(names[..i], completed), ToRun(names[..i + 1], completed);
    forall n | 0 <= n < |calls + more|
      ensures n < |all| && ReportedBy((calls + more)[n], eventType, all[n], results + [r], now)
    {
      if n < |calls| {
        assert ReportedBy(calls[n], eventType, done[n], results, time);
      }
    }
  }

  /** The row as the session holds it while it is being handled. */
  class OutboxEvent {
    const eventType: string
    const payload: Payload
    const maxRetries: int
    var status: Status
    var retryCount: nat
    var scheduledAt: Time
    var processedAt: Option<Time>
    var lastError: Option<string>
    var handlerState: map<string, Entry>

    ghost function Row(): Event
      reads this
    {
      Event(eventType, payload, status, retryCount, maxRetries, scheduledAt, processedAt, lastError, handlerState)
    }

    constructor (row: Event)
      ensures Row() == row
    {
      eventType, payload, maxRetries := row.eventType, row.payload, row.maxRetries;
      status, retryCount, scheduledAt := row.status, row.retryCount, row.scheduledAt;
      processedAt, lastError, handlerState := row.processedAt, row.lastError, row.handlerState;
    }

    method Load() returns (row: Event)
      ensures row == Row()
    {
      row := Event(
        eventType, payload, status, retryCount, maxRetries, scheduledAt, processedAt, lastError, handlerState);
    }
  }

  class OutboxStore {
    var rows: seq<Event>

    constructor (rows: seq<Event>)
      ensures this.rows == rows
    {
      this.rows := rows;
    }
  }

  /** One attempt: the row selected at `seen`, the calls and results of its dispatch, the clock
      reads for the entries and for the end or the retry, and the jitter that was drawn. */
  datatype Attempt = Attempt(
    id: EventId, seen: Time, results: seq<HandlerResult>, calls: seq<Call>, at: Time, now: Time, jitter: int)

  class OutboxWorker {
    const store: OutboxStore
    const dispatcher: EventDispatcher

    constructor (store: OutboxStore, dispatcher: EventDispatcher)
      ensures this.store == store && this.dispatcher == dispatcher
    {
      this.store, this.dispatcher := store, dispatcher;
    }

    /** The merge loop of `_handle_event`. */
    method MergeResults(state: map<string, Entry>, results: seq<HandlerResult>, at: Time)
      returns (newState: map<string, Entry>)
      ensures newState == Merge(state, results, at)
    {
      newState := state;
      for i := 0 to |results|
        invariant newState == Merge(state, results[..i], at)
      {
        assert results[..i + 1][..i] == results[..i];
        if results[i].skipped {
          continue;
        }
        newState := newState[results[i].handlerName := EntryOf(results[i], at)];
      }
      assert results[..|results|] == results;
    }

    /** Dispatches the event and rewrites its row, as the handlers did. `drawn` is the jitter that
        `random.uniform` would give. */
    method HandleEvent(event: OutboxEvent, drawn: int)
      returns (ghost results: seq<HandlerResult>, ghost called: seq<Call>, ghost at: Time, ghost now: Time)
      requires IsJitter(drawn)
      modifies event, dispatcher`calls, dispatcher.clock
      ensures dispatcher.calls == old(dispatcher.calls) + called
      ensures var names := Handlers(dispatcher.handlers, event.eventType);
              var completed := Completed(old(event.handlerState));
              && |results| == |names| && ResultsFit(results, names, completed)
              && Reported(called, event.eventType, names, completed, results, at)
      ensures old(dispatcher.clock.time) <= at <= now <= dispatcher.clock.time
      ensures event.Row() == Handled(old(event.Row()), results, at, now, drawn)
    {
      var completed := Completed(event.handlerState);
      var outcome, calls := dispatcher.Dispatch(event.eventType, completed);
      results, called := outcome, calls;

      ghost var ended := dispatcher.clock.time;
      var stamp := dispatcher.clock.Now();
      at := stamp;
      ghost var names := Handlers(dispatcher.handlers, event.eventType);
      ReportedLater(called, event.eventType, names, completed, results, ended, at);
      var newState := MergeResults(event.handlerState, outcome, stamp);
      event.handlerState := newState;
      ghost var merged := old(event.Row()).(handlerState := newState);
      assert event.Row() == merged;

      if AllSucceeded(outcome) {
        event.status := PROCESSED;
        var processedAt := dispatcher.clock.Now();
        event.processedAt := Some(processedAt);
        now := processedAt;
      } else {
        event.retryCount := event.retryCount + 1;
        event.lastError := Some(ErrorsSummary(outcome));
        now := at;
        ghost var failed := merged.(retryCount := merged.retryCount + 1, lastError := event.lastError);
        assert event.Row() == failed;
        if event.retryCount >= event.maxRetries {
          event.status := FAILED;
        } else {
          var read := dispatcher.clock.Now();
          event.scheduledAt := read + Backoff(event.retryCount, drawn);
          now := read;
        }
      }
    }

    /** One batch with no other worker: at most fifty attempts, each on the earliest due row of
        the table that the one before left; stopping early means that nothing is due. */
    method ProcessBatch() returns (ghost tables: seq<seq<Event>>, ghost attempts: seq<Attempt>)
      modifies store, dispatcher`calls, dispatcher.clock
      ensures |attempts| <= 50 && |tables| == |attempts| + 1
      ensures tables[0] == old(store.rows) && tables[|attempts|] == store.rows
      ensures forall i :: 0 <= i < |attempts| ==>
        Attempted(dispatcher.handlers, tables[i], tables[i + 1], attempts[i])
      ensures dispatcher.calls == old(dispatcher.calls) + AllCalls(attempts)
      ensures |attempts| < 50 ==> forall k :: 0 <= k < |store.rows| ==>
        !(store.rows[k].status == PENDING && store.rows[k].scheduledAt <= dispatcher.clock.time)
    {
      tables, attempts := [store.rows], [];
      for n := 0 to BATCH_SIZE
        invariant |attempts| == n && |tables| == n + 1
        invariant tables[0] == old(store.rows) && tables[n] == store.rows
        invariant forall i :: 0 <= i < n ==> Attempted(dispatcher.handlers, tables[i], tables[i + 1], attempts[i])
        invariant dispatcher.calls == old(dispatcher.calls) + AllCalls(attempts)
      {
        var seen := dispatcher.clock.Now();
        if !exists k :: 0 <= k < |store.rows| && Due(store.rows[k], seen) {
          NothingDue(store.rows, seen);
          return;
        }
        ghost var attempt := ProcessNext(seen);
        AllCallsGrow(attempts, attempt);
        AppendTwice(old(dispatcher.calls), AllCalls(attempts), attempt.calls);
        attempts, tables := attempts + [attempt], tables + [store.rows];
      }
    }

    /** The body of the loop, once a row is due: select, handle, commit. */
    method ProcessNext(seen: Time) returns (ghost attempt: Attempt)
      requires exists k :: 0 <= k < |store.rows| && Due(store.rows[k], seen)
      requires seen <= dispatcher.clock.time
      modifies store, dispatcher`calls, dispatcher.clock
      ensures Attempted(dispatcher.handlers, old(store.rows), store.rows, attempt)
      ensures dispatcher.calls == old(dispatcher.calls) + attempt.calls
    {
      NextExists(store.rows, {}, seen);
      var id: nat :| id < |store.rows| && IsNext(store.rows, {}, seen, id);
      var event := new OutboxEvent(store.rows[id]);
      var drawn: int :| IsJitter(drawn);
      ghost var results, called, at, now := HandleEvent(event, drawn);
      attempt := Attempt(id, seen, results, called, at, now, drawn);
      var row := event.Load();
      store.rows := store.rows[id := row];
    }
  }

  lemma ReportedLater(
    calls: seq<Call>, eventType: string, names: seq<string>, completed: set<string>,
    results: seq<HandlerResult>, time: Time, now: Time)
    requires Reported(calls, eventType, names, completed, results, time) && time <= now
    ensures Reported(calls, eventType, names, completed, results, now)
  {
    forall n | 0 <= n < |calls| ensures ReportedBy(calls[n], eventType, ToRun(names, completed)[n], results, now) {
      assert ReportedBy(calls[n], eventType, ToRun(names, completed)[n], results, time);
    }
  }

  lemma NothingDue(rows: seq<Event>, now: Time)
    requires !exists k :: 0 <= k < |rows| && Due(rows[k], now)
    ensures forall k :: 0 <= k < |rows| ==> !(rows[k].status == PENDING && rows[k].scheduledAt <= now)
  {
    forall k | 0 <= k < |rows| ensures !(rows[k].status == PENDING && rows[k].scheduledAt <= now) {
      assert !Due(rows[k], now);
    }
  }

  /** One attempt with no other worker, from selection to commit: the earliest of the due rows,
      the calls of its handlers, and the row that their results make of it. */
  predicate Attempted(reg: Registry, before: seq<Event>, after: seq<Event>, a: Attempt) {
    && a.id < |before| && before[a.id].status == PENDING && before[a.id].scheduledAt <= a.seen
    && (forall k :: 0 <= k < |before| && before[k].status == PENDING && before[k].scheduledAt <= a.seen ==>
          before[a.id].scheduledAt <= before[k].scheduledAt)
    && a.seen <= a.at <= a.now && IsJitter(a.jitter)
    && var names, completed := Handlers(reg, before[a.id].eventType), Completed(before[a.id].handlerState);
       && |a.results| == |names| && ResultsFit(a.results, names, completed)
       && Reported(a.calls, before[a.id].eventType, names, completed, a.results, a.at)
       && after == before[a.id := Handled(before[a.id], a.results, a.at, a.now, a.jitter)]
  }

  /** The calls of these attempts, one after the other. */
  function AllCalls(attempts: seq<Attempt>): seq<Call> {
    if attempts == [] then [] else AllCalls(attempts[..|attempts| - 1]) + attempts[|attempts| - 1].calls
  }

  lemma AllCallsGrow(attempts: seq<Attempt>, a: Attempt)
    ensures AllCalls(attempts + [a]) == AllCalls(attempts) + a.calls
  {
    assert (attempts + [a])[..|attempts|] == attempts;
  }

  /** Every attempt uses up at least one of the attempts left, so a batch loop that keeps
      finding due events drains the table. */
  lemma AttemptUsesOne(reg: Registry, before: seq<Event>, after: seq<Event>, a: Attempt)
    requires Attempted(reg, before, after, a)
    ensures TotalLeft(after) < TotalLeft(before)
  {
    TotalLeftUpdate(before, a.id, Handled(before[a.id], a.results, a.at, a.now, a.jitter));
  }
}
