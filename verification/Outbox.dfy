/** The `outbox_events` table and what one attempt does to a row. Rows are only ever added, so
    an event's id is its index in the table. */
module Outbox {
  import opened Wrappers

  type EventId = nat

  const BATCH_SIZE: nat := 50
  const MAX_BACKOFF: int := 3600 * SECOND
  const MAX_JITTER: int := 5 * SECOND
  const MAX_RETRIES: int := 8

  datatype Status = PENDING | PROCESSED | FAILED

  datatype Payload = Payload(satelliteId: nat, noradId: int)

  /** What `handler_state` keeps for one handler name. */
  datatype Entry = Entry(ok: bool, at: Time, error: Option<string>)

  datatype Event = Event(
    eventType: string,
    payload: Payload,
    status: Status,
    retryCount: nat,
    maxRetries: int,
    scheduledAt: Time,
    processedAt: Option<Time>,
    lastError: Option<string>,
    handlerState: map<string, Entry>)

  datatype HandlerResult = HandlerResult(handlerName: string, success: bool, error: Option<string>, skipped: bool)

  /** The handlers of each event type, by `__name__`, in the order they were registered. */
  type Registry = map<string, seq<string>>

  function Handlers(reg: Registry, eventType: string): seq<string> {
    if eventType in reg then reg[eventType] else []
  }

  predicate Ok(e: Event, name: string) {
    name in e.handlerState && e.handlerState[name].ok
  }

  function Completed(state: map<string, Entry>): set<string> {
    set name | name in state && state[name].ok
  }

  // One dispatch.

  /** A completed handler is reported as a success without being run; any other result is the
      outcome of a run: success, or failure with its traceback. */
  predicate ResultFits(r: HandlerResult, name: string, completed: set<string>) {
    && r.handlerName == name
    && r.skipped == (name in completed)
    && r.success == r.error.None?
    && (r.skipped ==> r.success)
  }

  predicate ResultsFit(results: seq<HandlerResult>, names: seq<string>, completed: set<string>) {
    && |results| <= |names|
    && forall i :: 0 <= i < |results| ==> ResultFits(results[i], names[i], completed)
  }

  predicate AllSucceeded(results: seq<HandlerResult>) {
    forall i :: 0 <= i < |results| ==> results[i].success
  }

  function ErrorsSummary(results: seq<HandlerResult>): string {
    if results == [] then ""
    else
      var r, rest := results[|results| - 1], ErrorsSummary(results[..|results| - 1]);
      if r.success then rest
      else
        var line := "[" + r.handlerName + "] " + (if r.error.Some? then r.error.value else "None");
        if AllSucceeded(results[..|results| - 1]) then line else rest + "\n---\n" + line
  }

  /** The lines of the failed handlers, in order. */
  function FailureLines(results: seq<HandlerResult>): seq<string> {
    if results == [] then []
    else
      var r, rest := results[0], FailureLines(results[1..]);
      if r.success then rest
      else ["[" + r.handlerName + "] " + (if r.error.Some? then r.error.value else "None")] + rest
  }

  function Join(lines: seq<string>, separator: string): string {
    if lines == [] then "" else if |lines| == 1 then lines[0] else lines[0] + separator + Join(lines[1..], separator)
  }

  lemma {:induction false} JoinOneMore(lines: seq<string>, last: string, separator: string)
    ensures Join(lines + [last], separator)
         == if lines == [] then last else Join(lines, separator) + separator + last
  {
    if lines != [] {
      assert (lines + [last])[1..] == lines[1..] + [last];
      JoinOneMore(lines[1..], last, separator);
    }
  }

  lemma {:induction false} FailureLinesOneMore(results: seq<HandlerResult>, r: HandlerResult)
    ensures FailureLines(results + [r]) == FailureLines(results) + FailureLines([r])
    ensures FailureLines(results) == [] <==> AllSucceeded(results)
  {
    if results == [] {
      assert results + [r] == [r];
    } else {
      assert (results + [r])[1..] == results[1..] + [r];
      FailureLinesOneMore(results[1..], r);
      assert results == [results[0]] + results[1..];
    }
  }

  /** The summary is the failures' lines, joined. */
  lemma {:induction false} SummaryJoinsFailures(results: seq<HandlerResult>)
    ensures ErrorsSummary(results) == Join(FailureLines(results), "\n---\n")
  {
    if results != [] {
      var n := |results| - 1;
      var front, r := results[..n], results[n];
      SummaryJoinsFailures(front);
      FailureLinesOneMore(front, r);
      assert results == front + [r];
      if !r.success {
        var line := "[" + r.handlerName + "] " + (if r.error.Some? then r.error.value else "None");
        assert [r][1..] == [];
        assert FailureLines([r]) == [line];
        JoinOneMore(FailureLines(front), line, "\n---\n");
      } else {
        assert [r][1..] == [] && FailureLines([r]) == [];
        assert FailureLines(front) + [] == FailureLines(front);
      }
    }
  }

  // One attempt.

  function EntryOf(r: HandlerResult, at: Time): (e: Entry)
    ensures e.ok == r.success && e.at == at
    ensures e.error.Some? <==> r.error.Some? && r.error.value != ""
    ensures e.error.Some? ==> |e.error.value| == Min(|r.error.value|, 500) && e.error.value <= r.error.value
  {
    Entry(r.success, at,
          if r.error.Some? && r.error.value != ""
          then Some(if |r.error.value| <= 500 then r.error.value else r.error.value[..500])
          else None)
  }

  /** `handler_state` after the results are merged in: the last result of a name that was run
      replaces its entry; names that were skipped or not reported keep theirs. */
  function Merge(state: map<string, Entry>, results: seq<HandlerResult>, at: Time): map<string, Entry> {
    if results == [] then state
    else
      var r, merged := results[|results| - 1], Merge(state, results[..|results| - 1], at);
      if r.skipped then merged else merged[r.handlerName := EntryOf(r, at)]
  }

  function Pow2(k: nat): nat {
    if k == 0 then 1 else 2 * Pow2(k - 1)
  }

  predicate IsJitter(jitter: int) {
    0 <= jitter <= MAX_JITTER
  }

  /** The delay before the attempt that follows the `k`-th failure. */
  function Backoff(k: nat, jitter: int): int {
    Min(Pow2(k) * SECOND + jitter, MAX_BACKOFF)
  }

  /** The row that an attempt commits, from the row it locked, the results of the dispatch, the
      clock reads `at` (for the entries) and `now` (for the end or the retry), and the jitter. */
  function Handled(e: Event, results: seq<HandlerResult>, at: Time, now: Time, jitter: int): Event {
    var merged := e.(handlerState := Merge(e.handlerState, results, at));
    if AllSucceeded(results) then
      merged.(status := PROCESSED, processedAt := Some(now))
    else
      var failed := merged.(retryCount := e.retryCount + 1, lastError := Some(ErrorsSummary(results)));
      if failed.retryCount >= e.maxRetries
      then failed.(status := FAILED)
      else failed.(scheduledAt := now + Backoff(failed.retryCount, jitter))
  }

  /** Column by column: what is kept, what ends an event, and what puts it off. */
  lemma HandledMeans(e: Event, results: seq<HandlerResult>, at: Time, now: Time, jitter: int)
    ensures var h := Handled(e, results, at, now, jitter);
            && h.eventType == e.eventType && h.payload == e.payload && h.maxRetries == e.maxRetries
            && h.handlerState == Merge(e.handlerState, results, at)
            && (AllSucceeded(results) ==>
                  && h.status == PROCESSED && h.processedAt == Some(now)
                  && h.retryCount == e.retryCount && h.lastError == e.lastError && h.scheduledAt == e.scheduledAt)
            && (!AllSucceeded(results) ==>
                  && h.processedAt == e.processedAt && h.retryCount == e.retryCount + 1
                  && h.lastError == Some(ErrorsSummary(results))
                  && (h.retryCount >= e.maxRetries ==> h.status == FAILED && h.scheduledAt == e.scheduledAt)
                  && (h.retryCount < e.maxRetries ==>
                        h.status == e.status && h.scheduledAt == now + Backoff(h.retryCount, jitter)))
  {
  }

  // Selection.

  predicate Due(e: Event, now: Time) {
    e.status == PENDING && e.scheduledAt <= now
  }

  /** `id` may be the row that the select locks: due, skipped by no lock, first in the order. */
  predicate IsNext(rows: seq<Event>, locked: set<EventId>, now: Time, id: EventId) {
    && id < |rows| && Due(rows[id], now) && id !in locked
    && forall k :: 0 <= k < |rows| && Due(rows[k], now) && k !in locked ==> rows[id].scheduledAt <= rows[k].scheduledAt
  }

  /** There is one whenever a due row is not locked. */
  lemma {:induction false} NextExists(rows: seq<Event>, locked: set<EventId>, now: Time)
    requires exists k :: 0 <= k < |rows| && Due(rows[k], now) && k !in locked
    ensures exists id: nat :: id < |rows| && IsNext(rows, locked, now, id)
  {
    var n := |rows| - 1;
    var front := rows[..n];
    if exists k :: 0 <= k < |front| && Due(front[k], now) && k !in locked {
      NextExists(front, locked, now);
      var id: nat :| id < |front| && IsNext(front, locked, now, id);
      var best := if Due(rows[n], now) && n !in locked && rows[n].scheduledAt < rows[id].scheduledAt then n else id;
      forall k | 0 <= k < |rows| && Due(rows[k], now) && k !in locked
        ensures rows[best].scheduledAt <= rows[k].scheduledAt
      {
        assert k < n ==> front[k] == rows[k];
      }
      assert IsNext(rows, locked, now, best);
    } else {
      forall k | 0 <= k < n ensures !Due(rows[k], now) || k in locked {
        assert front[k] == rows[k];
      }
      assert IsNext(rows, locked, now, n);
    }
  }

  // What merging does.

  predicate DistinctNames(names: seq<string>) {
    forall a, b :: 0 <= a < b < |names| ==> names[a] != names[b]
  }

  lemma {:induction false} MergeKeeps(state: map<string, Entry>, results: seq<HandlerResult>, at: Time, name: string)
    requires forall i :: 0 <= i < |results| && results[i].handlerName == name ==> results[i].skipped
    ensures name in Merge(state, results, at) <==> name in state
    ensures name in state ==> Merge(state, results, at)[name] == state[name]
  {
    if results != [] {
      MergeKeeps(state, results[..|results| - 1], at, name);
    }
  }

  /** The last run of a name decides its entry. */
  lemma {:induction false} MergeSets(state: map<string, Entry>, results: seq<HandlerResult>, at: Time, i: nat)
    requires i < |results| && !results[i].skipped
    requires forall j :: i < j < |results| && results[j].handlerName == results[i].handlerName ==> results[j].skipped
    ensures results[i].handlerName in Merge(state, results, at)
    ensures Merge(state, results, at)[results[i].handlerName] == EntryOf(results[i], at)
  {
    if i < |results| - 1 {
      MergeSets(state, results[..|results| - 1], at, i);
    }
  }

  /** After a complete dispatch of distinct handlers, a handler is recorded ok exactly when it
      was already, or has just succeeded. */
  lemma {:induction false} MergedOk(e: Event, results: seq<HandlerResult>, names: seq<string>, at: Time, i: nat)
    requires DistinctNames(names)
    requires ResultsFit(results, names, Completed(e.handlerState))
    requires i < |names|
    ensures Ok(e.(handlerState := Merge(e.handlerState, results, at)), names[i])
       <==> Ok(e, names[i]) || (i < |results| && results[i].success)
  {
    if i < |results| && !results[i].skipped {
      MergeSets(e.handlerState, results, at, i);
    } else {
      forall j | 0 <= j < |results| && results[j].handlerName == names[i] ensures results[j].skipped {
        assert results[j].handlerName == names[j];
        assert j < i || j == i || j > i;
      }
      MergeKeeps(e.handlerState, results, at, names[i]);
    }
  }

  // Backoff.

  lemma {:induction false} Pow2Grows(m: nat, n: nat)
    requires m <= n
    ensures Pow2(m) <= Pow2(n)
  {
    if m < n { Pow2Grows(m, n - 1); }
  }

  lemma BackoffIsPositive(k: nat, jitter: int)
    requires k >= 1 && IsJitter(jitter)
    ensures Backoff(k, jitter) >= 2 * SECOND
  {
    Pow2Grows(1, k);
  }

  lemma Pow2At12()
    ensures Pow2(3) == 8 && Pow2(11) == 2048 && Pow2(12) == 4096
  {
    assert Pow2(3) == 8;
    assert Pow2(7) == 16 * Pow2(3);
    assert Pow2(11) == 16 * Pow2(7);
  }

  /** In microseconds: doubling from two seconds, with a jitter of up to five, and an hour from
      the twelfth failure on. */
  lemma BackoffInMicroseconds(k: nat, jitter: int)
    ensures IsJitter(jitter) <==> 0 <= jitter <= 5_000_000
    ensures IsJitter(jitter) && k <= 11 ==> Backoff(k, jitter) == Pow2(k) * 1_000_000 + jitter
    ensures IsJitter(jitter) && k >= 12 ==> Backoff(k, jitter) == 3_600_000_000
    ensures Pow2(0) == 1 && Pow2(k + 1) == 2 * Pow2(k)
  {
    Pow2At12();
    if k <= 11 { Pow2Grows(k, 11); } else { Pow2Grows(12, k); }
  }

  /** The delay after failure k can exceed the one after failure k + 1, for some jitters in
      [0, 5] seconds, exactly when k < 3. */
  lemma BackoffIsMonotoneFrom3(k: nat)
    ensures (forall i, j :: IsJitter(i) && IsJitter(j) ==> Backoff(k, i) <= Backoff(k + 1, j)) <==> k >= 3
  {
    Pow2At12();
    if k >= 3 {
      Pow2Grows(3, k);
    } else {
      assert Pow2(k) <= 4 by { Pow2Grows(k, 2); }
      assert IsJitter(MAX_JITTER) && IsJitter(0) && Backoff(k, MAX_JITTER) > Backoff(k + 1, 0);
    }
  }

  /** The least total delay before the attempt that follows failure n. */
  function BackoffSum(n: nat, jitter: int): int {
    if n == 0 then 0 else BackoffSum(n - 1, jitter) + Backoff(n, jitter)
  }

  /** Closed form, in seconds: 2^(n+1) - 2 while doubling, then one hour more each time. */
  lemma {:induction false} BackoffSumClosedForm(n: nat)
    ensures n <= 11 ==> BackoffSum(n, 0) == (Pow2(n + 1) - 2) * SECOND
    ensures n >= 11 ==> BackoffSum(n, 0) == (4094 + 3600 * (n - 11)) * SECOND
  {
    Pow2At12();
    if n > 0 {
      BackoffSumClosedForm(n - 1);
      if n <= 11 { Pow2Grows(n, 11); } else { Pow2Grows(12, n); }
    }
  }

  // Progress.

  /** The attempts an event still has: none once it is PROCESSED or FAILED. */
  function Left(e: Event): nat {
    if e.status != PENDING then 0
    else if e.retryCount < e.maxRetries then e.maxRetries - e.retryCount
    else 1
  }

  function TotalLeft(rows: seq<Event>): nat {
    if rows == [] then 0 else Left(rows[0]) + TotalLeft(rows[1..])
  }

  lemma {:induction false} TotalLeftUpdate(rows: seq<Event>, id: EventId, e: Event)
    requires id < |rows|
    ensures TotalLeft(rows[id := e]) == TotalLeft(rows) - Left(rows[id]) + Left(e)
  {
    if id == 0 {
      assert rows[0 := e][1..] == rows[1..];
    } else {
      TotalLeftUpdate(rows[1..], id - 1, e);
      assert rows[id := e][1..] == rows[1..][id - 1 := e];
    }
  }
}
