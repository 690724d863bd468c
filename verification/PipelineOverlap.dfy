/** Why the staleness result needs refreshes of one satellite not to overlap: rows are locked per
    event, so two outbox workers may handle two events of the same satellite at once. */
module PipelineOverlap {
  import opened Wrappers
  import opened TleText
  import opened Outbox
  import opened Ingest
  import opened Predictions
  import opened Pipeline
  import opened Passes
  import P = OutboxProtocol

  ghost predicate Reaches(c: Config, s0: State, s: State) {
    exists run :: CanRun(c, s0, run) && After(c, s0, run) == s
  }

  lemma {:induction false} RunThen(c: Config, s: State, run: seq<Action>, a: Action)
    requires CanRun(c, s, run) && Enabled(c, After(c, s, run), a)
    ensures CanRun(c, s, run + [a])
    ensures After(c, s, run + [a]) == Apply(c, After(c, s, run), a)
    decreases |run|
  {
    if run == [] {
      assert run + [a] == [a];
    } else {
      RunThen(c, Apply(c, s, run[0]), run[1..], a);
      assert (run + [a])[1..] == run[1..] + [a];
    }
  }

  lemma Step(c: Config, s0: State, s: State, a: Action) returns (s': State)
    requires Reaches(c, s0, s) && Enabled(c, s, a)
    ensures s' == Apply(c, s, a) && Reaches(c, s0, s')
  {
    var run :| CanRun(c, s0, run) && After(c, s0, run) == s;
    RunThen(c, s0, run, a);
    s' := Apply(c, s, a);
  }

  // One satellite, one station; no pass with the first TLE, one pass with the second.

  const OLD: TleRecord := TleRecord("SAT", "1 A", "2 A")
  const NEW: TleRecord := TleRecord("SAT", "1 B", "2 B")

  function Sat(r: TleRecord): Satellite { Satellite(1, r.name, r.line1, r.line2, 0) }

  function Setup(): Config {
    Config(
      map[TLE_REFRESHED := [RECOMPUTE]],
      Reader(_ => Some(1), (_, _) => Some(0)),
      (satellite: Satellite, _, _, _) =>
        if satellite.line1 == OLD.line1 then []
        else [OrbitEvent(1, RISE), OrbitEvent(2, CULMINATE), OrbitEvent(3, SET)])
  }

  function Start(ids: set<P.WorkerId>): State {
    var station := Station("Cebreros", 0.0, 0.0, 0.0);
    State(P.State(0, [], map w | w in ids :: P.Idle, []), [], [station], map[], map[], map[])
  }

  function Pending(id: SatId): Event { EventFor(id, 1, 0) }

  /** Worker `w` has locked event `e` and nothing has run in its attempt. */
  function Holding(e: EventId): P.Phase { P.Handling(e, Pending(0), 0, []) }

  /** Both TLEs are ingested; each worker has locked the event of one and loaded its row. */
  ghost predicate BothLoaded(s: State, ids: set<P.WorkerId>, v: P.WorkerId, w: P.WorkerId) {
    && s.outbox.clock == 0 && s.outbox.rows == [Pending(0), Pending(0)] && |s.outbox.history| == 2
    && s.outbox.workers == Start(ids).outbox.workers[v := Holding(0)][w := Holding(1)]
    && s.satellites == [Sat(NEW)] && s.stations == Start(ids).stations
    && s.sessions == map[v := Session([Sat(OLD)], 1, 0), w := Session([Sat(NEW)], 1, 0)]
  }

  lemma IngestSingle(reader: Reader, sats: seq<Satellite>, r: TleRecord)
    requires IngestOne(reader, sats, r).Some? && IngestOne(reader, sats, r).value.1.Some?
    ensures IngestAll(reader, sats, [r])
         == Some((IngestOne(reader, sats, r).value.0, [IngestOne(reader, sats, r).value.1.value]))
  {
    assert [r][..0] == [];
    assert IngestAll(reader, sats, []) == Some((sats, []));
    var id: SatId := IngestOne(reader, sats, r).value.1.value;
    assert [] + [id] == [id];
  }

  lemma IngestOld(s: State, ids: set<P.WorkerId>) returns (s': State)
    requires s == Start(ids)
    ensures Reaches(Setup(), s, s')
    ensures s' == s.(outbox := s'.outbox, satellites := [Sat(OLD)])
    ensures s'.outbox == s.outbox.(rows := [Pending(0)], history := s'.outbox.history) && |s'.outbox.history| == 1
  {
    var c := Setup();
    assert CanRun(c, s, []) && After(c, s, []) == s;
    IngestSingle(c.reader, [], OLD);
    s' := Step(c, s, s, IngestCommit([OLD], 0));
    assert s'.outbox.rows == [Pending(0)];
  }

  lemma LockEvent(s0: State, s: State, w: P.WorkerId, e: EventId) returns (s': State)
    requires Reaches(Setup(), s0, s)
    requires w in s.outbox.workers && s.outbox.workers[w].Idle?
    requires s.outbox.clock == 0 && e < |s.outbox.rows| && s.outbox.rows[e] == Pending(0)
    requires forall k :: 0 <= k < |s.outbox.rows| ==> s.outbox.rows[k].scheduledAt == 0
    requires e !in P.Locked(s.outbox) && w !in s.sessions
    ensures Reaches(Setup(), s0, s')
    ensures s' == s.(outbox := s.outbox.(workers := s.outbox.workers[w := Holding(e)]))
  {
    s' := Step(Setup(), s0, s, Other(P.Lock(w, e, 0)));
    assert s'.sessions == s.sessions;
  }

  /** Worker `w` opens its session and selects the satellite for the only station. */
  lemma OpenAndLoad(s0: State, s: State, w: P.WorkerId) returns (s': State)
    requires Reaches(Setup(), s0, s)
    requires AtRecompute(Setup(), s, w) && s.outbox.workers[w].locked == Pending(0)
    requires s.outbox.clock == 0 && w !in s.sessions
    requires |s.satellites| == 1 && |s.stations| == 1
    ensures Reaches(Setup(), s0, s')
    ensures s' == s.(sessions := s.sessions[w := Session([s.satellites[0]], 1, 0)])
  {
    var s1 := Step(Setup(), s0, s, Open(w, 0));
    assert [] + [s.satellites[0]] == [s.satellites[0]];
    s' := Step(Setup(), s0, s1, LoadNext(w));
  }

  lemma IngestNew(s0: State, s: State) returns (s': State)
    requires Reaches(Setup(), s0, s)
    requires s.satellites == [Sat(OLD)] && s.outbox.clock == 0
    ensures Reaches(Setup(), s0, s')
    ensures s' == s.(outbox := s'.outbox, satellites := [Sat(NEW)])
    ensures s'.outbox == s.outbox.(rows := s.outbox.rows + [Pending(0)], history := s'.outbox.history)
    ensures |s'.outbox.history| == |s.outbox.history| + 1
  {
    var c := Setup();
    assert NEW.line1[2] != OLD.line1[2];
    IngestSingle(c.reader, s.satellites, NEW);
    s' := Step(c, s0, s, IngestCommit([NEW], 0));
    assert s'.outbox.rows == s.outbox.rows + [Pending(0)];
  }

  lemma ReachFirstLoaded(ids: set<P.WorkerId>, v: P.WorkerId) returns (s: State)
    requires v in ids
    ensures Reaches(Setup(), Start(ids), s)
    ensures s == Start(ids).(
                   outbox := s.outbox, satellites := [Sat(OLD)], sessions := map[v := Session([Sat(OLD)], 1, 0)])
    ensures s.outbox == P.State(0, [Pending(0)], Start(ids).outbox.workers[v := Holding(0)], s.outbox.history)
    ensures |s.outbox.history| == 1
  {
    var s1 := IngestOld(Start(ids), ids);
    assert P.Locked(s1.outbox) == {};
    var s2 := LockEvent(Start(ids), s1, v, 0);
    s := OpenAndLoad(Start(ids), s2, v);
  }

  lemma ReachBothLoaded(ids: set<P.WorkerId>, v: P.WorkerId, w: P.WorkerId) returns (s: State)
    requires v in ids && w in ids && v != w
    ensures Reaches(Setup(), Start(ids), s) && BothLoaded(s, ids, v, w)
  {
    var s1 := ReachFirstLoaded(ids, v);
    var s2 := IngestNew(Start(ids), s1);
    assert forall u :: u in ids && s2.outbox.workers[u].Handling? ==> s2.outbox.workers[u].id == 0;
    assert 1 !in P.Locked(s2.outbox);
    var s3 := LockEvent(Start(ids), s2, w, 1);
    s := OpenAndLoad(Start(ids), s3, w);
  }

  /** Worker `w` has loaded its satellite at time 0 and nothing else has run in its attempt. */
  predicate Ready(s: State, w: P.WorkerId) {
    && w in s.outbox.workers && w in s.sessions
    && |s.sessions[w].loaded| == s.sessions[w].count == |s.stations| == 1 && s.sessions[w].now == 0
    && s.outbox.workers[w].Handling? && s.outbox.workers[w].id < |s.outbox.rows| == |s.outbox.history|
    && s.outbox.workers[w] == Holding(s.outbox.workers[w].id)
    && s.outbox.clock == 0
  }

  lemma StoreStep(s0: State, s: State, w: P.WorkerId) returns (s': State)
    requires Reaches(Setup(), s0, s) && Ready(s, w)
    ensures Reaches(Setup(), s0, s')
    ensures s'.satellites == s.satellites && s'.stations == s.stations
    ensures s'.sessions == s.sessions - {w} && s'.listed == s.listed[0 := 1]
    ensures s'.predictions
         == Recomputed(Setup().find, s.predictions, 0, s.sessions[w].loaded, s.stations, InOrder(1), 0)
    ensures s'.outbox.clock == 0 && s'.outbox.rows == s.outbox.rows && |s'.outbox.history| == |s.outbox.history|
    ensures s'.outbox.workers == s.outbox.workers[w := P.Handling(
              s.outbox.workers[w].id, Pending(0), 0, [HandlerResult(RECOMPUTE, true, None, false)])]
  {
    RisesDiffer(s.sessions[w].loaded, s.stations);
    var done := HandlerResult(RECOMPUTE, true, None, false);
    assert P.Names(Setup().reg, s.outbox, w) == [RECOMPUTE];
    assert [] + [done] == [done];
    s' := Step(Setup(), s0, s, Store(w, None));
    assert s'.outbox.workers[w].results == [done];
  }

  /** Worker `w` stores what it loaded and commits its event as PROCESSED. */
  lemma StoreAndCommit(s0: State, s: State, w: P.WorkerId) returns (s': State)
    requires Reaches(Setup(), s0, s) && Ready(s, w)
    ensures Reaches(Setup(), s0, s')
    ensures s'.satellites == s.satellites && s'.stations == s.stations
    ensures s'.sessions == s.sessions - {w} && s'.listed == s.listed[0 := 1]
    ensures s'.predictions
         == Recomputed(Setup().find, s.predictions, 0, s.sessions[w].loaded, s.stations, InOrder(1), 0)
    ensures s'.outbox.clock == 0 && |s'.outbox.history| == |s'.outbox.rows| == |s.outbox.rows|
    ensures s'.outbox.workers == s.outbox.workers[w := P.Idle]
    ensures s'.outbox.rows == s.outbox.rows[s.outbox.workers[w].id := s'.outbox.rows[s.outbox.workers[w].id]]
    ensures s'.outbox.rows[s.outbox.workers[w].id].status == PROCESSED
  {
    var s1 := StoreStep(s0, s, w);
    s' := Step(Setup(), s0, s1, Other(P.Commit(w, 0, 0, 0)));
    assert s'.sessions == s.sessions - {w};
  }

  lemma RisesDiffer(loaded: seq<Satellite>, stations: seq<Station>)
    requires |loaded| == |stations| == 1
    ensures AllDistinct(Setup().find, loaded, stations, 1, 0)
  {
    RisesAreDistinct(Setup().find, loaded[0], stations[0], 0);
  }

  lemma NewTleHasPass(station: Station, now: Time)
    ensures PassesOver(Setup().find, Sat(NEW), station, now) != []
  {
    assert NEW.line1[2] != OLD.line1[2];
    var events := [OrbitEvent(1, RISE), OrbitEvent(2, CULMINATE), OrbitEvent(3, SET)];
    assert Setup().find(Sat(NEW), station, now, now + HORIZON) == events;
    assert IsSpan(events, Span(0, 1, 2));
    SpansAreSpans(events);
  }

  lemma OldTleHasNoPass(station: Station)
    ensures PassesOver(Setup().find, Sat(OLD), station, 0) == []
  {
  }

  lemma OldRowsAreNotFresh(s: State, before: Table)
    requires s.satellites == [Sat(NEW)] && |s.stations| == 1
    requires 0 in s.listed && s.listed[0] == 1
    requires s.predictions == Recomputed(Setup().find, before, 0, [Sat(OLD)], s.stations, InOrder(1), 0)
    ensures !Fresh(Setup(), s, 0)
  {
    assert InOrder(1)[0] == 0;
    forall now ensures !StoredFrom(Setup(), s, 0, Sat(NEW), now) {
      NewTleHasPass(s.stations[0], now);
      OldTleHasNoPass(s.stations[0]);
      var passes := PassesOver(Setup().find, Sat(NEW), s.stations[0], now);
      var k := Key(0, 0, passes[0].aosAt);
      RowsForKeys(0, 0, passes, k);
      RowsForKeys(0, 0, [], k);
      RecomputedRow(Setup().find, before, 0, [Sat(OLD)], s.stations, InOrder(1), 0, k);
    }
  }

  /** With any two outbox workers, a run exists in which both events of a satellite end
      PROCESSED while the stored predictions come from the TLE that was replaced. */
  lemma OverlapGoesStale(ids: set<P.WorkerId>, v: P.WorkerId, w: P.WorkerId) returns (s: State)
    requires v in ids && w in ids && v != w
    ensures Init(Start(ids)) && Registered(Setup()) && Reaches(Setup(), Start(ids), s)
    ensures |s.satellites| == 1
    ensures !Fresh(Setup(), s, 0) && forall e :: 0 <= e < |s.outbox.rows| ==> s.outbox.rows[e].status == PROCESSED
  {
    var s1 := ReachBothLoaded(ids, v, w);
    var s2 := StoreAndCommit(Start(ids), s1, w);
    s := StoreAndCommit(Start(ids), s2, v);
    OldRowsAreNotFresh(s, s2.predictions);
    assert s.outbox.rows[0].status == PROCESSED && s.outbox.rows[1].status == PROCESSED;
  }

  /** Every satellite that is stored has fresh predictions, or its newest refresh event is still
      on record as not PROCESSED. */
  ghost predicate NothingSilentlyStale(c: Config, s: State) {
    forall id :: 0 <= id < |s.satellites| ==> Fresh(c, s, id) || Outstanding(s, id)
  }

  /** Outbox workers `ids` keep predictions from going stale unnoticed, whatever the handlers,
      the orbits, the TLEs and the run. */
  ghost predicate KeepUp(ids: set<P.WorkerId>) {
    forall c, s0, s ::
      Registered(c) && Init(s0) && s0.outbox.workers.Keys == ids && Reaches(c, s0, s) ==> NothingSilentlyStale(c, s)
  }

  /** They do exactly when there is at most one of them. */
  lemma KeepUpIffAtMostOneWorker(ids: set<P.WorkerId>)
    ensures KeepUp(ids) <==> |ids| <= 1
  {
    if |ids| <= 1 {
      forall c, s0, s | Registered(c) && Init(s0) && s0.outbox.workers.Keys == ids && Reaches(c, s0, s)
        ensures NothingSilentlyStale(c, s)
      {
        var run :| CanRun(c, s0, run) && After(c, s0, run) == s;
        forall id | 0 <= id < |s.satellites| ensures Fresh(c, s, id) || Outstanding(s, id) {
          NoSilentStalenessWithOneWorker(c, s0, run, id);
        }
      }
    } else {
      var v :| v in ids;
      SubsetCount({v}, ids);
      var w :| w in ids - {v};
      var s := OverlapGoesStale(ids, v, w);
      assert Start(ids).outbox.workers.Keys == ids;
      assert !NothingSilentlyStale(Setup(), s);
    }
  }
}
