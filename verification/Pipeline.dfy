/** The pipeline end to end: TLE ingests, the outbox with any number of workers, and the handler
    that recomputes predictions, interleaved step by step.

    The outbox part of the state moves by the steps of `OutboxProtocol`. A run of the recompute
    handler has steps of its own: it opens its session and lists the stations, then selects the
    satellite again for each of them, so that later stations may be computed from a newer TLE,
    and then it commits its predictions. */
module Pipeline {
  import opened Wrappers
  import opened TleText
  import opened Outbox
  import opened Ingest
  import opened Predictions
  import P = OutboxProtocol

  const RECOMPUTE: string := "recompute_passes"

  datatype Config = Config(reg: Registry, reader: Reader, find: Finder)

  /** What the handler's session holds: the row of the satellite as it was selected for each of
      the first stations, how many stations it listed, and the clock read that starts its window. */
  datatype Session = Session(loaded: seq<Satellite>, count: nat, now: Time)

  /** `listed` keeps how many stations the last recompute of each satellite listed. */
  datatype State = State(
    outbox: P.State,
    satellites: seq<Satellite>,
    stations: seq<Station>,
    predictions: Table,
    listed: map<SatId, nat>,
    sessions: map<P.WorkerId, Session>)

  datatype Action =
    | Other(a: P.Action)                                        // an outbox step with no effect on the rest
    | IngestCommit(records: seq<TleRecord>, begun: Time)
    | AddStation(station: Station)
    | Open(w: P.WorkerId, now: Time)
    | LoadNext(w: P.WorkerId)                                   // selects the satellite for the next station
    | Store(w: P.WorkerId, error: Option<string>)               // commits; `error` if it is cancelled right after

  predicate Init(s: State) {
    && P.Init(s.outbox) && s.satellites == [] && s.predictions == map[]
    && s.listed == map[] && s.sessions == map[]
  }

  /** Worker `w` is about to run the recompute handler, or is running it. */
  predicate AtRecompute(c: Config, s: State, w: P.WorkerId) {
    && w in s.outbox.workers && s.outbox.workers[w].Handling?
    && var me := s.outbox.workers[w];
       && me.locked.eventType == TLE_REFRESHED
       && |me.results| < |Handlers(c.reg, TLE_REFRESHED)|
       && Handlers(c.reg, TLE_REFRESHED)[|me.results|] == RECOMPUTE
       && RECOMPUTE !in Completed(me.locked.handlerState)
  }

  ghost predicate Enabled(c: Config, s: State, a: Action) {
    match a
    case Other(b) =>
      && P.Enabled(c.reg, s.outbox, b)
      // refreshed TLEs are published by ingests, and the recompute handler succeeds by `Store`
      && (b.Publish? ==> forall i :: 0 <= i < |b.added| ==> b.added[i].eventType != TLE_REFRESHED)
      && (b.Invoke? && AtRecompute(c, s, b.w) ==> b.error.Some?)
    case IngestCommit(records, begun) =>
      begun <= s.outbox.clock && IngestAll(c.reader, s.satellites, records).Some?
    case AddStation(_) => true
    case Open(w, now) =>
      AtRecompute(c, s, w) && w !in s.sessions && now <= s.outbox.clock
    case LoadNext(w) =>
      && AtRecompute(c, s, w) && w in s.sessions && |s.sessions[w].loaded| < s.sessions[w].count
      && s.outbox.workers[w].locked.payload.satelliteId < |s.satellites|
    case Store(w, _) =>
      && AtRecompute(c, s, w) && w in s.sessions
      && |s.sessions[w].loaded| == s.sessions[w].count <= |s.stations|
      && AllDistinct(c.find, s.sessions[w].loaded, s.stations, s.sessions[w].count, s.sessions[w].now)
  }

  function Added(c: Config, s: State, records: seq<TleRecord>, begun: Time): seq<Event>
    requires IngestAll(c.reader, s.satellites, records).Some?
  {
    var (sats, written) := IngestAll(c.reader, s.satellites, records).value;
    WrittenRows(c.reader, s.satellites, records);
    EventsFor(sats, written, begun)
  }

  /** The session of a worker ends with its handler. */
  function Ended(s: State, b: P.Action): map<P.WorkerId, Session> {
    if b.Tick? || b.Publish? then s.sessions else s.sessions - {b.w}
  }

  ghost function Apply(c: Config, s: State, a: Action): State
    requires Enabled(c, s, a)
  {
    match a
    case Other(b) => s.(outbox := P.Apply(c.reg, s.outbox, b), sessions := Ended(s, b))
    case IngestCommit(records, begun) =>
      var added := Added(c, s, records, begun);
      assert P.Enabled(c.reg, s.outbox, P.Publish(added));
      s.(outbox := P.Apply(c.reg, s.outbox, P.Publish(added)),
         satellites := IngestAll(c.reader, s.satellites, records).value.0)
    case AddStation(station) => s.(stations := s.stations + [station])
    case Open(w, now) => s.(sessions := s.sessions[w := Session([], |s.stations|, now)])
    case LoadNext(w) =>
      var id, session := s.outbox.workers[w].locked.payload.satelliteId, s.sessions[w];
      s.(sessions := s.sessions[w := session.(loaded := session.loaded + [s.satellites[id]])])
    case Store(w, error) =>
      var id, session := s.outbox.workers[w].locked.payload.satelliteId, s.sessions[w];
      s.(outbox := P.Apply(c.reg, s.outbox, P.Invoke(w, error)),
         predictions := Recomputed(c.find, s.predictions, id, session.loaded, s.stations,
                                   InOrder(session.count), session.now),
         listed := s.listed[id := session.count],
         sessions := s.sessions - {w})
  }

  /** No two workers handle refreshes of the same satellite at once. */
  predicate Serial(s: State) {
    forall v, w | v in s.outbox.workers && w in s.outbox.workers && v != w && Refreshing(s, v) && Refreshing(s, w) ::
      SatelliteOf(s, v) != SatelliteOf(s, w)
  }

  predicate Refreshing(s: State, w: P.WorkerId)
    requires w in s.outbox.workers
  {
    s.outbox.workers[w].Handling? && s.outbox.workers[w].locked.eventType == TLE_REFRESHED
  }

  function SatelliteOf(s: State, w: P.WorkerId): SatId
    requires w in s.outbox.workers && s.outbox.workers[w].Handling?
  {
    s.outbox.workers[w].locked.payload.satelliteId
  }

  ghost predicate CanRun(c: Config, s: State, run: seq<Action>)
    decreases |run|
  {
    run == [] || (Enabled(c, s, run[0]) && CanRun(c, Apply(c, s, run[0]), run[1..]))
  }

  ghost function After(c: Config, s: State, run: seq<Action>): State
    requires CanRun(c, s, run)
    decreases |run|
  {
    if run == [] then s else After(c, Apply(c, s, run[0]), run[1..])
  }

  ghost predicate AlwaysSerial(c: Config, s: State, run: seq<Action>)
    requires CanRun(c, s, run)
    decreases |run|
  {
    Serial(s) && (run != [] ==> AlwaysSerial(c, Apply(c, s, run[0]), run[1..]))
  }

  // The invariant.

  /** The satellite has been recomputed, and for every station that its last recompute listed,
      the stored rows are the passes of its present TLE from some instant on. */
  ghost predicate Fresh(c: Config, s: State, id: SatId)
    requires id < |s.satellites|
  {
    id in s.listed && s.listed[id] <= |s.stations| && exists now :: StoredFrom(c, s, id, s.satellites[id], now)
  }

  ghost predicate StoredFrom(c: Config, s: State, id: SatId, satellite: Satellite, now: Time)
    requires id in s.listed && s.listed[id] <= |s.stations|
  {
    forall k: Key :: k.satellite == id && k.station < s.listed[id] ==>
      var rows := RowsFor(id, k.station, PassesOver(c.find, satellite, s.stations[k.station], now));
      (k in s.predictions <==> k in rows) && (k in rows ==> s.predictions[k] == rows[k])
  }

  /** The attempt of worker `w` has a success of the recompute handler, run or skipped. */
  predicate Done(s: State, w: P.WorkerId)
    requires w in s.outbox.workers && s.outbox.workers[w].Handling?
  {
    var results := s.outbox.workers[w].results;
    exists i :: 0 <= i < |results| && results[i].handlerName == RECOMPUTE && results[i].success
  }

  predicate IsRefresh(e: Event, id: SatId) {
    e.eventType == TLE_REFRESHED && e.payload.satelliteId == id
  }

  /** Of the refresh events of satellite `id`, `e` was committed last. */
  predicate Newest(s: State, id: SatId, e: EventId) {
    && e < |s.outbox.rows| && IsRefresh(s.outbox.rows[e], id)
    && forall k :: e < k < |s.outbox.rows| ==> !IsRefresh(s.outbox.rows[k], id)
  }

  /** The newest refresh event of satellite `id` is `e`, and it will still have the satellite
      recomputed, or is a dead letter that says so. */
  predicate Covering(s: State, id: SatId, e: EventId) {
    && Newest(s, id, e)
    && s.outbox.rows[e].status != PROCESSED && !Ok(s.outbox.rows[e], RECOMPUTE)
    && forall w :: w in s.outbox.workers && s.outbox.workers[w].Handling? && s.outbox.workers[w].id == e ==> !Done(s, w)
  }

  ghost predicate Covered(c: Config, s: State, id: SatId)
    requires id < |s.satellites|
  {
    Fresh(c, s, id) || exists e: EventId :: Covering(s, id, e)
  }

  /** All that a session has loaded is the present row of its satellite, or an event other than
      its own covers. */
  ghost predicate SessionOk(c: Config, s: State, w: P.WorkerId)
    requires w in s.sessions
  {
    && AtRecompute(c, s, w) && SatelliteOf(s, w) < |s.satellites|
    && (AllPresent(s.sessions[w].loaded, s.satellites[SatelliteOf(s, w)])
        || exists e: EventId :: e != s.outbox.workers[w].id && Covering(s, SatelliteOf(s, w), e))
  }

  predicate AllPresent(loaded: seq<Satellite>, satellite: Satellite) {
    forall i :: 0 <= i < |loaded| ==> loaded[i] == satellite
  }

  predicate References(s: State) {
    && (forall e :: 0 <= e < |s.outbox.rows| ==> Refers(s.outbox.rows[e], |s.satellites|))
    && (forall id :: id in s.listed ==> s.listed[id] <= |s.stations|)
  }

  ghost predicate Inv(c: Config, s: State) {
    && P.Base(c.reg, s.outbox)
    && References(s)
    && (forall w :: w in s.sessions ==> SessionOk(c, s, w))
    && (forall id :: 0 <= id < |s.satellites| ==> Covered(c, s, id))
  }

  /** The handlers of refreshed TLEs have distinct names, and the recompute handler is one. */
  predicate Registered(c: Config) {
    && DistinctNames(Handlers(c.reg, "tle.refreshed"))
    && "recompute_passes" in Handlers(c.reg, "tle.refreshed")
  }

  /** The outbox step that an action takes, if any. */
  function OutboxStep(c: Config, s: State, a: Action): Option<P.Action>
    requires a.IngestCommit? ==> IngestAll(c.reader, s.satellites, a.records).Some?
  {
    match a
    case Other(b) => Some(b)
    case IngestCommit(records, begun) => Some(P.Publish(Added(c, s, records, begun)))
    case Store(w, error) => Some(P.Invoke(w, error))
    case _ => None
  }

  lemma BaseStep(c: Config, s: State, a: Action)
    requires P.Base(c.reg, s.outbox) && Enabled(c, s, a)
    ensures P.Base(c.reg, Apply(c, s, a).outbox)
  {
    var b := OutboxStep(c, s, a);
    if b.Some? {
      P.LockStep(c.reg, s.outbox, b.value);
      P.RowStep(c.reg, s.outbox, b.value);
    }
  }

  /** A commit of an attempt in which the recompute handler has not succeeded is a failure, and
      does not record it as ok. */
  lemma CommitKeepsCover(c: Config, s: State, b: P.Action, id: SatId)
    requires Registered(c) && P.Base(c.reg, s.outbox) && P.Enabled(c.reg, s.outbox, b) && b.Commit?
    requires Covering(s, id, s.outbox.workers[b.w].id)
    ensures var row := P.Apply(c.reg, s.outbox, b).rows[s.outbox.workers[b.w].id];
            && row.eventType == TLE_REFRESHED && row.payload.satelliteId == id
            && row.status != PROCESSED && !Ok(row, RECOMPUTE)
  {
    var me := s.outbox.workers[b.w];
    var names := Handlers(c.reg, TLE_REFRESHED);
    assert P.LockOk(c.reg, s.outbox, b.w);
    var i :| 0 <= i < |names| && names[i] == RECOMPUTE;
    assert ResultFits(me.results[i], names[i], Completed(me.locked.handlerState));
    assert !me.results[i].success;
    MergedOk(me.locked, me.results, names, b.at, i);
  }

  /** An event stops covering only when its own attempt succeeds in recomputing, or when an
      ingest publishes a newer one. */
  lemma CoverKept(c: Config, s: State, a: Action, id: SatId, e: EventId)
    requires Registered(c) && P.Base(c.reg, s.outbox) && Enabled(c, s, a)
    requires Covering(s, id, e)
    requires a.Store? && a.error.None? ==> s.outbox.workers[a.w].id != e
    requires a.IngestCommit? ==> id !in IngestAll(c.reader, s.satellites, a.records).value.1
    ensures Covering(Apply(c, s, a), id, e)
  {
    var s', b := Apply(c, s, a), OutboxStep(c, s, a);
    if a.IngestCommit? { WrittenRows(c.reader, s.satellites, a.records); }
    if b.Some? {
      OutboxCoverKept(c, s, b.value, id, e);
      assert forall w :: w in s'.outbox.workers && s'.outbox.workers[w].Handling? ==>
        Done(s', w) == Done(s.(outbox := s'.outbox), w);
    }
  }

  lemma NewestKept(c: Config, s: State, b: P.Action, id: SatId, e: EventId)
    requires P.Base(c.reg, s.outbox) && P.Enabled(c.reg, s.outbox, b) && Newest(s, id, e)
    requires b.Publish? ==> forall i :: 0 <= i < |b.added| ==> !IsRefresh(b.added[i], id)
    ensures Newest(s.(outbox := P.Apply(c.reg, s.outbox, b)), id, e)
  {
    var rows := P.Apply(c.reg, s.outbox, b).rows;
    if b.Commit? { assert P.LockOk(c.reg, s.outbox, b.w); }
    forall k | e <= k < |rows|
      ensures IsRefresh(rows[k], id) == (k < |s.outbox.rows| && IsRefresh(s.outbox.rows[k], id))
    {
      if b.Publish? && k >= |s.outbox.rows| {
        assert rows[k] == b.added[k - |s.outbox.rows|];
      }
    }
  }

  lemma OutboxCoverKept(c: Config, s: State, b: P.Action, id: SatId, e: EventId)
    requires Registered(c) && P.Base(c.reg, s.outbox) && P.Enabled(c.reg, s.outbox, b)
    requires Covering(s, id, e)
    requires b.Invoke? && s.outbox.workers[b.w].id == e && AtRecompute(c, s, b.w) ==> b.error.Some?
    requires b.Publish? ==> forall i :: 0 <= i < |b.added| ==> !IsRefresh(b.added[i], id)
    ensures Covering(s.(outbox := P.Apply(c.reg, s.outbox, b)), id, e)
  {
    var s' := s.(outbox := P.Apply(c.reg, s.outbox, b));
    if !b.Tick? && !b.Publish? && s.outbox.workers[b.w].Handling? {
      assert P.LockOk(c.reg, s.outbox, b.w);
      if b.Commit? && s.outbox.workers[b.w].id == e {
        CommitKeepsCover(c, s, b, id);
      }
    }
    NewestKept(c, s, b, id, e);
    forall w | w in s'.outbox.workers && s'.outbox.workers[w].Handling? && s'.outbox.workers[w].id == e
      ensures !Done(s', w)
    {
      if s.outbox.workers[w].Handling? {
        assert !Done(s, w);
        assert P.LockOk(c.reg, s.outbox, w);
      }
    }
  }

  lemma {:induction false} WrittenOrSame(reader: Reader, sats: seq<Satellite>, records: seq<TleRecord>, id: SatId)
    requires IngestAll(reader, sats, records).Some?
    requires id < |IngestAll(reader, sats, records).value.0|
    ensures var (sats', written) := IngestAll(reader, sats, records).value;
            id in written || (id < |sats| && sats'[id] == sats[id])
  {
    if records != [] {
      var n := |records| - 1;
      var (mid, before) := IngestAll(reader, sats, records[..n]).value;
      if id < |mid| {
        WrittenOrSame(reader, sats, records[..n], id);
      }
    }
  }

  lemma AddedFor(c: Config, s: State, records: seq<TleRecord>, begun: Time, id: SatId) returns (i: nat)
    requires IngestAll(c.reader, s.satellites, records).Some?
    requires id in IngestAll(c.reader, s.satellites, records).value.1
    ensures i < |Added(c, s, records, begun)|
    ensures var added := Added(c, s, records, begun);
            && IsRefresh(added[i], id) && added[i].status == PENDING && added[i].handlerState == map[]
            && forall k :: i < k < |added| ==> !IsRefresh(added[k], id)
  {
    i := LastOf(IngestAll(c.reader, s.satellites, records).value.1, id);
  }

  lemma {:induction false} LastOf(written: seq<SatId>, id: SatId) returns (i: nat)
    requires id in written
    ensures i < |written| && written[i] == id && forall k :: i < k < |written| ==> written[k] != id
  {
    i := |written| - 1;
    if written[i] != id {
      assert written == written[..i] + [written[i]];
      i := LastOf(written[..i], id);
    }
  }

  lemma IngestAppends(c: Config, s: State, a: Action)
    requires Enabled(c, s, a) && a.IngestCommit?
    ensures var s' := Apply(c, s, a);
            && s'.outbox.rows == s.outbox.rows + Added(c, s, a.records, a.begun)
            && s'.outbox.workers == s.outbox.workers
  {
  }

  /** Every satellite that an ingest writes gets an event of its own in the same commit. */
  lemma IngestCovers(c: Config, s: State, a: Action, id: SatId)
    requires P.Base(c.reg, s.outbox) && Enabled(c, s, a) && a.IngestCommit?
    requires id in IngestAll(c.reader, s.satellites, a.records).value.1
    ensures exists e: EventId :: e >= |s.outbox.rows| && Covering(Apply(c, s, a), id, e)
  {
    IngestAppends(c, s, a);
    var i := AddedFor(c, s, a.records, a.begun, id);
    var e: EventId := |s.outbox.rows| + i;
    var added := Added(c, s, a.records, a.begun);
    assert forall k :: e <= k < |s.outbox.rows + added| ==> (s.outbox.rows + added)[k] == added[k - |s.outbox.rows|];
    forall w | w in s.outbox.workers && s.outbox.workers[w].Handling? ensures s.outbox.workers[w].id != e {
      assert P.LockOk(c.reg, s.outbox, w);
    }
    assert Covering(Apply(c, s, a), id, e);
  }

  predicate Refers(e: Event, sats: nat) {
    e.eventType == TLE_REFRESHED ==> e.payload.satelliteId < sats
  }

  lemma ReferencesThroughIngest(c: Config, s: State, a: Action)
    requires References(s) && Enabled(c, s, a) && a.IngestCommit?
    ensures References(Apply(c, s, a))
  {
    var s' := Apply(c, s, a);
    WrittenRows(c.reader, s.satellites, a.records);
    var added := Added(c, s, a.records, a.begun);
    forall e | 0 <= e < |s'.outbox.rows| ensures Refers(s'.outbox.rows[e], |s'.satellites|) {
      assert s'.outbox.rows[e] == if e < |s.outbox.rows| then s.outbox.rows[e] else added[e - |s.outbox.rows|];
    }
  }

  lemma ReferencesThroughOutbox(c: Config, s: State, a: Action)
    requires Inv(c, s) && Enabled(c, s, a) && a.Other?
    ensures References(Apply(c, s, a))
  {
    var s', b := Apply(c, s, a), a.a;
    if b.Commit? { assert P.LockOk(c.reg, s.outbox, b.w); }
    forall e | 0 <= e < |s'.outbox.rows| ensures Refers(s'.outbox.rows[e], |s'.satellites|) {
      if e < |s.outbox.rows| { assert Refers(s.outbox.rows[e], |s.satellites|); }
    }
  }

  lemma ReferencesThroughStore(c: Config, s: State, a: Action)
    requires References(s) && Enabled(c, s, a) && a.Store?
    ensures References(Apply(c, s, a))
  {
    var s' := Apply(c, s, a);
    assert s'.outbox.rows == s.outbox.rows && s'.satellites == s.satellites && s'.stations == s.stations;
  }

  lemma ReferencesStep(c: Config, s: State, a: Action)
    requires Inv(c, s) && Enabled(c, s, a)
    ensures References(Apply(c, s, a))
  {
    if a.IngestCommit? {
      ReferencesThroughIngest(c, s, a);
    } else if a.Other? {
      ReferencesThroughOutbox(c, s, a);
    } else if a.Store? {
      ReferencesThroughStore(c, s, a);
    }
  }

  /** What a recompute stores are the passes of the TLE that its session loaded, if it loaded
      the same one for every station. */
  lemma StoreStores(c: Config, s: State, a: Action, satellite: Satellite)
    requires Enabled(c, s, a) && a.Store? && AllPresent(s.sessions[a.w].loaded, satellite)
    ensures var s', id := Apply(c, s, a), SatelliteOf(s, a.w);
            && id in s'.listed && s'.listed[id] <= |s'.stations|
            && StoredFrom(c, s', id, satellite, s.sessions[a.w].now)
  {
    var s', id, session := Apply(c, s, a), SatelliteOf(s, a.w), s.sessions[a.w];
    forall k: Key | k.satellite == id && k.station < session.count
      ensures var rows := RowsFor(id, k.station, PassesOver(c.find, satellite, s.stations[k.station], session.now));
              (k in s'.predictions <==> k in rows) && (k in rows ==> s'.predictions[k] == rows[k])
    {
      RecomputedRow(c.find, s.predictions, id, session.loaded, s.stations, InOrder(session.count), session.now, k);
      assert InOrder(session.count)[k.station] == k.station;
    }
  }

  /** Other satellites' rows are as fresh as before. */
  lemma FreshKept(c: Config, s: State, a: Action, id: SatId)
    requires Enabled(c, s, a)
    requires id < |s.satellites| && Fresh(c, s, id)
    requires id < |Apply(c, s, a).satellites| && Apply(c, s, a).satellites[id] == s.satellites[id]
    requires a.Store? ==> SatelliteOf(s, a.w) != id
    ensures Fresh(c, Apply(c, s, a), id)
  {
    var s' := Apply(c, s, a);
    var now :| StoredFrom(c, s, id, s.satellites[id], now);
    assert s'.listed[id] == s.listed[id] && |s.stations| <= |s'.stations|;
    forall k: Key | k.satellite == id && k.station < s.listed[id]
      ensures s'.stations[k.station] == s.stations[k.station]
      ensures (k in s'.predictions <==> k in s.predictions)
           && (k in s.predictions ==> s'.predictions[k] == s.predictions[k])
    {
      if a.Store? {
        var session := s.sessions[a.w];
        RecomputedRow(c.find, s.predictions, SatelliteOf(s, a.w), session.loaded, s.stations,
                      InOrder(session.count), session.now, k);
      }
    }
    assert StoredFrom(c, s', id, s'.satellites[id], now);
  }

  /** A recompute from nothing but the present row makes the satellite fresh; otherwise the event of the
      ingest that overtook it still covers. */
  lemma CoveredByStore(c: Config, s: State, a: Action)
    requires Registered(c) && Inv(c, s) && Enabled(c, s, a) && a.Store?
    requires SatelliteOf(s, a.w) < |s.satellites|
    ensures Covered(c, Apply(c, s, a), SatelliteOf(s, a.w))
  {
    var id := SatelliteOf(s, a.w);
    assert SessionOk(c, s, a.w);
    if AllPresent(s.sessions[a.w].loaded, s.satellites[id]) {
      StoreStores(c, s, a, s.satellites[id]);
    } else {
      var e: EventId :| e != s.outbox.workers[a.w].id && Covering(s, id, e);
      CoverKept(c, s, a, id, e);
    }
  }

  lemma CoveredThrough(c: Config, s: State, a: Action, id: SatId)
    requires Registered(c) && Inv(c, s) && Enabled(c, s, a)
    requires id < |s.satellites| && id < |Apply(c, s, a).satellites|
    requires Apply(c, s, a).satellites[id] == s.satellites[id]
    requires a.Store? ==> SatelliteOf(s, a.w) != id
    requires a.IngestCommit? ==> id !in IngestAll(c.reader, s.satellites, a.records).value.1
    ensures Covered(c, Apply(c, s, a), id)
  {
    assert Covered(c, s, id);
    if Fresh(c, s, id) {
      FreshKept(c, s, a, id);
    } else {
      var e: EventId :| Covering(s, id, e);
      assert a.Store? ==> P.LockOk(c.reg, s.outbox, a.w);
      CoverKept(c, s, a, id, e);
    }
  }

  lemma CoveredStep(c: Config, s: State, a: Action, id: SatId)
    requires Registered(c) && Inv(c, s) && Enabled(c, s, a)
    requires id < |Apply(c, s, a).satellites|
    ensures Covered(c, Apply(c, s, a), id)
  {
    if a.IngestCommit? && id in IngestAll(c.reader, s.satellites, a.records).value.1 {
      IngestCovers(c, s, a, id);
    } else {
      if a.IngestCommit? { WrittenOrSame(c.reader, s.satellites, a.records, id); }
      if a.Store? && SatelliteOf(s, a.w) == id {
        CoveredByStore(c, s, a);
      } else {
        CoveredThrough(c, s, a, id);
      }
    }
  }

  lemma SessionThroughIngest(c: Config, s: State, a: Action, w: P.WorkerId)
    requires Registered(c) && Inv(c, s) && Enabled(c, s, a) && a.IngestCommit?
    requires w in s.sessions
    ensures SessionOk(c, Apply(c, s, a), w)
  {
    var s', id := Apply(c, s, a), SatelliteOf(s, w);
    assert SessionOk(c, s, w) && P.LockOk(c.reg, s.outbox, w);
    WrittenRows(c.reader, s.satellites, a.records);
    if id in IngestAll(c.reader, s.satellites, a.records).value.1 {
      IngestCovers(c, s, a, id);
    } else {
      WrittenOrSame(c.reader, s.satellites, a.records, id);
      if !AllPresent(s.sessions[w].loaded, s.satellites[id]) {
        var e: EventId :| e != s.outbox.workers[w].id && Covering(s, id, e);
        CoverKept(c, s, a, id, e);
      }
    }
  }

  lemma OtherSessionsKept(c: Config, s: State, a: Action, w: P.WorkerId)
    requires Enabled(c, s, a) && !a.IngestCommit?
    requires w in s.sessions && AtRecompute(c, s, w) && w in Apply(c, s, a).sessions
    ensures var s' := Apply(c, s, a);
            && w in s'.outbox.workers && s'.outbox.workers[w] == s.outbox.workers[w]
            && s'.satellites == s.satellites && AtRecompute(c, s', w)
            && (a.Store? ==> a.w != w)
            && (s'.sessions[w] == s.sessions[w]
                || (SatelliteOf(s, w) < |s.satellites|
                    && s'.sessions[w].loaded == s.sessions[w].loaded + [s.satellites[SatelliteOf(s, w)]]))
  {
  }

  lemma SessionThroughOthers(c: Config, s: State, a: Action, w: P.WorkerId)
    requires Registered(c) && Inv(c, s) && Serial(s) && Enabled(c, s, a) && !a.IngestCommit?
    requires w in s.sessions && w in Apply(c, s, a).sessions
    ensures SessionOk(c, Apply(c, s, a), w)
  {
    assert SessionOk(c, s, w);
    OtherSessionsKept(c, s, a, w);
    var id := SatelliteOf(s, w);
    if !AllPresent(s.sessions[w].loaded, s.satellites[id]) {
      var e: EventId :| e != s.outbox.workers[w].id && Covering(s, id, e);
      OtherCoverKept(c, s, a, w, e);
    }
  }

  /** No other worker may recompute the satellite of a session in the meantime. */
  lemma OtherCoverKept(c: Config, s: State, a: Action, w: P.WorkerId, e: EventId)
    requires Registered(c) && P.Base(c.reg, s.outbox) && Serial(s) && Enabled(c, s, a) && !a.IngestCommit?
    requires AtRecompute(c, s, w) && (a.Store? ==> a.w != w) && Covering(s, SatelliteOf(s, w), e)
    ensures Covering(Apply(c, s, a), SatelliteOf(s, w), e)
  {
    if a.Store? {
      assert Refreshing(s, a.w) && Refreshing(s, w);
      assert P.LockOk(c.reg, s.outbox, a.w);
    }
    CoverKept(c, s, a, SatelliteOf(s, w), e);
  }

  lemma SessionOpens(c: Config, s: State, a: Action)
    requires Inv(c, s) && Enabled(c, s, a) && a.Open?
    ensures SessionOk(c, Apply(c, s, a), a.w)
  {
    assert P.LockOk(c.reg, s.outbox, a.w);
    assert Refers(s.outbox.rows[s.outbox.workers[a.w].id], |s.satellites|);
  }

  lemma SessionStep(c: Config, s: State, a: Action, w: P.WorkerId)
    requires Registered(c) && Inv(c, s) && Serial(s) && Enabled(c, s, a)
    requires w in Apply(c, s, a).sessions
    ensures SessionOk(c, Apply(c, s, a), w)
  {
    if a.IngestCommit? {
      SessionThroughIngest(c, s, a, w);
    } else if w in s.sessions {
      SessionThroughOthers(c, s, a, w);
    } else {
      SessionOpens(c, s, a);
    }
  }

  lemma {:induction false} RunKeepsInv(c: Config, s: State, run: seq<Action>)
    requires Registered(c) && Inv(c, s) && CanRun(c, s, run) && AlwaysSerial(c, s, run)
    ensures Inv(c, After(c, s, run))
    decreases |run|
  {
    if run != [] {
      var s' := Apply(c, s, run[0]);
      BaseStep(c, s, run[0]);
      ReferencesStep(c, s, run[0]);
      forall w | w in s'.sessions ensures SessionOk(c, s', w) {
        SessionStep(c, s, run[0], w);
      }
      forall id | 0 <= id < |s'.satellites| ensures Covered(c, s', id) {
        CoveredStep(c, s, run[0], id);
      }
      RunKeepsInv(c, s', run[1..]);
    }
  }

  // The results.

  /** The newest refresh event of the satellite is not PROCESSED. */
  ghost predicate Outstanding(s: State, id: SatId) {
    exists e: EventId :: Newest(s, id, e) && s.outbox.rows[e].status != PROCESSED
  }

  /** Whatever the interleaving of ingests, attempts, crashes, timeouts and retries, as long as
      no two workers refresh the same satellite at once: every stored satellite has predictions
      computed from its present TLE, for every station that its last recompute listed, or the
      newest refresh event of it is not PROCESSED. */
  lemma NoSilentStaleness(c: Config, s0: State, run: seq<Action>, id: SatId)
    requires Registered(c)
    requires Init(s0) && CanRun(c, s0, run) && AlwaysSerial(c, s0, run)
    requires id < |After(c, s0, run).satellites|
    ensures Fresh(c, After(c, s0, run), id) || Outstanding(After(c, s0, run), id)
  {
    RunKeepsInv(c, s0, run);
    var s := After(c, s0, run);
    assert Covered(c, s, id);
    if !Fresh(c, s, id) {
      var e: EventId :| Covering(s, id, e);
      assert s.outbox.rows[e].status != PROCESSED;
    }
  }

  lemma WorkersKept(c: Config, s: State, a: Action)
    requires Enabled(c, s, a)
    ensures Apply(c, s, a).outbox.workers.Keys == s.outbox.workers.Keys
  {
  }

  lemma {:induction false} OneWorkerIsSerial(c: Config, s: State, run: seq<Action>)
    requires CanRun(c, s, run) && |s.outbox.workers.Keys| <= 1
    ensures AlwaysSerial(c, s, run)
    decreases |run|
  {
    forall v, w | v in s.outbox.workers && w in s.outbox.workers ensures v == w {
      if v != w {
        SubsetCount({v, w}, s.outbox.workers.Keys);
      }
    }
    if run != [] {
      WorkersKept(c, s, run[0]);
      OneWorkerIsSerial(c, Apply(c, s, run[0]), run[1..]);
    }
  }

  /** In particular with a single outbox worker, whatever the run. */
  lemma NoSilentStalenessWithOneWorker(c: Config, s0: State, run: seq<Action>, id: SatId)
    requires Registered(c)
    requires Init(s0) && |s0.outbox.workers.Keys| <= 1 && CanRun(c, s0, run)
    requires id < |After(c, s0, run).satellites|
    ensures Fresh(c, After(c, s0, run), id) || Outstanding(After(c, s0, run), id)
  {
    OneWorkerIsSerial(c, s0, run);
    NoSilentStaleness(c, s0, run, id);
  }
}
