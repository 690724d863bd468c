/** The recomputation of a satellite's predictions over all ground stations. */
module Predictions {
  import opened Wrappers
  import opened Passes
  import Ingest

  type StationId = nat

  const HORIZON: int := 48 * 3600 * SECOND

  datatype Station = Station(name: string, latitude: real, longitude: real, altitude: real)

  /** The unique constraint of the table: satellite, station and time of rise. */
  datatype Key = Key(satellite: Ingest.SatId, station: StationId, aosAt: Time)

  type Table = map<Key, Pass>

  /** What the orbit library finds for a satellite over a station in a window. */
  type Finder = (Ingest.Satellite, Station, Time, Time) -> seq<OrbitEvent>

  datatype RecomputeError = NotFound | IntegrityError

  function PairOf(k: Key): (Ingest.SatId, StationId) { (k.satellite, k.station) }

  /** The rows that store these passes. */
  function RowsFor(satellite: Ingest.SatId, station: StationId, passes: seq<Pass>): Table {
    if passes == [] then map[]
    else
      var n := |passes| - 1;
      RowsFor(satellite, station, passes[..n])[Key(satellite, station, passes[n].aosAt) := passes[n]]
  }

  /** The table without the rows of one satellite over one station. */
  function Without(rows: Table, satellite: Ingest.SatId, station: StationId): Table {
    map k | k in rows && PairOf(k) != (satellite, station) :: rows[k]
  }

  function Replaced(rows: Table, satellite: Ingest.SatId, station: StationId, passes: seq<Pass>): Table {
    Without(rows, satellite, station) + RowsFor(satellite, station, passes)
  }

  /** The passes of a satellite over a station, as `compute_passes` returns them. */
  ghost function PassesOver(find: Finder, satellite: Ingest.Satellite, station: Station, now: Time): seq<Pass> {
    PassList(find(satellite, station, now, now + HORIZON))
  }

  /** The stations can be recomputed in that order: each of them is listed, and for each the
      satellite's row has been selected. (Every station has a select of its own, which sees what
      is committed by then, so `loaded[s]` is the row that was found for station `s`.) */
  predicate InRange(loaded: seq<Ingest.Satellite>, stations: seq<Station>, order: seq<StationId>) {
    forall i :: 0 <= i < |order| ==> order[i] < |loaded| && order[i] < |stations|
  }

  /** The table after recomputing satellite `id` over the given stations, in that order. */
  ghost function Recomputed(
    find: Finder, rows: Table, id: Ingest.SatId, loaded: seq<Ingest.Satellite>,
    stations: seq<Station>, order: seq<StationId>, now: Time): Table
    requires InRange(loaded, stations, order)
  {
    if order == [] then rows
    else
      var n := |order| - 1;
      Replaced(Recomputed(find, rows, id, loaded, stations, order[..n], now),
               id, order[n], PassesOver(find, loaded[order[n]], stations[order[n]], now))
  }

  /** The row of the satellite, for each of `n` stations. */
  function Same(satellite: Ingest.Satellite, n: nat): seq<Ingest.Satellite> {
    seq(n, i requires 0 <= i < n => satellite)
  }

  predicate DistinctRises(passes: seq<Pass>) {
    forall m, n :: 0 <= m < n < |passes| ==> passes[m].aosAt != passes[n].aosAt
  }

  // The imperative form.

  /** The predictions as the handler's session sees them. */
  class PredictionRepo {
    var rows: Table

    constructor (rows: Table)
      ensures this.rows == rows
    {
      this.rows := rows;
    }

    method DeleteForSatelliteAndStation(satellite: Ingest.SatId, station: StationId)
      modifies this
      ensures forall k :: k in rows <==> k in old(rows) && !(k.satellite == satellite && k.station == station)
      ensures forall k :: k in rows ==> rows[k] == old(rows)[k]
    {
      rows := Without(rows, satellite, station);
    }

    /** An insert, which the unique constraint may refuse. */
    method Create(satellite: Ingest.SatId, station: StationId, pass: Pass) returns (ok: bool)
      modifies this
      ensures ok <==> Key(satellite, station, pass.aosAt) !in old(rows)
      ensures rows == if ok then old(rows)[Key(satellite, station, pass.aosAt) := pass] else old(rows)
    {
      var key := Key(satellite, station, pass.aosAt);
      ok := key !in rows;
      if ok {
        rows := rows[key := pass];
      }
    }

    /** `list_for_ground_station`: the station's rows from an instant on, each once, in the
        order of their rise. Rows of different satellites may rise together, in any order. */
    method ListForGroundStation(station: StationId, after: Time) returns (keys: seq<Key>)
      ensures forall k :: k in keys <==> k in rows && k.station == station && after <= k.aosAt
      ensures forall m, n :: 0 <= m < n < |keys| ==> keys[m].aosAt <= keys[n].aosAt && keys[m] != keys[n]
    {
      keys := [];
      var rest := set k | k in rows && k.station == station && after <= k.aosAt;
      while rest != {}
        invariant forall k :: k in keys || k in rest <==> k in rows && k.station == station && after <= k.aosAt
        invariant forall k :: k in keys ==> k !in rest && forall r :: r in rest ==> k.aosAt <= r.aosAt
        invariant forall m, n :: 0 <= m < n < |keys| ==> keys[m].aosAt <= keys[n].aosAt && keys[m] != keys[n]
        decreases |rest|
      {
        ghost var first := FirstRise(rest);
        var next :| next in rest && forall r :: r in rest ==> next.aosAt <= r.aosAt;
        keys, rest := keys + [next], rest - {next};
      }
    }
  }

  lemma {:induction false} FirstRise(keys: set<Key>) returns (first: Key)
    requires keys != {}
    ensures first in keys && forall k :: k in keys ==> first.aosAt <= k.aosAt
    decreases |keys|
  {
    first :| first in keys;
    var rest := keys - {first};
    if rest != {} {
      var next := FirstRise(rest);
      first := if next.aosAt < first.aosAt then next else first;
    }
  }

  lemma {:induction false} RowsForKeys(satellite: Ingest.SatId, station: StationId, passes: seq<Pass>, k: Key)
    ensures k in RowsFor(satellite, station, passes) <==>
      PairOf(k) == (satellite, station) && exists n :: 0 <= n < |passes| && passes[n].aosAt == k.aosAt
    ensures k in RowsFor(satellite, station, passes) ==> RowsFor(satellite, station, passes)[k].aosAt == k.aosAt
  {
    if passes != [] {
      var n := |passes| - 1;
      RowsForKeys(satellite, station, passes[..n], k);
      if m :| 0 <= m < n && passes[m].aosAt == k.aosAt {
        assert passes[..n][m].aosAt == k.aosAt;
      }
    }
  }

  /** With different rises, every pass is stored, whole, under its own key. */
  lemma {:induction false} RowsForHolds(satellite: Ingest.SatId, station: StationId, passes: seq<Pass>, n: nat)
    requires DistinctRises(passes) && n < |passes|
    ensures Key(satellite, station, passes[n].aosAt) in RowsFor(satellite, station, passes)
    ensures RowsFor(satellite, station, passes)[Key(satellite, station, passes[n].aosAt)] == passes[n]
  {
    if n < |passes| - 1 { RowsForHolds(satellite, station, passes[..|passes| - 1], n); }
  }

  /** The rows of the pair are exactly these passes, and all other rows are those of `before`. */
  ghost predicate Stores(before: Table, after: Table, id: Ingest.SatId, station: StationId, passes: seq<Pass>) {
    && (forall n :: 0 <= n < |passes| ==>
          Key(id, station, passes[n].aosAt) in after && after[Key(id, station, passes[n].aosAt)] == passes[n])
    && (forall k :: k in after && k.satellite == id && k.station == station ==>
          exists n :: 0 <= n < |passes| && passes[n].aosAt == k.aosAt)
    && (forall k: Key :: !(k.satellite == id && k.station == station) ==>
          (k in after <==> k in before) && (k in before ==> after[k] == before[k]))
  }

  lemma ReplacedStores(before: Table, id: Ingest.SatId, station: StationId, passes: seq<Pass>)
    requires DistinctRises(passes)
    ensures Stores(before, Replaced(before, id, station, passes), id, station, passes)
  {
    forall n | 0 <= n < |passes|
      ensures var k := Key(id, station, passes[n].aosAt);
              k in Replaced(before, id, station, passes) && Replaced(before, id, station, passes)[k] == passes[n]
    {
      RowsForHolds(id, station, passes, n);
    }
    forall k: Key
      ensures k in RowsFor(id, station, passes) ==>
        k.satellite == id && k.station == station && exists n :: 0 <= n < |passes| && passes[n].aosAt == k.aosAt
    {
      RowsForKeys(id, station, passes, k);
    }
  }

  /** The window of a recompute is the next 48 hours, in microseconds. */
  lemma WindowIs48Hours(find: Finder, satellite: Ingest.Satellite, station: Station, now: Time)
    ensures PassesOver(find, satellite, station, now)
         == PassList(find(satellite, station, now, now + 172_800_000_000))
  {
  }

  /** The insert loop of `ComputePassesUseCase.execute`, on a table without rows of the pair. */
  method Insert(repo: PredictionRepo, id: Ingest.SatId, station: StationId, predicted: seq<Pass>) returns (ok: bool)
    requires forall k :: k in repo.rows ==> PairOf(k) != (id, station)
    modifies repo
    ensures ok <==> DistinctRises(predicted)
    ensures ok ==> repo.rows == old(repo.rows) + RowsFor(id, station, predicted)
  {
    ghost var kept := repo.rows;
    for n := 0 to |predicted|
      invariant repo.rows == kept + RowsFor(id, station, predicted[..n])
      invariant DistinctRises(predicted[..n])
    {
      assert predicted[..n + 1][..n] == predicted[..n];
      var key := Key(id, station, predicted[n].aosAt);
      RowsForKeys(id, station, predicted[..n], key);
      ok := repo.Create(id, station, predicted[n]);
      if !ok {
        ghost var m :| 0 <= m < n && predicted[..n][m].aosAt == key.aosAt;
        assert predicted[m].aosAt == predicted[n].aosAt;
        return;
      }
      assert repo.rows == kept + RowsFor(id, station, predicted[..n + 1]);
    }
    assert predicted[..|predicted|] == predicted;
    ok := true;
  }

  /** `ComputePassesUseCase.execute`: replaces the rows of the pair, and only those. It fails if
      the satellite or station is unknown, or if two passes were to share their rise. */
  method Execute(
    find: Finder, sats: seq<Ingest.Satellite>, stations: seq<Station>, repo: PredictionRepo,
    id: Ingest.SatId, station: StationId, now: Time)
    returns (r: Result<nat, RecomputeError>)
    modifies repo
    ensures r == Failure(NotFound) <==> id >= |sats| || station >= |stations|
    ensures r == Failure(NotFound) ==> repo.rows == old(repo.rows)
    ensures id < |sats| && station < |stations| ==>
      var passes := PassesOver(find, sats[id], stations[station], now);
      && (r.Success? <==> DistinctRises(passes))
      && (r.Success? ==> r.value == |passes| && repo.rows == Replaced(old(repo.rows), id, station, passes))
      && (r.Success? ==> Stores(old(repo.rows), repo.rows, id, station, passes))
  {
    if id >= |sats| || station >= |stations| {
      return Failure(NotFound);
    }
    var predicted := FindPasses(find(sats[id], stations[station], now, now + HORIZON));
    repo.DeleteForSatelliteAndStation(id, station);
    assert repo.rows == Without(old(repo.rows), id, station);
    var ok := Insert(repo, id, station, predicted);
    if ok { ReplacedStores(old(repo.rows), id, station, predicted); }
    r := if ok then Success(|predicted|) else Failure(IntegrityError);
  }

  /** The passes of none of the first `n` stations violate the unique constraint. */
  ghost predicate AllDistinct(
    find: Finder, loaded: seq<Ingest.Satellite>, stations: seq<Station>, n: nat, now: Time)
    requires n <= |loaded| && n <= |stations|
  {
    forall s :: 0 <= s < n ==> DistinctRises(PassesOver(find, loaded[s], stations[s], now))
  }

  lemma DistinctNext(find: Finder, loaded: seq<Ingest.Satellite>, stations: seq<Station>, n: nat, now: Time)
    requires n < |loaded| && n < |stations|
    ensures AllDistinct(find, loaded, stations, n + 1, now)
       <==> AllDistinct(find, loaded, stations, n, now)
            && DistinctRises(PassesOver(find, loaded[n], stations[n], now))
  {
  }

  lemma RecomputedNext(
    find: Finder, rows: Table, id: Ingest.SatId, loaded: seq<Ingest.Satellite>,
    stations: seq<Station>, s: StationId, now: Time)
    requires s < |loaded| && s < |stations|
    ensures Recomputed(find, rows, id, loaded, stations, InOrder(s + 1), now)
         == Replaced(Recomputed(find, rows, id, loaded, stations, InOrder(s), now),
                     id, s, PassesOver(find, loaded[s], stations[s], now))
  {
    assert InOrder(s + 1)[..s] == InOrder(s);
  }

  /** What the session sees once the first `n` stations are done. */
  ghost predicate DoneSoFar(
    find: Finder, rows: Table, seen: Table, sats: seq<Ingest.Satellite>, id: Ingest.SatId,
    stations: seq<Station>, n: nat, now: Time)
    requires n <= |stations|
  {
    if n == 0 then seen == rows
    else
      && id < |sats|
      && AllDistinct(find, Same(sats[id], |stations|), stations, n, now)
      && seen == Recomputed(find, rows, id, Same(sats[id], |stations|), stations, InOrder(n), now)
  }

  /** One station more. */
  lemma DoneNext(
    find: Finder, rows: Table, seen: Table, sats: seq<Ingest.Satellite>, id: Ingest.SatId,
    stations: seq<Station>, n: nat, now: Time)
    requires n < |stations| && id < |sats| && DoneSoFar(find, rows, seen, sats, id, stations, n, now)
    requires DistinctRises(PassesOver(find, sats[id], stations[n], now))
    ensures var passes := PassesOver(find, sats[id], stations[n], now);
            DoneSoFar(find, rows, Replaced(seen, id, n, passes), sats, id, stations, n + 1, now)
  {
    var loaded := Same(sats[id], |stations|);
    DistinctNext(find, loaded, stations, n, now);
    RecomputedNext(find, rows, id, loaded, stations, n, now);
  }

  /** A station that fails, fails the whole. */
  lemma NotAllDistinct(find: Finder, satellite: Ingest.Satellite, stations: seq<Station>, n: nat, now: Time)
    requires n < |stations| && !DistinctRises(PassesOver(find, satellite, stations[n], now))
    ensures !AllDistinct(find, Same(satellite, |stations|), stations, |stations|, now)
  {
    assert Same(satellite, |stations|)[n] == satellite;
  }

  /** `recompute_passes` with nobody else writing: all stations in one transaction. The committed
      table changes only if every one of them succeeds; with no station at all, an unknown
      satellite goes unnoticed. */
  method RecomputePasses(
    find: Finder, sats: seq<Ingest.Satellite>, stations: seq<Station>, committed: PredictionRepo,
    id: Ingest.SatId, now: Time)
    returns (r: Result<(), RecomputeError>)
    modifies committed
    ensures r.Success? <==>
      stations == []
      || (id < |sats| && AllDistinct(find, Same(sats[id], |stations|), stations, |stations|, now))
    ensures r.Failure? || stations == [] ==> committed.rows == old(committed.rows)
    ensures r.Success? && stations != [] ==>
      committed.rows
      == Recomputed(find, old(committed.rows), id, Same(sats[id], |stations|), stations, InOrder(|stations|), now)
  {
    var session := new PredictionRepo(committed.rows);
    for s := 0 to |stations|
      invariant committed.rows == old(committed.rows)
      invariant DoneSoFar(find, committed.rows, session.rows, sats, id, stations, s, now)
    {
      ghost var seen := session.rows;
      var count := Execute(find, sats, stations, session, id, s, now);
      if count.Failure? {
        if id < |sats| { NotAllDistinct(find, sats[id], stations, s, now); }
        return Failure(count.error);
      }
      DoneNext(find, committed.rows, seen, sats, id, stations, s, now);
    }
    committed.rows := session.rows;
    r := Success(());
  }

  function InOrder(n: nat): seq<StationId> {
    seq(n, i requires 0 <= i < n => i)
  }

  // What a recomputation means.

  /** Row by row: a pair that was recomputed has exactly the rows of its passes, from the row of
      the satellite that was loaded for it, and every other row of the table is as it was. */
  lemma {:induction false} RecomputedRow(
    find: Finder, rows: Table, id: Ingest.SatId, loaded: seq<Ingest.Satellite>,
    stations: seq<Station>, order: seq<StationId>, now: Time, k: Key)
    requires InRange(loaded, stations, order)
    ensures var after := Recomputed(find, rows, id, loaded, stations, order, now);
            if k.satellite == id && k.station in order
            then
              var rowsOfPair := RowsFor(id, k.station, PassesOver(find, loaded[k.station], stations[k.station], now));
              (k in after <==> k in rowsOfPair) && (k in after ==> after[k] == rowsOfPair[k])
            else
              (k in after <==> k in rows) && (k in after ==> after[k] == rows[k])
  {
    if order != [] {
      var n := |order| - 1;
      RecomputedRow(find, rows, id, loaded, stations, order[..n], now, k);
      RowsForKeys(id, order[n], PassesOver(find, loaded[order[n]], stations[order[n]], now), k);
      assert order == order[..n] + [order[n]];
    }
  }

  /** The order of the stations does not matter, and neither do repetitions. */
  lemma OrderDoesNotMatter(
    find: Finder, rows: Table, id: Ingest.SatId, loaded: seq<Ingest.Satellite>,
    stations: seq<Station>, a: seq<StationId>, b: seq<StationId>, now: Time)
    requires InRange(loaded, stations, a) && InRange(loaded, stations, b)
    requires forall s :: s in a <==> s in b
    ensures Recomputed(find, rows, id, loaded, stations, a, now)
         == Recomputed(find, rows, id, loaded, stations, b, now)
  {
    var after, after' :=
      Recomputed(find, rows, id, loaded, stations, a, now),
      Recomputed(find, rows, id, loaded, stations, b, now);
    forall k ensures (k in after <==> k in after') && (k in after ==> after[k] == after'[k]) {
      RecomputedRow(find, rows, id, loaded, stations, a, now, k);
      RecomputedRow(find, rows, id, loaded, stations, b, now, k);
    }
  }

  /** A retried handler converges: running it twice for the same window, finding the same rows
      of the satellite, is running it once. */
  lemma RecomputeIsIdempotent(
    find: Finder, rows: Table, id: Ingest.SatId, loaded: seq<Ingest.Satellite>,
    stations: seq<Station>, order: seq<StationId>, now: Time)
    requires InRange(loaded, stations, order)
    ensures var once := Recomputed(find, rows, id, loaded, stations, order, now);
            Recomputed(find, once, id, loaded, stations, order, now) == once
  {
    var once := Recomputed(find, rows, id, loaded, stations, order, now);
    var twice := Recomputed(find, once, id, loaded, stations, order, now);
    forall k ensures (k in once <==> k in twice) && (k in once ==> once[k] == twice[k]) {
      RecomputedRow(find, rows, id, loaded, stations, order, now, k);
      RecomputedRow(find, once, id, loaded, stations, order, now, k);
    }
  }

  /** When the library reports events in increasing time, no rise repeats, so the unique
      constraint is never violated and the stored rows are exactly the passes. */
  lemma RisesAreDistinct(find: Finder, satellite: Ingest.Satellite, station: Station, now: Time)
    requires var events := find(satellite, station, now, now + HORIZON);
             forall m, n :: 0 <= m < n < |events| ==> events[m].time < events[n].time
    ensures DistinctRises(PassesOver(find, satellite, station, now))
  {
    PassesAreOrdered(find(satellite, station, now, now + HORIZON));
  }
}
