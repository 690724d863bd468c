/** The TLE refresh: satellites and their events, written in one transaction. */
module Ingest {
  import opened Wrappers
  import opened TleText
  import Outbox

  type SatId = nat

  const TLE_REFRESHED: string := "tle.refreshed"

  /** Rows are only added or updated, so a satellite's id is its index in the table. */
  datatype Satellite = Satellite(noradId: int, name: string, line1: string, line2: string, epoch: Time)

  /** The catalogue number and the epoch that the TLE lines encode, if they can be read. */
  datatype Reader = Reader(noradOf: string -> Option<int>, epochOf: (string, string) -> Option<Time>)

  /** Why fetching or reading the records raised. */
  datatype IngestError = RateLimited | FetchFailed | UnreadableTle

  /** `get_by_norad_id` */
  function Find(sats: seq<Satellite>, norad: int): (r: Option<SatId>)
    ensures r.Some? ==> r.value < |sats| && sats[r.value].noradId == norad
    ensures r.Some? ==> forall j :: 0 <= j < r.value ==> sats[j].noradId != norad
    ensures r.None? ==> forall j :: 0 <= j < |sats| ==> sats[j].noradId != norad
  {
    if sats == [] then None
    else
      var n := |sats| - 1;
      var r := Find(sats[..n], norad);
      if r.Some? then r else if sats[n].noradId == norad then Some(n) else None
  }

  function TleLines(r: TleRecord): (string, string) { (r.line1, r.line2) }

  /** The TLE lines stored for a catalogue number. */
  function Stored(sats: seq<Satellite>, norad: int): Option<(string, string)> {
    match Find(sats, norad)
    case None => None
    case Some(id) => Some((sats[id].line1, sats[id].line2))
  }

  // One transaction, as a function of the table and the records.

  /** The table after one record, and the satellite written, if any; None if reading raises. */
  function IngestOne(reader: Reader, sats: seq<Satellite>, r: TleRecord): Option<(seq<Satellite>, Option<SatId>)> {
    match reader.noradOf(r.line1)
    case None => None
    case Some(norad) =>
      var found := Find(sats, norad);
      if found.Some? && (sats[found.value].line1, sats[found.value].line2) == TleLines(r) then Some((sats, None))
      else
        match reader.epochOf(r.line1, r.line2)
        case None => None
        case Some(epoch) =>
          var row := Satellite(norad, r.name, r.line1, r.line2, epoch);
          if found.Some? then Some((sats[found.value := row], found)) else Some((sats + [row], Some(|sats|)))
  }

  /** The table after all records, and the satellites written, one for each row write. */
  function IngestAll(reader: Reader, sats: seq<Satellite>, records: seq<TleRecord>)
    : Option<(seq<Satellite>, seq<SatId>)>
  {
    if records == [] then Some((sats, []))
    else
      var n := |records| - 1;
      match IngestAll(reader, sats, records[..n])
      case None => None
      case Some((sats', written)) =>
        match IngestOne(reader, sats', records[n])
        case None => None
        case Some((sats'', id)) => Some((sats'', if id.Some? then written + [id.value] else written))
  }

  function EventFor(id: SatId, norad: int, now: Time): Outbox.Event {
    Outbox.Event(
      TLE_REFRESHED, Outbox.Payload(id, norad), Outbox.PENDING, 0, Outbox.MAX_RETRIES, now, None, None, map[])
  }

  function EventsFor(sats: seq<Satellite>, written: seq<SatId>, now: Time): seq<Outbox.Event>
    requires forall i :: 0 <= i < |written| ==> written[i] < |sats|
  {
    seq(|written|, i requires 0 <= i < |written| => EventFor(written[i], sats[written[i]].noradId, now))
  }

  /** Each of these events names its satellite, and starts as the column defaults say. */
  lemma EventsName(sats: seq<Satellite>, written: seq<SatId>, now: Time, i: nat)
    requires forall j :: 0 <= j < |written| ==> written[j] < |sats|
    requires i < |written|
    ensures |EventsFor(sats, written, now)| == |written|
    ensures var e := EventsFor(sats, written, now)[i];
            && e.eventType == "tle.refreshed"
            && e.payload.satelliteId == written[i] && e.payload.noradId == sats[written[i]].noradId
            && e.status == Outbox.PENDING && e.retryCount == 0 && e.maxRetries == 8 && e.scheduledAt == now
            && e.handlerState == map[] && e.lastError == None && e.processedAt == None
  {
  }

  /** What one record does to the table. It is skipped exactly when its satellite is stored with
      these lines; otherwise the whole record is stored, in the satellite's row or a new one. */
  lemma RecordIsStored(reader: Reader, sats: seq<Satellite>, r: TleRecord)
    requires IngestOne(reader, sats, r).Some?
    ensures reader.noradOf(r.line1).Some?
    ensures var norad := reader.noradOf(r.line1).value;
            var (sats', id) := IngestOne(reader, sats, r).value;
            && (id.None? <==> Stored(sats, norad) == Some((r.line1, r.line2)))
            && (id.None? ==> sats' == sats)
            && (id.Some? ==>
                  && id.value < |sats'| && sats'[id.value].noradId == norad
                  && sats'[id.value].name == r.name
                  && sats'[id.value].line1 == r.line1 && sats'[id.value].line2 == r.line2
                  && Some(sats'[id.value].epoch) == reader.epochOf(r.line1, r.line2)
                  && |sats'| == (if Find(sats, norad).Some? then |sats| else |sats| + 1)
                  && forall j :: 0 <= j < |sats| && j != id.value ==> sats'[j] == sats[j])
  {
  }

  // The imperative form.

  class Database {
    var satellites: seq<Satellite>
    var outbox: seq<Outbox.Event>

    constructor (satellites: seq<Satellite>, outbox: seq<Outbox.Event>)
      ensures this.satellites == satellites && this.outbox == outbox
    {
      this.satellites, this.outbox := satellites, outbox;
    }
  }

  /** A transaction: what it sees of the satellites, and the events it has inserted. `begun` is
      the transaction's `now()`, the default of `scheduled_at`. */
  class Session {
    const db: Database
    const begun: Time
    var satellites: seq<Satellite>
    var published: seq<Outbox.Event>

    constructor (db: Database, begun: Time)
      ensures this.db == db && this.begun == begun
      ensures satellites == db.satellites && published == []
    {
      this.db, this.begun, satellites, published := db, begun, db.satellites, [];
    }

    /** `EventBus.publish`: an insert in the caller's transaction, without commit. */
    method Publish(eventType: string, payload: Outbox.Payload)
      modifies this`published
      ensures published == old(published) + [Outbox.Event(
                eventType, payload, Outbox.PENDING, 0, 8, begun, None, None, map[])]
    {
      var event := Outbox.Event(eventType, payload, Outbox.PENDING, 0, Outbox.MAX_RETRIES, begun, None, None, map[]);
      published := published + [event];
    }

    method Commit()
      modifies db
      ensures db.satellites == satellites && db.outbox == old(db.outbox) + published
    {
      db.satellites, db.outbox := satellites, db.outbox + published;
    }
  }

  lemma {:induction false} WrittenRows(reader: Reader, sats: seq<Satellite>, records: seq<TleRecord>)
    requires IngestAll(reader, sats, records).Some?
    ensures var (sats', written) := IngestAll(reader, sats, records).value;
            && |sats| <= |sats'|
            && (forall i :: 0 <= i < |written| ==> written[i] < |sats'|)
            && (forall j :: 0 <= j < |sats| ==> sats'[j].noradId == sats[j].noradId)
  {
    if records != [] {
      WrittenRows(reader, sats, records[..|records| - 1]);
    }
  }

  lemma NoradsKept(reader: Reader, sats: seq<Satellite>, r: TleRecord)
    requires IngestOne(reader, sats, r).Some?
    ensures var (sats', id) := IngestOne(reader, sats, r).value;
            && |sats| <= |sats'|
            && (forall j :: 0 <= j < |sats| ==> sats'[j].noradId == sats[j].noradId)
            && (id.Some? ==> id.value < |sats'| && Some(sats'[id.value].noradId) == reader.noradOf(r.line1))
  {
  }

  lemma {:induction false} IngestPrefix(reader: Reader, sats: seq<Satellite>, records: seq<TleRecord>, n: nat)
    requires n <= |records| && IngestAll(reader, sats, records[..n]).None?
    ensures IngestAll(reader, sats, records).None?
    decreases |records|
  {
    if n < |records| {
      assert records[..|records| - 1][..n] == records[..n];
      IngestPrefix(reader, sats, records[..|records| - 1], n);
    } else {
      assert records[..n] == records;
    }
  }

  lemma IngestNext(reader: Reader, sats: seq<Satellite>, records: seq<TleRecord>, n: nat)
    requires n < |records| && IngestAll(reader, sats, records[..n]).Some?
    ensures var (mid, written) := IngestAll(reader, sats, records[..n]).value;
            match IngestOne(reader, mid, records[n])
            case None => IngestAll(reader, sats, records).None?
            case Some((sats', id)) =>
              IngestAll(reader, sats, records[..n + 1])
              == Some((sats', if id.Some? then written + [id.value] else written))
  {
    assert records[..n + 1][..n] == records[..n];
    if IngestAll(reader, sats, records[..n + 1]).None? {
      IngestPrefix(reader, sats, records, n + 1);
    }
  }

  /** The body of the loop up to the publish: writes the row if the record is news. */
  method Upsert(reader: Reader, session: Session, record: TleRecord) returns (r: Result<Option<SatId>, IngestError>)
    modifies session`satellites
    ensures match IngestOne(reader, old(session.satellites), record)
            case None => r == Failure(UnreadableTle)
            case Some((sats, id)) => r == Success(id) && session.satellites == sats
  {
    var norad := reader.noradOf(record.line1);
    if norad.None? {
      return Failure(UnreadableTle);
    }
    var existing := Find(session.satellites, norad.value);
    if existing.None? {
      var epoch := reader.epochOf(record.line1, record.line2);
      if epoch.None? {
        return Failure(UnreadableTle);
      }
      r := Success(Some(|session.satellites|));
      session.satellites := session.satellites
        + [Satellite(norad.value, record.name, record.line1, record.line2, epoch.value)];
    } else {
      var id := existing.value;
      var row := session.satellites[id];
      if row.line1 != record.line1 || row.line2 != record.line2 {
        var epoch := reader.epochOf(record.line1, record.line2);
        if epoch.None? {
          return Failure(UnreadableTle);
        }
        session.satellites := session.satellites[id :=
          row.(name := record.name, line1 := record.line1, line2 := record.line2, epoch := epoch.value)];
        r := Success(Some(id));
      } else {
        r := Success(None);
      }
    }
  }

  lemma EventsForMore(sats: seq<Satellite>, sats': seq<Satellite>, written: seq<SatId>, id: SatId, now: Time)
    requires forall i :: 0 <= i < |written| ==> written[i] < |sats|
    requires |sats| <= |sats'| && id < |sats'|
    requires forall j :: 0 <= j < |sats| ==> sats'[j].noradId == sats[j].noradId
    ensures EventsFor(sats', written, now) == EventsFor(sats, written, now)
    ensures EventsFor(sats', written + [id], now)
         == EventsFor(sats, written, now) + [EventFor(id, sats'[id].noradId, now)]
  {
  }

  /** `IngestTlesUseCase.execute`: one event for each row written, in the same session. */
  method Execute(reader: Reader, session: Session, fetched: Result<seq<TleRecord>, IngestError>)
    returns (r: Result<nat, IngestError>)
    requires session.published == []
    modifies session
    ensures fetched.Failure? ==> r == Failure(fetched.error)
    ensures fetched.Success? ==>
      match IngestAll(reader, old(session.satellites), fetched.value)
      case None => r == Failure(UnreadableTle)
      case Some((sats, written)) =>
        && r == Success(|written|) && session.satellites == sats
        && (forall i :: 0 <= i < |written| ==> written[i] < |sats|)
        && session.published == EventsFor(sats, written, session.begun)
  {
    if fetched.Failure? {
      return Failure(fetched.error);
    }
    var records := fetched.value;
    ghost var start := session.satellites;
    ghost var written: seq<SatId> := [];
    var changed := 0;
    for n := 0 to |records|
      invariant IngestAll(reader, start, records[..n]) == Some((session.satellites, written))
      invariant changed == |written|
      invariant forall i :: 0 <= i < |written| ==> written[i] < |session.satellites|
      invariant session.published == EventsFor(session.satellites, written, session.begun)
    {
      ghost var before := session.satellites;
      IngestNext(reader, start, records, n);
      var id := Upsert(reader, session, records[n]);
      if id.Failure? {
        return Failure(id.error);
      }
      if id.value.None? {
        continue;
      }
      NoradsKept(reader, before, records[n]);
      EventsForMore(before, session.satellites, written, id.value.value, session.begun);
      var satellite := session.satellites[id.value.value];
      session.Publish(TLE_REFRESHED, Outbox.Payload(id.value.value, satellite.noradId));
      changed := changed + 1;
      written := written + [id.value.value];
    }
    assert records[..|records|] == records;
    r := Success(changed);
  }

  /** `tle_refresh`: commits everything or nothing. A rate limit is a clean no-op; any other
      exception leaves both tables as they were and reaches the job worker. */
  method TleRefresh(reader: Reader, db: Database, now: Time, fetched: Result<seq<TleRecord>, IngestError>)
    returns (r: Result<nat, IngestError>)
    modifies db
    ensures fetched == Failure(RateLimited) ==> r == Success(0)
    ensures fetched.Failure? && fetched.error != RateLimited ==> r == Failure(fetched.error)
    ensures fetched.Failure? || r.Failure? ==>
      db.satellites == old(db.satellites) && db.outbox == old(db.outbox)
    ensures fetched.Success? ==>
      match IngestAll(reader, old(db.satellites), fetched.value)
      case None => r == Failure(UnreadableTle)
      case Some((sats, written)) =>
        && r == Success(|written|) && db.satellites == sats
        && (forall i :: 0 <= i < |written| ==> written[i] < |sats|)
        && db.outbox == old(db.outbox) + EventsFor(sats, written, now)
  {
    var session := new Session(db, now);
    r := Execute(reader, session, fetched);
    if r == Failure(RateLimited) {
      return Success(0);
    }
    if r.Success? {
      session.Commit();
    }
  }

  // What the committed transaction means.

  predicate IsLast(reader: Reader, records: seq<TleRecord>, norad: int, k: nat) {
    && k < |records| && reader.noradOf(records[k].line1) == Some(norad)
    && forall j :: k < j < |records| ==> reader.noradOf(records[j].line1) != Some(norad)
  }

  predicate Unlisted(reader: Reader, records: seq<TleRecord>, norad: int) {
    forall j :: 0 <= j < |records| ==> reader.noradOf(records[j].line1) != Some(norad)
  }

  lemma StoredAfterOne(reader: Reader, sats: seq<Satellite>, r: TleRecord, norad: int)
    requires IngestOne(reader, sats, r).Some?
    ensures var sats' := IngestOne(reader, sats, r).value.0;
            if reader.noradOf(r.line1) == Some(norad) then Stored(sats', norad) == Some(TleLines(r))
            else Stored(sats', norad) == Stored(sats, norad) && Find(sats', norad) == Find(sats, norad)
  {
    var sats' := IngestOne(reader, sats, r).value.0;
    if |sats'| > |sats| {
      assert sats'[..|sats|] == sats;
    } else {
      SameFind(sats, sats', norad);
    }
  }

  lemma {:induction false} SameFind(a: seq<Satellite>, b: seq<Satellite>, norad: int)
    requires |a| == |b| && forall j :: 0 <= j < |a| ==> a[j].noradId == b[j].noradId
    ensures Find(a, norad) == Find(b, norad)
  {
  }

  /** The lines that record `k` is compared with: those of the previous record of the same
      satellite, or else the stored ones. */
  function Previous(reader: Reader, sats: seq<Satellite>, records: seq<TleRecord>, norad: int)
    : Option<(string, string)>
  {
    if records == [] then Stored(sats, norad)
    else
      var n := |records| - 1;
      if reader.noradOf(records[n].line1) == Some(norad) then Some(TleLines(records[n]))
      else Previous(reader, sats, records[..n], norad)
  }

  /** How many records differ from what is known of their satellite at that point. */
  function Changes(reader: Reader, sats: seq<Satellite>, records: seq<TleRecord>): nat {
    if records == [] then 0
    else
      var n := |records| - 1;
      var norad := reader.noradOf(records[n].line1);
      var changed := norad.Some? && Previous(reader, sats, records[..n], norad.value) != Some(TleLines(records[n]));
      Changes(reader, sats, records[..n]) + (if changed then 1 else 0)
  }

  lemma {:induction false} StoredIsPrevious(reader: Reader, sats: seq<Satellite>, records: seq<TleRecord>, norad: int)
    requires IngestAll(reader, sats, records).Some?
    ensures Stored(IngestAll(reader, sats, records).value.0, norad) == Previous(reader, sats, records, norad)
  {
    if records != [] {
      var n := |records| - 1;
      StoredIsPrevious(reader, sats, records[..n], norad);
      StoredAfterOne(reader, IngestAll(reader, sats, records[..n]).value.0, records[n], norad);
    }
  }

  lemma {:induction false} PreviousIsLast(
    reader: Reader, sats: seq<Satellite>, records: seq<TleRecord>, norad: int, k: nat)
    requires IsLast(reader, records, norad, k)
    ensures Previous(reader, sats, records, norad) == Some(TleLines(records[k]))
  {
    var n := |records| - 1;
    if k < n {
      assert forall j :: 0 <= j < n ==> records[..n][j] == records[j];
      PreviousIsLast(reader, sats, records[..n], norad, k);
    }
  }

  /** After a committed ingest, a listed catalogue number has the lines of its last record. */
  lemma LastRecordWins(reader: Reader, sats: seq<Satellite>, records: seq<TleRecord>, norad: int, k: nat)
    requires IngestAll(reader, sats, records).Some? && IsLast(reader, records, norad, k)
    ensures Stored(IngestAll(reader, sats, records).value.0, norad) == Some(TleLines(records[k]))
  {
    StoredIsPrevious(reader, sats, records, norad);
    PreviousIsLast(reader, sats, records, norad, k);
  }

  /** And one that is not listed keeps its rows, or its absence. */
  lemma {:induction false} UnlistedUntouched(
    reader: Reader, sats: seq<Satellite>, records: seq<TleRecord>, norad: int)
    requires IngestAll(reader, sats, records).Some? && Unlisted(reader, records, norad)
    ensures var sats' := IngestAll(reader, sats, records).value.0;
            && |sats| <= |sats'|
            && (forall j :: 0 <= j < |sats| && sats[j].noradId == norad ==> sats'[j] == sats[j])
            && (forall j :: |sats| <= j < |sats'| ==> sats'[j].noradId != norad)
  {
    if records != [] {
      var n := |records| - 1;
      assert forall j :: 0 <= j < n ==> records[..n][j] == records[j];
      UnlistedUntouched(reader, sats, records[..n], norad);
      WrittenRows(reader, sats, records[..n]);
    }
  }

  /** Events, row writes and the returned count are the number of changes in the input. */
  lemma {:induction false} OneEventPerChange(reader: Reader, sats: seq<Satellite>, records: seq<TleRecord>)
    requires IngestAll(reader, sats, records).Some?
    ensures |IngestAll(reader, sats, records).value.1| == Changes(reader, sats, records)
  {
    if records != [] {
      var n := |records| - 1;
      OneEventPerChange(reader, sats, records[..n]);
      StoredIsPrevious(reader, sats, records[..n], reader.noradOf(records[n].line1).value);
    }
  }

  // Running it again.

  /** Records of the same satellite carry the same lines. */
  predicate Agree(reader: Reader, records: seq<TleRecord>) {
    forall j, k :: 0 <= j < |records| && 0 <= k < |records|
                   && reader.noradOf(records[j].line1) == reader.noradOf(records[k].line1) ==>
      TleLines(records[j]) == TleLines(records[k])
  }

  predicate AllStored(reader: Reader, sats: seq<Satellite>, records: seq<TleRecord>) {
    forall k :: 0 <= k < |records| ==>
      var norad := reader.noradOf(records[k].line1);
      norad.Some? && Stored(sats, norad.value) == Some(TleLines(records[k]))
  }

  lemma OneStored(reader: Reader, sats: seq<Satellite>, r: TleRecord)
    ensures var one, norad := IngestOne(reader, sats, r), reader.noradOf(r.line1);
            && (one == Some((sats, None)) <==> norad.Some? && Stored(sats, norad.value) == Some(TleLines(r)))
            && (one.Some? && one.value.1.None? ==> one.value.0 == sats)
  {
  }

  /** A run writes nothing exactly when every record is stored already. */
  lemma {:induction false} NoWriteIffStored(reader: Reader, sats: seq<Satellite>, records: seq<TleRecord>)
    ensures IngestAll(reader, sats, records) == Some((sats, [])) <==> AllStored(reader, sats, records)
    ensures IngestAll(reader, sats, records).Some? && IngestAll(reader, sats, records).value.1 == [] ==>
      IngestAll(reader, sats, records).value.0 == sats
  {
    if records != [] {
      var n := |records| - 1;
      NoWriteIffStored(reader, sats, records[..n]);
      assert AllStored(reader, sats, records) ==> AllStored(reader, sats, records[..n]);
      OneStored(reader, sats, records[n]);
    }
  }

  lemma {:induction false} LastExists(reader: Reader, records: seq<TleRecord>, k: nat) returns (last: nat)
    requires k < |records| && reader.noradOf(records[k].line1).Some?
    ensures IsLast(reader, records, reader.noradOf(records[k].line1).value, last)
    decreases |records| - k
  {
    if j :| k < j < |records| && reader.noradOf(records[j].line1) == reader.noradOf(records[k].line1) {
      last := LastExists(reader, records, j);
    } else {
      last := k;
    }
  }

  lemma {:induction false} AllReadable(reader: Reader, sats: seq<Satellite>, records: seq<TleRecord>, k: nat)
    requires IngestAll(reader, sats, records).Some? && k < |records|
    ensures reader.noradOf(records[k].line1).Some?
  {
    if k < |records| - 1 { AllReadable(reader, sats, records[..|records| - 1], k); }
  }

  /** The epochs of the stored lines can be read: rows are only written with their epoch. */
  predicate StoredReadable(reader: Reader, sats: seq<Satellite>) {
    forall j :: 0 <= j < |sats| ==> reader.epochOf(sats[j].line1, sats[j].line2).Some?
  }

  predicate Readable(reader: Reader, r: TleRecord) {
    reader.noradOf(r.line1).Some? && reader.epochOf(r.line1, r.line2).Some?
  }

  /** A committed ingest keeps that, and all of its records can be read. */
  lemma {:induction false} IngestReads(reader: Reader, sats: seq<Satellite>, records: seq<TleRecord>)
    requires StoredReadable(reader, sats) && IngestAll(reader, sats, records).Some?
    ensures StoredReadable(reader, IngestAll(reader, sats, records).value.0)
    ensures forall k :: 0 <= k < |records| ==> Readable(reader, records[k])
  {
    if records != [] {
      var n := |records| - 1;
      IngestReads(reader, sats, records[..n]);
      assert forall k :: 0 <= k < n ==> records[..n][k] == records[k];
    }
  }

  lemma {:induction false} ReadableIngests(reader: Reader, sats: seq<Satellite>, records: seq<TleRecord>)
    requires forall k :: 0 <= k < |records| ==> Readable(reader, records[k])
    ensures IngestAll(reader, sats, records).Some?
  {
    if records != [] {
      ReadableIngests(reader, sats, records[..|records| - 1]);
    }
  }

  /** Running a committed ingest again on the same records succeeds without publishing anything
      exactly when the records of each satellite agree. */
  lemma RerunIsSilentIffAgree(reader: Reader, sats: seq<Satellite>, records: seq<TleRecord>)
    requires IngestAll(reader, sats, records).Some?
    ensures var sats' := IngestAll(reader, sats, records).value.0;
            IngestAll(reader, sats', records) == Some((sats', [])) <==> Agree(reader, records)
  {
    var sats' := IngestAll(reader, sats, records).value.0;
    NoWriteIffStored(reader, sats', records);
    forall k | 0 <= k < |records|
      ensures reader.noradOf(records[k].line1).Some?
      ensures exists last: nat ::
        && IsLast(reader, records, reader.noradOf(records[k].line1).value, last)
        && Stored(sats', reader.noradOf(records[k].line1).value) == Some(TleLines(records[last]))
    {
      AllReadable(reader, sats, records, k);
      var last := LastExists(reader, records, k);
      LastRecordWins(reader, sats, records, reader.noradOf(records[k].line1).value, last);
    }
  }

  /** Otherwise it succeeds all the same, and publishes again. */
  lemma RerunPublishesUnlessAgree(reader: Reader, sats: seq<Satellite>, records: seq<TleRecord>)
    requires StoredReadable(reader, sats) && IngestAll(reader, sats, records).Some?
    ensures var again := IngestAll(reader, IngestAll(reader, sats, records).value.0, records);
            again.Some? && (again.value.1 == [] <==> Agree(reader, records))
  {
    var sats' := IngestAll(reader, sats, records).value.0;
    IngestReads(reader, sats, records);
    ReadableIngests(reader, sats', records);
    RerunIsSilentIffAgree(reader, sats, records);
    NoWriteIffStored(reader, sats', records);
  }
}
