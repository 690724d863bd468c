/** The ingest record by record, as a transaction at READ COMMITTED sees it: its own writes, and
    otherwise what is committed at that moment. */
module IngestSteps {
  import opened Wrappers
  import opened TleText
  import opened Ingest

  /** A row as it is written: over the one with its catalogue number, or as a new one. */
  function Put(sats: seq<Satellite>, row: Satellite): (seq<Satellite>, SatId) {
    var found := Find(sats, row.noradId);
    if found.Some? then (sats[found.value := row], found.value) else (sats + [row], |sats|)
  }

  function PutAll(sats: seq<Satellite>, rows: seq<Satellite>): (seq<Satellite>, seq<SatId>) {
    if rows == [] then (sats, [])
    else
      var n := |rows| - 1;
      var (sats', ids) := PutAll(sats, rows[..n]);
      var (sats'', id) := Put(sats', rows[n]);
      (sats'', ids + [id])
  }

  function RowLines(row: Satellite): (string, string) { (row.line1, row.line2) }

  /** The lines of a catalogue number, as seen by a transaction with these writes. */
  function Known(sats: seq<Satellite>, writes: seq<Satellite>, norad: int): Option<(string, string)> {
    if writes == [] then Stored(sats, norad)
    else
      var n := |writes| - 1;
      if writes[n].noradId == norad then Some(RowLines(writes[n])) else Known(sats, writes[..n], norad)
  }

  /** What a record leads to: None if it cannot be read, otherwise the row to write, if any. */
  function ReadRecord(reader: Reader, sats: seq<Satellite>, writes: seq<Satellite>, r: TleRecord)
    : Option<Option<Satellite>>
  {
    match reader.noradOf(r.line1)
    case None => None
    case Some(norad) =>
      if Known(sats, writes, norad) == Some(TleLines(r)) then Some(None)
      else
        match reader.epochOf(r.line1, r.line2)
        case None => None
        case Some(epoch) => Some(Some(Satellite(norad, r.name, r.line1, r.line2, epoch)))
  }

  /** The writes of a transaction that nobody interferes with. */
  function Writes(reader: Reader, sats: seq<Satellite>, records: seq<TleRecord>): Option<seq<Satellite>> {
    if records == [] then Some([])
    else
      var n := |records| - 1;
      match Writes(reader, sats, records[..n])
      case None => None
      case Some(writes) =>
        match ReadRecord(reader, sats, writes, records[n])
        case None => None
        case Some(row) => Some(if row.Some? then writes + [row.value] else writes)
  }

  lemma PutSees(sats: seq<Satellite>, row: Satellite, norad: int)
    ensures Stored(Put(sats, row).0, norad)
         == if row.noradId == norad then Some(RowLines(row)) else Stored(sats, norad)
  {
    var found := Find(sats, row.noradId);
    if found.Some? {
      SameFind(sats, sats[found.value := row], norad);
    } else {
      assert (sats + [row])[..|sats|] == sats;
      assert Find(sats + [row], norad)
          == if Find(sats, norad).Some? then Find(sats, norad)
             else if row.noradId == norad then Some(|sats|) else None;
    }
  }

  lemma {:induction false} KnownIsStored(sats: seq<Satellite>, writes: seq<Satellite>, norad: int)
    ensures Known(sats, writes, norad) == Stored(PutAll(sats, writes).0, norad)
  {
    if writes != [] {
      var n := |writes| - 1;
      KnownIsStored(sats, writes[..n], norad);
      PutSees(PutAll(sats, writes[..n]).0, writes[n], norad);
    }
  }

  lemma OneRecord(reader: Reader, sats: seq<Satellite>, writes: seq<Satellite>, r: TleRecord)
    ensures var sats' := PutAll(sats, writes).0;
            match ReadRecord(reader, sats, writes, r)
            case None => IngestOne(reader, sats', r).None?
            case Some(row) =>
              IngestOne(reader, sats', r)
              == if row.None? then Some((sats', None))
                 else Some((Put(sats', row.value).0, Some(Put(sats', row.value).1)))
  {
    if reader.noradOf(r.line1).Some? {
      KnownIsStored(sats, writes, reader.noradOf(r.line1).value);
    }
  }

  lemma PutOneMore(sats: seq<Satellite>, writes: seq<Satellite>, row: Satellite)
    ensures var (sats', ids) := PutAll(sats, writes);
            PutAll(sats, writes + [row]) == (Put(sats', row).0, ids + [Put(sats', row).1])
  {
    assert (writes + [row])[..|writes|] == writes;
  }

  /** Record by record or at once: left alone, a transaction does what `IngestAll` says. */
  lemma {:induction false} WritesAreIngest(reader: Reader, sats: seq<Satellite>, records: seq<TleRecord>)
    ensures var writes := Writes(reader, sats, records);
            IngestAll(reader, sats, records) == if writes.None? then None else Some(PutAll(sats, writes.value))
  {
    if records != [] {
      var n := |records| - 1;
      WritesAreIngest(reader, sats, records[..n]);
      var before := Writes(reader, sats, records[..n]);
      if before.Some? {
        OneRecord(reader, sats, before.value, records[n]);
        var row := ReadRecord(reader, sats, before.value, records[n]);
        if row.Some? && row.value.Some? { PutOneMore(sats, before.value, row.value.value); }
      }
    }
  }

  lemma {:induction false} WritesGrow(
    reader: Reader, sats: seq<Satellite>, records: seq<TleRecord>, m: nat, n: nat)
    requires m <= n <= |records| && Writes(reader, sats, records[..n]).Some?
    ensures Writes(reader, sats, records[..m]).Some?
    ensures Writes(reader, sats, records[..m]).value <= Writes(reader, sats, records[..n]).value
    decreases n
  {
    if m < n {
      assert records[..n][..n - 1] == records[..n - 1];
      WritesGrow(reader, sats, records, m, n - 1);
    }
  }

  lemma WritesNext(reader: Reader, sats: seq<Satellite>, records: seq<TleRecord>, n: nat)
    requires n < |records| && Writes(reader, sats, records[..n]).Some?
    ensures var writes := Writes(reader, sats, records[..n]).value;
            var row := ReadRecord(reader, sats, writes, records[n]);
            Writes(reader, sats, records[..n + 1])
            == if row.None? then None else Some(if row.value.Some? then writes + [row.value.value] else writes)
  {
    assert records[..n + 1][..n] == records[..n];
  }

  lemma {:induction false} PutAllIds(sats: seq<Satellite>, rows: seq<Satellite>)
    ensures |sats| <= |PutAll(sats, rows).0| && |PutAll(sats, rows).1| == |rows|
    ensures forall i :: 0 <= i < |rows| ==> PutAll(sats, rows).1[i] < |PutAll(sats, rows).0|
  {
    if rows != [] {
      var n := |rows| - 1;
      PutAllIds(sats, rows[..n]);
      PutId(PutAll(sats, rows[..n]).0, rows[n]);
    }
  }

  lemma PutId(sats: seq<Satellite>, row: Satellite)
    ensures |sats| <= |Put(sats, row).0| && Put(sats, row).1 < |Put(sats, row).0|
  {
  }
}
