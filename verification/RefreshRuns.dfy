/** When the runs of the refresh job publish each change exactly once: runs that crash and repeat,
    runs that overlap, and the exact condition. */
module RefreshRuns {
  import opened Wrappers
  import opened TleText
  import opened Ingest
  import opened IngestSteps
  import opened RefreshJob
  import Outbox
  import Jobs
  import J = JobProtocol
  import L = JobLease

  ghost predicate Leads(c: Config, s: State, s': State) {
    exists run :: CanRun(c, s, run) && After(c, s, run) == s'
  }

  lemma {:induction false} RunThen(c: Config, s: State, run: seq<Action>, a: Action)
    requires CanRun(c, s, run) && Enabled(c, After(c, s, run), a)
    ensures CanRun(c, s, run + [a])
    ensures After(c, s, run + [a]) == Apply(c, After(c, s, run), a)
    decreases |run|
  {
    if run == [] {
      assert run + [a] == [a];
    } else {
      RunThen(c, Apply(c, s, run[0]), run[1..], a);
      assert (run + [a])[1..] == run[1..] + [a];
    }
  }

  lemma Step(c: Config, from: State, s: State, a: Action) returns (s': State)
    requires Leads(c, from, s) && Enabled(c, s, a)
    ensures s' == Apply(c, s, a) && Leads(c, from, s')
  {
    var run :| CanRun(c, from, run) && After(c, from, run) == s;
    RunThen(c, from, run, a);
    s' := Apply(c, s, a);
  }

  /** While no transaction is open or committed, the job's own steps leave the database alone. */
  lemma {:induction false} JobRun(c: Config, from: State, s: State, run: seq<J.Action>) returns (s': State)
    requires Leads(c, from, s) && s.open == map[] && s.committed == {}
    requires J.CanRun(c.job, s.jobs, run)
    ensures Leads(c, from, s') && s' == s.(jobs := J.After(c.job, s.jobs, run))
    decreases |run|
  {
    if run == [] {
      s' := s;
    } else {
      var s1 := Step(c, from, s, Job(run[0]));
      assert s1.open == map[] && s1.committed == {};
      s' := JobRun(c, from, s1, run[1..]);
    }
  }

  /** No transaction but that of `w` has written anything. */
  predicate OnlyWriter(s: State, w: Jobs.WorkerId) {
    forall v :: v in s.open && v != w ==> s.open[v].writes == []
  }

  /** Worker `w` handles its next record. */
  lemma NextRecord(c: Config, from: State, s: State, w: Jobs.WorkerId) returns (s': State)
    requires Leads(c, from, s) && w in s.open && OnlyWriter(s, w)
    requires AsIfAlone(c, s.satellites, s.open[w]) && CanRead(c, s.satellites, s.open[w])
    ensures Leads(c, from, s') && w in s'.open && s' == s.(open := s.open[w := s'.open[w]])
    ensures AsIfAlone(c, s.satellites, s'.open[w])
    ensures s'.open[w].next == s.open[w].next + 1 && s'.open[w].pending.None?
    ensures s'.open[w].begun == s.open[w].begun
  {
    ReadAlone(c, s.satellites, s.open[w]);
    s' := Step(c, from, s, Read(w));
    var tx := s'.open[w];
    if tx.pending.Some? {
      assert s'.open[w := AfterWrite(tx)] == s.open[w := AfterWrite(tx)];
      NotBlocked(s', w, tx.pending.value.row.noradId);
      NewIsMissing(s.satellites, tx.writes, tx.pending.value.row.noradId);
      WriteAlone(c, s.satellites, tx);
      s' := Step(c, from, s', Write(w));
    }
  }

  lemma NotBlocked(s: State, w: Jobs.WorkerId, norad: int)
    requires OnlyWriter(s, w)
    ensures !Blocked(s, w, norad)
  {
  }

  lemma {:induction false} NewIsMissing(sats: seq<Satellite>, writes: seq<Satellite>, norad: int)
    ensures Known(sats, writes, norad).None? ==> Find(sats, norad).None?
  {
    if writes != [] { NewIsMissing(sats, writes[..|writes| - 1], norad); }
  }

  /** Worker `w` handles all records that are left. */
  lemma {:induction false} RestOfRecords(c: Config, from: State, s: State, w: Jobs.WorkerId) returns (s': State)
    requires Leads(c, from, s) && w in s.open && OnlyWriter(s, w)
    requires AsIfAlone(c, s.satellites, s.open[w]) && s.open[w].pending.None?
    requires Writes(c.reader, s.satellites, c.feed).Some?
    ensures Leads(c, from, s') && w in s'.open && s' == s.(open := s.open[w := s'.open[w]])
    ensures s'.open[w].writes == Writes(c.reader, s.satellites, c.feed).value
    ensures s'.open[w].next == |c.feed| && s'.open[w].pending.None?
    decreases |c.feed| - s.open[w].next
  {
    if s.open[w].next == |c.feed| {
      assert c.feed[..|c.feed|] == c.feed;
      s' := s;
      assert s.open == s.open[w := s.open[w]];
    } else {
      MoreToRead(c, s.satellites, s.open[w]);
      var s1 := NextRecord(c, from, s, w);
      s' := RestOfRecords(c, from, s1, w);
      assert s1.open[w := s'.open[w]] == s.open[w := s'.open[w]];
    }
  }

  lemma FetchAndCommit(c: Config, from: State, s: State, w: Jobs.WorkerId) returns (s': State)
    requires Leads(c, from, s) && s.open == map[] && s.committed == {}
    requires InRefresh(s, w) && Writes(c.reader, s.satellites, c.feed).Some?
    ensures Leads(c, from, s') && s'.jobs == s.jobs && s'.open == map[] && s'.committed == {w}
    ensures var writes := Writes(c.reader, s.satellites, c.feed).value;
            s'.satellites == PutAll(s.satellites, writes).0 && |s'.events| == |s.events| + |writes|
  {
    var s1 := Step(c, from, s, Open(w));
    OpenAlone(c, s.satellites, s.jobs.clock);
    var s2 := RestOfRecords(c, from, s1, w);
    s' := Step(c, from, s2, Commit(w));
    assert s'.open == map[];
  }

  /** The only job is due, or its lease has expired since it was due. */
  predicate Claimable(s: J.State) {
    && |s.jobs| == |s.claims| == 1
    && (Jobs.Due(s.jobs[0], s.clock) || (Jobs.Stale(s.jobs[0], s.clock) && s.jobs[0].nextRunAt <= s.clock))
  }

  /** Worker `w` claims the job, which others may have abandoned. */
  lemma ClaimRefresh(c: Config, from: State, s: State, w: Jobs.WorkerId) returns (s': State)
    requires Leads(c, from, s) && s.open == map[] && s.committed == {}
    requires Claimable(s.jobs) && w in s.jobs.workers && s.jobs.workers[w].phase.Down?
    ensures Leads(c, from, s') && s' == s.(jobs := s'.jobs) && InRefresh(s', w)
    ensures |s'.jobs.jobs| == |s'.jobs.claims| == 1 && s'.jobs.clock == s.jobs.clock
    ensures var job := s'.jobs.jobs[0];
            && job.status == Jobs.RUNNING && job.leaseUntil == Some(s.jobs.clock + c.job.lease)
            && job.nextRunAt == s.jobs.jobs[0].nextRunAt
    ensures s'.jobs.workers == s.jobs.workers[w := s'.jobs.workers[w]]
  {
    J.Begin(c.job, s.jobs);
    var claimed := L.PollAndClaim(c.job, s.jobs, s.jobs, w);
    var run :| J.CanRun(c.job, s.jobs, run) && J.After(c.job, s.jobs, run) == claimed;
    s' := JobRun(c, from, s, run);
  }

  /** Worker `w` dies with its run, and the lease expires while nobody else is up. */
  lemma CrashAndExpire(c: Config, from: State, s: State, w: Jobs.WorkerId) returns (s': State)
    requires Leads(c, from, s) && s.open == map[] && s.committed == {w} && InRefresh(s, w)
    requires |s.jobs.jobs| == |s.jobs.claims| == 1
    requires s.jobs.jobs[0].status == Jobs.RUNNING && s.jobs.jobs[0].leaseUntil == Some(s.jobs.clock + c.job.lease)
    requires s.jobs.jobs[0].nextRunAt <= s.jobs.clock
    requires forall v :: v in s.jobs.workers && v != w ==> s.jobs.workers[v].phase.Down?
    ensures Leads(c, from, s') && s' == s.(jobs := s'.jobs, committed := {})
    ensures Claimable(s'.jobs) && s'.jobs.workers.Keys == s.jobs.workers.Keys
    ensures forall v :: v in s'.jobs.workers ==> s'.jobs.workers[v].phase.Down?
  {
    var s1 := Step(c, from, s, Job(J.Crash(w)));
    assert s1.committed == {} && s1.open == map[];
    assert forall v :: v in s1.jobs.workers ==> s1.jobs.workers[v].phase.Down?;
    s' := Step(c, from, s1, Job(J.Tick(s1.jobs.clock + Max(0, c.job.lease + 1))));
  }

  lemma Reached(c: Config, from: State, s: State)
    requires Init(c, from) && Leads(c, from, s)
    ensures Reachable(c, s)
  {
  }

  lemma CommitAndCrash(c: Config, s0: State) returns (s: State)
    requires Writes(c.reader, c.start, c.feed).Some?
    requires s0 == State(L.Fresh(), c.start, [], map[], {})
    ensures Leads(c, s0, s) && s.open == map[] && s.committed == {}
    ensures Claimable(s.jobs) && s.jobs.workers.Keys == {0, 1}
    ensures forall v :: v in s.jobs.workers ==> s.jobs.workers[v].phase.Down?
    ensures var writes := Writes(c.reader, c.start, c.feed).value;
            s.satellites == PutAll(c.start, writes).0 && |s.events| == |writes|
  {
    assert CanRun(c, s0, []) && After(c, s0, []) == s0;
    var s1 := ClaimRefresh(c, s0, s0, 0);
    var s2 := FetchAndCommit(c, s0, s1, 0);
    s := CrashAndExpire(c, s0, s2, 0);
  }

  lemma WritesCount(reader: Reader, sats: seq<Satellite>, records: seq<TleRecord>)
    requires IngestAll(reader, sats, records).Some?
    ensures Writes(reader, sats, records).Some?
    ensures var writes := Writes(reader, sats, records).value;
            && IngestAll(reader, sats, records).value.0 == PutAll(sats, writes).0
            && |IngestAll(reader, sats, records).value.1| == |writes|
  {
    WritesAreIngest(reader, sats, records);
    PutAllIds(sats, Writes(reader, sats, records).value);
  }

  /** Two runs of the job on the same data, the first of which crashed after its commit. */
  lemma CommitTwice(c: Config) returns (s: State)
    requires StoredReadable(c.reader, c.start) && IngestAll(c.reader, c.start, c.feed).Some?
    ensures Reachable(c, s)
    ensures var (sats, written) := IngestAll(c.reader, c.start, c.feed).value;
            var again := IngestAll(c.reader, sats, c.feed);
            again.Some? && |s.events| == |written| + |again.value.1|
  {
    var s0 := State(L.Fresh(), c.start, [], map[], {});
    WritesCount(c.reader, c.start, c.feed);
    RerunPublishesUnlessAgree(c.reader, c.start, c.feed);
    var s1 := CommitAndCrash(c, s0);
    WritesCount(c.reader, s1.satellites, c.feed);
    s := RunAgain(c, s0, s1);
    Reached(c, s0, s);
  }

  lemma RunAgain(c: Config, from: State, s: State) returns (s': State)
    requires Leads(c, from, s) && s.open == map[] && s.committed == {}
    requires Claimable(s.jobs) && s.jobs.workers.Keys == {0, 1}
    requires forall v :: v in s.jobs.workers ==> s.jobs.workers[v].phase.Down?
    requires Writes(c.reader, s.satellites, c.feed).Some?
    ensures Leads(c, from, s')
    ensures |s'.events| == |s.events| + |Writes(c.reader, s.satellites, c.feed).value|
  {
    assert 1 in s.jobs.workers.Keys;
    var s1 := ClaimRefresh(c, from, s, 1);
    s' := FetchAndCommit(c, from, s1, 1);
  }

  lemma MoreToRead(c: Config, sats: seq<Satellite>, tx: Transaction)
    requires AsIfAlone(c, sats, tx) && tx.pending.None?
    requires Writes(c.reader, sats, c.feed).Some?
    requires tx.next < |c.feed| || Writes(c.reader, sats, c.feed).value != tx.writes
    ensures CanRead(c, sats, tx)
  {
    assert c.feed[..|c.feed|] == c.feed;
    if tx.next < |c.feed| {
      WritesGrow(c.reader, sats, c.feed, tx.next + 1, |c.feed|);
      WritesNext(c.reader, sats, c.feed, tx.next);
    }
  }

  /** Worker `w` reads up to the first record that makes it write, and stops there. */
  lemma {:induction false} ReadToFirst(c: Config, from: State, s: State, w: Jobs.WorkerId) returns (s': State)
    requires Leads(c, from, s) && w in s.open && OnlyWriter(s, w)
    requires AsIfAlone(c, s.satellites, s.open[w]) && s.open[w].pending.None? && s.open[w].writes == []
    requires Writes(c.reader, s.satellites, c.feed).Some? && Writes(c.reader, s.satellites, c.feed).value != []
    ensures Leads(c, from, s') && w in s'.open && s' == s.(open := s.open[w := s'.open[w]])
    ensures var tx, row := s'.open[w], Writes(c.reader, s.satellites, c.feed).value[0];
            && tx.writes == [] && tx.pending == Some(Pending(row, Stored(s.satellites, row.noradId).None?))
            && tx.next < |c.feed| && c.reader.noradOf(c.feed[tx.next].line1) == Some(row.noradId)
            && RowLines(row) == TleLines(c.feed[tx.next])
    decreases |c.feed| - s.open[w].next
  {
    MoreToRead(c, s.satellites, s.open[w]);
    ReadAlone(c, s.satellites, s.open[w]);
    var s1 := Step(c, from, s, Read(w));
    if s1.open[w].pending.Some? {
      FirstPending(c, s.satellites, s1.open[w]);
      s' := s1;
    } else {
      s' := ReadToFirst(c, from, s1, w);
      assert s1.open[w := s'.open[w]] == s.open[w := s'.open[w]];
    }
  }

  /** Worker `w` has nothing to write in what is left of its records. */
  lemma {:induction false} SkipRest(c: Config, from: State, s: State, w: Jobs.WorkerId) returns (s': State)
    requires Leads(c, from, s) && w in s.open && s.open[w].pending.None? && s.open[w].next <= |c.feed|
    requires forall k :: 0 <= k < |c.feed| ==>
      ReadRecord(c.reader, s.satellites, s.open[w].writes, c.feed[k]) == Some(None)
    ensures Leads(c, from, s') && w in s'.open
    ensures s' == s.(open := s.open[w := s.open[w].(next := |c.feed|)])
    decreases |c.feed| - s.open[w].next
  {
    if s.open[w].next == |c.feed| {
      s' := s;
      assert s.open == s.open[w := s.open[w]];
    } else {
      var s1 := Step(c, from, s, Read(w));
      s' := SkipRest(c, from, s1, w);
      assert s1.open[w := s'.open[w]] == s.open[w := s'.open[w]];
    }
  }

  /** Both workers run the job. Worker 1 has decided on an update of the first row, and worker 0
      has committed the same update meanwhile, with all that follows. */
  lemma CommitUnderUpdate(c: Config, from: State, s: State) returns (s': State)
    requires Leads(c, from, s) && s.open == map[] && s.committed == {}
    requires InRefresh(s, 0) && InRefresh(s, 1)
    requires s.satellites == c.start && s.events == [] && FirstWriteUpdates(c)
    ensures Leads(c, from, s') && s'.open.Keys == {1}
    ensures var writes, tx := Writes(c.reader, c.start, c.feed).value, s'.open[1];
            && s'.satellites == PutAll(c.start, writes).0 && |s'.events| == |writes|
            && tx.writes == [] && tx.pending == Some(Pending(writes[0], false)) && tx.next < |c.feed|
            && c.reader.noradOf(c.feed[tx.next].line1) == Some(writes[0].noradId)
            && RowLines(writes[0]) == TleLines(c.feed[tx.next])
  {
    OpenAlone(c, c.start, s.jobs.clock);
    var s1 := Step(c, from, s, Open(1));
    var s2 := ReadToFirst(c, from, s1, 1);
    var s3 := Step(c, from, s2, Open(0));
    var s4 := RestOfRecords(c, from, s3, 0);
    s' := Step(c, from, s4, Commit(0));
    assert s'.open.Keys == {1};
  }

  lemma BothInRefresh(c: Config, s0: State) returns (s: State)
    requires c.job.lease < c.job.RunBound() && s0 == State(L.Fresh(), c.start, [], map[], {})
    ensures Leads(c, s0, s) && s == s0.(jobs := s.jobs) && InRefresh(s, 0) && InRefresh(s, 1)
  {
    assert CanRun(c, s0, []) && After(c, s0, []) == s0;
    var both := L.ShortLeaseDoubleRun(c.job);
    assert 0 in J.Holders(both, 0) && 1 in J.Holders(both, 0);
    var run :| J.CanRun(c.job, s0.jobs, run) && J.After(c.job, s0.jobs, run) == both;
    s := JobRun(c, s0, s0, run);
  }

  /** With agreeing records and a first write that updates, two overlapping runs publish it twice. */
  lemma OverlapPublishesTwice(c: Config) returns (s: State)
    requires c.job.lease < c.job.RunBound() && FirstWriteUpdates(c) && Agree(c.reader, c.feed)
    ensures Reachable(c, s)
    ensures |s.events| == |Writes(c.reader, c.start, c.feed).value| + 1
  {
    var s0 := State(L.Fresh(), c.start, [], map[], {});
    var s1 := BothInRefresh(c, s0);
    var s2 := CommitUnderUpdate(c, s0, s1);
    assert 1 in s2.open.Keys;
    s := SecondUpdate(c, s0, s2);
    Reached(c, s0, s);
  }

  lemma SecondUpdate(c: Config, from: State, s: State) returns (s': State)
    requires Leads(c, from, s) && s.open.Keys == {1} && 1 in s.open
    requires Agree(c.reader, c.feed)
    requires Writes(c.reader, c.start, c.feed).Some? && Writes(c.reader, c.start, c.feed).value != []
    requires var writes, tx := Writes(c.reader, c.start, c.feed).value, s.open[1];
             && s.satellites == PutAll(c.start, writes).0
             && tx.writes == [] && tx.pending == Some(Pending(writes[0], false)) && tx.next < |c.feed|
             && c.reader.noradOf(c.feed[tx.next].line1) == Some(writes[0].noradId)
             && RowLines(writes[0]) == TleLines(c.feed[tx.next])
    ensures Leads(c, from, s') && |s'.events| == |s.events| + 1
  {
    var row, k := s.open[1].pending.value.row, s.open[1].next;
    assert forall v :: v in s.open ==> v in s.open.Keys;
    NotBlocked(s, 1, row.noradId);
    var s1 := Step(c, from, s, Write(1));
    assert [] + [row] == [row];
    AllIsSkipped(c, row, k);
    var s2 := SkipRest(c, from, s1, 1);
    s' := Step(c, from, s2, Commit(1));
  }

  /** On the outcome, after writing the lines of record `k` once more, there is nothing to write. */
  lemma AllIsSkipped(c: Config, row: Satellite, k: nat)
    requires Agree(c.reader, c.feed) && Writes(c.reader, c.start, c.feed).Some? && k < |c.feed|
    requires c.reader.noradOf(c.feed[k].line1) == Some(row.noradId) && RowLines(row) == TleLines(c.feed[k])
    ensures var sats := PutAll(c.start, Writes(c.reader, c.start, c.feed).value).0;
            forall j :: 0 <= j < |c.feed| ==> ReadRecord(c.reader, sats, [row], c.feed[j]) == Some(None)
  {
    var sats := PutAll(c.start, Writes(c.reader, c.start, c.feed).value).0;
    forall j | 0 <= j < |c.feed| ensures ReadRecord(c.reader, sats, [row], c.feed[j]) == Some(None) {
      StoredIsSkipped(c, j);
      KnownAfterOne(sats, row, c.reader.noradOf(c.feed[j].line1).value);
    }
  }

  lemma KnownAfterOne(sats: seq<Satellite>, row: Satellite, norad: int)
    ensures Known(sats, [row], norad) == if row.noradId == norad then Some(RowLines(row)) else Stored(sats, norad)
  {
    assert [row][..0] == [];
  }

  /** The runs of the job, all together, publish one event for each change in the data. */
  ghost predicate PublishesOnce(c: Config) {
    forall s :: Reachable(c, s) ==> |s.events| <= Changes(c.reader, c.start, c.feed)
  }

  lemma WritesAreChanges(c: Config)
    requires IngestAll(c.reader, c.start, c.feed).Some?
    ensures Writes(c.reader, c.start, c.feed).Some?
    ensures |Writes(c.reader, c.start, c.feed).value| == Changes(c.reader, c.start, c.feed)
  {
    WritesCount(c.reader, c.start, c.feed);
    OneEventPerChange(c.reader, c.start, c.feed);
  }

  /** On readable data they do so in every interleaving of workers, crashes and recoveries exactly
      when records of the same satellite agree and either the lease covers a run, or the first
      row to be written is not stored yet (or there is none), so that overlapping runs meet at
      its insert; or when the data cannot be ingested at all. */
  lemma PublishesOnceIff(c: Config)
    requires StoredReadable(c.reader, c.start)
    ensures PublishesOnce(c) <==>
      || IngestAll(c.reader, c.start, c.feed).None?
      || (Agree(c.reader, c.feed) && (c.job.timeout + c.job.slack <= c.job.lease || !FirstWriteUpdates(c)))
  {
    WritesAreIngest(c.reader, c.start, c.feed);
    if IngestAll(c.reader, c.start, c.feed).None? {
      forall s | Reachable(c, s) ensures |s.events| <= Changes(c.reader, c.start, c.feed) {
        RerunsStoreOnce(c, s);
      }
    } else {
      OnReadableData(c);
    }
  }

  lemma OnReadableData(c: Config)
    requires StoredReadable(c.reader, c.start) && IngestAll(c.reader, c.start, c.feed).Some?
    ensures PublishesOnce(c) <==> Agree(c.reader, c.feed) && RunsExclude(c)
  {
    WritesAreChanges(c);
    if !Agree(c.reader, c.feed) {
      OneEventPerChange(c.reader, c.start, c.feed);
      RerunPublishesUnlessAgree(c.reader, c.start, c.feed);
      var s := CommitTwice(c);
      assert |s.events| > Changes(c.reader, c.start, c.feed);
    } else if RunsExclude(c) {
      forall s | Reachable(c, s) ensures |s.events| <= Changes(c.reader, c.start, c.feed) {
        RerunsStoreOnce(c, s);
      }
    } else {
      var s := OverlapPublishesTwice(c);
      assert |s.events| > Changes(c.reader, c.start, c.feed);
    }
  }
}
