/** The TLE refresh as a job: workers that claim it, crash, recover it and run it again, on one
    database. A run reads and writes the satellites record by record in its transaction and
    commits at the end; whatever ends the run before that commit rolls it back, and a crash after
    it leaves the row RUNNING. With a lease shorter than a run, transactions may overlap: then
    they see each other's commits only, wait for each other's row locks, and an insert of a
    catalogue number that has been committed meanwhile is refused. */
module RefreshJob {
  import opened Wrappers
  import opened TleText
  import opened Ingest
  import opened IngestSteps
  import Outbox
  import Jobs
  import J = JobProtocol
  import L = JobLease

  const REFRESH: Jobs.JobId := 0

  /** `feed` is what every run fetches, and `start` the satellites before the first run. */
  datatype Config = Config(job: J.Config, reader: Reader, feed: seq<TleRecord>, start: seq<Satellite>)

  /** A row that has been decided on but not yet written: an insert, or else an update. */
  datatype Pending = Pending(row: Satellite, isNew: bool)

  /** An open transaction: its `now()`, the records it is done with, and its writes. */
  datatype Transaction = Transaction(begun: Time, next: nat, writes: seq<Satellite>, pending: Option<Pending>)

  datatype State = State(
    jobs: J.State,
    satellites: seq<Satellite>,
    events: seq<Outbox.Event>,
    open: map<Jobs.WorkerId, Transaction>,
    committed: set<Jobs.WorkerId>)

  datatype Action =
    | Job(a: J.Action)
    | Open(w: Jobs.WorkerId)
    | Read(w: Jobs.WorkerId)
    | Write(w: Jobs.WorkerId)
    | Commit(w: Jobs.WorkerId)

  predicate Init(c: Config, s: State) {
    J.Init(s.jobs) && s.satellites == c.start && s.events == [] && s.open == map[] && s.committed == {}
  }

  predicate InRefresh(s: State, w: Jobs.WorkerId) {
    w in s.jobs.workers && J.Holds(s.jobs.workers[w], REFRESH)
  }

  /** Another transaction holds the row, or has inserted its key. */
  predicate Blocked(s: State, w: Jobs.WorkerId, norad: int) {
    exists v, i :: v in s.open && v != w && 0 <= i < |s.open[v].writes| && s.open[v].writes[i].noradId == norad
  }

  predicate CanRead(c: Config, sats: seq<Satellite>, tx: Transaction) {
    tx.pending.None? && tx.next < |c.feed| && ReadRecord(c.reader, sats, tx.writes, c.feed[tx.next]).Some?
  }

  predicate Enabled(c: Config, s: State, a: Action) {
    match a
    case Job(b) => J.Enabled(c.job, s.jobs, b)
    case Open(w) => InRefresh(s, w) && w !in s.open && w !in s.committed
    case Read(w) => w in s.open && CanRead(c, s.satellites, s.open[w])
    case Write(w) =>
      && w in s.open && s.open[w].pending.Some?
      && var p := s.open[w].pending.value;
         !Blocked(s, w, p.row.noradId) && (p.isNew ==> Find(s.satellites, p.row.noradId).None?)
    case Commit(w) => w in s.open && s.open[w].pending.None? && s.open[w].next == |c.feed|
  }

  function AfterRead(c: Config, sats: seq<Satellite>, tx: Transaction): Transaction
    requires CanRead(c, sats, tx)
  {
    var row := ReadRecord(c.reader, sats, tx.writes, c.feed[tx.next]).value;
    if row.None? then tx.(next := tx.next + 1)
    else tx.(pending := Some(Pending(row.value, Known(sats, tx.writes, row.value.noradId).None?)))
  }

  function AfterWrite(tx: Transaction): Transaction
    requires tx.pending.Some?
  {
    tx.(next := tx.next + 1, writes := tx.writes + [tx.pending.value.row], pending := None)
  }

  /** The events of these writes, once they are stored. */
  function EventsOf(sats: seq<Satellite>, writes: seq<Satellite>, begun: Time): (events: seq<Outbox.Event>)
    ensures |events| == |writes|
  {
    PutAllIds(sats, writes);
    EventsFor(PutAll(sats, writes).0, PutAll(sats, writes).1, begun)
  }

  function Apply(c: Config, s: State, a: Action): State
    requires Enabled(c, s, a)
  {
    match a
    case Job(b) =>
      if b.Tick? then s.(jobs := J.Apply(c.job, s.jobs, b))
      else s.(jobs := J.Apply(c.job, s.jobs, b), open := s.open - {b.w}, committed := s.committed - {b.w})
    case Open(w) => s.(open := s.open[w := Transaction(s.jobs.clock, 0, [], None)])
    case Read(w) => s.(open := s.open[w := AfterRead(c, s.satellites, s.open[w])])
    case Write(w) => s.(open := s.open[w := AfterWrite(s.open[w])])
    case Commit(w) =>
      var tx := s.open[w];
      s.(satellites := PutAll(s.satellites, tx.writes).0,
         events := s.events + EventsOf(s.satellites, tx.writes, tx.begun),
         open := s.open - {w}, committed := s.committed + {w})
  }

  predicate CanRun(c: Config, s: State, run: seq<Action>)
    decreases |run|
  {
    run == [] || (Enabled(c, s, run[0]) && CanRun(c, Apply(c, s, run[0]), run[1..]))
  }

  function After(c: Config, s: State, run: seq<Action>): State
    requires CanRun(c, s, run)
    decreases |run|
  {
    if run == [] then s else After(c, Apply(c, s, run[0]), run[1..])
  }

  ghost predicate Reachable(c: Config, s: State) {
    exists s0, run :: Init(c, s0) && CanRun(c, s0, run) && After(c, s0, run) == s
  }

  // Transactions that nobody interferes with.

  /** The transaction stands where it would if it were alone on this table. */
  predicate AsIfAlone(c: Config, sats: seq<Satellite>, tx: Transaction) {
    && tx.next <= |c.feed|
    && Writes(c.reader, sats, c.feed[..tx.next]) == Some(tx.writes)
    && (tx.pending.Some? ==>
          && tx.next < |c.feed|
          && ReadRecord(c.reader, sats, tx.writes, c.feed[tx.next]) == Some(Some(tx.pending.value.row))
          && tx.pending.value.isNew == Known(sats, tx.writes, tx.pending.value.row.noradId).None?)
  }

  lemma ReadAlone(c: Config, sats: seq<Satellite>, tx: Transaction)
    requires AsIfAlone(c, sats, tx) && CanRead(c, sats, tx)
    ensures AsIfAlone(c, sats, AfterRead(c, sats, tx))
  {
    WritesNext(c.reader, sats, c.feed, tx.next);
  }

  lemma WriteAlone(c: Config, sats: seq<Satellite>, tx: Transaction)
    requires AsIfAlone(c, sats, tx) && tx.pending.Some?
    ensures AsIfAlone(c, sats, AfterWrite(tx))
  {
    WritesNext(c.reader, sats, c.feed, tx.next);
  }

  lemma OpenAlone(c: Config, sats: seq<Satellite>, begun: Time)
    ensures AsIfAlone(c, sats, Transaction(begun, 0, [], None))
  {
    assert c.feed[..0] == [];
  }

  /** The first write of every transaction on a table is the same. */
  lemma SameFirstWrite(c: Config, sats: seq<Satellite>, m: nat, n: nat)
    requires m <= |c.feed| && n <= |c.feed|
    requires Writes(c.reader, sats, c.feed[..m]).Some? && Writes(c.reader, sats, c.feed[..n]).Some?
    requires Writes(c.reader, sats, c.feed[..m]).value != [] && Writes(c.reader, sats, c.feed[..n]).value != []
    ensures Writes(c.reader, sats, c.feed[..m]).value[0] == Writes(c.reader, sats, c.feed[..n]).value[0]
  {
    if m <= n { WritesGrow(c.reader, sats, c.feed, m, n); } else { WritesGrow(c.reader, sats, c.feed, n, m); }
  }

  /** Every open transaction belongs to a run, and is as if alone on what is stored now. */
  predicate Current(c: Config, s: State) {
    forall w :: w in s.open ==> InRefresh(s, w) && AsIfAlone(c, s.satellites, s.open[w])
  }

  lemma OpenStaysInRefresh(c: Config, s: State, a: Action)
    requires Enabled(c, s, a) && forall w :: w in s.open ==> InRefresh(s, w)
    ensures forall w :: w in Apply(c, s, a).open ==> InRefresh(Apply(c, s, a), w)
  {
  }

  /** With a lease that covers a run, the writes of a transaction rest on what is stored when it
      commits: no update is lost, whatever the data. */
  lemma CurrentStep(c: Config, s: State, a: Action)
    requires c.job.RunBound() <= c.job.lease
    requires J.Reachable(c.job, s.jobs) && Current(c, s) && Enabled(c, s, a)
    ensures Current(c, Apply(c, s, a))
  {
    OpenStaysInRefresh(c, s, a);
    if a.Commit? {
      NobodyElse(c, s, a.w);
    } else if a.Read? {
      ReadAlone(c, s.satellites, s.open[a.w]);
    } else if a.Write? {
      WriteAlone(c, s.satellites, s.open[a.w]);
    } else if a.Open? {
      OpenAlone(c, s.satellites, s.jobs.clock);
    }
  }

  lemma NobodyElse(c: Config, s: State, w: Jobs.WorkerId)
    requires c.job.RunBound() <= c.job.lease && J.Reachable(c.job, s.jobs)
    requires w in s.open && forall v :: v in s.open ==> InRefresh(s, v)
    ensures forall v :: v in s.open ==> v == w
  {
    L.LeaseExclusion(c.job, s.jobs);
    forall v | v in s.open ensures v == w {
      assert v in J.Holders(s.jobs, REFRESH) && w in J.Holders(s.jobs, REFRESH);
    }
  }

  // All runs together.

  predicate Untouched(c: Config, s: State) {
    s.satellites == c.start && s.events == []
  }

  /** What one ingest leaves. */
  predicate IsOutcome(c: Config, s: State, begun: Time) {
    && Writes(c.reader, c.start, c.feed).Some?
    && var writes := Writes(c.reader, c.start, c.feed).value;
       s.satellites == PutAll(c.start, writes).0 && s.events == EventsOf(c.start, writes, begun)
  }

  ghost predicate AtMostOnce(c: Config, s: State) {
    Untouched(c, s) || exists begun :: IsOutcome(c, s, begun)
  }

  /** The first row that an ingest writes is there already: it is an update. */
  predicate FirstWriteUpdates(c: Config) {
    var writes := Writes(c.reader, c.start, c.feed);
    writes.Some? && writes.value != [] && Find(c.start, writes.value[0].noradId).Some?
  }

  /** What keeps runs from publishing twice: none overlap, or overlapping ones meet at an insert. */
  predicate RunsExclude(c: Config) {
    c.job.RunBound() <= c.job.lease || !FirstWriteUpdates(c)
  }

  /** A transaction that will write nothing more: what it has decided on is refused. */
  predicate Idle(c: Config, s: State, tx: Transaction) {
    && tx.next <= |c.feed| && tx.writes == []
    && (tx.pending.Some? ==> tx.pending.value.isNew && Find(s.satellites, tx.pending.value.row.noradId).Some?)
  }

  predicate OneWriter(s: State) {
    forall v, w | v in s.open && w in s.open && s.open[v].writes != [] && s.open[w].writes != [] :: v == w
  }

  ghost predicate Before(c: Config, s: State) {
    Untouched(c, s) && OneWriter(s) && forall w :: w in s.open ==> AsIfAlone(c, c.start, s.open[w])
  }

  ghost predicate Done(c: Config, s: State) {
    (exists begun :: IsOutcome(c, s, begun)) && forall w :: w in s.open ==> Idle(c, s, s.open[w])
  }

  ghost predicate Inv(c: Config, s: State) {
    && J.Reachable(c.job, s.jobs)
    && (forall w :: w in s.open ==> InRefresh(s, w))
    && (Before(c, s) || Done(c, s))
  }

  lemma FirstWriteLocks(c: Config, s: State, w: Jobs.WorkerId)
    requires Before(c, s) && Enabled(c, s, Write(w)) && s.open[w].writes == []
    ensures forall v :: v in s.open && v != w ==> s.open[v].writes == []
  {
    var tx := s.open[w];
    WritesNext(c.reader, c.start, c.feed, tx.next);
    forall v | v in s.open && v != w ensures s.open[v].writes == [] {
      var other := s.open[v];
      if other.writes != [] {
        SameFirstWrite(c, c.start, tx.next + 1, other.next);
        assert false;
      }
    }
  }

  lemma WriteBefore(c: Config, s: State, w: Jobs.WorkerId)
    requires Before(c, s) && Enabled(c, s, Write(w))
    ensures Before(c, Apply(c, s, Write(w)))
  {
    WriteAlone(c, c.start, s.open[w]);
    if s.open[w].writes == [] { FirstWriteLocks(c, s, w); }
  }

  lemma {:induction false} WrittenIsKnown(sats: seq<Satellite>, writes: seq<Satellite>, i: nat)
    requires i < |writes|
    ensures Find(PutAll(sats, writes).0, writes[i].noradId).Some?
  {
    KnownIsStored(sats, writes, writes[i].noradId);
    KnownOfWrite(sats, writes, i);
  }

  lemma {:induction false} KnownOfWrite(sats: seq<Satellite>, writes: seq<Satellite>, i: nat)
    requires i < |writes|
    ensures Known(sats, writes, writes[i].noradId).Some?
  {
    if i < |writes| - 1 { KnownOfWrite(sats, writes[..|writes| - 1], i); }
  }

  /** A commit that changes the table leaves other transactions with nothing that they may write. */
  lemma OthersAreIdle(c: Config, s: State, w: Jobs.WorkerId, v: Jobs.WorkerId)
    requires Before(c, s) && Enabled(c, s, Commit(w)) && s.open[w].writes != []
    requires v in s.open && v != w && !FirstWriteUpdates(c)
    ensures Idle(c, Apply(c, s, Commit(w)), s.open[v])
  {
    var tx, writes := s.open[v], s.open[w].writes;
    assert c.feed[..|c.feed|] == c.feed;
    if tx.pending.Some? {
      FirstPending(c, c.start, tx);
      WrittenIsKnown(c.start, writes, 0);
    }
  }

  /** Before it has written anything, a transaction can only have decided on the first write. */
  lemma FirstPending(c: Config, sats: seq<Satellite>, tx: Transaction)
    requires AsIfAlone(c, sats, tx) && tx.writes == [] && tx.pending.Some?
    requires Writes(c.reader, sats, c.feed).Some? && Writes(c.reader, sats, c.feed).value != []
    ensures var row := Writes(c.reader, sats, c.feed).value[0];
            tx.pending == Some(Pending(row, Stored(sats, row.noradId).None?))
  {
    assert c.feed[..|c.feed|] == c.feed;
    WritesNext(c.reader, sats, c.feed, tx.next);
    SameFirstWrite(c, sats, tx.next + 1, |c.feed|);
  }

  lemma CommitBefore(c: Config, s: State, w: Jobs.WorkerId)
    requires RunsExclude(c) && Inv(c, s) && Before(c, s) && Enabled(c, s, Commit(w))
    ensures Before(c, Apply(c, s, Commit(w))) || Done(c, Apply(c, s, Commit(w)))
  {
    var s' := Apply(c, s, Commit(w));
    assert c.feed[..|c.feed|] == c.feed;
    if s.open[w].writes != [] {
      assert IsOutcome(c, s', s.open[w].begun);
      if c.job.RunBound() <= c.job.lease { NobodyElse(c, s, w); }
      forall v | v in s'.open ensures Idle(c, s', s'.open[v]) {
        OthersAreIdle(c, s, w, v);
      }
    }
  }

  /** Once the data is stored, agreeing records are all skipped. */
  lemma ReadDone(c: Config, s: State, tx: Transaction)
    requires Agree(c.reader, c.feed) && (exists begun :: IsOutcome(c, s, begun))
    requires Idle(c, s, tx) && CanRead(c, s.satellites, tx)
    ensures AfterRead(c, s.satellites, tx) == tx.(next := tx.next + 1)
  {
    StoredIsSkipped(c, tx.next);
  }

  /** Whatever agreeing writes a transaction has made on the outcome, it skips every record. */
  lemma StoredIsSkipped(c: Config, k: nat)
    requires Agree(c.reader, c.feed) && Writes(c.reader, c.start, c.feed).Some? && k < |c.feed|
    ensures var sats := PutAll(c.start, Writes(c.reader, c.start, c.feed).value).0;
            && c.reader.noradOf(c.feed[k].line1).Some?
            && Stored(sats, c.reader.noradOf(c.feed[k].line1).value) == Some(TleLines(c.feed[k]))
  {
    WritesAreIngest(c.reader, c.start, c.feed);
    RerunIsSilentIffAgree(c.reader, c.start, c.feed);
    NoWriteIffStored(c.reader, IngestAll(c.reader, c.start, c.feed).value.0, c.feed);
  }

  lemma StepBefore(c: Config, s: State, a: Action)
    requires RunsExclude(c) && Inv(c, s) && Before(c, s) && Enabled(c, s, a)
    ensures Before(c, Apply(c, s, a)) || Done(c, Apply(c, s, a))
  {
    if a.Commit? {
      CommitBefore(c, s, a.w);
    } else if a.Write? {
      WriteBefore(c, s, a.w);
    } else if a.Read? {
      ReadAlone(c, c.start, s.open[a.w]);
    } else if a.Open? {
      OpenAlone(c, c.start, s.jobs.clock);
    }
  }

  lemma StepDone(c: Config, s: State, a: Action)
    requires Agree(c.reader, c.feed) && Done(c, s) && Enabled(c, s, a)
    ensures Done(c, Apply(c, s, a))
  {
    var begun :| IsOutcome(c, s, begun);
    if a.Read? { ReadDone(c, s, s.open[a.w]); }
    assert IsOutcome(c, Apply(c, s, a), begun);
  }

  /** What each run finds in the data once it is stored: nothing new, if it could be stored. */
  predicate RunsRepeat(c: Config) {
    Agree(c.reader, c.feed) || Writes(c.reader, c.start, c.feed).None?
  }

  lemma {:induction false} RunKeepsInv(c: Config, s: State, run: seq<Action>)
    requires RunsExclude(c) && RunsRepeat(c)
    requires Inv(c, s) && CanRun(c, s, run)
    ensures Inv(c, After(c, s, run))
    decreases |run|
  {
    if run != [] {
      OpenStaysInRefresh(c, s, run[0]);
      if Before(c, s) { StepBefore(c, s, run[0]); } else { StepDone(c, s, run[0]); }
      if run[0].Job? { J.ReachableStep(c.job, s.jobs, run[0].a); }
      RunKeepsInv(c, Apply(c, s, run[0]), run[1..]);
    }
  }

  /** However often the job crashes, is recovered and runs again on the same data, with any number
      of workers: the database holds what it held before, or what a single ingest leaves. */
  lemma RerunsStoreOnce(c: Config, s: State)
    requires RunsExclude(c) && RunsRepeat(c)
    requires Reachable(c, s)
    ensures AtMostOnce(c, s)
  {
    var s0, run :| Init(c, s0) && CanRun(c, s0, run) && After(c, s0, run) == s;
    J.Begin(c.job, s0.jobs);
    RunKeepsInv(c, s0, run);
  }
}
