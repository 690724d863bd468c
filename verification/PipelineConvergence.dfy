/** That predictions catch up once ingests pause: what is owed is worked off, by success or as a
    dead letter, and not before it is does the outbox come to rest. */
module PipelineConvergence {
  import opened Wrappers
  import opened Outbox
  import opened Ingest
  import opened Pipeline
  import P = OutboxProtocol
  import G = OutboxProgress

  /** No ingest commits and nobody publishes. */
  predicate Quiet(run: seq<Action>) {
    forall i :: 0 <= i < |run| ==> !run[i].IngestCommit? && !(run[i].Other? && run[i].a.Publish?)
  }

  function Commits(run: seq<Action>): nat {
    if run == [] then 0 else (if run[0].Other? && run[0].a.Commit? then 1 else 0) + Commits(run[1..])
  }

  // The outbox part of a run is a run of the outbox, and the outbox may go on by itself.

  ghost function Project(c: Config, s: State, run: seq<Action>): seq<P.Action>
    requires CanRun(c, s, run)
    decreases |run|
  {
    if run == [] then []
    else
      var b, rest := OutboxStep(c, s, run[0]), Project(c, Apply(c, s, run[0]), run[1..]);
      if b.Some? then [b.value] + rest else rest
  }

  lemma StepProjects(c: Config, s: State, a: Action)
    requires Enabled(c, s, a)
    ensures match OutboxStep(c, s, a)
            case None => Apply(c, s, a).outbox == s.outbox && Commits([a]) == 0
            case Some(b) =>
              && P.Enabled(c.reg, s.outbox, b) && Apply(c, s, a).outbox == P.Apply(c.reg, s.outbox, b)
              && (b.Commit? <==> a.Other? && a.a.Commit?)
              && (b.Publish? ==> a.IngestCommit? || (a.Other? && a.a.Publish?))
  {
  }

  lemma {:induction false} ProjectionRuns(c: Config, s: State, run: seq<Action>)
    requires CanRun(c, s, run)
    ensures P.CanRun(c.reg, s.outbox, Project(c, s, run))
    ensures P.After(c.reg, s.outbox, Project(c, s, run)) == After(c, s, run).outbox
    ensures P.Commits(Project(c, s, run)) == Commits(run)
    ensures Quiet(run) ==> P.NoPublish(Project(c, s, run))
    decreases |run|
  {
    if run != [] {
      var b, s1 := OutboxStep(c, s, run[0]), Apply(c, s, run[0]);
      ProjectionRuns(c, s1, run[1..]);
      StepProjects(c, s, run[0]);
      if b.Some? {
        G.StartWith(c.reg, s.outbox, b.value, Project(c, s1, run[1..]));
      }
    }
  }

  function Lift(run: seq<P.Action>): seq<Action> {
    if run == [] then [] else [Other(run[0])] + Lift(run[1..])
  }

  lemma {:induction false} LiftRuns(c: Config, s: State, run: seq<P.Action>)
    requires P.CanRun(c.reg, s.outbox, run) && G.AtWorst(run)
    ensures CanRun(c, s, Lift(run)) && Quiet(Lift(run)) && Commits(Lift(run)) == P.Commits(run)
    ensures After(c, s, Lift(run)).outbox == P.After(c.reg, s.outbox, run)
    decreases |run|
  {
    if run != [] {
      assert Enabled(c, s, Other(run[0]));
      LiftRuns(c, Apply(c, s, Other(run[0])), run[1..]);
      assert Lift(run)[1..] == Lift(run[1..]);
    }
  }

  // Drain and progress.

  predicate Settled(s: State) { P.Settled(s.outbox.rows) }

  lemma QuietRunDrains(c: Config, s: State, run: seq<Action>)
    requires P.Base(c.reg, s.outbox) && CanRun(c, s, run) && Quiet(run)
    ensures Commits(run) + TotalLeft(After(c, s, run).outbox.rows) <= TotalLeft(s.outbox.rows)
  {
    ProjectionRuns(c, s, run);
    P.RunUsesAttempts(c.reg, s.outbox, Project(c, s, run));
  }

  /** Some quiet continuation commits another attempt. */
  ghost predicate MayCommit(c: Config, s: State) {
    exists run :: CanRun(c, s, run) && Quiet(run) && Commits(run) > 0
  }

  lemma MayCommitIffPending(c: Config, s: State)
    requires P.Base(c.reg, s.outbox) && s.outbox.workers != map[]
    ensures MayCommit(c, s) <==> !Settled(s)
  {
    if Settled(s) {
      P.SettledIffNothingLeft(s.outbox.rows);
      forall run | CanRun(c, s, run) && Quiet(run) ensures Commits(run) == 0 {
        QuietRunDrains(c, s, run);
      }
    } else {
      var run := G.NextCommit(c.reg, s.outbox);
      LiftRuns(c, s, run);
    }
  }

  lemma MaySettle(c: Config, s: State) returns (run: seq<Action>)
    requires P.Base(c.reg, s.outbox) && s.outbox.workers != map[]
    ensures CanRun(c, s, run) && Quiet(run) && Settled(After(c, s, run))
  {
    var rest := G.ComesToRest(c.reg, s.outbox);
    LiftRuns(c, s, rest);
    run := Lift(rest);
  }

  // The results.

  /** The newest refresh event of the satellite is a dead letter. */
  ghost predicate DeadLettered(s: State, id: SatId) {
    exists e: EventId :: Newest(s, id, e) && s.outbox.rows[e].status == FAILED
  }

  /** Every satellite has predictions of its present TLE, or a dead letter that says it has not. */
  ghost predicate CaughtUp(c: Config, s: State) {
    forall id :: 0 <= id < |s.satellites| ==> Fresh(c, s, id) || DeadLettered(s, id)
  }

  lemma SettledIsCaughtUp(c: Config, s: State)
    requires Inv(c, s) && Settled(s)
    ensures CaughtUp(c, s)
  {
    forall id | 0 <= id < |s.satellites| ensures Fresh(c, s, id) || DeadLettered(s, id) {
      assert Covered(c, s, id);
      if !Fresh(c, s, id) {
        var e: EventId :| Covering(s, id, e);
        assert s.outbox.rows[e].status == FAILED;
      }
    }
  }

  /** From a state of the invariant, whatever the outcomes and crashes, as long as refreshes of
      one satellite do not overlap: a quiet run commits at most as many attempts as were left,
      and once it can commit no more, every satellite has caught up. */
  lemma QuietRunConverges(c: Config, s: State, run: seq<Action>)
    requires Registered(c) && Inv(c, s) && s.outbox.workers != map[]
    requires CanRun(c, s, run) && AlwaysSerial(c, s, run) && Quiet(run)
    ensures Commits(run) <= TotalLeft(s.outbox.rows)
    ensures MayCommit(c, After(c, s, run)) <==> !Settled(After(c, s, run))
    ensures !MayCommit(c, After(c, s, run)) ==> CaughtUp(c, After(c, s, run))
  {
    var s' := After(c, s, run);
    RunKeepsInv(c, s, run);
    RunKeepsWorkers(c, s, run);
    QuietRunDrains(c, s, run);
    MayCommitIffPending(c, s');
    if Settled(s') { SettledIsCaughtUp(c, s'); }
  }

  /** With one outbox worker, after any run at all: a quiet continuation commits at most as many
      attempts as were left, the worker can commit another one exactly as long as an event is
      PENDING, once it cannot every satellite has caught up, and it can always get there. */
  lemma ConvergesWithOneWorker(c: Config, s0: State, run: seq<Action>, rest: seq<Action>)
    requires Registered(c)
    requires Init(s0) && |s0.outbox.workers.Keys| == 1 && CanRun(c, s0, run)
    requires CanRun(c, After(c, s0, run), rest) && Quiet(rest)
    ensures Commits(rest) <= TotalLeft(After(c, s0, run).outbox.rows)
    ensures var s := After(c, After(c, s0, run), rest);
            && (MayCommit(c, s) <==> !Settled(s))
            && (!MayCommit(c, s) ==> CaughtUp(c, s))
            && exists more :: CanRun(c, s, more) && Quiet(more)
                              && !MayCommit(c, After(c, s, more)) && CaughtUp(c, After(c, s, more))
  {
    var s1 := After(c, s0, run);
    OneWorkerConverges(c, s0, run);
    OneWorkerIsSerial(c, s1, rest);
    QuietRunConverges(c, s1, rest);
    var s := After(c, s1, rest);
    RunKeepsInv(c, s1, rest);
    RunKeepsWorkers(c, s1, rest);
    var more := MaySettle(c, s);
    OneWorkerIsSerial(c, s, more);
    QuietRunConverges(c, s, more);
  }

  lemma OneWorkerConverges(c: Config, s0: State, run: seq<Action>)
    requires Registered(c)
    requires Init(s0) && |s0.outbox.workers.Keys| == 1 && CanRun(c, s0, run)
    ensures Inv(c, After(c, s0, run)) && |After(c, s0, run).outbox.workers.Keys| == 1
    ensures After(c, s0, run).outbox.workers != map[]
  {
    OneWorkerIsSerial(c, s0, run);
    RunKeepsInv(c, s0, run);
    RunKeepsWorkers(c, s0, run);
    HasWorkers(After(c, s0, run));
  }

  lemma HasWorkers(s: State)
    requires |s.outbox.workers.Keys| == 1
    ensures s.outbox.workers != map[]
  {
  }

  lemma {:induction false} RunKeepsWorkers(c: Config, s: State, run: seq<Action>)
    requires CanRun(c, s, run)
    ensures After(c, s, run).outbox.workers.Keys == s.outbox.workers.Keys
    ensures s.outbox.workers != map[] ==> After(c, s, run).outbox.workers != map[]
    decreases |run|
  {
    if run != [] {
      WorkersKept(c, s, run[0]);
      RunKeepsWorkers(c, Apply(c, s, run[0]), run[1..]);
    }
  }
}
