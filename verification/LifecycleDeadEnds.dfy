/** Three runs from the start of a process into the dead end of `LifecycleStuck`. */
module LifecycleDeadEnds {

  import opened Wrappers
  import opened Retention
  import opened Lifecycle
  import opened LifecycleStuck
  import opened LifecycleWitnesses

  const P := Pipeline(true, true)

  /** A process that knows the single execution "a"; its history does not matter. */
  predicate Alone(w: World, r: Record, cp: Checkpoint, tasks: seq<Task>) {
    && w.up && !w.recoverCalled && w.used == {"a"} && w.listed == ["a"]
    && w.records == map["a" := r] && w.store == map["a" := cp] && w.tasks == tasks
    && cp.generation <= r.generation
  }

  lemma MergeAlone(w: World, w1: World, r: Record, cp: Checkpoint, tasks: seq<Task>, x: Cell)
    requires Alone(w, r, cp, tasks) && w1 == w.(tasks := w1.tasks)
    requires x.id == "a" && !x.ended && x.cp.Some? && x.cp.value.generation <= x.r.generation
    ensures Alone(Merge(TINY, w1, x), x.r, x.cp.value, w1.tasks)
  {
  }

  lemma CellAlone(w: World, r: Record, cp: Checkpoint, tasks: seq<Task>)
    requires Alone(w, r, cp, tasks)
    ensures CellAt(w, "a") == Cell("a", r, Some(cp), [], false)
  {
  }

  lemma SavedCell(x: Cell, safe: bool)
    requires x.cp.Some? && x.cp.value.generation <= x.r.generation
    ensures var y := Save(x, safe, true);
            var r := x.r.(generation := x.r.generation + 1);
            y.id == x.id && y.r == r && y.cp == Some(Snapshot(r, safe)) && y.ended == x.ended
  {
  }

  lemma MovedCell(x: Cell, to: Status)
    requires x.cp.Some? && x.cp.value.generation <= x.r.generation && Legal(x.r.status, to) && !Terminal(to)
    ensures var r := x.r.(status := to, generation := x.r.generation + 1);
            Move(x, to, true).Some?
            && var y := Move(x, to, true).value;
            y.id == x.id && y.r == r && y.cp == Some(Snapshot(r, to == Planning)) && y.ended == x.ended
  {
    hide Legal;
    SavedCell(x.(r := x.r.(status := to)), to == Planning);
    hide Save;
  }

  function PausedRecord(r: Record): Record {
    r.(pipeline := Some(P), pendingApproval := Some("t"), pendingTask := Some("t"), status := AwaitingApproval,
       generation := r.generation + 2)
  }

  lemma PausedCell(r: Record, cp: Checkpoint)
    requires r.status.Running? && cp.generation <= r.generation
    ensures var x := Cell("a", r.(pipeline := Some(P)), Some(cp), [], false);
            var (y, settled) := Settle(x, PausedOn("t"), true, true);
            settled && y.id == "a" && !y.ended && y.r == PausedRecord(r) && y.cp == Some(Snapshot(PausedRecord(r), false))
  {
    var r0 := r.(pipeline := Some(P), pendingApproval := Some("t"), pendingTask := Some("t"));
    var x0 := Cell("a", r0, Some(cp), [], false);
    MovedCell(x0, AwaitingApproval);
    SavedCell(Move(x0, AwaitingApproval, true).value, false);
    hide Move;
    hide Save;
  }

  lemma NoCallsIn(w: World, a: Action)
    requires !a.BeginInitial? && !a.BeginResume?
    ensures Apply(TINY, w, Act(a)) == Core(TINY, w, a)
  {
    hide Core;
    assert Core(TINY, w, a).log + [] == Core(TINY, w, a).log;
  }

  lemma LogAlone(w: World, log: seq<Event>, r: Record, cp: Checkpoint, tasks: seq<Task>)
    requires Alone(w, r, cp, tasks)
    ensures Alone(w.(log := log), r, cp, tasks)
  {
  }

  // ---------------------------------------------------------------- the steps

  const WAIT := Action.Enqueue(0)
  const BEGIN := Action.BeginInitial(0, true)
  const PAUSE := Action.InitialReturns(0, P, PausedOn("t"), true, true, true, true)

  function Decision0(d: Decision): Action { Action.Submit("a", "t", Some(d), true, true, true) }

  lemma EnqueueAlone(w: World, r: Record, cp: Checkpoint)
    requires Alone(w, r, cp, [Job0(Ready)])
    ensures Alone(Apply(TINY, w, Act(WAIT)), r, cp, [Job0(Queued)])
  {
    NoCallsIn(w, WAIT);
    assert [Job0(Ready)][0 := Job0(Queued)] == [Job0(Queued)];
  }

  function RunningRecord(r: Record): Record { r.(status := Running, generation := r.generation + 1) }

  lemma BeginAlone(w: World, r: Record, cp: Checkpoint)
    requires Alone(w, r, cp, [Job0(Queued)]) && r.status.Planning? && !r.cancelSet
    ensures Alone(Apply(TINY, w, Act(BEGIN)), RunningRecord(r), Snapshot(RunningRecord(r), false), [Job0(InPipeline)])
  {
    hide Merge;
    hide Save;
    hide Move;
    hide Calls;
    CellAlone(w, r, cp, [Job0(Queued)]);
    var x := CellAt(w, "a");
    MovedCell(x, Running);
    var w1 := SetPhase(w, 0, InPipeline);
    assert w1.tasks == [Job0(InPipeline)];
    var y := Move(x, Running, true).value;
    MergeAlone(w, w1, r, cp, [Job0(Queued)], y);
    LogAlone(Merge(TINY, w1, y), Apply(TINY, w, Act(BEGIN)).log, y.r, y.cp.value, w1.tasks);
  }

  lemma PauseAlone(w: World, r: Record, cp: Checkpoint)
    requires Alone(w, r, cp, [Job0(InPipeline)]) && r.status.Running?
    ensures Alone(Apply(TINY, w, Act(PAUSE)), PausedRecord(r), Snapshot(PausedRecord(r), false), [Job0(Done)])
  {
    hide Merge;
    hide Settle;
    NoCallsIn(w, PAUSE);
    CellAlone(w, r, cp, [Job0(InPipeline)]);
    PausedCell(r, cp);
    var w1 := SetPhase(w, 0, Done);
    assert w1.tasks == [Job0(Done)];
    MergeAlone(w, w1, r, cp, [Job0(InPipeline)], Settle(Cell("a", r.(pipeline := Some(P)), Some(cp), [], false), PausedOn("t"), true, true).0);
  }

  function Resumer(d: Decision, phase: Phase): Task { Task("a", Resume("t", d), phase, false) }

  function DecidedRecord(r: Record, d: Decision): Record {
    var q := r.(resolved := r.resolved + {"t"}, task := Some(1));
    if d.Deny? then q.(generation := r.generation + 1) else q.(generation := r.generation + 3, status := Running)
  }

  lemma DecidedCell(r: Record, cp: Checkpoint, d: Decision)
    requires r.status.AwaitingApproval? && cp.generation <= r.generation
    ensures var x := Decide(Cell("a", r, Some(cp), [], false), "t", d, true, true, true);
            x.Some? && x.value.id == "a" && !x.value.ended && x.value.r.(task := Some(1)) == DecidedRecord(r, d)
            && x.value.cp == Some(Snapshot(DecidedRecord(r, d), false))
  {
    hide Save;
    hide Move;
    var x := Cell("a", r.(resolved := r.resolved + {"t"}), Some(cp), [], false);
    SavedCell(x, false);
    var y := Save(x, false, true);
    if d.Allow? {
      MovedCell(y, Approved);
      MovedCell(Move(y, Approved, true).value, Running);
    }
  }

  lemma SpawnAlone(w: World, r: Record, cp: Checkpoint, tasks: seq<Task>, job: Job)
    requires Alone(w, r, cp, tasks)
    ensures Alone(Spawn(w, "a", job), r.(task := Some(|tasks|)), cp, tasks + [Task("a", job, Ready, false)])
  {
  }

  lemma DecideAlone(w: World, r: Record, cp: Checkpoint, d: Decision)
    requires Alone(w, r, cp, [Job0(Done)]) && r.status.AwaitingApproval? && r.pendingApproval == Some("t")
    requires "t" !in r.resolved && r.pipeline.Some? && r.pendingTask.Some?
    ensures Alone(Apply(TINY, w, Act(Decision0(d))), DecidedRecord(r, d), Snapshot(DecidedRecord(r, d), false), [Job0(Done), Resumer(d, Ready)])
  {
    hide Merge;
    hide Decide;
    NoCallsIn(w, Decision0(d));
    CellAlone(w, r, cp, [Job0(Done)]);
    DecidedCell(r, cp, d);
    var x := Decide(Cell("a", r, Some(cp), [], false), "t", d, true, true, true).value;
    assert CanSubmit(w, "a", "t");
    MergeAlone(w, w, r, cp, [Job0(Done)], x);
    SpawnAlone(Merge(TINY, w, x), x.r, x.cp.value, [Job0(Done)], Resume("t", d));
    assert [Job0(Done)] + [Resumer(d, Ready)] == [Job0(Done), Resumer(d, Ready)];
  }

  lemma ResumeAlone(w: World, r: Record, cp: Checkpoint, d: Decision)
    requires Alone(w, r, cp, [Job0(Done), Resumer(d, Ready)])
    ensures Alone(Apply(TINY, w, Act(BeginResume(1))), r, cp, [Job0(Done), Resumer(d, InPipeline)])
  {
    hide Calls;
    assert w.tasks[1 := Resumer(d, InPipeline)] == [Job0(Done), Resumer(d, InPipeline)];
    assert Core(TINY, w, BeginResume(1)) == SetPhase(w, 1, InPipeline);
    LogAlone(SetPhase(w, 1, InPipeline), Apply(TINY, w, Act(BeginResume(1))).log, r, cp, [Job0(Done), Resumer(d, InPipeline)]);
  }

  lemma RaiseAlone(w: World, r: Record, cp: Checkpoint)
    requires Alone(w, r, cp, [Job0(Done), Resumer(Deny, InPipeline)]) && r.status.AwaitingApproval?
    ensures Alone(Apply(TINY, w, Act(ResumeRaises(1, Failed, true))), r, cp, [Job0(Done), Resumer(Deny, Done)])
  {
    hide Merge;
    NoCallsIn(w, ResumeRaises(1, Failed, true));
    CellAlone(w, r, cp, w.tasks);
    var w1 := SetPhase(w, 1, Done);
    assert w1.tasks == [Job0(Done), Resumer(Deny, Done)];
    MergeAlone(w, w1, r, cp, w.tasks, CellAt(w, "a"));
  }

  lemma PauseAgain(w: World, r: Record, cp: Checkpoint)
    requires Alone(w, r, cp, [Job0(Done), Resumer(Allow, InPipeline)]) && r.status.Running?
    ensures Alone(Apply(TINY, w, Act(ResumeReturns(1, P, PausedOn("t"), true, true, true))),
                  PausedRecord(r), Snapshot(PausedRecord(r), false), [Job0(Done), Resumer(Allow, Done)])
  {
    hide Merge;
    hide Settle;
    NoCallsIn(w, ResumeReturns(1, P, PausedOn("t"), true, true, true));
    CellAlone(w, r, cp, w.tasks);
    PausedCell(r, cp);
    var w1 := SetPhase(w, 1, Done);
    assert w1.tasks == [Job0(Done), Resumer(Allow, Done)];
    MergeAlone(w, w1, r, cp, w.tasks, Settle(Cell("a", r.(pipeline := Some(P)), Some(cp), [], false), PausedOn("t"), true, true).0);
  }

  // ---------------------------------------------------------------- the runs

  /** Stuck in memory and in the store, with no resume task left. */
  predicate DeadEnd(w: World) {
    && "a" in w.records && StuckRecord(w.records["a"], "t") && StuckInStore(w, "a", "t")
    && (forall t :: 0 <= t < |w.tasks| && w.tasks[t].id == "a" && w.tasks[t].job.Resume? ==> w.tasks[t].phase.Done?)
  }

  function UpTo(d: Decision, more: seq<Step>): seq<Step> {
    [Act(Start("a", true, true))] + ([Act(WAIT)] + ([Act(BEGIN)] + ([Act(PAUSE)] + ([Act(Decision0(d))] + more))))
  }

  const R0 := Record(Planning, None, None, None, {}, Some(0), false, 2, false)
  const R1 := PausedRecord(RunningRecord(R0))

  /** A decision has been taken and its resume task is about to start. */
  lemma Reached(d: Decision, more: seq<Step>) returns (w: World)
    ensures Alone(w, DecidedRecord(R1, d), Snapshot(DecidedRecord(R1, d), false), [Job0(Done), Resumer(d, Ready)])
    ensures Exec(TINY, BOOT, UpTo(d, more)) == Exec(TINY, w, more)
    ensures ProperRun(TINY, BOOT, UpTo(d, more)) <==> ProperRun(TINY, w, more)
  {
    hide Apply;
    hide Proper;
    hide Exec;
    hide ProperRun;
    var s0, s1, s2, s3, s4 := Act(Start("a", true, true)), Act(WAIT), Act(BEGIN), Act(PAUSE), Act(Decision0(d));
    var m4 := [s4] + more;
    var m3 := [s3] + m4;
    var m2 := [s2] + m3;
    var m1 := [s1] + m2;
    StartIt();
    ProperSteps(d);
    var w0 := Apply(TINY, BOOT, s0);
    Compose(TINY, BOOT, s0, m1);
    var w1 := Apply(TINY, w0, s1);
    EnqueueAlone(w0, R0, Cp(Planning, 2, true));
    Compose(TINY, w0, s1, m2);
    var w2 := Apply(TINY, w1, s2);
    BeginAlone(w1, R0, Cp(Planning, 2, true));
    Compose(TINY, w1, s2, m3);
    var w3 := Apply(TINY, w2, s3);
    PauseAlone(w2, RunningRecord(R0), Snapshot(RunningRecord(R0), false));
    Compose(TINY, w2, s3, m4);
    w := Apply(TINY, w3, s4);
    DecideAlone(w3, R1, Snapshot(R1, false), d);
    Compose(TINY, w3, s4, more);
  }

  lemma ProperSteps(d: Decision)
    ensures Proper(BOOT, Act(Start("a", true, true)))
    ensures forall w :: Proper(w, Act(WAIT)) && Proper(w, Act(BEGIN)) && Proper(w, Act(PAUSE)) && Proper(w, Act(Decision0(d)))
  {
  }

  lemma TwoMore(w: World, s: Step, t: Step)
    requires Proper(w, s) && Proper(Apply(TINY, w, s), t)
    ensures Exec(TINY, w, [s] + ([t] + [])) == Apply(TINY, Apply(TINY, w, s), t)
    ensures ProperRun(TINY, w, [s] + ([t] + []))
  {
    hide Apply;
    hide Proper;
    Compose(TINY, w, s, [t] + []);
    Compose(TINY, Apply(TINY, w, s), t, []);
  }

  /** A refused approval whose resume raises. */
  lemma RefusalRaises()
    ensures var steps := UpTo(Deny, [Act(BeginResume(1))] + ([Act(ResumeRaises(1, Failed, true))] + []));
            ProperRun(TINY, BOOT, steps) && DeadEnd(Exec(TINY, BOOT, steps))
  {
    hide Apply;
    var s, t := Act(BeginResume(1)), Act(ResumeRaises(1, Failed, true));
    var w := Reached(Deny, [s] + ([t] + []));
    hide Exec;
    hide ProperRun;
    var r := DecidedRecord(R1, Deny);
    TwoMore(w, s, t);
    ResumeAlone(w, r, Snapshot(r, false), Deny);
    RaiseAlone(Apply(TINY, w, s), r, Snapshot(r, false));
  }

  lemma RestartAlone(w: World, r: Record)
    requires Alone(w, r, Snapshot(r, false), w.tasks) && StuckRecord(r, "t")
    ensures Proper(w, DieDuring(Idle)) && Proper(Apply(TINY, w, DieDuring(Idle)), Restart(["a"]))
    ensures DeadEnd(Apply(TINY, Apply(TINY, w, DieDuring(Idle)), Restart(["a"])))
  {
    var v := Die(w);
    assert Apply(TINY, w, DieDuring(Idle)) == v;
    assert CanRestart(v, ["a"]);
    var u := Reboot(TINY, v, ["a"]);
    assert u.records == map["a" := Restore(Snapshot(r, false))];
    hide PruneHistory;
  }

  /** A refusal that is recorded, and the process dead before its resume ends. */
  lemma RefusalOutlivesProcess()
    ensures var steps := UpTo(Deny, [DieDuring(Idle)] + ([Restart(["a"])] + []));
            ProperRun(TINY, BOOT, steps) && DeadEnd(Exec(TINY, BOOT, steps))
  {
    hide Apply;
    hide Proper;
    var s, t := DieDuring(Idle), Restart(["a"]);
    var w := Reached(Deny, [s] + ([t] + []));
    hide Exec;
    hide ProperRun;
    RestartAlone(w, DecidedRecord(R1, Deny));
    TwoMore(w, s, t);
  }

  /** An approved execution that pauses a second time on the same task. */
  lemma SecondPauseOnTheSameTask()
    ensures var steps := UpTo(Allow, [Act(BeginResume(1))] + ([Act(ResumeReturns(1, P, PausedOn("t"), true, true, true))] + []));
            ProperRun(TINY, BOOT, steps) && DeadEnd(Exec(TINY, BOOT, steps))
  {
    hide Apply;
    var s, t := Act(BeginResume(1)), Act(ResumeReturns(1, P, PausedOn("t"), true, true, true));
    var w := Reached(Allow, [s] + ([t] + []));
    hide Exec;
    hide ProperRun;
    var r := DecidedRecord(R1, Allow);
    TwoMore(w, s, t);
    ResumeAlone(w, r, Snapshot(r, false), Allow);
    PauseAgain(Apply(TINY, w, s), r, Snapshot(r, false));
  }
}
