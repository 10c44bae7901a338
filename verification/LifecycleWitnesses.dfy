/** Concrete runs that show why the hypotheses of the run theorems are needed. */
module LifecycleWitnesses {

  import opened Wrappers
  import opened Retention
  import opened Lifecycle
  import opened LifecycleRuns
  import opened LifecyclePerfect

  const TINY := Config(1, 0, 1)

  function Rec(status: Status, generation: nat, task: Option<nat>, recovered: bool): Record {
    Record(status, None, None, None, {}, task, false, generation, recovered)
  }

  function Cp(status: Status, generation: nat, safe: bool): Checkpoint {
    Checkpoint(generation, status, None, None, None, {}, safe)
  }

  /** A process that knows the single execution "a". */
  function Solo(cp: Checkpoint, r: Record, tasks: seq<Task>, recoverCalled: bool, restored: nat, log: seq<Event>): World {
    World(true, map["a" := cp], map["a" := r], ["a"], tasks, recoverCalled, restored, {"a"}, log)
  }

  function Job0(phase: Phase): Task { Task("a", Initial, phase, false) }

  const STARTED := [Saved("a", true), Saved("a", true)]

  lemma StartIt()
    ensures Apply(TINY, BOOT, Act(Start("a", true, true)))
            == Solo(Cp(Planning, 2, true), Rec(Planning, 2, Some(0), false), [Job0(Ready)], false, 0, STARTED)
  {
  }

  lemma RestartIt(w: World)
    requires !w.up && w.store == map["a" := Cp(Planning, 2, true)] && w.used == {"a"}
    requires w.tasks == [] && !w.recoverCalled
    ensures Apply(TINY, w, Restart(["a"]))
            == Solo(Cp(Planning, 2, true), Rec(Recovering, 2, None, true), [], false, 1, w.log)
  {
    var order := ["a"];
    var records := map id | id in order :: Restore(w.store[id]);
    assert records == map["a" := Rec(Recovering, 2, None, true)];
    assert TerminalIds(records) == {} && OpenIds(records) == {"a"};
    assert order[1..] == [];
  }

  lemma RecoverIt(r: Record, tasks: seq<Task>, called: bool, log: seq<Event>)
    requires r.status.Recovering?
    ensures Apply(TINY, Solo(Cp(Planning, 2, true), r, tasks, called, 1, log), Act(Recover))
            == Solo(Cp(Planning, 2, true), r.(task := Some(|tasks|)), tasks + [Job0(Ready)], true, 1, log)
  {
    var w := Solo(Cp(Planning, 2, true), r, tasks, called, 1, log).(recoverCalled := true);
    assert ["a"][1..] == [];
    assert RecoverPending(w, ["a"]) == RecoverPending(Spawn(w, "a", Initial), ["a"][1..]);
  }

  lemma EnqueueIt(cp: Checkpoint, r: Record, tasks: seq<Task>, called: bool, restored: nat, log: seq<Event>, t: nat)
    requires t < |tasks| && tasks[t] == Job0(Ready)
    ensures Apply(TINY, Solo(cp, r, tasks, called, restored, log), Act(Enqueue(t)))
            == Solo(cp, r, tasks[t := Job0(Queued)], called, restored, log)
  {
  }

  function Begun(r: Record): Record { r.(status := Running, generation := 3) }

  lemma EnterIt(r: Record, tasks: seq<Task>, called: bool, restored: nat, log: seq<Event>, t: nat, ok: bool)
    requires t < |tasks| && tasks[t] == Job0(Queued)
    requires r.generation == 2 && (r.status.Planning? || r.status.Recovering?) && !r.cancelSet
    ensures EnterInitial(TINY, Solo(Cp(Planning, 2, true), r, tasks, called, restored, log), t, ok)
            == Solo(if ok then Snapshot(Begun(r), false) else Cp(Planning, 2, true), Begun(r),
                    tasks[t := Job0(InPipeline)], called, restored, log + (if ok then [Saved("a", false)] else []))
  {
  }

  lemma BeginIt(r: Record, tasks: seq<Task>, called: bool, restored: nat, log: seq<Event>, t: nat, ok: bool)
    requires t < |tasks| && tasks[t] == Job0(Queued)
    requires r.generation == 2 && (r.status.Planning? || r.status.Recovering?) && !r.cancelSet && r.pipeline.None?
    ensures Apply(TINY, Solo(Cp(Planning, 2, true), r, tasks, called, restored, log), Act(BeginInitial(t, ok)))
            == Solo(if ok then Snapshot(Begun(r), false) else Cp(Planning, 2, true), Begun(r),
                    tasks[t := Job0(InPipeline)], called, restored,
                    log + (if ok then [Saved("a", false)] else []) + [Invoked("a", RunPipeline, ok)])
  {
    EnterIt(r, tasks, called, restored, log, t, ok);
    hide EnterInitial;
  }

  /** A second task of a running execution calls the pipeline again and saves nothing. */
  lemma BeginAgain(cp: Checkpoint, r: Record, tasks: seq<Task>, log: seq<Event>, t: nat)
    requires t < |tasks| && tasks[t] == Job0(Queued) && r.status.Running? && !r.cancelSet && r.pipeline.None? && !cp.safe
    ensures Apply(TINY, Solo(cp, r, tasks, true, 1, log), Act(BeginInitial(t, true)))
            == Solo(cp, r, tasks[t := Job0(InPipeline)], true, 1, log + [Invoked("a", RunPipeline, true)])
  {
    var w := Solo(cp, r, tasks, true, 1, log);
    assert EnterInitial(TINY, w, t, true) == Solo(cp, r, tasks[t := Job0(InPipeline)], true, 1, log);
    hide EnterInitial;
  }

  lemma DieIt(w: World)
    requires w.up
    ensures Apply(TINY, w, DieDuring(Idle)) == Die(w)
  {
  }

  lemma Compose(c: Config, w: World, s: Step, steps: seq<Step>)
    ensures Exec(c, w, [s] + steps) == Exec(c, Apply(c, w, s), steps)
    ensures ProperRun(c, w, [s] + steps) <==> Proper(w, s) && ProperRun(c, Apply(c, w, s), steps)
  {
    assert ([s] + steps)[1..] == steps;
  }

  lemma NotSeparated(log: seq<Event>, i: nat, j: nat, id: Id)
    requires i < j < |log| && log[i].Invoked? && log[j].Invoked? && log[i].id == id == log[j].id
    requires forall k :: i < k < j ==> log[k] != Saved(id, true)
    ensures !AlwaysSeparated(log)
  {
    assert !SafeBetween(log, i, j, log[i].id);
  }

  /** One failed save is enough: the running checkpoint is lost, the process dies, and the
      planning checkpoint, still marked safe, lets the pipeline run again. */
  lemma LostSaveReplays()
    ensures var steps := [Act(Start("a", true, true))] + ([Act(Enqueue(0))] + ([Act(BeginInitial(0, false))] +
                         ([DieDuring(Idle)] + ([Restart(["a"])] + ([Act(Recover)] + ([Act(Enqueue(0))] +
                         ([Act(BeginInitial(0, true))] + [])))))));
            ProperRun(TINY, BOOT, steps) && !AlwaysSeparated(Exec(TINY, BOOT, steps).log)
  {
    hide Apply;
    var r7 := [Act(BeginInitial(0, true))] + [];
    var r6 := [Act(Enqueue(0))] + r7;
    var r5 := [Act(Recover)] + r6;
    var r4 := [Restart(["a"])] + r5;
    var r3 := [DieDuring(Idle)] + r4;
    var r2 := [Act(BeginInitial(0, false))] + r3;
    var r1 := [Act(Enqueue(0))] + r2;
    var safe := Cp(Planning, 2, true);
    var r := Rec(Planning, 2, Some(0), false);
    Compose(TINY, BOOT, Act(Start("a", true, true)), r1);
    StartIt();
    EnqueueIt(safe, r, [Job0(Ready)], false, 0, STARTED, 0);
    Compose(TINY, Solo(safe, r, [Job0(Ready)], false, 0, STARTED), Act(Enqueue(0)), r2);
    assert [Job0(Ready)][0 := Job0(Queued)] == [Job0(Queued)] && [Job0(Queued)][0 := Job0(InPipeline)] == [Job0(InPipeline)];
    BeginIt(r, [Job0(Queued)], false, 0, STARTED, 0, false);
    Compose(TINY, Solo(safe, r, [Job0(Queued)], false, 0, STARTED), Act(BeginInitial(0, false)), r3);
    var log3 := STARTED + [] + [Invoked("a", RunPipeline, false)];
    var w3 := Solo(safe, Begun(r), [Job0(InPipeline)], false, 0, log3);
    DieIt(w3);
    Compose(TINY, w3, DieDuring(Idle), r4);
    var log4 := log3 + [Crashed];
    RestartIt(Die(w3));
    Compose(TINY, Die(w3), Restart(["a"]), r5);
    var q := Rec(Recovering, 2, None, true);
    RecoverIt(q, [], false, log4);
    Compose(TINY, Solo(safe, q, [], false, 1, log4), Act(Recover), r6);
    var q' := q.(task := Some(0));
    assert [] + [Job0(Ready)] == [Job0(Ready)];
    EnqueueIt(safe, q', [Job0(Ready)], true, 1, log4, 0);
    Compose(TINY, Solo(safe, q', [Job0(Ready)], true, 1, log4), Act(Enqueue(0)), r7);
    BeginIt(q', [Job0(Queued)], true, 1, log4, 0, true);
    Compose(TINY, Solo(safe, q', [Job0(Queued)], true, 1, log4), Act(BeginInitial(0, true)), []);
    var log := log4 + [Saved("a", false)] + [Invoked("a", RunPipeline, true)];
    assert log == [Saved("a", true), Saved("a", true), Invoked("a", RunPipeline, false), Crashed, Saved("a", false),
                   Invoked("a", RunPipeline, true)];
    NotSeparated(log, 2, 5, "a");
  }

  /** Calling `recover_pending` a second time in one process gives a recovering execution
      two tasks, and its pipeline runs twice although every save succeeds. */
  lemma SecondRecoverReplays()
    ensures var steps := [Act(Start("a", true, true))] + ([DieDuring(Idle)] + ([Restart(["a"])] + ([Act(Recover)] +
                         ([Act(Recover)] + ([Act(Enqueue(0))] + ([Act(BeginInitial(0, true))] +
                         ([Act(Enqueue(1))] + ([Act(BeginInitial(1, true))] + []))))))));
            AllSave(steps) && !AlwaysSeparated(Exec(TINY, BOOT, steps).log)
  {
    hide Apply;
    hide AlwaysSeparated;
    hide Proper;
    var r8 := [Act(BeginInitial(1, true))] + [];
    var r7 := [Act(Enqueue(1))] + r8;
    var r6 := [Act(BeginInitial(0, true))] + r7;
    var r5 := [Act(Enqueue(0))] + r6;
    var r4 := [Act(Recover)] + r5;
    var r3 := [Act(Recover)] + r4;
    var r2 := [Restart(["a"])] + r3;
    var r1 := [DieDuring(Idle)] + r2;
    var safe := Cp(Planning, 2, true);
    var w1 := Solo(safe, Rec(Planning, 2, Some(0), false), [Job0(Ready)], false, 0, STARTED);
    Compose(TINY, BOOT, Act(Start("a", true, true)), r1);
    StartIt();
    DieIt(w1);
    Compose(TINY, w1, DieDuring(Idle), r2);
    RestartIt(Die(w1));
    Compose(TINY, Die(w1), Restart(["a"]), r3);
    var log := STARTED + [Crashed];
    var q := Rec(Recovering, 2, None, true);
    RecoverIt(q, [], false, log);
    Compose(TINY, Solo(safe, q, [], false, 1, log), Act(Recover), r4);
    var q1 := q.(task := Some(0));
    RecoverIt(q1, [] + [Job0(Ready)], true, log);
    Compose(TINY, Solo(safe, q1, [] + [Job0(Ready)], true, 1, log), Act(Recover), r5);
    var q2 := q1.(task := Some(1));
    var ts := [] + [Job0(Ready)] + [Job0(Ready)];
    EnqueueIt(safe, q2, ts, true, 1, log, 0);
    Compose(TINY, Solo(safe, q2, ts, true, 1, log), Act(Enqueue(0)), r6);
    var us := ts[0 := Job0(Queued)];
    BeginIt(q2, us, true, 1, log, 0, true);
    Compose(TINY, Solo(safe, q2, us, true, 1, log), Act(BeginInitial(0, true)), r7);
    var log2 := log + [Saved("a", false)] + [Invoked("a", RunPipeline, true)];
    var cp := Snapshot(Begun(q2), false);
    var vs := us[0 := Job0(InPipeline)];
    EnqueueIt(cp, Begun(q2), vs, true, 1, log2, 1);
    Compose(TINY, Solo(cp, Begun(q2), vs, true, 1, log2), Act(Enqueue(1)), r8);
    BeginAgain(cp, Begun(q2), vs[1 := Job0(Queued)], log2, 1);
    Compose(TINY, Solo(cp, Begun(q2), vs[1 := Job0(Queued)], true, 1, log2), Act(BeginInitial(1, true)), []);
    var end := log2 + [Invoked("a", RunPipeline, true)];
    assert end == [Saved("a", true), Saved("a", true), Crashed, Saved("a", false), Invoked("a", RunPipeline, true),
                   Invoked("a", RunPipeline, true)];
    NotSeparated(end, 4, 5, "a");
  }
}
