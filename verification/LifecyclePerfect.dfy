/** Runs in which every checkpoint reaches the store, and runs that show why the
    hypotheses of the theorems are needed. */
module LifecyclePerfect {

  import opened Wrappers
  import opened Retention
  import opened Lifecycle
  import opened LifecycleSafety
  import opened LifecycleRuns

  /** No save of the action fails. */
  predicate Saves(a: Action) {
    match a
    case Start(_, ok1, ok2) => ok1 && ok2
    case BeginInitial(_, ok) => ok
    case InitialReturns(_, _, _, ok1, ok2, ok3, ok4) => ok1 && ok2 && ok3 && ok4
    case InitialRaises(_, _, ok1, ok2) => ok1 && ok2
    case Submit(_, _, _, ok1, ok2, ok3) => ok1 && ok2 && ok3
    case ResumeReturns(_, _, _, ok1, ok2, ok3) => ok1 && ok2 && ok3
    case ResumeRaises(_, _, ok) => ok
    case FinishCancel(_, ok1, ok2) => ok1 && ok2
    case Timeout(_, ok) => ok
    case FinishTimeout(_, ok) => ok
    case RuntimeCheckpoint(_, _, _, ok) => ok
    case _ => true
  }

  predicate AllSave(steps: seq<Step>) {
    forall i :: 0 <= i < |steps| && steps[i].Act? ==> Saves(steps[i].a)
  }

  /** Every decision waiting to be applied is in the store. */
  ghost predicate Recorded(w: World) {
    forall t :: 0 <= t < |w.tasks| && w.tasks[t].job.Resume? && w.tasks[t].phase.Ready? ==>
      w.tasks[t].id in w.store && w.tasks[t].job.approval in w.store[w.tasks[t].id].resolved
  }

  ghost predicate CaughtUp(events: seq<Event>) {
    forall i :: 0 <= i < |events| ==>
      (events[i].Invoked? ==> events[i].closed) && (events[i].Resumed? ==> events[i].recorded)
  }

  lemma OldTasksRecorded(c: Config, w: World, w': World)
    requires Inv(c, w) && Recorded(w) && Evolves(w, w')
    ensures forall t :: 0 <= t < |w.tasks| && w'.tasks[t].job.Resume? && w'.tasks[t].phase.Ready? ==>
              w'.tasks[t].id in w'.store && w'.tasks[t].job.approval in w'.store[w'.tasks[t].id].resolved
  {
    forall t | 0 <= t < |w.tasks| && w'.tasks[t].job.Resume? && w'.tasks[t].phase.Ready?
      ensures w'.tasks[t].id in w'.store && w'.tasks[t].job.approval in w'.store[w'.tasks[t].id].resolved
    {
      assert Live(w, t);
      assert w.tasks[t].id in w'.store;
      assert StoreStep(w, w', w.tasks[t].id);
    }
  }

  lemma DecideStores(x: Cell, approval: string, decision: Decision)
    requires StoreSound(x) && WaitingRecord(x.r) && x.r.status.AwaitingApproval?
    ensures var y := Decide(x, approval, decision, true, true, true);
            y.Some? && y.value.cp.Some? && approval in y.value.cp.value.resolved
  {
  }

  lemma SpawnRecorded(w: World, w1: World, id: Id, job: Job)
    requires id in w1.records && w1.tasks == w.tasks
    requires job.Resume? ==> id in w1.store && job.approval in w1.store[id].resolved
    requires forall t :: 0 <= t < |w.tasks| && w.tasks[t].job.Resume? && w.tasks[t].phase.Ready? ==>
               w.tasks[t].id in w1.store && w.tasks[t].job.approval in w1.store[w.tasks[t].id].resolved
    ensures Recorded(Spawn(w1, id, job))
  {
  }

  lemma SubmitRecorded(c: Config, w: World, id: Id, approval: string, decision: Option<Decision>)
    requires Inv(c, w) && w.up && Recorded(w)
    ensures Recorded(SubmitApproval(c, w, id, approval, decision, true, true, true))
  {
    if CanSubmit(w, id, approval) && decision.Some? {
      CellSound(c, w, id);
      DecideStores(CellAt(w, id), approval, decision.value);
      DecideGrows(CellAt(w, id), approval, decision.value, true, true, true);
      hide Decide;
      var y := Decide(CellAt(w, id), approval, decision.value, true, true, true).value;
      var w1 := Merge(c, w, y);
      MergeEvolves(c, w, w, y);
      hide Extends;
      OldTasksRecorded(c, w, w1);
      hide Inv;
      hide Evolves;
      SpawnRecorded(w, w1, id, Resume(approval, decision.value));
    }
  }

  lemma NoNewTasks(c: Config, w: World, a: Action)
    requires !a.Start? && !a.Recover? && !a.Submit?
    ensures |Core(c, w, a).tasks| == |w.tasks|
  {
    hide Merge;
    hide FinishInitial;
    hide FinishResume;
    hide Handle;
    hide CompleteCancel;
    hide Save;
    hide Move;
    forall w1: World, x: Cell
      ensures Merge(c, w1, x).tasks == w1.tasks
    {
      MergeKeepsTasks(c, w1, x);
    }
  }

  lemma MergeKeepsTasks(c: Config, w: World, x: Cell)
    ensures Merge(c, w, x).tasks == w.tasks
  {
  }

  lemma {:induction false} RecoverJobs(w: World, ids: seq<Id>)
    ensures var tasks := RecoverPending(w, ids).tasks;
            w.tasks <= tasks && forall t :: |w.tasks| <= t < |tasks| ==> tasks[t].job.Initial?
    decreases |ids|
  {
    if ids != [] {
      if ids[0] in w.records && w.records[ids[0]].status.Recovering? {
        RecoverJobs(Spawn(w, ids[0], Initial), ids[1..]);
      } else {
        RecoverJobs(w, ids[1..]);
      }
    }
  }

  lemma StartJobs(c: Config, w: World, id: Id, ok1: bool, ok2: bool)
    ensures var tasks := StartExecution(c, w, id, ok1, ok2).tasks;
            |w.tasks| <= |tasks| && forall t :: |w.tasks| <= t < |tasks| ==> tasks[t].job.Initial?
  {
  }

  lemma RecordedCore(c: Config, w: World, a: Action)
    requires Inv(c, w) && Proper(w, Act(a)) && Recorded(w) && Saves(a)
    ensures Recorded(Core(c, w, a))
  {
    hide Inv;
    hide Evolves;
    hide StartExecution;
    hide RecoverPending;
    hide SubmitApproval;
    hide Proper;
    if a.Submit? && w.up {
      SubmitRecorded(c, w, a.id, a.approval, a.decision);
    } else if w.up {
      CoreInv(c, w, a);
      OldTasksRecorded(c, w, Core(c, w, a));
      NewJobs(c, w, a);
      hide Core;
    }
  }

  /** No action but a decision brings a resume task. */
  lemma NewJobs(c: Config, w: World, a: Action)
    requires w.up && !a.Submit?
    ensures |w.tasks| <= |Core(c, w, a).tasks|
    ensures forall t :: |w.tasks| <= t < |Core(c, w, a).tasks| ==> Core(c, w, a).tasks[t].job.Initial?
  {
    if a.Recover? {
      RecoverJobs(w.(recoverCalled := true), w.listed);
      hide RecoverPending;
    } else if a.Start? {
      StartJobs(c, w, a.id, a.ok1, a.ok2);
      hide StartExecution;
    } else {
      NoNewTasks(c, w, a);
      hide Core;
    }
  }

  lemma RecordedStep(c: Config, w: World, s: Step)
    requires Inv(c, w) && Proper(w, s) && Recorded(w) && (s.Act? ==> Saves(s.a))
    ensures Recorded(Apply(c, w, s))
  {
    match s
    case Act(a) => RecordedCore(c, w, a); hide Core; hide Calls;
    case DieDuring(a) =>
    case Restart(order) => assert !w.up ==> w.tasks == [];
  }

  lemma EnterCloses(c: Config, w: World, t: nat)
    requires Inv(c, w) && w.up && At(w, t, true, Queued)
    ensures var w' := EnterInitial(c, w, t, true);
            var id := w.tasks[t].id;
            w'.tasks[t].phase.InPipeline? ==> id in w'.store && !w'.store[id].safe
  {
    assert Live(w, t);
    TaskFits(c, w, t);
    CellSound(c, w, w.tasks[t].id);
  }

  lemma CaughtUpCalls(c: Config, w: World, a: Action)
    requires Inv(c, w) && Recorded(w) && Saves(a)
    ensures CaughtUp(Calls(c, w, a))
  {
    if a.BeginInitial? && w.up && At(w, a.t, true, Queued) {
      EnterCloses(c, w, a.t);
      assert Core(c, w, a) == EnterInitial(c, w, a.t, a.ok);
    } else if a.BeginResume? && w.up && At(w, a.t, false, Ready) {
      assert Core(c, w, a).store == w.store;
    }
  }

  lemma {:induction false} CaughtUpRun(c: Config, w: World, steps: seq<Step>)
    requires Inv(c, w) && Recorded(w) && CaughtUp(w.log) && ProperRun(c, w, steps) && AllSave(steps)
    ensures CaughtUp(Exec(c, w, steps).log)
    decreases |steps|
  {
    hide Apply;
    hide Added;
    hide Calls;
    hide Inv;
    hide Recorded;
    if steps != [] {
      var s := steps[0];
      StepInv(c, w, s);
      RecordedStep(c, w, s);
      StepLog(c, w, s);
      AddedShape(c, w, s);
      if s.Act? { CaughtUpCalls(c, w, s.a); }
      assert CaughtUp(Added(c, w, s));
      CaughtUpRun(c, Apply(c, w, s), steps[1..]);
    }
  }

  ghost predicate AlwaysSeparated(log: seq<Event>) {
    forall i, j :: 0 <= i < j < |log| && log[i].Invoked? && log[j].Invoked? && log[i].id == log[j].id
                   ==> SafeBetween(log, i, j, log[i].id)
  }

  ghost predicate NeverTwice(log: seq<Event>) {
    forall i, j :: 0 <= i < j < |log| && log[i].Resumed? && log[j].Resumed? && log[i].id == log[j].id
                   ==> log[i].approval != log[j].approval
  }

  lemma CaughtUpLog(log: seq<Event>)
    requires CaughtUp(log) && Separated(log) && AppliedOnce(log)
    ensures AlwaysSeparated(log) && NeverTwice(log)
  {
  }

  /** When every save of every completed action succeeds, two pipeline calls of one
      execution always have a new recovery-safe checkpoint between them, and no user
      decision is applied twice, over any number of process deaths and restarts. */
  lemma PerfectStore(c: Config, steps: seq<Step>)
    requires ProperRun(c, BOOT, steps) && AllSave(steps)
    ensures AlwaysSeparated(Exec(c, BOOT, steps).log)
    ensures NeverTwice(Exec(c, BOOT, steps).log)
  {
    BootInv(c);
    hide Exec;
    hide ProperRun;
    CaughtUpRun(c, BOOT, steps);
    ReplayOnlyFromSafeCheckpoints(c, steps);
    DecisionAppliedOnce(c, steps);
    CaughtUpLog(Exec(c, BOOT, steps).log);
  }
}
