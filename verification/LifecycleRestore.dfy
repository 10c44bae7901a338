/** Restarting never meets a checkpoint it cannot take: the status machine has no move from
    APPROVED to RECOVERING, and no APPROVED checkpoint is ever marked safe. */
module LifecycleRestore {

  import opened Wrappers
  import opened Lifecycle

  /** `_restore_checkpoints` would raise out of the constructor on this checkpoint. */
  predicate RestoreRaises(cp: Checkpoint) {
    InFlight(cp.status) && cp.safe && !Legal(cp.status, Recovering)
  }

  predicate Restorable(cp: Option<Checkpoint>) {
    cp.Some? ==> !RestoreRaises(cp.value)
  }

  /** APPROVED is a status in passing: no record keeps it between two actions. */
  predicate Passing(x: Cell) { !x.r.status.Approved? && Restorable(x.cp) }

  ghost predicate AllPassing(w: World) {
    && (forall id :: id in w.records ==> !w.records[id].status.Approved?)
    && (forall id :: id in w.store ==> !RestoreRaises(w.store[id]))
  }

  lemma SavePasses(x: Cell, safe: bool, ok: bool)
    requires Restorable(x.cp) && (x.r.status.Approved? ==> !safe)
    ensures Restorable(Save(x, safe, ok).cp) && Save(x, safe, ok).r.status == x.r.status
  {
  }

  lemma MovePasses(x: Cell, to: Status, ok: bool)
    requires Restorable(x.cp)
    ensures Move(x, to, ok).Some? ==> Restorable(Move(x, to, ok).value.cp) && Move(x, to, ok).value.r.status == to
  {
    hide Legal;
    SavePasses(x.(r := x.r.(status := to)), to == Planning, ok);
    hide Save;
  }

  lemma HandlePasses(x: Cell, to: Status, ok1: bool, saves: bool, ok2: bool)
    requires Passing(x) && !to.Approved?
    ensures Passing(Handle(x, to, ok1, saves, ok2))
  {
    hide Move;
    hide Save;
    hide RestoreRaises;
    MovePasses(x, to, ok1);
    var moved := if Terminal(x.r.status) then Some(x) else Move(x, to, ok1);
    if moved.Some? { SavePasses(moved.value.(r := WithResult(moved.value.r)), false, ok2); }
  }

  lemma SettlePasses(x: Cell, outcome: Outcome, ok1: bool, ok2: bool)
    requires Passing(x)
    ensures Passing(Settle(x, outcome, ok1, ok2).0)
  {
    hide Move;
    hide Save;
    hide RestoreRaises;
    var r := if outcome.PausedOn? then x.r.(pendingApproval := Some(outcome.task), pendingTask := Some(outcome.task))
             else ClearPending(x.r);
    MovePasses(x.(r := r), OutcomeStatus(outcome), ok1);
    var moved := Move(x.(r := r), OutcomeStatus(outcome), ok1);
    if moved.Some? { SavePasses(moved.value, false, ok2); }
  }

  lemma FinishInitialPasses(x: Cell, p: Pipeline, outcome: Outcome, ok1: bool, ok2: bool, ok3: bool, ok4: bool)
    requires Passing(x)
    ensures Passing(FinishInitial(x, p, outcome, ok1, ok2, ok3, ok4))
  {
    hide Settle;
    hide Handle;
    hide RestoreRaises;
    var x0 := x.(r := x.r.(pipeline := Some(p)));
    SettlePasses(x0, outcome, ok1, ok2);
    HandlePasses(Settle(x0, outcome, ok1, ok2).0, Failed, ok3, true, ok4);
  }

  lemma FinishResumePasses(x: Cell, decision: Decision, p: Pipeline, outcome: Outcome, ok1: bool, ok2: bool, ok3: bool)
    requires Passing(x)
    ensures Passing(FinishResume(x, decision, p, outcome, ok1, ok2, ok3))
  {
    hide Settle;
    hide Handle;
    hide Move;
    hide RestoreRaises;
    var x0 := x.(r := x.r.(pipeline := Some(p)));
    var y := x0.(r := WithResult(ClearPending(x0.r)));
    MovePasses(y, Denied, ok1);
    HandlePasses(y, Failed, ok3, false, false);
    SettlePasses(x0, outcome, ok1, ok2);
    HandlePasses(Settle(x0, outcome, ok1, ok2).0, Failed, ok3, false, false);
  }

  /** APPROVED and RUNNING follow each other in one action; the save between them is not safe. */
  lemma DecidePasses(x: Cell, approval: string, decision: Decision, ok1: bool, ok2: bool, ok3: bool)
    requires Passing(x)
    ensures Decide(x, approval, decision, ok1, ok2, ok3).Some? ==> Passing(Decide(x, approval, decision, ok1, ok2, ok3).value)
  {
    hide Move;
    hide Save;
    hide RestoreRaises;
    var x1 := x.(r := x.r.(resolved := x.r.resolved + {approval}));
    SavePasses(x1, false, ok1);
    var y := Save(x1, false, ok1);
    MovePasses(y, Approved, ok2);
    var z := Move(y, Approved, ok2);
    if z.Some? { MovePasses(z.value, Running, ok3); }
  }

  lemma CompleteCancelPasses(x: Cell, ok1: bool, ok2: bool)
    requires Passing(x)
    ensures Passing(CompleteCancel(x, ok1, ok2))
  {
    hide Move;
    hide Save;
    hide RestoreRaises;
    MovePasses(x, Cancelled, ok1);
    var moved := if Terminal(x.r.status) then Some(x) else Move(x, Cancelled, ok1);
    if moved.Some? { SavePasses(moved.value.(r := ClearPending(WithResult(moved.value.r))), false, ok2); }
  }

  lemma LaunchPasses(x: Cell, ok1: bool, ok2: bool)
    requires Passing(x)
    ensures Passing(Launch(x, ok1, ok2))
  {
    hide Move;
    hide Save;
    hide RestoreRaises;
    SavePasses(x, true, ok1);
    MovePasses(Save(x, true, ok1), Planning, ok2);
  }

  // ---------------------------------------------------------------- the whole process

  lemma CellPasses(w: World, id: string)
    requires AllPassing(w) && id in w.records
    ensures Passing(CellAt(w, id))
  {
  }

  lemma MergePasses(c: Config, w: World, w1: World, x: Cell)
    requires AllPassing(w) && w1 == w.(tasks := w1.tasks) && Passing(x)
    ensures AllPassing(Merge(c, w1, x))
  {
    hide RestoreRaises;
  }

  lemma SpawnPasses(w: World, id: string, job: Job)
    requires AllPassing(w) && id in w.records
    ensures AllPassing(Spawn(w, id, job))
  {
  }

  lemma {:induction false} RecoverPasses(w: World, ids: seq<string>)
    requires AllPassing(w)
    ensures AllPassing(RecoverPending(w, ids))
    decreases |ids|
  {
    hide AllPassing;
    if ids == [] {
    } else if ids[0] in w.records && w.records[ids[0]].status.Recovering? {
      SpawnPasses(w, ids[0], Initial);
      RecoverPasses(Spawn(w, ids[0], Initial), ids[1..]);
    } else {
      RecoverPasses(w, ids[1..]);
    }
  }

  lemma StartPasses(c: Config, w: World, id: string, ok1: bool, ok2: bool)
    requires AllPassing(w)
    ensures AllPassing(StartExecution(c, w, id, ok1, ok2))
  {
    hide RestoreRaises;
    hide Launch;
    hide Merge;
    if Admitted(c, w, id) {
      var w1 := w.(records := w.records[id := FRESH_RECORD], listed := w.listed + [id], used := w.used + {id});
      var x := Launch(CellAt(w1, id), ok1, ok2);
      LaunchPasses(CellAt(w1, id), ok1, ok2);
      MergePasses(c, w1, w1, x);
      MergeHas(c, w1, x);
      LaunchId(CellAt(w1, id), ok1, ok2);
      SpawnPasses(Merge(c, w1, x), id, Initial);
    }
  }

  lemma MergeHas(c: Config, w: World, x: Cell)
    ensures x.id in Merge(c, w, x).records
  {
  }

  lemma LaunchId(x: Cell, ok1: bool, ok2: bool)
    ensures Launch(x, ok1, ok2).id == x.id
  {
    hide Legal;
  }

  lemma SubmitPasses(c: Config, w: World, id: string, approval: string, decision: Option<Decision>, ok1: bool, ok2: bool, ok3: bool)
    requires AllPassing(w)
    ensures AllPassing(SubmitApproval(c, w, id, approval, decision, ok1, ok2, ok3))
  {
    hide AllPassing;
    hide RestoreRaises;
    hide Decide;
    hide Merge;
    if CanSubmit(w, id, approval) && decision.Some? {
      CellPasses(w, id);
      DecidePasses(CellAt(w, id), approval, decision.value, ok1, ok2, ok3);
      var x := Decide(CellAt(w, id), approval, decision.value, ok1, ok2, ok3);
      if x.Some? {
        DecideId(CellAt(w, id), approval, decision.value, ok1, ok2, ok3);
        MergePasses(c, w, w, x.value);
        MergeHas(c, w, x.value);
        SpawnPasses(Merge(c, w, x.value), id, Resume(approval, decision.value));
      }
    }
  }

  lemma DecideId(x: Cell, approval: string, decision: Decision, ok1: bool, ok2: bool, ok3: bool)
    ensures Decide(x, approval, decision, ok1, ok2, ok3).Some? ==> Decide(x, approval, decision, ok1, ok2, ok3).value.id == x.id
  {
    hide Legal;
  }

  lemma TimeoutPasses(c: Config, w: World, id: string, ok: bool)
    requires AllPassing(w) && id in w.records
    ensures AllPassing(StartTimeout(c, w, id, ok))
  {
    hide AllPassing;
    hide RestoreRaises;
    hide Move;
    hide Merge;
    CellPasses(w, id);
    MovePasses(CellAt(w, id), TimedOut, ok);
    var x := Move(CellAt(w, id), TimedOut, ok);
    if x.Some? {
      MergePasses(c, w, CancelTask(w, w.records[id]), x.value.(r := x.value.r.(cancelSet := true)));
    }
  }

  lemma TasksPass(w: World, w1: World)
    requires AllPassing(w) && w1 == w.(tasks := w1.tasks)
    ensures AllPassing(w1)
  {
  }

  lemma EnterPasses(c: Config, w: World, t: nat, ok: bool)
    requires AllPassing(w) && t < |w.tasks| && w.tasks[t].id in w.records
    ensures AllPassing(EnterInitial(c, w, t, ok))
  {
    hide AllPassing;
    hide RestoreRaises;
    hide Move;
    hide Merge;
    var x := CellAt(w, w.tasks[t].id);
    CellPasses(w, x.id);
    TasksPass(w, SetPhase(w, t, Done));
    MovePasses(x, Running, ok);
    MergePasses(c, w, SetPhase(w, t, InPipeline), x);
    var moved := Move(x, Running, ok);
    if moved.Some? { MergePasses(c, w, SetPhase(w, t, InPipeline), moved.value); }
  }

  lemma InitialPasses(c: Config, w: World, a: Action)
    requires AllPassing(w) && (a.InitialReturns? || a.InitialRaises? || a.ResumeReturns? || a.ResumeRaises?)
    ensures AllPassing(Core(c, w, a))
  {
    hide AllPassing;
    hide RestoreRaises;
    hide FinishInitial;
    hide FinishResume;
    hide Handle;
    hide Merge;
    var t := a.t;
    if t < |w.tasks| && w.tasks[t].id in w.records {
      var x, w1 := CellAt(w, w.tasks[t].id), SetPhase(w, t, Done);
      CellPasses(w, x.id);
      match a
      case InitialReturns(_, p, outcome, ok1, ok2, ok3, ok4) =>
        FinishInitialPasses(x, p, outcome, ok1, ok2, ok3, ok4);
        MergePasses(c, w, w1, FinishInitial(x, p, outcome, ok1, ok2, ok3, ok4));
      case InitialRaises(_, to, ok1, ok2) =>
        if Interruptible(w, t, to) {
          HandlePasses(x, to, ok1, true, ok2);
          MergePasses(c, w, w1, Handle(x, to, ok1, true, ok2));
        }
      case ResumeReturns(_, p, outcome, ok1, ok2, ok3) =>
        if At(w, t, false, InPipeline) {
          var decision := w.tasks[t].job.decision;
          FinishResumePasses(x, decision, p, outcome, ok1, ok2, ok3);
          MergePasses(c, w, w1, FinishResume(x, decision, p, outcome, ok1, ok2, ok3));
        }
      case ResumeRaises(_, to, ok) =>
        if to.Cancelled? || to.Failed? {
          HandlePasses(x, to, ok, false, false);
          MergePasses(c, w, w1, Handle(x, to, ok, false, false));
        }
    }
  }

  lemma CancelPasses(c: Config, w: World, a: Action)
    requires AllPassing(w) && (a.RequestCancel? || a.FinishCancel? || a.FinishTimeout? || a.RuntimeCheckpoint?)
    ensures AllPassing(Core(c, w, a))
  {
    hide AllPassing;
    hide RestoreRaises;
    hide CompleteCancel;
    hide Save;
    hide Merge;
    var id := a.id;
    if id in w.records {
      var x := CellAt(w, id);
      CellPasses(w, id);
      match a
      case RequestCancel(_) => MergePasses(c, w, CancelTask(w, x.r), x.(r := x.r.(cancelSet := true)));
      case FinishCancel(_, ok1, ok2) =>
        CompleteCancelPasses(x, ok1, ok2);
        MergePasses(c, w, w, CompleteCancel(x, ok1, ok2));
      case FinishTimeout(_, ok) =>
        var y := x.(r := ClearPending(WithResult(x.r)));
        SavePasses(y, false, ok);
        MergePasses(c, w, w, Save(y, false, ok));
      case RuntimeCheckpoint(_, captured, safe, ok) =>
        var y := if captured.Some? then x.(r := x.r.(pipeline := captured)) else x;
        SavePasses(y, safe, ok);
        MergePasses(c, w, w, Save(y, safe, ok));
    }
  }

  lemma CorePasses(c: Config, w: World, a: Action)
    requires AllPassing(w)
    ensures AllPassing(Core(c, w, a))
  {
    hide AllPassing;
    hide StartExecution;
    hide RecoverPending;
    hide SubmitApproval;
    hide EnterInitial;
    hide StartTimeout;
    hide ReturnInitial;
    hide RaiseInitial;
    hide ReturnResume;
    hide RaiseResume;
    hide AskCancel;
    hide EndCancel;
    hide EndTimeout;
    hide Report;
    match a
    case Start(id, ok1, ok2) => StartPasses(c, w, id, ok1, ok2);
    case Recover =>
      FlagPasses(w);
      RecoverPasses(w.(recoverCalled := true), w.listed);
    case Submit(id, approval, decision, ok1, ok2, ok3) => SubmitPasses(c, w, id, approval, decision, ok1, ok2, ok3);
    case Enqueue(t) => TasksPass(w, Wait(w, t));
    case BeginInitial(t, ok) => if At(w, t, true, Queued) { EnterPasses(c, w, t, ok); }
    case BeginResume(t) => TasksPass(w, RunResume(w, t));
    case AbandonTask(t) => TasksPass(w, Abandon(w, t));
    case Timeout(id, ok) => if Open(w, id) { TimeoutPasses(c, w, id, ok); }
    case RequestCancel(_) => CancelPasses(c, w, a);
    case FinishCancel(_, _, _) => CancelPasses(c, w, a);
    case FinishTimeout(_, _) => CancelPasses(c, w, a);
    case RuntimeCheckpoint(_, _, _, _) => CancelPasses(c, w, a);
    case Idle =>
    case _ => InitialPasses(c, w, a);
  }

  lemma FlagPasses(w: World)
    requires AllPassing(w)
    ensures AllPassing(w.(recoverCalled := true))
  {
  }

  lemma RebootPasses(c: Config, w: World, order: seq<string>)
    requires AllPassing(w) && CanRestart(w, order)
    ensures AllPassing(Reboot(c, w, order))
  {
  }

  lemma StepPasses(c: Config, w: World, s: Step)
    requires AllPassing(w)
    ensures AllPassing(Apply(c, w, s))
  {
    hide Core;
    hide Calls;
    hide Reboot;
    match s
    case Act(a) => CorePasses(c, w, a);
    case DieDuring(a) => CorePasses(c, w, a);
    case Restart(order) => if CanRestart(w, order) { RebootPasses(c, w, order); }
  }

  lemma {:induction false} RunPasses(c: Config, w: World, steps: seq<Step>)
    requires AllPassing(w)
    ensures AllPassing(Exec(c, w, steps))
    decreases |steps|
  {
    hide AllPassing;
    hide Apply;
    if steps != [] {
      StepPasses(c, w, steps[0]);
      RunPasses(c, Apply(c, w, steps[0]), steps[1..]);
    }
  }

  /** In every run, no checkpoint that could make a restart raise is ever stored, and no
      record is APPROVED between two actions. */
  lemma RestartNeverRaises(c: Config, steps: seq<Step>)
    ensures var w := Exec(c, BOOT, steps);
            && (forall id :: id in w.store ==> !RestoreRaises(w.store[id]))
            && (forall id :: id in w.records ==> !w.records[id].status.Approved?)
  {
    assert AllPassing(BOOT);
    RunPasses(c, BOOT, steps);
  }
}
