/** Executions that wait for an approval nobody can give any more: when exactly a waiting
    execution accepts a decision, and that one which does not never does again. */
module LifecycleStuck {

  import opened Wrappers
  import opened Retention
  import opened Lifecycle
  import opened LifecycleSafety
  import opened LifecycleRuns

  // ---------------------------------------------------------------- when a decision is accepted

  /** In every reachable state, a listed execution that waits for approval accepts a decision
      exactly when its pending approval has not been resolved. */
  lemma AcceptsExactly(c: Config, steps: seq<Step>, id: Id)
    requires ProperRun(c, BOOT, steps)
    requires var w := Exec(c, BOOT, steps); id in w.listed && id in w.records && w.records[id].status.AwaitingApproval?
    ensures var w := Exec(c, BOOT, steps);
            w.records[id].pendingApproval.Some?
            && ((exists approval :: CanSubmit(w, id, approval))
                <==> w.records[id].pendingApproval.value !in w.records[id].resolved)
  {
    ReachableStates(c, steps);
    var w := Exec(c, BOOT, steps);
    var r := w.records[id];
    if r.pendingApproval.value !in r.resolved { assert CanSubmit(w, id, r.pendingApproval.value); }
  }

  // ---------------------------------------------------------------- resumes that raise

  lemma RaisedCell(x: Cell, ok: bool)
    ensures var y := Handle(x, Failed, ok, false, false);
            y.id == x.id && (Terminal(y.r.status) <==> !x.r.status.AwaitingApproval? && !x.r.status.Paused?)
  {
    hide Save;
    SavedStatus(x.(r := x.r.(status := Failed), ended := true), ok);
  }

  lemma SavedStatus(x: Cell, ok: bool)
    ensures Save(x, false, ok).id == x.id && Save(x, false, ok).r.status == x.r.status
  {
  }

  /** A resume that raises ends its execution exactly when the execution has left the wait
      for approval; a refused approval never leaves it, because the status machine has no
      move from AWAITING_APPROVAL to FAILED. */
  lemma RaisedResumeEnds(c: Config, w: World, t: nat, ok: bool)
    requires w.up && At(w, t, false, InPipeline)
    ensures var id := w.tasks[t].id;
            var w' := Core(c, w, ResumeRaises(t, Failed, ok));
            id in w'.records
            && (Terminal(w'.records[id].status) <==> !w.records[id].status.AwaitingApproval? && !w.records[id].status.Paused?)
  {
    hide Handle;
    RaisedCell(CellAt(w, w.tasks[t].id), ok);
  }

  // ---------------------------------------------------------------- the dead end

  predicate StuckRecord(r: Record, approval: string) {
    r.status.AwaitingApproval? && r.pendingApproval == Some(approval) && approval in r.resolved
  }

  predicate StuckCheckpoint(cp: Checkpoint, approval: string) {
    cp.status.AwaitingApproval? && cp.pendingApproval == Some(approval) && approval in cp.resolved
  }

  /** In memory: it waits for an approval that is resolved, and no task works on it. */
  predicate Stuck(w: World, id: Id, approval: string) {
    id in w.records && StuckRecord(w.records[id], approval) && Unattended(w, id)
  }

  /** In the store as well: what a restart would load is stuck too. */
  predicate StuckInStore(w: World, id: Id, approval: string) {
    id in w.store ==> StuckCheckpoint(w.store[id], approval)
  }

  /** Stuck wherever this process has it. */
  predicate StuckHere(w: World, id: Id, approval: string) {
    id in w.used && (id in w.records ==> Stuck(w, id, approval))
  }

  /** Wherever the execution is loaded, now or after a restart, it is stuck. */
  predicate Hopeless(w: World, id: Id, approval: string) {
    StuckHere(w, id, approval) && StuckInStore(w, id, approval)
  }

  /** Only a live resume task could still move a waiting execution. */
  lemma OnlyResumesAttend(c: Config, w: World, id: Id, approval: string)
    requires Inv(c, w) && id in w.records && StuckRecord(w.records[id], approval)
    requires forall t :: 0 <= t < |w.tasks| && w.tasks[t].id == id && w.tasks[t].job.Resume? ==> w.tasks[t].phase.Done?
    ensures Stuck(w, id, approval)
  {
    forall t | 0 <= t < |w.tasks| && Live(w, t)
      ensures w.tasks[t].id != id
    {
      TaskFits(c, w, t);
    }
  }

  /** The caller cancels the execution or lets it time out. */
  predicate Gives(a: Action, id: Id) {
    match a
    case RequestCancel(x) => x == id
    case FinishCancel(x, _, _) => x == id
    case Timeout(x, _) => x == id
    case FinishTimeout(x, _) => x == id
    case _ => false
  }

  predicate GivesUp(s: Step, id: Id) {
    match s
    case Act(a) => Gives(a, id)
    case DieDuring(a) => Gives(a, id)
    case Restart(_) => false
  }

  /** Nothing that concerns `id` has changed, except that its tasks may have ended. */
  predicate Same(w: World, w': World, id: Id) {
    && w.used <= w'.used
    && (id in w'.records <==> id in w.records) && (id in w.records ==> w'.records[id] == w.records[id])
    && (id in w'.store <==> id in w.store) && (id in w.store ==> w'.store[id] == w.store[id])
    && (Unattended(w, id) ==> Unattended(w', id))
  }

  lemma SameKeeps(w: World, w': World, id: Id, approval: string)
    requires StuckHere(w, id, approval) && Same(w, w', id)
    ensures StuckHere(w', id, approval) && (id in w.records <==> id in w'.records)
    ensures Hopeless(w, id, approval) ==> Hopeless(w', id, approval)
  {
    hide Unattended;
  }

  lemma MergeSameOther(c: Config, w: World, w1: World, x: Cell, id: Id)
    requires x.id != id && Same(w, w1, id)
    ensures Same(w, Merge(c, w1, x), id)
  {
    var w' := Merge(c, w1, x);
    assert w'.tasks == w1.tasks;
    assert Unattended(w1, id) ==> Unattended(w', id);
    hide Unattended;
  }

  lemma SpawnSameOther(w: World, x: Id, job: Job, id: Id)
    requires x in w.records && x != id
    ensures Same(w, Spawn(w, x, job), id)
  {
    var w' := Spawn(w, x, job);
    assert forall t :: 0 <= t < |w.tasks| ==> w'.tasks[t] == w.tasks[t];
    assert w'.tasks[|w.tasks|].id == x;
  }

  lemma TasksSame(w: World, w1: World, id: Id)
    requires w1 == w.(tasks := w1.tasks) && |w1.tasks| == |w.tasks|
    requires forall t :: 0 <= t < |w.tasks| ==> w1.tasks[t].id == w.tasks[t].id && (w1.tasks[t].phase.Done? || w1.tasks[t].phase == w.tasks[t].phase || w.tasks[t].id != id)
    ensures Same(w, w1, id)
  {
    assert forall t :: 0 <= t < |w.tasks| && w.tasks[t].id == id && Live(w1, t) ==> Live(w, t);
  }

  lemma PhaseSame(w: World, t: nat, phase: Phase, id: Id)
    requires t < |w.tasks| && (w.tasks[t].id != id || phase.Done?)
    ensures Same(w, SetPhase(w, t, phase), id)
  {
    TasksSame(w, SetPhase(w, t, phase), id);
  }

  lemma CancelSame(w: World, r: Record, id: Id)
    ensures Same(w, CancelTask(w, r), id)
  {
    TasksSame(w, CancelTask(w, r), id);
  }

  lemma SameTrans(u: World, v: World, w: World, id: Id)
    requires Same(u, v, id) && Same(v, w, id)
    ensures Same(u, w, id)
  {
    hide Unattended;
  }

  // ---------------------------------------------------------------- every action keeps it

  /** A task that is not done works on another execution. */
  lemma NotMine(w: World, t: nat, id: Id)
    requires t < |w.tasks| && w.tasks[t].id in w.records && !w.tasks[t].phase.Done?
    requires id in w.records ==> Unattended(w, id)
    ensures w.tasks[t].id != id
  {
    assert Live(w, t);
  }

  lemma {:induction false} RecoverSame(w: World, ids: seq<Id>, id: Id)
    requires id in w.records ==> !w.records[id].status.Recovering?
    ensures Same(w, RecoverPending(w, ids), id)
    decreases |ids|
  {
    hide Same;
    if ids == [] {
      SameRefl(w, id);
    } else if ids[0] in w.records && w.records[ids[0]].status.Recovering? {
      var w1 := Spawn(w, ids[0], Initial);
      SpawnSameOther(w, ids[0], Initial, id);
      RecoverSame(w1, ids[1..], id);
      SameTrans(w, w1, RecoverPending(w1, ids[1..]), id);
    } else {
      RecoverSame(w, ids[1..], id);
    }
  }

  lemma SameRefl(w: World, id: Id)
    ensures Same(w, w, id)
  {
  }

  lemma StartSame(c: Config, w: World, x: Id, ok1: bool, ok2: bool, id: Id)
    requires x != id
    ensures Same(w, StartExecution(c, w, x, ok1, ok2), id)
  {
    hide Unattended;
    hide Merge;
    hide Save;
    SameRefl(w, id);
    if Admitted(c, w, x) {
      var w1 := w.(records := w.records[x := FRESH_RECORD], listed := w.listed + [x], used := w.used + {x});
      EnteredSame(w, x, id);
      var y := Launch(CellAt(w1, x), ok1, ok2);
      LaunchIsFor(CellAt(w1, x), ok1, ok2);
      MergeSameOther(c, w, w1, y, id);
      MergeHas(c, w1, y);
      SpawnSameOther(Merge(c, w1, y), x, Initial, id);
      SameTrans(w, Merge(c, w1, y), StartExecution(c, w, x, ok1, ok2), id);
    }
  }

  lemma EnteredSame(w: World, x: Id, id: Id)
    requires x != id
    ensures Same(w, w.(records := w.records[x := FRESH_RECORD], listed := w.listed + [x], used := w.used + {x}), id)
  {
    var w1 := w.(records := w.records[x := FRESH_RECORD], listed := w.listed + [x], used := w.used + {x});
    assert Unattended(w, id) ==> Unattended(w1, id);
    hide Unattended;
  }

  lemma MergeHas(c: Config, w: World, x: Cell)
    ensures x.id in Merge(c, w, x).records
  {
  }

  lemma LaunchIsFor(x: Cell, ok1: bool, ok2: bool)
    ensures Launch(x, ok1, ok2).id == x.id
  {
    hide Legal;
  }

  lemma DecideIsFor(x: Cell, approval: string, decision: Decision, ok1: bool, ok2: bool, ok3: bool)
    ensures Decide(x, approval, decision, ok1, ok2, ok3).Some? ==> Decide(x, approval, decision, ok1, ok2, ok3).value.id == x.id
  {
    hide Legal;
  }

  lemma MoveIsFor(x: Cell, to: Status, ok: bool)
    ensures Move(x, to, ok).Some? ==> Move(x, to, ok).value.id == x.id
  {
    hide Legal;
  }

  lemma HandleIsFor(x: Cell, to: Status, ok1: bool, saves: bool, ok2: bool)
    ensures Handle(x, to, ok1, saves, ok2).id == x.id
  {
    hide Move;
    hide Save;
    MoveIsFor(x, to, ok1);
    var moved := if Terminal(x.r.status) then Some(x) else Move(x, to, ok1);
    if moved.Some? { SaveIsFor(moved.value.(r := WithResult(moved.value.r)), false, ok2); }
  }

  lemma SaveIsFor(x: Cell, safe: bool, ok: bool)
    ensures Save(x, safe, ok).id == x.id
  {
  }

  lemma SettleIsFor(x: Cell, outcome: Outcome, ok1: bool, ok2: bool)
    ensures Settle(x, outcome, ok1, ok2).0.id == x.id
  {
    hide Legal;
  }

  lemma FinishIsFor(x: Cell, d: Decision, p: Pipeline, outcome: Outcome, ok1: bool, ok2: bool, ok3: bool, ok4: bool)
    ensures FinishInitial(x, p, outcome, ok1, ok2, ok3, ok4).id == x.id
    ensures FinishResume(x, d, p, outcome, ok1, ok2, ok3).id == x.id
  {
    hide Settle;
    hide Handle;
    var x0 := x.(r := x.r.(pipeline := Some(p)));
    var y := x0.(r := WithResult(ClearPending(x0.r)));
    SettleIsFor(x0, outcome, ok1, ok2);
    MoveIsFor(y, Denied, ok1);
    HandleIsFor(Settle(x0, outcome, ok1, ok2).0, Failed, ok3, true, ok4);
    HandleIsFor(Settle(x0, outcome, ok1, ok2).0, Failed, ok3, false, false);
    HandleIsFor(y, Failed, ok3, false, false);
    hide Move;
  }

  lemma SubmitSame(c: Config, w: World, x: Id, approval: string, decision: Option<Decision>, ok1: bool, ok2: bool, ok3: bool, id: Id, mine: string)
    requires StuckHere(w, id, mine)
    ensures Same(w, SubmitApproval(c, w, x, approval, decision, ok1, ok2, ok3), id)
  {
    hide Unattended;
    hide Merge;
    hide Decide;
    SameRefl(w, id);
    if CanSubmit(w, x, approval) && decision.Some? {
      assert x != id;
      var y := Decide(CellAt(w, x), approval, decision.value, ok1, ok2, ok3);
      if y.Some? {
        DecideIsFor(CellAt(w, x), approval, decision.value, ok1, ok2, ok3);
        MergeSameOther(c, w, w, y.value, id);
        MergeHas(c, w, y.value);
        var w1 := Merge(c, w, y.value);
        SpawnSameOther(w1, x, Resume(approval, decision.value), id);
        SameTrans(w, w1, Spawn(w1, x, Resume(approval, decision.value)), id);
      }
    }
  }

  lemma EnterSame(c: Config, w: World, t: nat, ok: bool, id: Id)
    requires t < |w.tasks| && w.tasks[t].id in w.records && w.tasks[t].id != id
    ensures Same(w, EnterInitial(c, w, t, ok), id)
  {
    hide Unattended;
    hide Merge;
    hide Move;
    var x := CellAt(w, w.tasks[t].id);
    SameRefl(w, id);
    PhaseSame(w, t, Done, id);
    PhaseSame(w, t, InPipeline, id);
    MergeSameOther(c, w, SetPhase(w, t, InPipeline), x, id);
    MoveIsFor(x, Running, ok);
    var moved := Move(x, Running, ok);
    if moved.Some? { MergeSameOther(c, w, SetPhase(w, t, InPipeline), moved.value, id); }
  }

  /** Actions of a task: the task works on another execution. */
  lemma TaskSame(c: Config, w: World, a: Action, id: Id, mine: string)
    requires StuckHere(w, id, mine)
    requires a.InitialReturns? || a.InitialRaises? || a.ResumeReturns? || a.ResumeRaises?
    ensures Same(w, Core(c, w, a), id)
  {
    hide Unattended;
    hide Merge;
    hide FinishInitial;
    hide FinishResume;
    hide Handle;
    hide Same;
    SameRefl(w, id);
    var t := a.t;
    if t < |w.tasks| && w.tasks[t].id in w.records && !w.tasks[t].phase.Done? {
      NotMine(w, t, id);
      var x, w1 := CellAt(w, w.tasks[t].id), SetPhase(w, t, Done);
      PhaseSame(w, t, Done, id);
      match a
      case InitialReturns(_, p, outcome, ok1, ok2, ok3, ok4) =>
        FinishIsFor(x, Deny, p, outcome, ok1, ok2, ok3, ok4);
        MergeSameOther(c, w, w1, FinishInitial(x, p, outcome, ok1, ok2, ok3, ok4), id);
      case InitialRaises(_, to, ok1, ok2) =>
        HandleIsFor(x, to, ok1, true, ok2);
        MergeSameOther(c, w, w1, Handle(x, to, ok1, true, ok2), id);
      case ResumeReturns(_, p, outcome, ok1, ok2, ok3) =>
        if At(w, t, false, InPipeline) {
          var decision := w.tasks[t].job.decision;
          FinishIsFor(x, decision, p, outcome, ok1, ok2, ok3, true);
          MergeSameOther(c, w, w1, FinishResume(x, decision, p, outcome, ok1, ok2, ok3), id);
        }
      case ResumeRaises(_, to, ok) =>
        HandleIsFor(x, to, ok, false, false);
        MergeSameOther(c, w, w1, Handle(x, to, ok, false, false), id);
    }
  }

  lemma CompleteIsFor(x: Cell, ok1: bool, ok2: bool)
    ensures CompleteCancel(x, ok1, ok2).id == x.id
  {
    hide Legal;
  }

  /** Cancelling or timing out another execution. */
  lemma OtherSame(c: Config, w: World, a: Action, id: Id)
    requires (a.RequestCancel? || a.FinishCancel? || a.Timeout? || a.FinishTimeout? || a.RuntimeCheckpoint?) && a.id != id
    ensures Same(w, Core(c, w, a), id)
  {
    hide Unattended;
    hide Merge;
    hide CompleteCancel;
    hide Move;
    hide Same;
    SameRefl(w, id);
    if a.id in w.records {
      var x := CellAt(w, a.id);
      var w1 := CancelTask(w, x.r);
      CancelSame(w, x.r, id);
      match a
      case RequestCancel(_) => MergeSameOther(c, w, w1, x.(r := x.r.(cancelSet := true)), id);
      case FinishCancel(_, ok1, ok2) =>
        CompleteIsFor(x, ok1, ok2);
        MergeSameOther(c, w, w, CompleteCancel(x, ok1, ok2), id);
      case Timeout(_, ok) =>
        MoveIsFor(x, TimedOut, ok);
        var moved := Move(x, TimedOut, ok);
        if moved.Some? { MergeSameOther(c, w, w1, moved.value.(r := moved.value.r.(cancelSet := true)), id); }
      case FinishTimeout(_, ok) => MergeSameOther(c, w, w, Save(x.(r := ClearPending(WithResult(x.r))), false, ok), id);
      case RuntimeCheckpoint(_, captured, safe, ok) =>
        MergeSameOther(c, w, w, Save(if captured.Some? then x.(r := x.r.(pipeline := captured)) else x, safe, ok), id);
    }
  }

  /** A late report of its own pipeline saves the dead end as it is. */
  lemma OwnReport(c: Config, w: World, id: Id, captured: Option<Pipeline>, safe: bool, ok: bool, approval: string)
    requires StuckHere(w, id, approval)
    ensures StuckHere(Report(c, w, id, captured, safe, ok), id, approval)
    ensures id in w.records <==> id in Report(c, w, id, captured, safe, ok).records
    ensures Hopeless(w, id, approval) ==> Hopeless(Report(c, w, id, captured, safe, ok), id, approval)
  {
    hide Unattended;
    if id in w.records {
      var x := CellAt(w, id);
      var y := Save(if captured.Some? then x.(r := x.r.(pipeline := captured)) else x, safe, ok);
      MergeAttends(c, w, y, id);
    }
  }

  lemma MergeAttends(c: Config, w: World, x: Cell, id: Id)
    ensures Unattended(w, id) ==> Unattended(Merge(c, w, x), id)
  {
    assert Merge(c, w, x).tasks == w.tasks;
  }

  /** Any action but its own report and giving it up leaves the execution alone. */
  lemma CoreSame(c: Config, w: World, a: Action, id: Id, approval: string)
    requires w.up && StuckHere(w, id, approval) && Proper(w, Act(a)) && !Gives(a, id)
    requires !(a.RuntimeCheckpoint? && a.id == id)
    ensures Same(w, Core(c, w, a), id)
  {
    hide Unattended;
    hide Same;
    hide StartExecution;
    hide RecoverPending;
    hide SubmitApproval;
    hide EnterInitial;
    hide StartTimeout;
    hide ReturnInitial;
    hide RaiseInitial;
    hide ReturnResume;
    hide RaiseResume;
    hide AskCancel;
    hide EndCancel;
    hide AskTimeout;
    hide EndTimeout;
    hide Report;
    SameRefl(w, id);
    match a {
      case Idle =>
      case Start(x, ok1, ok2) => StartSame(c, w, x, ok1, ok2, id);
      case Recover =>
        FlagSame(w, id);
        RecoverSame(w.(recoverCalled := true), w.listed, id);
        SameTrans(w, w.(recoverCalled := true), Core(c, w, a), id);
      case Submit(x, y, decision, ok1, ok2, ok3) => SubmitSame(c, w, x, y, decision, ok1, ok2, ok3, id, approval);
      case Enqueue(t) => if At(w, t, true, Ready) { NotMine(w, t, id); PhaseSame(w, t, Queued, id); }
      case BeginInitial(t, ok) => if At(w, t, true, Queued) { NotMine(w, t, id); EnterSame(c, w, t, ok, id); }
      case BeginResume(t) => if At(w, t, false, Ready) { NotMine(w, t, id); PhaseSame(w, t, InPipeline, id); }
      case AbandonTask(t) => if t < |w.tasks| { PhaseSame(w, t, Done, id); }
      case InitialReturns(_, _, _, _, _, _, _) => TaskSame(c, w, a, id, approval);
      case InitialRaises(_, _, _, _) => TaskSame(c, w, a, id, approval);
      case ResumeReturns(_, _, _, _, _, _) => TaskSame(c, w, a, id, approval);
      case ResumeRaises(_, _, _) => TaskSame(c, w, a, id, approval);
      case _ => OtherSame(c, w, a, id);
    }
  }

  lemma CoreKeeps(c: Config, w: World, a: Action, id: Id, approval: string)
    requires StuckHere(w, id, approval) && Proper(w, Act(a)) && !Gives(a, id)
    ensures StuckHere(Core(c, w, a), id, approval) && (id in w.records <==> id in Core(c, w, a).records)
    ensures Hopeless(w, id, approval) ==> Hopeless(Core(c, w, a), id, approval)
  {
    hide StuckHere;
    hide Hopeless;
    hide Report;
    hide Proper;
    if w.up {
      if a.RuntimeCheckpoint? && a.id == id {
        OwnReport(c, w, id, a.captured, a.safe, a.ok, approval);
      } else {
        CoreSame(c, w, a, id, approval);
        SameKeeps(w, Core(c, w, a), id, approval);
      }
    }
  }

  lemma FlagSame(w: World, id: Id)
    ensures Same(w, w.(recoverCalled := true), id)
  {
    var w1 := w.(recoverCalled := true);
    assert Unattended(w, id) ==> Unattended(w1, id);
    hide Unattended;
  }

  // ---------------------------------------------------------------- and so does every run

  lemma RebootKeeps(c: Config, w: World, order: seq<Id>, id: Id, approval: string)
    requires Hopeless(w, id, approval) && CanRestart(w, order) && w.tasks == []
    ensures Hopeless(Reboot(c, w, order), id, approval)
  {
  }

  lemma StepKeeps(c: Config, w: World, s: Step, id: Id, approval: string)
    requires Inv(c, w) && Hopeless(w, id, approval) && Proper(w, s) && !GivesUp(s, id)
    ensures Hopeless(Apply(c, w, s), id, approval)
  {
    hide Core;
    hide Calls;
    hide Reboot;
    match s
    case Act(a) =>
      CoreKeeps(c, w, a, id, approval);
      LoggedSame(Core(c, w, a), Calls(c, w, a), id);
      SameKeeps(Core(c, w, a), Apply(c, w, s), id, approval);
    case DieDuring(a) => CoreKeeps(c, w, a, id, approval);
    case Restart(order) => if CanRestart(w, order) { RebootKeeps(c, w, order, id, approval); }
  }

  lemma LoggedSame(w: World, events: seq<Event>, id: Id)
    ensures Same(w, w.(log := w.log + events), id)
  {
    var w1 := w.(log := w.log + events);
    assert Unattended(w, id) ==> Unattended(w1, id);
    hide Unattended;
  }

  predicate NobodyGivesUp(steps: seq<Step>, id: Id) {
    forall i :: 0 <= i < |steps| ==> !GivesUp(steps[i], id)
  }

  lemma {:induction false} HopelessRun(c: Config, w: World, steps: seq<Step>, id: Id, approval: string)
    requires Inv(c, w) && Hopeless(w, id, approval) && ProperRun(c, w, steps) && NobodyGivesUp(steps, id)
    ensures Hopeless(Exec(c, w, steps), id, approval)
    decreases |steps|
  {
    hide Inv;
    hide Hopeless;
    hide Apply;
    hide Proper;
    if steps != [] {
      StepInv(c, w, steps[0]);
      assert !GivesUp(steps[0], id);
      StepKeeps(c, w, steps[0], id, approval);
      HopelessRun(c, Apply(c, w, steps[0]), steps[1..], id, approval);
    }
  }

  /** Once a waiting execution's approval is resolved, in memory and in the store, and no
      resume task of it is left, only cancelling it or letting it time out changes its
      status: over every later run, deaths and restarts included, it goes on waiting and
      accepts no decision. */
  lemma StuckForGood(c: Config, before: seq<Step>, after: seq<Step>, id: Id, approval: string)
    requires ProperRun(c, BOOT, before)
    requires var w := Exec(c, BOOT, before);
             && id in w.records && StuckRecord(w.records[id], approval) && StuckInStore(w, id, approval)
             && (forall t :: 0 <= t < |w.tasks| && w.tasks[t].id == id && w.tasks[t].job.Resume? ==> w.tasks[t].phase.Done?)
             && ProperRun(c, w, after) && NobodyGivesUp(after, id)
    ensures var w' := Exec(c, Exec(c, BOOT, before), after);
            && (id in w'.records ==> w'.records[id].status.AwaitingApproval?)
            && (forall other :: !CanSubmit(w', id, other))
  {
    var w := Exec(c, BOOT, before);
    BootInv(c);
    RunInv(c, BOOT, before);
    OnlyResumesAttend(c, w, id, approval);
    HopelessRun(c, w, after, id, approval);
  }

  // ---------------------------------------------------------------- within one process

  function Acts(actions: seq<Action>): seq<Step> {
    seq(|actions|, i requires 0 <= i < |actions| => Act(actions[i]))
  }

  lemma ActKeeps(c: Config, w: World, a: Action, id: Id, approval: string)
    requires StuckHere(w, id, approval) && id in w.records && Proper(w, Act(a)) && !Gives(a, id)
    ensures StuckHere(Apply(c, w, Act(a)), id, approval) && id in Apply(c, w, Act(a)).records
  {
    hide Core;
    hide Calls;
    CoreKeeps(c, w, a, id, approval);
    LoggedSame(Core(c, w, a), Calls(c, w, a), id);
    SameKeeps(Core(c, w, a), Apply(c, w, Act(a)), id, approval);
  }

  lemma {:induction false} ProcessRun(c: Config, w: World, actions: seq<Action>, id: Id, approval: string)
    requires StuckHere(w, id, approval) && id in w.records
    requires ProperRun(c, w, Acts(actions)) && forall i :: 0 <= i < |actions| ==> !Gives(actions[i], id)
    ensures var w' := Exec(c, w, Acts(actions)); StuckHere(w', id, approval) && id in w'.records
    decreases |actions|
  {
    hide StuckHere;
    hide Apply;
    hide Proper;
    if actions != [] {
      assert Acts(actions)[1..] == Acts(actions[1..]) && Acts(actions)[0] == Act(actions[0]);
      ActKeeps(c, w, actions[0], id, approval);
      ProcessRun(c, Apply(c, w, Act(actions[0])), actions[1..], id, approval);
    }
  }

  /** As long as the process lives, the store does not matter: the execution goes on waiting
      and accepts no decision. */
  lemma StuckInProcess(c: Config, before: seq<Step>, actions: seq<Action>, id: Id, approval: string)
    requires ProperRun(c, BOOT, before)
    requires var w := Exec(c, BOOT, before);
             && id in w.records && StuckRecord(w.records[id], approval)
             && (forall t :: 0 <= t < |w.tasks| && w.tasks[t].id == id && w.tasks[t].job.Resume? ==> w.tasks[t].phase.Done?)
             && ProperRun(c, w, Acts(actions)) && (forall i :: 0 <= i < |actions| ==> !Gives(actions[i], id))
    ensures var w' := Exec(c, Exec(c, BOOT, before), Acts(actions));
            && id in w'.records && w'.records[id].status.AwaitingApproval?
            && (forall other :: !CanSubmit(w', id, other))
  {
    var w := Exec(c, BOOT, before);
    BootInv(c);
    RunInv(c, BOOT, before);
    OnlyResumesAttend(c, w, id, approval);
    ProcessRun(c, w, actions, id, approval);
  }
}
