/** Theorems about whole runs of the coordinator, across process deaths and restarts:
    no unsafe replay, no decision applied twice, bounded tables. */
module LifecycleRuns {

  import opened Wrappers
  import opened Retention
  import opened Lifecycle
  import opened LifecycleSafety

  // ---------------------------------------------------------------- bounds and waiting records

  /** In every state of every proper run: finished records stay within the retention limit;
      unfinished ones within the larger of what the restart restored and the admission
      capacity; an execution waiting for approval has the approval id, the task id and the
      pipeline that `submit_approval` needs, in memory and in the store. */
  lemma ReachableStates(c: Config, steps: seq<Step>)
    requires ProperRun(c, BOOT, steps)
    ensures var w := Exec(c, BOOT, steps);
            && TerminalCount(w) <= Retained(c)
            && NonterminalCount(w) <= Max(w.restored, Capacity(c))
            && (forall id :: id in w.records && w.records[id].status.AwaitingApproval? ==>
                  && w.records[id].pendingApproval.Some? && w.records[id].pendingTask.Some?
                  && w.records[id].pipeline.Some?)
            && (forall id :: id in w.store && w.store[id].status.AwaitingApproval? ==>
                  && w.store[id].pendingApproval.Some? && w.store[id].pendingTask.Some?
                  && w.store[id].pipeline.Some?)
            && (forall id :: id in w.records && id in w.store ==>
                  w.store[id].generation <= w.records[id].generation)
  {
    BootInv(c);
    RunInv(c, BOOT, steps);
    var w := Exec(c, BOOT, steps);
    assert forall id :: id in w.records ==> WaitingRecord(w.records[id]);
    assert forall id :: id in w.store ==> WaitingCheckpoint(w.store[id]);
  }

  lemma BootInv(c: Config)
    ensures Inv(c, BOOT)
  {
  }

  // ---------------------------------------------------------------- replay

  /** Nothing in memory or in the store can lead to another pipeline call for `id`
      without a new recovery-safe checkpoint. */
  ghost predicate Quiet(w: World, id: Id) {
    && id in w.used && id in w.store && !Replayable(w.store, id)
    && (id in w.records ==>
          !w.records[id].status.Created? && !w.records[id].status.Planning? && !w.records[id].status.Recovering?)
    && (forall t :: 0 <= t < |w.tasks| && w.tasks[t].id == id && w.tasks[t].job.Initial? ==> !Pending(w.tasks[t]))
  }

  /** `id` can never be handed to the orchestrator again. */
  ghost predicate Dead(w: World, id: Id) {
    && id in w.used && id in w.store
    && (Terminal(w.store[id].status) || (InFlight(w.store[id].status) && !w.store[id].safe))
    && (id in w.records ==> Terminal(w.records[id].status))
  }

  lemma QuietEvolves(w: World, w': World, id: Id)
    requires Evolves(w, w') && Quiet(w, id)
    ensures Quiet(w', id) || Saved(id, true) in w'.log[|w.log|..]
  {
    assert StoreStep(w, w', id);
    if Saved(id, true) !in w'.log[|w.log|..] {
      assert !Replayable(w'.store, id);
      if id in w.records { assert Later(w.records[id], w'.records[id]); }
      forall t | 0 <= t < |w'.tasks| && w'.tasks[t].id == id && w'.tasks[t].job.Initial?
        ensures !Pending(w'.tasks[t])
      {
        assert t < |w.tasks| || NewTask(w, w'.tasks[t]);
      }
    }
  }

  lemma DeadEvolves(w: World, w': World, id: Id)
    requires Evolves(w, w') && Dead(w, id)
    ensures Dead(w', id)
  {
    assert StoreStep(w, w', id);
    if id in w.records { assert Later(w.records[id], w'.records[id]); }
  }

  /** Events that a step adds to the history. */
  function Added(c: Config, w: World, s: Step): seq<Event> {
    var w' := Apply(c, w, s);
    if |w.log| <= |w'.log| then w'.log[|w.log|..] else []
  }

  lemma StepLog(c: Config, w: World, s: Step)
    requires Inv(c, w) && Proper(w, s)
    ensures w.log <= Apply(c, w, s).log
    ensures Apply(c, w, s).log == w.log + Added(c, w, s)
    ensures match s
            case Act(a) =>
              && Evolves(w, Core(c, w, a))
              && Added(c, w, s) == Core(c, w, a).log[|w.log|..] + Calls(c, w, a)
            case DieDuring(a) =>
              w.up ==> Evolves(w, Core(c, w, a)) && Added(c, w, s) == Core(c, w, a).log[|w.log|..] + [Crashed]
            case Restart(_) => Added(c, w, s) == []
  {
    hide Core;
    hide Calls;
    hide Inv;
    match s
    case Act(a) => CoreInv(c, w, a);
    case DieDuring(a) => CoreInv(c, w, a);
    case Restart(_) =>
  }

  ghost predicate NoCall(events: seq<Event>, id: Id) {
    forall i :: 0 <= i < |events| && events[i].Invoked? ==> events[i].id != id
  }

  lemma OnlySaves(w: World, w': World, id: Id)
    requires Evolves(w, w')
    ensures NoCall(w'.log[|w.log|..], id)
  {
  }

  /** `_run_initial` calls the pipeline only from a queued task of an unfinished execution. */
  lemma CallNeedsTask(c: Config, w: World, a: Action, id: Id)
    requires !NoCall(Calls(c, w, a), id)
    ensures a.BeginInitial? && At(w, a.t, true, Queued) && w.tasks[a.t].id == id && !Terminal(w.records[id].status)
  {
    if a.BeginInitial? && w.up && At(w, a.t, true, Queued) {
      assert Core(c, w, a) == EnterInitial(c, w, a.t, a.ok);
    }
  }

  lemma BirthQuiet(c: Config, w: World, order: seq<Id>, id: Id)
    requires CanRestart(w, order) && id in w.used && id in w.store && !Replayable(w.store, id) && w.tasks == []
    ensures Quiet(Reboot(c, w, order), id)
  {
  }

  /** A quiet execution is not called, and stays quiet until a safe checkpoint is saved. */
  lemma QuietStep(c: Config, w: World, s: Step, id: Id)
    requires Inv(c, w) && Proper(w, s) && Quiet(w, id)
    ensures NoCall(Added(c, w, s), id)
    ensures Quiet(Apply(c, w, s), id) || Saved(id, true) in Added(c, w, s)
  {
    StepLog(c, w, s);
    hide Core;
    match s
    case Act(a) =>
      var w' := Core(c, w, a);
      OnlySaves(w, w', id);
      QuietEvolves(w, w', id);
      if !NoCall(Calls(c, w, a), id) { CallNeedsTask(c, w, a, id); }
      hide Calls;
      hide Evolves;
    case DieDuring(a) =>
      if w.up {
        var w' := Core(c, w, a);
        OnlySaves(w, w', id);
        QuietEvolves(w, w', id);
        hide Evolves;
      }
    case Restart(order) => if CanRestart(w, order) { BirthQuiet(c, w, order, id); }
  }

  lemma DeadStep(c: Config, w: World, s: Step, id: Id)
    requires Inv(c, w) && Proper(w, s) && Dead(w, id)
    ensures NoCall(Added(c, w, s), id)
    ensures Dead(Apply(c, w, s), id)
  {
    StepLog(c, w, s);
    hide Core;
    match s
    case Act(a) =>
      var w' := Core(c, w, a);
      OnlySaves(w, w', id);
      DeadEvolves(w, w', id);
      if !NoCall(Calls(c, w, a), id) { CallNeedsTask(c, w, a, id); }
      hide Calls;
      hide Evolves;
    case DieDuring(a) =>
      if w.up {
        var w' := Core(c, w, a);
        OnlySaves(w, w', id);
        DeadEvolves(w, w', id);
        hide Evolves;
      }
    case Restart(order) =>
  }

  // ---------------------------------------------------------------- theorem: replay only from safe checkpoints

  /** A safe checkpoint of `id` was saved after position `i` and before position `j`. */
  ghost predicate SafeBetween(log: seq<Event>, i: int, j: int, id: Id) {
    exists k :: i < k < j && 0 <= k < |log| && log[k] == Saved(id, true)
  }

  ghost predicate Separated(log: seq<Event>) {
    forall i, j :: 0 <= i < j < |log| && log[i].Invoked? && log[j].Invoked? && log[i].id == log[j].id && log[i].closed
                   ==> SafeBetween(log, i, j, log[i].id)
  }

  ghost predicate Guarded(w: World) {
    forall i :: 0 <= i < |w.log| && w.log[i].Invoked? && w.log[i].closed ==>
      SafeBetween(w.log, i, |w.log|, w.log[i].id) || Quiet(w, w.log[i].id)
  }

  lemma SafeGrows(log: seq<Event>, more: seq<Event>, i: int, j: int, id: Id)
    requires SafeBetween(log, i, j, id) && 0 <= i <= j <= |log|
    ensures SafeBetween(log + more, i, j, id) && SafeBetween(log + more, i, |log + more|, id)
  {
    var k :| i < k < j && 0 <= k < |log| && log[k] == Saved(id, true);
    assert (log + more)[k] == Saved(id, true);
  }

  lemma SafeAdded(log: seq<Event>, more: seq<Event>, i: int, id: Id)
    requires 0 <= i < |log| && Saved(id, true) in more
    ensures SafeBetween(log + more, i, |log + more|, id)
  {
    var k :| 0 <= k < |more| && more[k] == Saved(id, true);
    assert (log + more)[|log| + k] == Saved(id, true);
  }

  /** Right after a pipeline call whose running checkpoint reached the store, the
      execution is quiet: its only task is in the pipeline and the store is unsafe. */
  lemma CallMakesQuiet(c: Config, w: World, t: nat, ok: bool)
    requires Inv(c, w) && w.up && At(w, t, true, Queued)
    requires Calls(c, w, BeginInitial(t, ok)) != [] && Calls(c, w, BeginInitial(t, ok))[0].closed
    ensures Quiet(Core(c, w, BeginInitial(t, ok)), w.tasks[t].id)
  {
    var id := w.tasks[t].id;
    var w' := EnterInitial(c, w, t, ok);
    assert Core(c, w, BeginInitial(t, ok)) == w';
    assert Live(w, t);
    TaskFits(c, w, t);
    assert w'.records[id].status.Running?;
    forall u | 0 <= u < |w'.tasks| && w'.tasks[u].id == id && w'.tasks[u].job.Initial?
      ensures !Pending(w'.tasks[u])
    {
      if u != t { assert w'.tasks[u] == w.tasks[u]; assert !Live(w, u); }
    }
  }

  /** What a step may add: saves, then at most one call. */
  lemma AddedShape(c: Config, w: World, s: Step)
    requires Inv(c, w) && Proper(w, s)
    ensures var E := Added(c, w, s);
            forall i :: 0 <= i < |E| && (E[i].Invoked? || E[i].Resumed?) ==>
              i == |E| - 1 && s.Act? && w.up && Calls(c, w, s.a) == [E[i]]
  {
    StepLog(c, w, s);
    match s
    case Act(a) => CallsShape(c, w, a); hide Core; hide Calls;
    case DieDuring(a) => hide Core;
    case Restart(_) =>
  }

  lemma CallsShape(c: Config, w: World, a: Action)
    ensures |Calls(c, w, a)| <= 1 && (Calls(c, w, a) != [] ==> w.up)
  {
    hide Core;
  }

  /** The call a step makes is guarded in the state it leads to. */
  lemma CallGuarded(c: Config, w: World, s: Step, e: Event)
    requires Inv(c, w) && Proper(w, s) && s.Act? && w.up && Calls(c, w, s.a) == [e] && e.Invoked? && e.closed
    ensures Quiet(Apply(c, w, s), e.id)
  {
    CallMakesQuiet(c, w, s.a.t, s.a.ok);
    hide Core;
  }

  lemma GuardedStep(c: Config, w: World, s: Step)
    requires Inv(c, w) && Proper(w, s) && Guarded(w)
    ensures Guarded(Apply(c, w, s))
  {
    var w' := Apply(c, w, s);
    var E := Added(c, w, s);
    StepLog(c, w, s);
    AddedShape(c, w, s);
    hide Apply;
    hide Added;
    hide Calls;
    hide Inv;
    hide Quiet;
    forall i | 0 <= i < |w'.log| && w'.log[i].Invoked? && w'.log[i].closed
      ensures SafeBetween(w'.log, i, |w'.log|, w'.log[i].id) || Quiet(w', w'.log[i].id)
    {
      var id := w'.log[i].id;
      if i >= |w.log| {
        assert w'.log[i] == E[i - |w.log|];
        CallGuarded(c, w, s, w'.log[i]);
      } else if SafeBetween(w.log, i, |w.log|, id) {
        SafeGrows(w.log, E, i, |w.log|, id);
      } else {
        assert Quiet(w, id);
        QuietStep(c, w, s, id);
        if Saved(id, true) in E { SafeAdded(w.log, E, i, id); }
      }
    }
  }

  lemma SeparatedStep(c: Config, w: World, s: Step)
    requires Inv(c, w) && Proper(w, s) && Guarded(w) && Separated(w.log)
    ensures Separated(Apply(c, w, s).log)
  {
    hide Apply;
    hide Added;
    hide Calls;
    hide Inv;
    hide Quiet;
    hide Proper;
    var log := Apply(c, w, s).log;
    var E := Added(c, w, s);
    StepLog(c, w, s);
    AddedShape(c, w, s);
    forall i, j | 0 <= i < j < |log| && log[i].Invoked? && log[j].Invoked? && log[i].id == log[j].id && log[i].closed
      ensures SafeBetween(log, i, j, log[i].id)
    {
      var id := log[i].id;
      if j < |w.log| {
        SafeGrows(w.log, E, i, j, id);
      } else {
        assert log[j] == E[j - |w.log|];
        assert i < |w.log|;
        if SafeBetween(w.log, i, |w.log|, id) {
          SafeGrows(w.log, E, i, |w.log|, id);
          var k :| i < k < |w.log| && 0 <= k < |w.log| && w.log[k] == Saved(id, true);
          assert log[k] == Saved(id, true);
        } else {
          QuietStep(c, w, s, id);
          assert false;
        }
      }
    }
  }

  lemma {:induction false} SeparatedRun(c: Config, w: World, steps: seq<Step>)
    requires Inv(c, w) && Guarded(w) && Separated(w.log) && ProperRun(c, w, steps)
    ensures Separated(Exec(c, w, steps).log)
    decreases |steps|
  {
    hide Apply;
    if steps != [] {
      StepInv(c, w, steps[0]);
      GuardedStep(c, w, steps[0]);
      SeparatedStep(c, w, steps[0]);
      SeparatedRun(c, Apply(c, w, steps[0]), steps[1..]);
    }
  }

  /** Over every proper run, with any saves failing: if the store had caught up with one
      pipeline call of an execution, then before the next call of that execution a new
      recovery-safe checkpoint of it was saved. */
  lemma ReplayOnlyFromSafeCheckpoints(c: Config, steps: seq<Step>)
    requires ProperRun(c, BOOT, steps)
    ensures Separated(Exec(c, BOOT, steps).log)
  {
    BootInv(c);
    SeparatedRun(c, BOOT, steps);
  }

  // ---------------------------------------------------------------- theorem: unsafe work is failed, not re-run

  lemma {:induction false} DeadRun(c: Config, w: World, steps: seq<Step>, id: Id)
    requires Inv(c, w) && Dead(w, id) && ProperRun(c, w, steps)
    ensures w.log <= Exec(c, w, steps).log && NoCall(Exec(c, w, steps).log[|w.log|..], id)
    ensures Dead(Exec(c, w, steps), id)
    decreases |steps|
  {
    hide Apply;
    hide Inv;
    hide Dead;
    if steps != [] {
      var w1 := Apply(c, w, steps[0]);
      StepInv(c, w, steps[0]);
      StepLog(c, w, steps[0]);
      DeadStep(c, w, steps[0], id);
      DeadRun(c, w1, steps[1..], id);
      var w2 := Exec(c, w, steps);
      assert w2.log[|w.log|..] == Added(c, w, steps[0]) + w2.log[|w1.log|..];
    }
  }

  /** An execution whose last durable checkpoint shows interrupted work that is not safe to
      replay: a restart that can read it marks it failed, and whatever happens later the
      pipeline is never called for it again. */
  lemma UnsafeWorkIsNeverRerun(c: Config, before: seq<Step>, order: seq<Id>, after: seq<Step>, id: Id)
    requires ProperRun(c, BOOT, before)
    requires var w := Exec(c, BOOT, before);
             && CanRestart(w, order) && ProperRun(c, w, [Restart(order)] + after)
             && id in w.store && InFlight(w.store[id].status) && !w.store[id].safe
    ensures var w := Exec(c, BOOT, before);
            && (id in order ==> Apply(c, w, Restart(order)).records[id].status.Failed?)
            && w.log <= Exec(c, w, [Restart(order)] + after).log
            && NoCall(Exec(c, w, [Restart(order)] + after).log[|w.log|..], id)
  {
    BootInv(c);
    RunInv(c, BOOT, before);
    var w := Exec(c, BOOT, before);
    DeadRun(c, w, [Restart(order)] + after, id);
  }

  // ---------------------------------------------------------------- theorem: a decision is applied at most once

  /** No resume task for this approval is waiting to start. */
  ghost predicate NoneReady(w: World, id: Id, approval: string) {
    forall t :: 0 <= t < |w.tasks| && w.tasks[t].id == id && w.tasks[t].job.Resume? && w.tasks[t].job.approval == approval
                ==> !w.tasks[t].phase.Ready?
  }

  /** The approval is resolved in this process. */
  ghost predicate Held(w: World, id: Id, approval: string) {
    id in w.records && approval in w.records[id].resolved && NoneReady(w, id, approval)
  }

  /** The approval is resolved for good: in the store, and in memory wherever it is loaded. */
  ghost predicate Sealed(w: World, id: Id, approval: string) {
    && id in w.used && id in w.store && approval in w.store[id].resolved
    && (id in w.records ==> approval in w.records[id].resolved)
    && NoneReady(w, id, approval)
  }

  ghost predicate NoDecision(events: seq<Event>, id: Id, approval: string) {
    forall i :: 0 <= i < |events| && events[i].Resumed? ==> !(events[i].id == id && events[i].approval == approval)
  }

  lemma NoneReadyEvolves(w: World, w': World, id: Id, approval: string)
    requires Evolves(w, w') && NoneReady(w, id, approval) && id in w.used
    requires id in w.records ==> approval in w.records[id].resolved
    ensures NoneReady(w', id, approval)
  {
    forall t | 0 <= t < |w'.tasks| && w'.tasks[t].id == id && w'.tasks[t].job.Resume? && w'.tasks[t].job.approval == approval
      ensures !w'.tasks[t].phase.Ready?
    {
      assert t < |w.tasks| || NewTask(w, w'.tasks[t]);
    }
  }

  lemma HeldEvolves(w: World, w': World, id: Id, approval: string)
    requires Evolves(w, w') && id in w.used
    ensures Held(w, id, approval) ==> Held(w', id, approval)
    ensures Sealed(w, id, approval) ==> Sealed(w', id, approval)
  {
    if Held(w, id, approval) || Sealed(w, id, approval) {
      NoneReadyEvolves(w, w', id, approval);
      if id in w.records { assert Later(w.records[id], w'.records[id]); }
      if id in w.store { assert StoreStep(w, w', id); }
    }
  }

  lemma DecisionNeedsTask(c: Config, w: World, a: Action, id: Id, approval: string)
    requires NoneReady(w, id, approval)
    ensures NoDecision(Calls(c, w, a), id, approval)
  {
    hide Core;
  }

  lemma HeldStep(c: Config, w: World, s: Step, id: Id, approval: string)
    requires Inv(c, w) && Proper(w, s) && (Held(w, id, approval) || Sealed(w, id, approval))
    ensures NoDecision(Added(c, w, s), id, approval)
    ensures Held(w, id, approval) ==> Held(Apply(c, w, s), id, approval) || Crashed in Added(c, w, s)
    ensures Sealed(w, id, approval) ==> Sealed(Apply(c, w, s), id, approval)
  {
    StepLog(c, w, s);
    hide Core;
    hide Inv;
    match s
    case Act(a) =>
      HeldEvolves(w, Core(c, w, a), id, approval);
      DecisionNeedsTask(c, w, a, id, approval);
      hide Calls;
    case DieDuring(a) =>
      if w.up { HeldEvolves(w, Core(c, w, a), id, approval); }
    case Restart(order) =>
  }

  lemma DecisionHolds(c: Config, w: World, t: nat)
    requires Inv(c, w) && w.up && At(w, t, false, Ready) && !w.tasks[t].cancelRequested
    ensures var w' := Core(c, w, BeginResume(t));
            var approval := w.tasks[t].job.approval;
            && Held(w', w.tasks[t].id, approval)
            && (w.tasks[t].id in w.store && approval in w.store[w.tasks[t].id].resolved ==>
                  Sealed(w', w.tasks[t].id, approval))
  {
    var w' := SetPhase(w, t, InPipeline);
    assert Core(c, w, BeginResume(t)) == w';
    var id := w.tasks[t].id;
    assert Live(w, t);
    forall u | 0 <= u < |w'.tasks| && w'.tasks[u].id == id
      ensures !w'.tasks[u].phase.Ready?
    {
      if u != t { assert w'.tasks[u] == w.tasks[u]; assert !Live(w, u); }
    }
  }

  /** The decision a step applies is held, and sealed once recorded, in the next state. */
  lemma DecisionGuarded(c: Config, w: World, s: Step, e: Event)
    requires Inv(c, w) && Proper(w, s) && s.Act? && w.up && Calls(c, w, s.a) == [e] && e.Resumed?
    ensures Held(Apply(c, w, s), e.id, e.approval)
    ensures e.recorded ==> Sealed(Apply(c, w, s), e.id, e.approval)
  {
    DecisionHolds(c, w, s.a.t);
    assert Core(c, w, s.a).store == w.store;
    hide Core;
  }

  ghost predicate CrashBetween(log: seq<Event>, i: int, j: int) {
    exists k :: i < k < j && 0 <= k < |log| && log[k] == Crashed
  }

  ghost predicate Decided(w: World) {
    forall i :: 0 <= i < |w.log| && w.log[i].Resumed? ==>
      && (CrashBetween(w.log, i, |w.log|) || Held(w, w.log[i].id, w.log[i].approval))
      && (w.log[i].recorded ==> Sealed(w, w.log[i].id, w.log[i].approval))
  }

  /** Two applications of one decision are only possible when the first was never durably
      recorded and the process died in between. */
  ghost predicate AppliedOnce(log: seq<Event>) {
    forall i, j :: 0 <= i < j < |log| && log[i].Resumed? && log[j].Resumed?
                   && log[i].id == log[j].id && log[i].approval == log[j].approval
                   ==> !log[i].recorded && CrashBetween(log, i, j)
  }

  lemma CrashGrows(log: seq<Event>, more: seq<Event>, i: int, j: int)
    requires CrashBetween(log, i, j) && 0 <= i <= j <= |log|
    ensures CrashBetween(log + more, i, j)
  {
    var k :| i < k < j && 0 <= k < |log| && log[k] == Crashed;
    assert (log + more)[k] == Crashed;
  }

  lemma CrashAdded(log: seq<Event>, more: seq<Event>, i: int)
    requires 0 <= i < |log| && (Crashed in more || CrashBetween(log, i, |log|))
    ensures CrashBetween(log + more, i, |log + more|)
  {
    if Crashed in more {
      var k :| 0 <= k < |more| && more[k] == Crashed;
      assert (log + more)[|log| + k] == Crashed;
    } else {
      var k :| i < k < |log| && log[k] == Crashed;
      assert (log + more)[k] == Crashed;
    }
  }

  lemma DecidedStep(c: Config, w: World, s: Step)
    requires Inv(c, w) && Proper(w, s) && Decided(w)
    ensures Decided(Apply(c, w, s))
  {
    var w' := Apply(c, w, s);
    var E := Added(c, w, s);
    StepLog(c, w, s);
    AddedShape(c, w, s);
    hide Apply;
    hide Added;
    hide Calls;
    hide Inv;
    hide Held;
    hide Sealed;
    forall i | 0 <= i < |w'.log| && w'.log[i].Resumed?
      ensures CrashBetween(w'.log, i, |w'.log|) || Held(w', w'.log[i].id, w'.log[i].approval)
      ensures w'.log[i].recorded ==> Sealed(w', w'.log[i].id, w'.log[i].approval)
    {
      if i >= |w.log| {
        assert w'.log[i] == E[i - |w.log|];
        DecisionGuarded(c, w, s, w'.log[i]);
      } else {
        if Held(w, w.log[i].id, w.log[i].approval) || Sealed(w, w.log[i].id, w.log[i].approval) {
          HeldStep(c, w, s, w.log[i].id, w.log[i].approval);
        }
        if Crashed in E || CrashBetween(w.log, i, |w.log|) { CrashAdded(w.log, E, i); }
      }
    }
  }

  lemma AppliedOnceStep(c: Config, w: World, s: Step)
    requires Inv(c, w) && Proper(w, s) && Decided(w) && AppliedOnce(w.log)
    ensures AppliedOnce(Apply(c, w, s).log)
  {
    hide Apply;
    hide Added;
    hide Calls;
    hide Inv;
    hide Held;
    hide Sealed;
    hide Proper;
    var log := Apply(c, w, s).log;
    var E := Added(c, w, s);
    StepLog(c, w, s);
    AddedShape(c, w, s);
    forall i, j | 0 <= i < j < |log| && log[i].Resumed? && log[j].Resumed?
                  && log[i].id == log[j].id && log[i].approval == log[j].approval
      ensures !log[i].recorded && CrashBetween(log, i, j)
    {
      if j < |w.log| {
        CrashGrows(w.log, E, i, j);
      } else {
        assert log[j] == E[j - |w.log|];
        assert i < |w.log|;
        assert !Held(w, log[i].id, log[i].approval) && !Sealed(w, log[i].id, log[i].approval) by {
          if Held(w, log[i].id, log[i].approval) || Sealed(w, log[i].id, log[i].approval) {
            HeldStep(c, w, s, log[i].id, log[i].approval);
            assert false;
          }
        }
        var k :| i < k < |w.log| && w.log[k] == Crashed;
        assert log[k] == Crashed;
      }
    }
  }

  lemma {:induction false} AppliedOnceRun(c: Config, w: World, steps: seq<Step>)
    requires Inv(c, w) && Decided(w) && AppliedOnce(w.log) && ProperRun(c, w, steps)
    ensures AppliedOnce(Exec(c, w, steps).log)
    decreases |steps|
  {
    hide Apply;
    if steps != [] {
      StepInv(c, w, steps[0]);
      DecidedStep(c, w, steps[0]);
      AppliedOnceStep(c, w, steps[0]);
      AppliedOnceRun(c, Apply(c, w, steps[0]), steps[1..]);
    }
  }

  /** Over every proper run, under any interleaving of callers, deaths and restarts: one
      user decision starts `resume_pipeline` at most once, except that a process death can
      let it start again if no checkpoint carrying the decision reached the store. */
  lemma DecisionAppliedOnce(c: Config, steps: seq<Step>)
    requires ProperRun(c, BOOT, steps)
    ensures AppliedOnce(Exec(c, BOOT, steps).log)
  {
    BootInv(c);
    AppliedOnceRun(c, BOOT, steps);
  }
}
