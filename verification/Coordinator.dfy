/** The coordinator as it runs: dictionaries updated in place, one method per stretch of code
    between two `await` points. Every method is proved to be the step of the state machine
    that the safety theorems are about. */
module Coordinator {

  import opened Wrappers
  import opened Retention
  import opened Lifecycle
  import LifecycleOutcomes

  // ---------------------------------------------------------------- writing a cell in pieces

  /** The rest of an action, worked out from what a first part wrote back. */
  function Rejoin(x: Cell, y: Cell): Cell { y.(events := x.events + y.events, ended := x.ended || y.ended) }

  predicate SameEnd(x: Cell, y: Cell) { Terminal(x.r.status) <==> Terminal(y.r.status) }

  lemma CellAfterMerge(c: Config, w: World, x: Cell)
    requires x.cp.None? ==> x.id !in w.store
    ensures x.id in Merge(c, w, x).records
    ensures CellAt(Merge(c, w, x), x.id) == x.(events := [], ended := false)
  {
  }

  /** Pruning in the middle of an action prunes what pruning at its end would. */
  lemma MergeTwice(c: Config, w: World, x: Cell, y: Cell)
    requires x.id == y.id && (x.cp.Some? ==> y.cp.Some?) && !(x.ended && y.ended) && (x.ended ==> SameEnd(x, y))
    ensures Merge(c, Merge(c, w, x), y) == Merge(c, w, Rejoin(x, y))
  {
    var a, b := Merge(c, w, x), Merge(c, w, Rejoin(x, y));
    assert w.records[x.id := x.r][x.id := y.r] == w.records[x.id := y.r];
    assert x.cp.Some? ==> w.store[x.id := x.cp.value][x.id := y.cp.value] == w.store[x.id := y.cp.value];
    assert (w.log + x.events) + y.events == w.log + (x.events + y.events);
    if x.ended {
      assert TerminalIds(w.records[x.id := x.r]) == TerminalIds(w.records[x.id := y.r]);
    }
  }

  /** The cell knows of the checkpoint the store has. */
  predicate Faithful(w: World, x: Cell) { x.cp.None? ==> x.id !in w.store }

  /** A save after a first part is the save in one piece. */
  lemma ThenSave(c: Config, w: World, x: Cell, safe: bool, ok: bool)
    requires Faithful(w, x)
    ensures var w1 := Merge(c, w, x);
            x.id in w1.records && Merge(c, w1, Save(CellAt(w1, x.id), safe, ok)) == Merge(c, w, Save(x, safe, ok))
    ensures Faithful(w, Save(x, safe, ok)) && Save(x, safe, ok).id == x.id
  {
    CellAfterMerge(c, w, x);
    var y := Save(x.(events := [], ended := false), safe, ok);
    assert x.events + [] == x.events;
    assert Rejoin(x, y) == Save(x, safe, ok);
    MergeTwice(c, w, x, y);
  }

  /** A transition after a first part that has not ended the execution. */
  lemma ThenMove(c: Config, w: World, x: Cell, to: Status, ok: bool)
    requires Faithful(w, x) && !x.ended
    ensures var w1 := Merge(c, w, x);
            x.id in w1.records
            && var moved := Move(CellAt(w1, x.id), to, ok);
            (moved.Some? <==> Move(x, to, ok).Some?)
            && (moved.Some? ==> Merge(c, w1, moved.value) == Merge(c, w, Move(x, to, ok).value))
    ensures Move(x, to, ok).Some? ==> Faithful(w, Move(x, to, ok).value) && Move(x, to, ok).value.id == x.id
  {
    hide Legal;
    CellAfterMerge(c, w, x);
    var moved := Move(x.(events := [], ended := false), to, ok);
    if moved.Some? {
      assert x.events + [] == x.events;
      assert Rejoin(x, moved.value) == Move(x, to, ok).value;
      MergeTwice(c, w, x, moved.value);
    }
  }

  /** Writing the record's other fields after a first part. */
  lemma ThenUpdate(c: Config, w: World, x: Cell, r: Record)
    requires Faithful(w, x) && (Terminal(x.r.status) <==> Terminal(r.status))
    ensures var w1 := Merge(c, w, x);
            x.id in w1.records && w1.records[x.id] == x.r
            && Merge(c, w1, CellAt(w1, x.id).(r := r)) == Merge(c, w, x.(r := r))
  {
    CellAfterMerge(c, w, x);
    var y := x.(events := [], ended := false, r := r);
    assert x.events + [] == x.events;
    assert Rejoin(x, y) == x.(r := r);
    MergeTwice(c, w, x, y);
  }

  /** Anything after a first part that only wrote record fields. */
  lemma ThenAny(c: Config, w: World, x: Cell, y: Cell)
    requires Faithful(w, x) && x.events == [] && !x.ended && y.id == x.id && (x.cp.Some? ==> y.cp.Some?)
    ensures var w1 := Merge(c, w, x);
            x.id in w1.records && CellAt(w1, x.id) == x && Merge(c, w1, y) == Merge(c, w, y)
  {
    CellAfterMerge(c, w, x);
    assert [] + y.events == y.events;
    assert Rejoin(x, y) == y;
    MergeTwice(c, w, x, y);
  }

  lemma SettleKeeps(x: Cell, outcome: Outcome, ok1: bool, ok2: bool)
    ensures var (y, settled) := Settle(x, outcome, ok1, ok2);
            y.id == x.id && (x.cp.Some? ==> y.cp.Some?) && (!settled ==> y.cp == x.cp && y.events == x.events && y.ended == x.ended)
  {
    hide Legal;
  }

  lemma HandleKeeps(x: Cell, to: Status, ok1: bool, saves: bool, ok2: bool)
    ensures var y := Handle(x, to, ok1, saves, ok2); y.id == x.id && (x.cp.Some? ==> y.cp.Some?)
  {
    hide Legal;
  }

  lemma PhaseKeepsCell(w: World, t: nat, phase: Phase, id: Id)
    requires t < |w.tasks| && id in w.records
    ensures CellAt(SetPhase(w, t, phase), id) == CellAt(w, id)
  {
  }

  lemma MergeSame(c: Config, w: World, id: Id)
    requires id in w.records
    ensures Merge(c, w, CellAt(w, id)) == w
  {
    assert w.records[id := w.records[id]] == w.records;
    assert id in w.store ==> w.store[id := w.store[id]] == w.store;
    assert w.log + [] == w.log;
  }

  lemma DropNext(s: seq<Id>, T: set<Id>, n: nat, keep: Option<Id>)
    requires s != [] && n > 0
    ensures DropOldest(s, T, n, keep)
            == if s[0] in T && keep != Some(s[0]) then DropOldest(s[1..], T, n - 1, keep) else [s[0]] + DropOldest(s[1..], T, n, keep)
  {
  }

  lemma DropNothing(s: seq<Id>, T: set<Id>, n: nat, keep: Option<Id>)
    requires s == [] || n == 0
    ensures DropOldest(s, T, n, keep) == s
  {
  }

  /** Only two kinds of action call the pipeline. */
  lemma NoCalls(c: Config, w: World, a: Action)
    requires !a.BeginInitial? && !a.BeginResume?
    ensures Apply(c, w, Act(a)) == Core(c, w, a)
  {
    hide Core;
    var w' := Core(c, w, a);
    assert w'.log + [] == w'.log;
  }

  datatype Error = NotFound | Conflict | CapacityFull | BadDecision | IllegalTransition

  lemma SettlesRunning(c: Config, w: World, id: Id, outcome: Outcome, ok1: bool, ok2: bool)
    requires id in w.records
    ensures w.records[id].status.Running? && LifecycleOutcomes.Behind(w, id) ==>
              var (y, settled) := Settle(CellAt(w, id), outcome, ok1, ok2);
              var w' := Merge(c, w, y);
              && settled && id in w'.records
              && w'.records[id].status == (match outcome case PausedOn(_) => AwaitingApproval case Finished => Completed
                                                         case Aborted => Cancelled case Broken => Failed)
              && (ok2 ==> id in w'.store && w'.store[id].status == w'.records[id].status)
  {
    hide Settle;
    hide Merge;
    if w.records[id].status.Running? && LifecycleOutcomes.Behind(w, id) {
      LifecycleOutcomes.SettledCell(CellAt(w, id), outcome, ok1, ok2);
      LifecycleOutcomes.MergedCell(c, w, Settle(CellAt(w, id), outcome, ok1, ok2).0);
    }
  }

  // ---------------------------------------------------------------- the coordinator

  class ExecutionCoordinator {
    const c: Config
    var store: map<Id, Checkpoint>
    var records: map<Id, Record>
    var listed: seq<Id>
    var tasks: seq<Task>
    ghost var recoverCalled: bool
    ghost var restored: nat
    ghost var used: set<Id>
    ghost var log: seq<Event>

    ghost function View(): World
      reads this
    {
      World(true, store, records, listed, tasks, recoverCalled, restored, used, log)
    }

    /** `_prune_terminal_records`: pop the oldest finished entries but the one to preserve. */
    method PruneTerminalRecords(keep: Option<Id>)
      modifies this`listed
      ensures View() == PruneHistory(c, old(View()), keep)
    {
      hide DropOldest;
      var terminal := TerminalIds(records);
      hide TerminalIds;
      var total := Count(listed, terminal);
      if total <= Retained(c) { return; }
      var excess: nat := total - Retained(c);
      ghost var all, n: nat := listed, excess;
      var kept, rest := [], listed;
      while rest != [] && excess > 0
        invariant DropOldest(all, terminal, n, keep) == kept + DropOldest(rest, terminal, excess, keep)
        decreases |rest|
      {
        DropNext(rest, terminal, excess, keep);
        if rest[0] in terminal && keep != Some(rest[0]) {
          excess := excess - 1;
        } else {
          kept := kept + [rest[0]];
        }
        rest := rest[1..];
      }
      DropNothing(rest, terminal, excess, keep);
      listed := kept + rest;
    }

    /** `_save_checkpoint`. */
    method SaveCheckpoint(id: Id, safe: bool, ok: bool)
      requires id in records
      modifies this
      ensures View() == Merge(c, old(View()), Save(CellAt(old(View()), id), safe, ok))
    {
      ghost var w := View();
      var r := records[id].(generation := records[id].generation + 1);
      records := records[id := r];
      if ok && (id in store ==> store[id].generation < r.generation) {
        store := store[id := Snapshot(r, safe)];
        log := log + [Saved(id, safe)];
      }
      assert id in w.store ==> w.store[id := w.store[id]] == w.store;
      assert w.log + [] == w.log;
      assert [] + [Saved(id, safe)] == [Saved(id, safe)];
    }

    /** `_transition`: an illegal move raises and changes nothing. */
    method Transition(id: Id, to: Status, ok: bool) returns (raised: bool)
      requires id in records
      modifies this
      ensures raised <==> Move(CellAt(old(View()), id), to, ok).None?
      ensures View() == if raised then old(View()) else Merge(c, old(View()), Move(CellAt(old(View()), id), to, ok).value)
    {
      hide Save;
      hide Merge;
      hide Move;
      hide PruneHistory;
      MoveInPieces(c, View(), id, to, ok);
      if !Legal(records[id].status, to) { return true; }
      records := records[id := records[id].(status := to)];
      SaveCheckpoint(id, to == Planning, ok);
      if Terminal(to) {
        PruneTerminalRecords(Some(id));
      }
      return false;
    }

    /** `_set_terminal_result` and the clearing of the pending approval. */
    method Update(id: Id, r: Record)
      requires id in records
      modifies this`records
      ensures View() == Merge(c, old(View()), CellAt(old(View()), id).(r := r))
    {
      ghost var w := View();
      records := records[id := r];
      assert id in w.store ==> w.store[id := w.store[id]] == w.store;
      assert w.log + [] == w.log;
    }

    /** `_settle_pipeline`: false when the transition raised. */
    method SettlePipeline(id: Id, outcome: Outcome, ok1: bool, ok2: bool) returns (settled: bool)
      requires id in records
      modifies this
      ensures settled == Settle(CellAt(old(View()), id), outcome, ok1, ok2).1
      ensures View() == Merge(c, old(View()), Settle(CellAt(old(View()), id), outcome, ok1, ok2).0)
      ensures old(records[id]).status.Running? && LifecycleOutcomes.Behind(old(View()), id) ==>
                && settled && id in records
                && records[id].status == (match outcome case PausedOn(_) => AwaitingApproval case Finished => Completed
                                                        case Aborted => Cancelled case Broken => Failed)
                && (ok2 ==> id in store && store[id].status == records[id].status)
    {
      ghost var w0 := View();
      SettlesRunning(c, w0, id, outcome, ok1, ok2);
      ghost var w, x := View(), CellAt(View(), id);
      var r := if outcome.PausedOn? then records[id].(pendingApproval := Some(outcome.task), pendingTask := Some(outcome.task))
               else ClearPending(records[id]);
      Update(id, r);
      hide Merge;
      hide Save;
      ghost var x1 := x.(r := r);
      ThenMove(c, w, x1, OutcomeStatus(outcome), ok1);
      var raised := Transition(id, OutcomeStatus(outcome), ok1);
      if raised { return false; }
      ThenSave(c, w, Move(x1, OutcomeStatus(outcome), ok1).value, false, ok2);
      hide Move;
      SaveCheckpoint(id, false, ok2);
      return true;
    }

    /** The exception handlers of `_run_initial` and `_run_resume`. */
    method HandleFailure(id: Id, to: Status, ok1: bool, saves: bool, ok2: bool)
      requires id in records
      modifies this
      ensures View() == Merge(c, old(View()), Handle(CellAt(old(View()), id), to, ok1, saves, ok2))
    {
      hide Save;
      hide Legal;
      hide Merge;
      hide WithResult;
      ghost var w, x := View(), CellAt(View(), id);
      MergeSame(c, w, id);
      ghost var y := x;
      if !Terminal(records[id].status) {
        ThenMove(c, w, x, to, ok1);
        var raised := Transition(id, to, ok1);
        if raised { return; }
        y := Move(x, to, ok1).value;
      }
      ResultKeepsStatus(y.r);
      ThenUpdate(c, w, y, WithResult(y.r));
      Update(id, WithResult(records[id]));
      y := y.(r := WithResult(y.r));
      if saves {
        ThenSave(c, w, y, false, ok2);
        SaveCheckpoint(id, false, ok2);
      }
    }

    method SpawnTask(id: Id, job: Job)
      requires id in records
      modifies this
      ensures View() == Spawn(old(View()), id, job)
    {
      records := records[id := records[id].(task := Some(|tasks|))];
      tasks := tasks + [Task(id, job, Ready, false)];
    }

    /** `__init__`: restore one record per readable checkpoint, then prune. `down` is the
        world the last process left behind. */
    constructor (c: Config, store: map<Id, Checkpoint>, order: seq<Id>, ghost down: World)
      requires CanRestart(down, order) && store == down.store && down.tasks == [] && !down.recoverCalled
      ensures this.c == c && View() == Apply(c, down, Restart(order))
    {
      hide Restore;
      hide Core;
      hide PruneHistory;
      this.c := c;
      this.store := store;
      records, listed, tasks := map[], [], [];
      recoverCalled, restored, used, log := false, 0, down.used, down.log;
      new;
      var i := 0;
      while i < |order|
        invariant i <= |order| && listed == order[..i] && this.store == store && this.c == c
        invariant tasks == [] && !recoverCalled && used == down.used && log == down.log
        invariant records == map id | id in order[..i] :: Restore(store[id])
      {
        assert order[..i + 1] == order[..i] + [order[i]];
        records := records[order[i] := Restore(store[order[i]])];
        listed := listed + [order[i]];
        i := i + 1;
      }
      assert order[..i] == order;
      restored := Count(order, OpenIds(records));
      PruneTerminalRecords(None);
    }

    /** `start_execution` up to the creation of its task. */
    method StartExecution(id: Id, ok1: bool, ok2: bool) returns (r: Result<(), Error>)
      modifies this
      ensures r.Ok? <==> Admitted(c, old(View()), id)
      ensures View() == Apply(c, old(View()), Act(Start(id, ok1, ok2)))
    {
      hide Core;
      hide Apply;
      hide Merge;
      hide Save;
      hide Move;
      hide Lifecycle.StartExecution;
      StartIsStep(c, View(), id, ok1, ok2);
      StartRefused(c, View(), id, ok1, ok2);
      if id in listed { return Err(Conflict); }
      if Count(listed, OpenIds(records)) >= Capacity(c) { return Err(CapacityFull); }
      StartUnfolds(c, View(), id, ok1, ok2);
      records := records[id := FRESH_RECORD];
      listed := listed + [id];
      used := used + {id};
      SaveCheckpoint(id, true, ok1);
      var raised := Transition(id, Planning, ok2);
      SpawnTask(id, Initial);
      return Ok(());
    }

    /** `recover_pending`: a task for every listed record still recovering. */
    method RecoverPending()
      requires forall id :: id in listed ==> id in records
      modifies this
      ensures View() == Apply(c, old(View()), Act(Recover))
    {
      NoCalls(c, View(), Recover);
      recoverCalled := true;
      ghost var w := View();
      var ids, i := listed, 0;
      assert ids[0..] == ids;
      while i < |ids|
        invariant i <= |ids| && forall id :: id in ids ==> id in records
        invariant Lifecycle.RecoverPending(View(), ids[i..]) == Lifecycle.RecoverPending(w, ids)
      {
        assert ids[i] in ids && ids[i..][0] == ids[i] && ids[i..][1..] == ids[i + 1..];
        if records[ids[i]].status.Recovering? { SpawnTask(ids[i], Initial); }
        i := i + 1;
      }
    }

    /** `_execute_initial_pipeline` after the pipeline has returned. */
    method InitialReturns(t: nat, p: Pipeline, outcome: Outcome, ok1: bool, ok2: bool, ok3: bool, ok4: bool)
      requires At(View(), t, true, InPipeline)
      modifies this
      ensures View() == Apply(c, old(View()), Act(Action.InitialReturns(t, p, outcome, ok1, ok2, ok3, ok4)))
    {
      hide Merge;
      hide Settle;
      hide Handle;
      hide Core;
      hide Apply;
      InitialReturnsIsStep(c, View(), t, p, outcome, ok1, ok2, ok3, ok4);
      var id := tasks[t].id;
      PhaseKeepsCell(View(), t, Done, id);
      tasks := tasks[t := tasks[t].(phase := Done)];
      ghost var w, x := View(), CellAt(View(), id).(r := records[id].(pipeline := Some(p)));
      ghost var y := Settle(x, outcome, ok1, ok2).0;
      SettleKeeps(x, outcome, ok1, ok2);
      ThenAny(c, w, x, y);
      Update(id, records[id].(pipeline := Some(p)));
      var settled := SettlePipeline(id, outcome, ok1, ok2);
      if !settled {
        HandleKeeps(y, Failed, ok3, true, ok4);
        ThenAny(c, w, y, Handle(y, Failed, ok3, true, ok4));
        HandleFailure(id, Failed, ok3, true, ok4);
      }
    }

    /** An exception out of `_run_initial`. */
    method InitialRaises(t: nat, to: Status, ok1: bool, ok2: bool)
      requires Interruptible(View(), t, to)
      modifies this
      ensures View() == Apply(c, old(View()), Act(Action.InitialRaises(t, to, ok1, ok2)))
    {
      hide Merge;
      hide Handle;
      hide Apply;
      NoCalls(c, View(), Action.InitialRaises(t, to, ok1, ok2));
      PhaseKeepsCell(View(), t, Done, tasks[t].id);
      tasks := tasks[t := tasks[t].(phase := Done)];
      HandleFailure(tasks[t].id, to, ok1, true, ok2);
    }

    /** An exception out of `_run_resume`: nothing is saved after the transition. */
    method ResumeRaises(t: nat, to: Status, ok: bool)
      requires At(View(), t, false, InPipeline) && (to.Cancelled? || to.Failed?)
      modifies this
      ensures View() == Apply(c, old(View()), Act(Action.ResumeRaises(t, to, ok)))
    {
      hide Merge;
      hide Handle;
      hide Apply;
      NoCalls(c, View(), Action.ResumeRaises(t, to, ok));
      PhaseKeepsCell(View(), t, Done, tasks[t].id);
      tasks := tasks[t := tasks[t].(phase := Done)];
      HandleFailure(tasks[t].id, to, ok, false, false);
    }

    /** `_runtime_checkpoint`: a running pipeline reports its progress. */
    method RuntimeCheckpoint(id: Id, captured: Option<Pipeline>, safe: bool, ok: bool)
      requires id in records
      modifies this
      ensures View() == Apply(c, old(View()), Act(Action.RuntimeCheckpoint(id, captured, safe, ok)))
    {
      hide Merge;
      hide Save;
      hide Apply;
      NoCalls(c, View(), Action.RuntimeCheckpoint(id, captured, safe, ok));
      ghost var w, x := View(), CellAt(View(), id);
      if captured.Some? {
        ghost var y := x.(r := x.r.(pipeline := captured));
        ThenSave(c, w, y, safe, ok);
        Update(id, records[id].(pipeline := captured));
      }
      SaveCheckpoint(id, safe, ok);
    }

    /** `_run_initial` from the granted slot up to the pipeline call. */
    method RunInitial(t: nat, ok: bool)
      requires At(View(), t, true, Queued)
      modifies this
      ensures View() == Apply(c, old(View()), Act(BeginInitial(t, ok)))
    {
      hide Merge;
      hide Save;
      hide Move;
      hide Apply;
      hide Core;
      hide EnterInitial;
      ghost var w := View();
      var id := tasks[t].id;
      BeginIsStep(c, w, t, ok);
      if records[id].cancelSet || Terminal(records[id].status) {
        tasks := tasks[t := tasks[t].(phase := Done)];
        return;
      }
      PhaseKeepsCell(w, t, InPipeline, id);
      tasks := tasks[t := tasks[t].(phase := InPipeline)];
      if records[id].status.Planning? || records[id].status.Recovering? {
        var raised := Transition(id, Running, ok);
      }
      log := log + [Invoked(id, CallFor(w.records[id]), id in store && !Replayable(store, id))];
    }

    /** `submit_approval` up to the creation of the resume task. */
    method SubmitApproval(id: Id, approval: string, decision: Option<Decision>, ok1: bool, ok2: bool, ok3: bool)
      returns (r: Result<(), Error>)
      requires forall x :: x in listed ==> x in records
      modifies this
      ensures r.Ok? <==> CanSubmit(old(View()), id, approval) && decision.Some?
      ensures View() == Apply(c, old(View()), Act(Submit(id, approval, decision, ok1, ok2, ok3)))
    {
      hide Merge;
      hide Save;
      hide Move;
      hide Apply;
      hide Core;
      hide Decide;
      hide Lifecycle.SubmitApproval;
      ghost var w := View();
      SubmitIsStep(c, w, id, approval, decision, ok1, ok2, ok3);
      if id !in listed { return Err(NotFound); }
      var q := records[id];
      if !q.status.AwaitingApproval? { return Err(Conflict); }
      if q.pendingApproval != Some(approval) { return Err(Conflict); }
      if approval in q.resolved { return Err(Conflict); }
      if decision.None? { return Err(BadDecision); }
      if q.pipeline.None? || q.pendingTask.None? { return Err(Conflict); }
      DecideUnfolds(c, w, id, approval, decision.value, ok1, ok2, ok3);
      Update(id, q.(resolved := q.resolved + {approval}));
      SaveCheckpoint(id, false, ok1);
      if decision.value.Allow? {
        var raised := Transition(id, Approved, ok2);
        raised := Transition(id, Running, ok3);
      }
      SpawnTask(id, Resume(approval, decision.value));
      return Ok(());
    }

    /** `_run_resume` up to the pipeline call. */
    method RunResume(t: nat)
      requires At(View(), t, false, Ready) && !tasks[t].cancelRequested
      modifies this
      ensures View() == Apply(c, old(View()), Act(BeginResume(t)))
    {
      var id, approval := tasks[t].id, tasks[t].job.approval;
      tasks := tasks[t := tasks[t].(phase := InPipeline)];
      log := log + [Resumed(id, approval, id in store && approval in store[id].resolved)];
    }

    /** `_run_resume` after the pipeline has returned. */
    method ResumeReturns(t: nat, p: Pipeline, outcome: Outcome, ok1: bool, ok2: bool, ok3: bool)
      requires At(View(), t, false, InPipeline)
      modifies this
      ensures View() == Apply(c, old(View()), Act(Action.ResumeReturns(t, p, outcome, ok1, ok2, ok3)))
    {
      hide Merge;
      hide Settle;
      hide Handle;
      hide Move;
      hide Save;
      hide Core;
      hide Apply;
      hide WithResult;
      ResumeReturnsIsStep(c, View(), t, p, outcome, ok1, ok2, ok3);
      var id, decision := tasks[t].id, tasks[t].job.decision;
      PhaseKeepsCell(View(), t, Done, id);
      tasks := tasks[t := tasks[t].(phase := Done)];
      ghost var w, x := View(), CellAt(View(), id).(r := records[id].(pipeline := Some(p)));
      if decision.Deny? {
        ghost var y := x.(r := WithResult(ClearPending(x.r)));
        Update(id, WithResult(ClearPending(records[id].(pipeline := Some(p)))));
        ThenMove(c, w, y, Denied, ok1);
        var raised := Transition(id, Denied, ok1);
        if raised {
          HandleKeeps(y, Failed, ok3, false, false);
          ThenAny(c, w, y, Handle(y, Failed, ok3, false, false));
          HandleFailure(id, Failed, ok3, false, false);
        }
      } else {
        ghost var y := Settle(x, outcome, ok1, ok2).0;
        SettleKeeps(x, outcome, ok1, ok2);
        ThenAny(c, w, x, y);
        Update(id, records[id].(pipeline := Some(p)));
        var settled := SettlePipeline(id, outcome, ok1, ok2);
        if !settled {
          HandleKeeps(y, Failed, ok3, false, false);
          ThenAny(c, w, y, Handle(y, Failed, ok3, false, false));
          HandleFailure(id, Failed, ok3, false, false);
        }
      }
    }

    method CancelTaskOf(id: Id)
      requires id in records
      modifies this`tasks
      ensures View() == CancelTask(old(View()), old(records[id]))
    {
      var r := records[id];
      if r.task.Some? && r.task.value < |tasks| && !tasks[r.task.value].phase.Done? {
        tasks := tasks[r.task.value := tasks[r.task.value].(cancelRequested := true)];
      }
    }

    /** `cancel_execution` up to the wait for the task; a finished execution stays as it is. */
    method CancelExecution(id: Id) returns (r: Result<(), Error>)
      requires forall x :: x in listed ==> x in records
      modifies this
      ensures r.Ok? <==> id in old(listed)
      ensures View() == Apply(c, old(View()), Act(RequestCancel(id)))
    {
      hide Apply;
      NoCalls(c, View(), RequestCancel(id));
      if id !in listed { return Err(NotFound); }
      if Terminal(records[id].status) { return Ok(()); }
      ghost var w := View();
      CancelCommutes(c, w, w.records[id], CellAt(w, id).(r := w.records[id].(cancelSet := true)));
      Update(id, records[id].(cancelSet := true));
      CancelTaskSame(View(), w.records[id], records[id]);
      CancelTaskOf(id);
      return Ok(());
    }

    /** `cancel_execution` after the wait. */
    method FinishCancel(id: Id, ok1: bool, ok2: bool)
      requires id in records && records[id].cancelSet
      modifies this
      ensures View() == Apply(c, old(View()), Act(Action.FinishCancel(id, ok1, ok2)))
    {
      hide Merge;
      hide Save;
      hide Move;
      hide Apply;
      hide WithResult;
      NoCalls(c, View(), Action.FinishCancel(id, ok1, ok2));
      ghost var w, x := View(), CellAt(View(), id);
      MergeSame(c, w, id);
      ghost var y := x;
      if !Terminal(records[id].status) {
        ThenMove(c, w, x, Cancelled, ok1);
        var raised := Transition(id, Cancelled, ok1);
        if raised { return; }
        y := Move(x, Cancelled, ok1).value;
      }
      ResultKeepsStatus(y.r);
      ThenUpdate(c, w, y, ClearPending(WithResult(y.r)));
      Update(id, ClearPending(WithResult(records[id])));
      y := y.(r := ClearPending(WithResult(y.r)));
      ThenSave(c, w, y, false, ok2);
      SaveCheckpoint(id, false, ok2);
    }

    /** `timeout_execution` up to the wait for the task; a finished execution stays as it is,
        and an illegal transition raises. */
    method TimeoutExecution(id: Id, ok: bool) returns (r: Result<(), Error>)
      requires forall x :: x in listed ==> x in records
      modifies this
      ensures r.Ok? <==> id in old(listed) && (Terminal(old(records)[id].status) || Legal(old(records)[id].status, TimedOut))
      ensures View() == Apply(c, old(View()), Act(Timeout(id, ok)))
    {
      hide Apply;
      hide Save;
      hide Legal;
      hide Merge;
      hide Move;
      hide CancelTask;
      NoCalls(c, View(), Timeout(id, ok));
      if id !in listed { return Err(NotFound); }
      if Terminal(records[id].status) { return Ok(()); }
      ghost var w, x := View(), CellAt(View(), id);
      MergeSame(c, w, id);
      MovedPieces(x, TimedOut, ok);
      ThenMove(c, w, x, TimedOut, ok);
      var raised := Transition(id, TimedOut, ok);
      if raised { return Err(IllegalTransition); }
      ghost var moved := Move(x, TimedOut, ok).value;
      ghost var last := moved.(r := moved.r.(cancelSet := true));
      TimedOutKeeps(x, ok);
      ThenUpdate(c, w, moved, last.r);
      Update(id, records[id].(cancelSet := true));
      CancelCommutes(c, w, w.records[id], last);
      CancelTaskSame(View(), w.records[id], last.r);
      CellAfterMerge(c, w, last);
      CancelTaskOf(id);
      return Ok(());
    }

    /** `timeout_execution` after the wait. */
    method FinishTimeout(id: Id, ok: bool)
      requires id in records && records[id].status.TimedOut? && !TaskLive(View(), records[id])
      modifies this
      ensures View() == Apply(c, old(View()), Act(Action.FinishTimeout(id, ok)))
    {
      hide Merge;
      hide Save;
      hide Apply;
      hide WithResult;
      NoCalls(c, View(), Action.FinishTimeout(id, ok));
      ghost var w, x := View(), CellAt(View(), id);
      Update(id, ClearPending(WithResult(records[id])));
      ThenSave(c, w, x.(r := ClearPending(WithResult(x.r))), false, ok);
      SaveCheckpoint(id, false, ok);
    }
  }

  lemma InitialReturnsIsStep(c: Config, w: World, t: nat, p: Pipeline, outcome: Outcome, ok1: bool, ok2: bool, ok3: bool, ok4: bool)
    requires w.up && At(w, t, true, InPipeline)
    ensures var id := w.tasks[t].id;
            var x := CellAt(w, id).(r := w.records[id].(pipeline := Some(p)));
            var (y, settled) := Settle(x, outcome, ok1, ok2);
            Apply(c, w, Act(InitialReturns(t, p, outcome, ok1, ok2, ok3, ok4)))
            == Merge(c, SetPhase(w, t, Done), if settled then y else Handle(y, Failed, ok3, true, ok4))
  {
    hide Merge;
    hide Settle;
    hide Handle;
    NoCalls(c, w, InitialReturns(t, p, outcome, ok1, ok2, ok3, ok4));
  }

  lemma RunningIsLegal(x: Cell, ok: bool)
    requires x.r.status.Planning? || x.r.status.Recovering?
    ensures Move(x, Running, ok).Some?
  {
  }

  lemma BeginIsStep(c: Config, w: World, t: nat, ok: bool)
    requires w.up && At(w, t, true, Queued)
    ensures var id := w.tasks[t].id;
            var x := CellAt(w, id);
            if x.r.cancelSet || Terminal(x.r.status) then Apply(c, w, Act(BeginInitial(t, ok))) == SetPhase(w, t, Done)
            else
              (x.r.status.Planning? || x.r.status.Recovering? ==> Move(x, Running, ok).Some?)
              && var v := SetPhase(w, t, InPipeline);
              var w' := if x.r.status.Planning? || x.r.status.Recovering? then Merge(c, v, Move(x, Running, ok).value) else v;
              Apply(c, w, Act(BeginInitial(t, ok)))
              == w'.(log := w'.log + [Invoked(id, CallFor(x.r), id in w'.store && !Replayable(w'.store, id))])
  {
    hide Move;
    hide Save;
    hide Replayable;
    hide CallFor;
    hide Merge;
    var x := CellAt(w, w.tasks[t].id);
    var v := SetPhase(w, t, InPipeline);
    if x.r.status.Planning? || x.r.status.Recovering? {
      RunningIsLegal(x, ok);
      MergeKeepsTasks(c, v, Move(x, Running, ok).value);
    }
    MergeSame(c, v, w.tasks[t].id);
    assert SetPhase(w, t, Done).log + [] == w.log;
  }

  lemma MergeKeepsTasks(c: Config, w: World, x: Cell)
    ensures Merge(c, w, x).tasks == w.tasks
  {
  }

  lemma SubmitIsStep(c: Config, w: World, id: Id, approval: string, decision: Option<Decision>, ok1: bool, ok2: bool, ok3: bool)
    requires w.up
    ensures Apply(c, w, Act(Submit(id, approval, decision, ok1, ok2, ok3)))
            == SubmitApproval(c, w, id, approval, decision, ok1, ok2, ok3)
    ensures !CanSubmit(w, id, approval) || decision.None? ==> SubmitApproval(c, w, id, approval, decision, ok1, ok2, ok3) == w
  {
    hide Decide;
    hide Merge;
    NoCalls(c, w, Submit(id, approval, decision, ok1, ok2, ok3));
  }

  lemma ApprovedIsLegal(x: Cell, to: Status, ok: bool)
    requires (x.r.status.AwaitingApproval? && to == Approved) || (x.r.status.Approved? && to == Running)
    ensures Move(x, to, ok).Some? && Move(x, to, ok).value.r.status == to && Move(x, to, ok).value.ended == x.ended
    ensures Move(x, to, ok).value.id == x.id
  {
  }

  lemma SaveKeeps(x: Cell, safe: bool, ok: bool)
    ensures var y := Save(x, safe, ok); y.id == x.id && y.ended == x.ended && y.r.status == x.r.status
  {
  }

  /** `submit_approval` step by step. */
  lemma DecideUnfolds(c: Config, w: World, id: Id, approval: string, decision: Decision, ok1: bool, ok2: bool, ok3: bool)
    requires w.up && CanSubmit(w, id, approval)
    ensures var r := w.records[id];
            var w1 := Merge(c, w, CellAt(w, id).(r := r.(resolved := r.resolved + {approval})));
            id in w1.records
            && var w2 := Merge(c, w1, Save(CellAt(w1, id), false, ok1));
            id in w2.records
            && if decision.Deny? then
                 SubmitApproval(c, w, id, approval, Some(decision), ok1, ok2, ok3) == Spawn(w2, id, Resume(approval, decision))
               else
                 Move(CellAt(w2, id), Approved, ok2).Some?
                 && var w3 := Merge(c, w2, Move(CellAt(w2, id), Approved, ok2).value);
                 id in w3.records && Move(CellAt(w3, id), Running, ok3).Some?
                 && var w4 := Merge(c, w3, Move(CellAt(w3, id), Running, ok3).value);
                 id in w4.records
                 && SubmitApproval(c, w, id, approval, Some(decision), ok1, ok2, ok3) == Spawn(w4, id, Resume(approval, decision))
  {
    hide Merge;
    hide Save;
    hide Move;
    var r := w.records[id];
    var x1 := CellAt(w, id).(r := r.(resolved := r.resolved + {approval}));
    var x2 := Save(x1, false, ok1);
    ThenSave(c, w, x1, false, ok1);
    SaveKeeps(x1, false, ok1);
    CellAfterMerge(c, w, x2);
    if decision.Allow? {
      ApprovedIsLegal(x2, Approved, ok2);
      ThenMove(c, w, x2, Approved, ok2);
      var x3 := Move(x2, Approved, ok2).value;
      ApprovedIsLegal(x3, Running, ok3);
      CellAfterMerge(c, w, x3);
      ThenMove(c, w, x3, Running, ok3);
      CellAfterMerge(c, w, Move(x3, Running, ok3).value);
    }
  }

  lemma ResumeReturnsIsStep(c: Config, w: World, t: nat, p: Pipeline, outcome: Outcome, ok1: bool, ok2: bool, ok3: bool)
    requires w.up && At(w, t, false, InPipeline)
    ensures var id := w.tasks[t].id;
            var x := CellAt(w, id).(r := w.records[id].(pipeline := Some(p)));
            var denied := x.(r := WithResult(ClearPending(x.r)));
            var (y, settled) := Settle(x, outcome, ok1, ok2);
            Apply(c, w, Act(ResumeReturns(t, p, outcome, ok1, ok2, ok3)))
            == Merge(c, SetPhase(w, t, Done),
                     if w.tasks[t].job.decision.Deny? then
                       if Move(denied, Denied, ok1).Some? then Move(denied, Denied, ok1).value else Handle(denied, Failed, ok3, false, false)
                     else if settled then y else Handle(y, Failed, ok3, false, false))
  {
    hide Merge;
    hide Settle;
    hide Handle;
    hide Move;
    NoCalls(c, w, ResumeReturns(t, p, outcome, ok1, ok2, ok3));
  }

  lemma CancelCommutes(c: Config, w: World, r: Record, x: Cell)
    ensures Merge(c, CancelTask(w, r), x) == CancelTask(Merge(c, w, x), r)
  {
  }

  lemma CancelTaskSame(w: World, q: Record, r: Record)
    requires q.task == r.task
    ensures CancelTask(w, q) == CancelTask(w, r)
  {
  }

  lemma TimedOutKeeps(x: Cell, ok: bool)
    ensures Move(x, TimedOut, ok).Some? ==> Move(x, TimedOut, ok).value.r.task == x.r.task
    ensures Move(x, TimedOut, ok).Some? ==> Terminal(Move(x, TimedOut, ok).value.r.status)
  {
  }

  lemma ResultKeepsStatus(r: Record)
    ensures WithResult(r).status == r.status
  {
  }

  lemma StartIsStep(c: Config, w: World, id: Id, ok1: bool, ok2: bool)
    requires w.up
    ensures Apply(c, w, Act(Start(id, ok1, ok2))) == StartExecution(c, w, id, ok1, ok2)
  {
    hide StartExecution;
    NoCalls(c, w, Start(id, ok1, ok2));
  }

  lemma StartRefused(c: Config, w: World, id: Id, ok1: bool, ok2: bool)
    ensures !Admitted(c, w, id) ==> StartExecution(c, w, id, ok1, ok2) == w
  {
  }

  function Entered(w: World, id: Id): World {
    w.(records := w.records[id := FRESH_RECORD], listed := w.listed + [id], used := w.used + {id})
  }

  lemma FirstSave(w: World, id: Id, ok: bool)
    ensures var w1 := Entered(w, id);
            var saved := Save(CellAt(w1, id), true, ok);
            saved.id == id && !saved.ended && saved.r.status == Created && Faithful(w1, saved)
  {
  }

  lemma PlanningIsLegal(x: Cell, ok: bool)
    requires x.r.status == Created
    ensures Move(x, Planning, ok).Some?
  {
  }

  /** `start_execution` step by step. */
  lemma StartUnfolds(c: Config, w: World, id: Id, ok1: bool, ok2: bool)
    requires w.up && Admitted(c, w, id)
    ensures var w1 := Entered(w, id);
            var w2 := Merge(c, w1, Save(CellAt(w1, id), true, ok1));
            id in w2.records && Move(CellAt(w2, id), Planning, ok2).Some?
            && var w3 := Merge(c, w2, Move(CellAt(w2, id), Planning, ok2).value);
            id in w3.records && StartExecution(c, w, id, ok1, ok2) == Spawn(w3, id, Initial)
  {
    hide Merge;
    hide Save;
    hide Move;
    var w1 := Entered(w, id);
    var saved := Save(CellAt(w1, id), true, ok1);
    FirstSave(w, id, ok1);
    PlanningIsLegal(saved, ok2);
    ThenMove(c, w1, saved, Planning, ok2);
    var launched := Launch(CellAt(w1, id), ok1, ok2);
    assert launched == Move(saved, Planning, ok2).value;
    CellAfterMerge(c, w1, launched);
  }

  lemma MovedPieces(x: Cell, to: Status, ok: bool)
    requires !x.ended
    ensures Move(x, to, ok).Some? <==> Legal(x.r.status, to)
    ensures Move(x, to, ok).Some? ==>
              Move(x, to, ok).value == Save(x.(r := x.r.(status := to)), to == Planning, ok).(ended := Terminal(to))
    ensures !Save(x.(r := x.r.(status := to)), to == Planning, ok).ended
  {
    hide Legal;
    hide Terminal;
  }

  lemma EndPrunes(c: Config, w: World, x: Cell)
    requires !x.ended
    ensures Merge(c, w, x.(ended := true)) == PruneHistory(c, Merge(c, w, x), Some(x.id))
  {
    hide PruneHistory;
  }

  /** `_transition` step by step. */
  lemma MoveInPieces(c: Config, w: World, id: Id, to: Status, ok: bool)
    requires id in w.records
    ensures var x := CellAt(w, id);
            var mid := w.(records := w.records[id := w.records[id].(status := to)]);
            var saved := Merge(c, mid, Save(CellAt(mid, id), to == Planning, ok));
            (Move(x, to, ok).Some? <==> Legal(x.r.status, to))
            && (Move(x, to, ok).Some? ==>
                  Merge(c, w, Move(x, to, ok).value) == if Terminal(to) then PruneHistory(c, saved, Some(id)) else saved)
  {
    hide Save;
    hide Merge;
    hide Move;
    hide Legal;
    hide Terminal;
    hide PruneHistory;
    var x := CellAt(w, id);
    var y := Save(x.(r := x.r.(status := to)), to == Planning, ok);
    MovedPieces(x, to, ok);
    PieceOfMove(c, w, id, to, ok);
    SaveKeepsId(x.(r := x.r.(status := to)), to == Planning, ok);
    if Terminal(to) { EndPrunes(c, w, y); } else { assert y.(ended := false) == y; }
  }

  lemma SaveKeepsId(x: Cell, safe: bool, ok: bool)
    ensures Save(x, safe, ok).id == x.id
  {
  }

  lemma PieceOfMove(c: Config, w: World, id: Id, to: Status, ok: bool)
    requires id in w.records
    ensures var x := CellAt(w, id);
            var mid := w.(records := w.records[id := w.records[id].(status := to)]);
            Merge(c, mid, Save(CellAt(mid, id), to == Planning, ok))
            == Merge(c, w, Save(x.(r := x.r.(status := to)), to == Planning, ok))
  {
    var r := w.records[id].(status := to);
    var mid := w.(records := w.records[id := r]);
    var y := Save(CellAt(mid, id), to == Planning, ok);
    assert w.records[id := r][id := y.r] == w.records[id := y.r];
  }
}
