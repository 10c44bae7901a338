/** What every run of the coordinator keeps, and what follows for whole runs with
    process deaths and restarts. */
module LifecycleSafety {

  import opened Wrappers
  import opened Retention
  import opened Lifecycle

  // ---------------------------------------------------------------- the invariant

  ghost predicate Shape(w: World) {
    && Distinct(w.listed)
    && (forall id :: id in w.listed ==> id in w.records)
    && (forall t :: 0 <= t < |w.tasks| ==> w.tasks[t].id in w.records)
    && w.records.Keys <= w.used
    && w.store.Keys <= w.used
    && (!w.up ==> w.records == map[] && w.listed == [] && w.tasks == [] && !w.recoverCalled)
  }

  /** Stored generations never run ahead of memory, so a save is never stale. */
  ghost predicate Generations(w: World) {
    forall id :: id in w.records && id in w.store ==> w.store[id].generation <= w.records[id].generation
  }

  predicate WaitingRecord(r: Record) {
    r.status.AwaitingApproval? ==> r.pendingApproval.Some? && r.pendingTask.Some? && r.pipeline.Some?
  }

  predicate WaitingCheckpoint(cp: Checkpoint) {
    cp.status.AwaitingApproval? ==> cp.pendingApproval.Some? && cp.pendingTask.Some? && cp.pipeline.Some?
  }

  ghost predicate Waiting(w: World) {
    && (forall id :: id in w.records ==> WaitingRecord(w.records[id]))
    && (forall id :: id in w.store ==> WaitingCheckpoint(w.store[id]))
  }

  /** How the status of a record and a live task working on it go together. */
  predicate Fits(r: Record, t: Task) {
    Terminal(r.status) ||
    match t.job
    case Initial =>
      if t.phase.InPipeline? then r.status.Running? else r.status.Planning? || r.status.Recovering?
    case Resume(approval, Allow) => r.status.Running?
    case Resume(approval, Deny) => r.status.AwaitingApproval? && r.pendingApproval == Some(approval)
  }

  predicate Live(w: World, t: nat) {
    t < |w.tasks| && !w.tasks[t].phase.Done?
  }

  ghost predicate Tasks(w: World) {
    && (forall t: nat, u: nat :: Live(w, t) && Live(w, u) && w.tasks[t].id == w.tasks[u].id ==> t == u)
    && (forall t: nat :: Live(w, t) && w.tasks[t].id in w.records ==> Fits(w.records[w.tasks[t].id], w.tasks[t]))
    && (forall t: nat :: Live(w, t) && w.tasks[t].id in w.records && w.tasks[t].job.Resume? ==>
          w.tasks[t].job.approval in w.records[w.tasks[t].id].resolved)
    && (!w.recoverCalled ==>
          forall t: nat :: Live(w, t) && w.tasks[t].id in w.records ==> !w.records[w.tasks[t].id].status.Recovering?)
  }

  function Max(a: nat, b: nat): nat { if a < b then b else a }

  ghost predicate Bounded(c: Config, w: World) {
    && TerminalCount(w) <= Retained(c)
    && NonterminalCount(w) <= Max(w.restored, Capacity(c))
  }

  ghost predicate Inv(c: Config, w: World) {
    Shape(w) && Generations(w) && Waiting(w) && Tasks(w) && Bounded(c, w)
  }

  // ---------------------------------------------------------------- writing a cell back

  /** What a cell may look like after part of an action, compared with the cell before it. */
  predicate Extends(x: Cell, y: Cell) {
    && y.id == x.id && |x.events| <= |y.events|
    && x.r.generation <= y.r.generation
    && (x.cp.Some? ==> y.cp.Some?)
    && (y.cp.Some? ==> y.cp.value.generation <= y.r.generation && WaitingCheckpoint(y.cp.value))
    && x.r.resolved <= y.r.resolved
    && (Terminal(x.r.status) ==> y.r.status == x.r.status)
    && (Terminal(y.r.status) && !Terminal(x.r.status) ==> y.ended)
    && (x.ended ==> y.ended)
    && (y.r.status.Recovering? ==> x.r.status.Recovering?)
    && (y.r.status.Planning? || y.r.status.Created? ==> x.r.status.Planning? || x.r.status.Created?)
    && x.events <= y.events
    && (forall i :: |x.events| <= i < |y.events| ==> y.events[i].Saved? && y.events[i].id == x.id)
    && (y.cp == x.cp || Rewritten(x, y))
  }

  /** The stored checkpoint was replaced: the save is on record and carries every
      resolved approval and any final status the record had. */
  predicate Rewritten(x: Cell, y: Cell)
    requires |x.events| <= |y.events|
  {
    && y.cp.Some?
    && Saved(x.id, y.cp.value.safe) in y.events[|x.events|..]
    && x.r.resolved <= y.cp.value.resolved
    && (Terminal(x.r.status) ==> y.cp.value.status == x.r.status)
  }

  predicate Grows(x: Cell, y: Cell) {
    Extends(x, y) && WaitingRecord(y.r)
  }

  predicate StoreSound(x: Cell) {
    x.cp.Some? ==> x.cp.value.generation <= x.r.generation && WaitingCheckpoint(x.cp.value)
  }

  lemma ExtendsTrans(x: Cell, y: Cell, z: Cell)
    requires Extends(x, y) && Extends(y, z)
    ensures Extends(x, z)
  {
  }

  lemma SaveExtends(x: Cell, safe: bool, ok: bool)
    requires StoreSound(x) && WaitingRecord(x.r)
    ensures Grows(x, Save(x, safe, ok)) && StoreSound(Save(x, safe, ok))
    ensures Save(x, safe, ok).r == x.r.(generation := x.r.generation + 1)
  {
  }

  lemma MoveExtends(x: Cell, to: Status, ok: bool)
    requires StoreSound(x) && Legal(x.r.status, to) && !to.Recovering? && WaitingRecord(x.r.(status := to))
    requires to.Planning? ==> x.r.status.Created?
    ensures var y := Move(x, to, ok);
            && y.Some? && Grows(x, y.value) && StoreSound(y.value)
            && y.value.r == x.r.(status := to, generation := x.r.generation + 1)
  {
  }

  lemma PruneInv(c: Config, w: World, keep: Option<Id>)
    requires Shape(w) && Generations(w) && Waiting(w) && Tasks(w)
    requires NonterminalCount(w) <= Max(w.restored, Capacity(c))
    ensures Inv(c, PruneHistory(c, w, keep))
  {
    PruneSound(w.listed, TerminalIds(w.records), Retained(c), keep);
    assert OpenIds(w.records) !! TerminalIds(w.records);
  }

  lemma MergeTasks(c: Config, w: World, x: Cell)
    requires Inv(c, w) && x.id in w.records && Grows(CellAt(w, x.id), x)
    requires forall t: nat :: Live(w, t) && w.tasks[t].id == x.id ==> Fits(x.r, w.tasks[t])
    ensures Tasks(Merge(c, w, x.(ended := false)))
  {
    hide Shape;
    hide Generations;
    hide Waiting;
    hide Bounded;
    var w1 := Merge(c, w, x.(ended := false));
    assert forall t: nat :: Live(w1, t) <==> Live(w, t);
  }

  lemma MergeCounts(c: Config, w: World, x: Cell)
    requires Inv(c, w) && x.id in w.records && Grows(CellAt(w, x.id), x)
    ensures var w1 := Merge(c, w, x.(ended := false));
            && NonterminalCount(w1) <= Max(w.restored, Capacity(c))
            && (!x.ended ==> TerminalCount(w1) <= Retained(c))
  {
    var w1 := Merge(c, w, x.(ended := false));
    assert OpenIds(w1.records) <= OpenIds(w.records);
    CountMonotone(w.listed, OpenIds(w1.records), OpenIds(w.records));
    assert !x.ended ==> TerminalIds(w1.records) == TerminalIds(w.records);
  }

  /** A cell that grows keeps the invariant of the whole process, provided it still fits
      the live task that works on it. */
  lemma MergeInv(c: Config, w: World, x: Cell)
    requires Inv(c, w) && w.up && x.id in w.records && Grows(CellAt(w, x.id), x)
    requires forall t: nat :: Live(w, t) && w.tasks[t].id == x.id ==> Fits(x.r, w.tasks[t])
    ensures Inv(c, Merge(c, w, x))
  {
    MergeCounts(c, w, x);
    MergeTasks(c, w, x);
    hide Tasks;
    if x.ended {
      PruneInv(c, Merge(c, w, x.(ended := false)), Some(x.id));
    }
  }

  lemma TaskFits(c: Config, w: World, t: nat)
    requires Inv(c, w) && Live(w, t)
    ensures w.tasks[t].id in w.records && Fits(w.records[w.tasks[t].id], w.tasks[t])
  {
  }

  // ---------------------------------------------------------------- what an action may do

  predicate Later(r: Record, r': Record) {
    && r.resolved <= r'.resolved
    && (Terminal(r.status) ==> r'.status == r.status)
    && (r'.status.Recovering? ==> r.status.Recovering?)
    && (r'.status.Planning? || r'.status.Created? ==> r.status.Planning? || r.status.Created?)
  }

  predicate Pending(t: Task) { t.phase.Ready? || t.phase.Queued? }

  predicate StoreStep(w: World, w': World, id: Id)
    requires |w.log| <= |w'.log| && id in w'.store
  {
    || (id in w.store && w'.store[id] == w.store[id])
    || (Saved(id, w'.store[id].safe) in w'.log[|w.log|..] &&
        if id in w.records then
          && w.records[id].resolved <= w'.store[id].resolved
          && (Terminal(w.records[id].status) ==> w'.store[id].status == w.records[id].status)
        else id !in w.used)
  }

  /** A task that was not there before: it starts a new execution, replays a recovering
      one, or carries a decision on an approval that was not resolved. */
  predicate NewTask(w: World, t: Task) {
    || t.id !in w.used
    || (t.id in w.records &&
        match t.job
        case Initial => w.records[t.id].status.Recovering?
        case Resume(approval, _) => approval !in w.records[t.id].resolved)
  }

  ghost predicate TasksStep(w: World, tasks': seq<Task>) {
    && |w.tasks| <= |tasks'|
    && (forall t :: 0 <= t < |w.tasks| ==>
          && tasks'[t].id == w.tasks[t].id && tasks'[t].job == w.tasks[t].job
          && (Pending(tasks'[t]) ==> Pending(w.tasks[t]))
          && (tasks'[t].phase.Ready? ==> w.tasks[t].phase.Ready?))
    && (forall t :: |w.tasks| <= t < |tasks'| ==> NewTask(w, tasks'[t]))
  }

  ghost predicate Evolves(w: World, w': World) {
    && w'.up == w.up && w.used <= w'.used && w.log <= w'.log
    && (forall i :: |w.log| <= i < |w'.log| ==> w'.log[i].Saved?)
    && (forall id :: id in w.records ==> id in w'.records && Later(w.records[id], w'.records[id]))
    && (forall id :: id in w'.records ==> id in w.records || id !in w.used)
    && (forall id :: id in w.store ==> id in w'.store)
    && (forall id :: id in w'.store ==> StoreStep(w, w', id))
    && TasksStep(w, w'.tasks)
  }

  ghost predicate Kept(c: Config, w: World, w': World) {
    Inv(c, w') && Evolves(w, w')
  }

  lemma MergeEvolves(c: Config, w: World, w1: World, x: Cell)
    requires Inv(c, w) && x.id in w.records && Extends(CellAt(w, x.id), x)
    requires w1 == w.(tasks := w1.tasks) && TasksStep(w, w1.tasks)
    ensures Evolves(w, Merge(c, w1, x))
  {
    var w' := Merge(c, w1, x);
    assert w'.log == w.log + x.events;
    assert w'.log[|w.log|..] == x.events;
    assert x.events[|CellAt(w, x.id).events|..] == x.events;
    assert forall id :: id in w'.store ==> StoreStep(w, w', id);
  }

  // ---------------------------------------------------------------- tasks

  lemma CellSound(c: Config, w: World, id: Id)
    requires Inv(c, w) && id in w.records
    ensures StoreSound(CellAt(w, id)) && WaitingRecord(w.records[id])
  {
  }

  /** No live task works on `id`. */
  predicate Unattended(w: World, id: Id) {
    forall t | 0 <= t < |w.tasks| :: Live(w, t) ==> w.tasks[t].id != id
  }

  lemma SpawnTasks(c: Config, w: World, id: Id, job: Job)
    requires Inv(c, w) && id in w.records && Unattended(w, id)
    requires Fits(w.records[id], Task(id, job, Ready, false))
    requires job.Resume? ==> job.approval in w.records[id].resolved
    requires w.recoverCalled || !w.records[id].status.Recovering?
    ensures Tasks(Spawn(w, id, job))
    ensures forall x :: x != id && Unattended(w, x) ==> Unattended(Spawn(w, id, job), x)
  {
    hide Generations;
    hide Waiting;
    hide Bounded;
    var w1 := Spawn(w, id, job);
    var n := |w.tasks|;
    assert w1.tasks[n] == Task(id, job, Ready, false);
    assert forall t: nat :: t < n ==> w1.tasks[t] == w.tasks[t] && (Live(w1, t) <==> Live(w, t));
  }

  lemma SpawnInv(c: Config, w: World, id: Id, job: Job)
    requires Inv(c, w) && w.up && id in w.records && Unattended(w, id)
    requires Fits(w.records[id], Task(id, job, Ready, false))
    requires job.Resume? ==> job.approval in w.records[id].resolved
    requires w.recoverCalled || !w.records[id].status.Recovering?
    ensures Inv(c, Spawn(w, id, job))
    ensures forall x :: x != id && Unattended(w, x) ==> Unattended(Spawn(w, id, job), x)
  {
    SpawnTasks(c, w, id, job);
    hide Tasks;
    hide Unattended;
    var w1 := Spawn(w, id, job);
    assert TerminalIds(w1.records) == TerminalIds(w.records);
    assert OpenIds(w1.records) == OpenIds(w.records);
  }

  lemma DoneInv(c: Config, w: World, t: nat)
    requires Inv(c, w) && w.up && Live(w, t)
    ensures Inv(c, SetPhase(w, t, Done)) && Unattended(SetPhase(w, t, Done), w.tasks[t].id)
  {
    var w1 := SetPhase(w, t, Done);
    assert forall u: nat :: Live(w1, u) <==> Live(w, u) && u != t;
    assert forall u: nat :: u != t && u < |w.tasks| ==> w1.tasks[u] == w.tasks[u];
  }

  /** A task of an otherwise unattended record moves on to a phase that fits. */
  lemma PhaseInv(c: Config, w: World, t: nat, phase: Phase)
    requires Inv(c, w) && w.up && t < |w.tasks| && !phase.Done?
    requires forall u | 0 <= u < |w.tasks| :: Live(w, u) && w.tasks[u].id == w.tasks[t].id ==> u == t
    requires Fits(w.records[w.tasks[t].id], w.tasks[t].(phase := phase))
    requires w.tasks[t].job.Resume? ==> w.tasks[t].job.approval in w.records[w.tasks[t].id].resolved
    requires w.recoverCalled || !w.records[w.tasks[t].id].status.Recovering?
    ensures Inv(c, SetPhase(w, t, phase))
  {
    var w1 := SetPhase(w, t, phase);
    assert forall u: nat :: u != t ==> (Live(w1, u) <==> Live(w, u));
    assert forall u: nat :: u != t && u < |w.tasks| ==> w1.tasks[u] == w.tasks[u];
  }

  lemma CancelTaskInv(c: Config, w: World, id: Id)
    requires Inv(c, w) && w.up && id in w.records
    ensures Inv(c, CancelTask(w, w.records[id]))
  {
    var w1 := CancelTask(w, w.records[id]);
    assert forall u: nat :: Live(w1, u) <==> Live(w, u);
    assert forall u: nat :: u < |w.tasks| ==>
      w1.tasks[u] == w.tasks[u] || w1.tasks[u] == w.tasks[u].(cancelRequested := true);
    assert Tasks(w1) && Shape(w1);
    hide Tasks;
    hide Shape;
  }

  // ---------------------------------------------------------------- parts of actions

  lemma LaunchGrows(x: Cell, ok1: bool, ok2: bool)
    requires StoreSound(x) && x.r.status.Created?
    ensures Grows(x, Launch(x, ok1, ok2)) && Launch(x, ok1, ok2).r.status.Planning?
  {
    var y := Save(x, true, ok1);
    SaveExtends(x, true, ok1);
    MoveExtends(y, Planning, ok2);
    ExtendsTrans(x, y, Move(y, Planning, ok2).value);
  }

  lemma HandleGrows(x: Cell, to: Status, ok1: bool, saves: bool, ok2: bool)
    requires StoreSound(x) && WaitingRecord(x.r) && (to.Cancelled? || to.TimedOut? || to.Failed?)
    ensures Grows(x, Handle(x, to, ok1, saves, ok2))
  {
    hide Save;
    hide Rewritten;
    if !Terminal(x.r.status) && Legal(x.r.status, to) {
      MoveExtends(x, to, ok1);
    }
    var moved := if Terminal(x.r.status) then Some(x) else Move(x, to, ok1);
    if moved.Some? {
      var y := moved.value.(r := WithResult(moved.value.r));
      ExtendsTrans(x, moved.value, y);
      hide Extends;
      hide Move;
      if saves {
        SaveExtends(y, false, ok2);
        ExtendsTrans(x, y, Save(y, false, ok2));
      }
    }
  }

  lemma SettleGrows(x: Cell, outcome: Outcome, ok1: bool, ok2: bool)
    requires StoreSound(x) && x.r.pipeline.Some? && (x.r.status.Running? || Terminal(x.r.status))
    ensures Grows(x, Settle(x, outcome, ok1, ok2).0)
  {
    var r := if outcome.PausedOn? then x.r.(pendingApproval := Some(outcome.task), pendingTask := Some(outcome.task))
             else ClearPending(x.r);
    var y := x.(r := r);
    assert Extends(x, y) && StoreSound(y);
    hide Extends;
    hide Save;
    var to := OutcomeStatus(outcome);
    if Legal(r.status, to) {
      MoveExtends(y, to, ok1);
      var z := Move(y, to, ok1).value;
      SaveExtends(z, false, ok2);
      ExtendsTrans(x, y, z);
      ExtendsTrans(x, z, Save(z, false, ok2));
    }
  }

  lemma FinishInitialGrows(x: Cell, p: Pipeline, outcome: Outcome, ok1: bool, ok2: bool, ok3: bool, ok4: bool)
    requires StoreSound(x) && (x.r.status.Running? || Terminal(x.r.status))
    ensures Grows(x, FinishInitial(x, p, outcome, ok1, ok2, ok3, ok4))
  {
    var x0 := x.(r := x.r.(pipeline := Some(p)));
    SettleGrows(x0, outcome, ok1, ok2);
    var (y, settled) := Settle(x0, outcome, ok1, ok2);
    ExtendsTrans(x, x0, y);
    if !settled {
      HandleGrows(y, Failed, ok3, true, ok4);
      ExtendsTrans(x, y, Handle(y, Failed, ok3, true, ok4));
    }
  }

  lemma DenyGrows(x: Cell, p: Pipeline, outcome: Outcome, ok1: bool, ok2: bool, ok3: bool)
    requires StoreSound(x) && (x.r.status.AwaitingApproval? || Terminal(x.r.status))
    ensures Grows(x, FinishResume(x, Deny, p, outcome, ok1, ok2, ok3))
  {
    var y := x.(r := WithResult(ClearPending(x.r.(pipeline := Some(p)))));
    assert Extends(x, y) && StoreSound(y);
    if Legal(y.r.status, Denied) {
      MoveExtends(y, Denied, ok1);
      ExtendsTrans(x, y, Move(y, Denied, ok1).value);
    } else {
      HandleGrows(y, Failed, ok3, false, false);
      ExtendsTrans(x, y, Handle(y, Failed, ok3, false, false));
    }
  }

  lemma AllowGrows(x: Cell, p: Pipeline, outcome: Outcome, ok1: bool, ok2: bool, ok3: bool)
    requires StoreSound(x) && (x.r.status.Running? || Terminal(x.r.status))
    ensures Grows(x, FinishResume(x, Allow, p, outcome, ok1, ok2, ok3))
  {
    var x0 := x.(r := x.r.(pipeline := Some(p)));
    SettleGrows(x0, outcome, ok1, ok2);
    var (y, settled) := Settle(x0, outcome, ok1, ok2);
    ExtendsTrans(x, x0, y);
    if !settled {
      HandleGrows(y, Failed, ok3, false, false);
      ExtendsTrans(x, y, Handle(y, Failed, ok3, false, false));
    }
  }

  lemma ApproveGrows(y: Cell, ok2: bool, ok3: bool)
    requires StoreSound(y) && y.r.status.AwaitingApproval?
    ensures Move(y, Approved, ok2).Some?
    ensures var z := Move(Move(y, Approved, ok2).value, Running, ok3);
            && z.Some? && Grows(y, z.value)
            && z.value.r == y.r.(status := Running, generation := y.r.generation + 2)
  {
    MoveExtends(y, Approved, ok2);
    var z := Move(y, Approved, ok2).value;
    hide Extends;
    hide Save;
    MoveExtends(z, Running, ok3);
    ExtendsTrans(y, z, Move(z, Running, ok3).value);
  }

  lemma DecideGrows(x: Cell, approval: string, decision: Decision, ok1: bool, ok2: bool, ok3: bool)
    requires StoreSound(x) && WaitingRecord(x.r) && x.r.status.AwaitingApproval?
    ensures var y := Decide(x, approval, decision, ok1, ok2, ok3);
            && y.Some? && Grows(x, y.value)
            && y.value.r.resolved == x.r.resolved + {approval}
            && y.value.r.pendingApproval == x.r.pendingApproval
            && y.value.r.status == (if decision.Allow? then Running else AwaitingApproval)
  {
    var x0 := x.(r := x.r.(resolved := x.r.resolved + {approval}));
    assert Extends(x, x0) && StoreSound(x0) && WaitingRecord(x0.r);
    hide Extends;
    hide Move;
    hide Save;
    SaveExtends(x0, false, ok1);
    var y := Save(x0, false, ok1);
    ExtendsTrans(x, x0, y);
    if decision.Allow? {
      ApproveGrows(y, ok2, ok3);
      ExtendsTrans(x, y, Move(Move(y, Approved, ok2).value, Running, ok3).value);
    }
  }

  lemma CompleteCancelGrows(x: Cell, ok1: bool, ok2: bool)
    requires StoreSound(x) && WaitingRecord(x.r)
    ensures Grows(x, CompleteCancel(x, ok1, ok2))
    ensures Terminal(CompleteCancel(x, ok1, ok2).r.status) || CompleteCancel(x, ok1, ok2) == x
  {
    if !Terminal(x.r.status) && Legal(x.r.status, Cancelled) {
      MoveExtends(x, Cancelled, ok1);
    }
    var moved := if Terminal(x.r.status) then Some(x) else Move(x, Cancelled, ok1);
    if moved.Some? {
      var y := moved.value.(r := ClearPending(WithResult(moved.value.r)));
      ExtendsTrans(x, moved.value, y);
      SaveExtends(y, false, ok2);
      ExtendsTrans(x, y, Save(y, false, ok2));
    }
  }

  // ---------------------------------------------------------------- every action

  /** The record enters the dictionary. */
  lemma ListedInv(c: Config, w: World, id: Id)
    requires Inv(c, w) && w.up && id !in w.used && Admitted(c, w, id)
    ensures var w1 := w.(records := w.records[id := FRESH_RECORD], listed := w.listed + [id], used := w.used + {id});
            Inv(c, w1) && Unattended(w1, id)
  {
    var w1 := w.(records := w.records[id := FRESH_RECORD], listed := w.listed + [id], used := w.used + {id});
    CountAppend(w.listed, id, OpenIds(w1.records));
    CountAppend(w.listed, id, TerminalIds(w1.records));
    CountMonotone(w.listed, OpenIds(w1.records), OpenIds(w.records));
    CountMonotone(w.listed, TerminalIds(w1.records), TerminalIds(w.records));
    assert forall t: nat :: Live(w1, t) <==> Live(w, t);
  }

  lemma NewIdEvolves(w: World, w1: World, w2: World, id: Id)
    requires Shape(w) && id !in w.used && id in w2.records
    requires w1 == w.(records := w.records[id := FRESH_RECORD], listed := w.listed + [id], used := w.used + {id})
    requires Evolves(w1, w2) && w2.tasks == w.tasks
    ensures Evolves(w, Spawn(w2, id, Initial))
  {
    var w' := Spawn(w2, id, Initial);
    forall x | x in w'.store
      ensures StoreStep(w, w', x)
    {
      assert StoreStep(w1, w2, x);
    }
    assert forall x :: x in w.records ==> Later(w1.records[x], w2.records[x]);
  }

  lemma StartInv(c: Config, w: World, id: Id, ok1: bool, ok2: bool)
    requires Inv(c, w) && w.up && id !in w.used
    ensures Kept(c, w, StartExecution(c, w, id, ok1, ok2))
  {
    Unchanged(w);
    if Admitted(c, w, id) {
      ListedInv(c, w, id);
      var w1 := w.(records := w.records[id := FRESH_RECORD], listed := w.listed + [id], used := w.used + {id});
      var x := Launch(CellAt(w1, id), ok1, ok2);
      CellSound(c, w1, id);
      LaunchGrows(CellAt(w1, id), ok1, ok2);
      assert Shape(w);
      hide Inv;
      hide Launch;
      MergeInv(c, w1, x);
      MergeEvolves(c, w1, w1, x);
      hide Extends;
      var w2 := Merge(c, w1, x);
      SpawnInv(c, w2, id, Initial);
      NewIdEvolves(w, w1, w2, id);
    }
  }

  lemma SpawnEvolves(w: World, w1: World, id: Id, job: Job)
    requires Evolves(w, w1) && w1.tasks == w.tasks && id in w1.records && NewTask(w, Task(id, job, Ready, false))
    ensures Evolves(w, Spawn(w1, id, job))
  {
    var w' := Spawn(w1, id, job);
    forall x | x in w'.store
      ensures StoreStep(w, w', x)
    {
      assert StoreStep(w, w1, x);
    }
    assert forall x :: x in w.records ==> Later(w.records[x], w1.records[x]);
  }

  /** A cell of an unattended record grows and gets a task. */
  lemma AttendInv(c: Config, w: World, x: Cell, job: Job)
    requires Inv(c, w) && w.up && x.id in w.records && Unattended(w, x.id) && Grows(CellAt(w, x.id), x)
    requires Fits(x.r, Task(x.id, job, Ready, false))
    requires job.Resume? ==> job.approval in x.r.resolved
    requires !x.r.status.Recovering?
    requires NewTask(w, Task(x.id, job, Ready, false))
    ensures Inv(c, Spawn(Merge(c, w, x), x.id, job))
    ensures Evolves(w, Spawn(Merge(c, w, x), x.id, job))
  {
    MergeInv(c, w, x);
    MergeEvolves(c, w, w, x);
    var w1 := Merge(c, w, x);
    assert Unattended(w1, x.id);
    SpawnInv(c, w1, x.id, job);
    SpawnEvolves(w, w1, x.id, job);
  }

  lemma Unchanged(w: World)
    ensures Evolves(w, w)
  {
  }

  lemma RespawnEvolves(w: World, id: Id, w2: World)
    requires Shape(w) && id in w.records && w.records[id].status.Recovering?
    requires Evolves(Spawn(w, id, Initial), w2)
    ensures Evolves(w, w2)
  {
    var w1 := Spawn(w, id, Initial);
    forall x | x in w2.store
      ensures StoreStep(w, w2, x)
    {
      assert StoreStep(w1, w2, x);
    }
    assert forall x :: x in w.records ==> Later(w1.records[x], w2.records[x]);
    assert w1.tasks[|w.tasks|] == Task(id, Initial, Ready, false);
    assert forall t :: 0 <= t < |w.tasks| ==> w1.tasks[t] == w.tasks[t];
    forall t | |w.tasks| <= t < |w2.tasks|
      ensures NewTask(w, w2.tasks[t])
    {
      if t > |w.tasks| { assert NewTask(w1, w2.tasks[t]); }
    }
  }

  lemma {:induction false} RecoverInv(c: Config, w: World, ids: seq<Id>)
    requires Inv(c, w) && w.up && w.recoverCalled && Distinct(ids)
    requires forall id :: id in ids && id in w.records && w.records[id].status.Recovering? ==> Unattended(w, id)
    ensures Inv(c, RecoverPending(w, ids)) && Evolves(w, RecoverPending(w, ids))
    decreases |ids|
  {
    if ids == [] {
      Unchanged(w);
    } else {
      assert ids == [ids[0]] + ids[1..];
      assert ids[0] !in ids[1..];
      if ids[0] in w.records && w.records[ids[0]].status.Recovering? {
        SpawnInv(c, w, ids[0], Initial);
        RecoverInv(c, Spawn(w, ids[0], Initial), ids[1..]);
        RespawnEvolves(w, ids[0], RecoverPending(w, ids));
      } else {
        RecoverInv(c, w, ids[1..]);
      }
    }
  }

  /** The task's record grows and the task moves into the pipeline. */
  lemma AdvanceInv(c: Config, w: World, t: nat, y: Cell)
    requires Inv(c, w) && w.up && Live(w, t) && w.tasks[t].id == y.id && Grows(CellAt(w, y.id), y)
    requires w.tasks[t].job.Initial? && y.r.status.Running?
    ensures Inv(c, Merge(c, SetPhase(w, t, InPipeline), y))
  {
    hide Extends;
    var w1 := SetPhase(w, t, Done);
    DoneInv(c, w, t);
    MergeInv(c, w1, y);
    PhaseInv(c, Merge(c, w1, y), t, InPipeline);
    assert SetPhase(w1, t, InPipeline).tasks == SetPhase(w, t, InPipeline).tasks;
  }

  lemma EnterInv(c: Config, w: World, t: nat, ok: bool)
    requires Inv(c, w) && w.up && At(w, t, true, Queued)
    ensures Kept(c, w, EnterInitial(c, w, t, ok))
  {
    var x := CellAt(w, w.tasks[t].id);
    CellSound(c, w, x.id);
    assert Live(w, t);
    TaskFits(c, w, t);
    if x.r.cancelSet || Terminal(x.r.status) {
      PhaseStepInv(c, w, t, Done);
    } else {
      MoveExtends(x, Running, ok);
      assert TasksStep(w, SetPhase(w, t, InPipeline).tasks);
      hide Inv;
      hide Evolves;
      hide Extends;
      var y := Move(x, Running, ok).value;
      AdvanceInv(c, w, t, y);
      MergeEvolves(c, w, SetPhase(w, t, InPipeline), y);
    }
  }

  lemma SubmitInv(c: Config, w: World, id: Id, approval: string, decision: Option<Decision>,
                  ok1: bool, ok2: bool, ok3: bool)
    requires Inv(c, w) && w.up
    ensures Inv(c, SubmitApproval(c, w, id, approval, decision, ok1, ok2, ok3))
    ensures Evolves(w, SubmitApproval(c, w, id, approval, decision, ok1, ok2, ok3))
  {
    if CanSubmit(w, id, approval) && decision.Some? {
      assert Unattended(w, id);
      CellSound(c, w, id);
      DecideGrows(CellAt(w, id), approval, decision.value, ok1, ok2, ok3);
      AttendInv(c, w, Decide(CellAt(w, id), approval, decision.value, ok1, ok2, ok3).value,
                Resume(approval, decision.value));
    }
  }

  /** The task ends and leaves the record in a grown state. */
  lemma LastInv(c: Config, w: World, t: nat, y: Cell)
    requires Inv(c, w) && w.up && Live(w, t) && w.tasks[t].id == y.id && Grows(CellAt(w, y.id), y)
    ensures Kept(c, w, Merge(c, SetPhase(w, t, Done), y))
  {
    MergeEvolves(c, w, SetPhase(w, t, Done), y);
    DoneInv(c, w, t);
    MergeInv(c, SetPhase(w, t, Done), y);
  }

  /** The record changes under a task that keeps running. */
  predicate During(w: World, y: Cell) {
    && y.id in w.records && Grows(CellAt(w, y.id), y)
    && (Terminal(y.r.status) || (y.r.status == w.records[y.id].status
                                 && y.r.pendingApproval == w.records[y.id].pendingApproval))
  }

  lemma DuringInv(c: Config, w: World, y: Cell)
    requires Inv(c, w) && w.up && During(w, y)
    ensures Kept(c, w, Merge(c, w, y))
  {
    MergeInv(c, w, y);
    MergeEvolves(c, w, w, y);
  }

  lemma DuringCancelInv(c: Config, w: World, y: Cell)
    requires Inv(c, w) && w.up && During(w, y)
    ensures Kept(c, w, Merge(c, CancelTask(w, w.records[y.id]), y))
  {
    var w1 := CancelTask(w, w.records[y.id]);
    CancelTaskInv(c, w, y.id);
    MergeEvolves(c, w, w1, y);
    assert CellAt(w1, y.id) == CellAt(w, y.id);
    MergeInv(c, w1, y);
  }

  lemma RequestCancelInv(c: Config, w: World, id: Id)
    requires Inv(c, w) && w.up && Open(w, id)
    ensures var x := CellAt(w, id);
            Kept(c, w, Merge(c, CancelTask(w, x.r), x.(r := x.r.(cancelSet := true))))
  {
    var x := CellAt(w, id);
    CellSound(c, w, id);
    DuringCancelInv(c, w, x.(r := x.r.(cancelSet := true)));
  }

  lemma FinishCancelInv(c: Config, w: World, id: Id, ok1: bool, ok2: bool)
    requires Inv(c, w) && w.up && id in w.records
    ensures Kept(c, w, Merge(c, w, CompleteCancel(CellAt(w, id), ok1, ok2)))
  {
    var x := CellAt(w, id);
    CellSound(c, w, id);
    CompleteCancelGrows(x, ok1, ok2);
    DuringInv(c, w, CompleteCancel(x, ok1, ok2));
  }

  lemma TimeoutInv(c: Config, w: World, id: Id, ok: bool)
    requires Inv(c, w) && w.up && id in w.records && Open(w, id)
    ensures Kept(c, w, StartTimeout(c, w, id, ok))
  {
    var x := CellAt(w, id);
    CellSound(c, w, id);
    if Legal(x.r.status, TimedOut) {
      MoveExtends(x, TimedOut, ok);
      var y := Move(x, TimedOut, ok).value;
      DuringCancelInv(c, w, y.(r := y.r.(cancelSet := true)));
    }
  }

  lemma CheckpointInv(c: Config, w: World, y: Cell, safe: bool, ok: bool)
    requires Inv(c, w) && w.up && During(w, y) && StoreSound(y)
    ensures Kept(c, w, Merge(c, w, Save(y, safe, ok)))
  {
    SaveExtends(y, safe, ok);
    ExtendsTrans(CellAt(w, y.id), y, Save(y, safe, ok));
    DuringInv(c, w, Save(y, safe, ok));
  }

  lemma PhaseStepInv(c: Config, w: World, t: nat, phase: Phase)
    requires Inv(c, w) && w.up && Live(w, t)
    requires phase.Done? || (phase.Queued? && At(w, t, true, Ready)) || (phase.InPipeline? && At(w, t, false, Ready))
    ensures Kept(c, w, SetPhase(w, t, phase))
  {
    if phase.Done? { DoneInv(c, w, t); } else { PhaseInv(c, w, t, phase); }
  }

  lemma KeptSame(c: Config, w: World)
    requires Inv(c, w)
    ensures Kept(c, w, w)
  {
    hide Inv;
    Unchanged(w);
  }

  lemma TaskCell(c: Config, w: World, t: nat)
    requires Inv(c, w) && Live(w, t)
    ensures var id := w.tasks[t].id;
            id in w.records && Fits(w.records[id], w.tasks[t]) && StoreSound(CellAt(w, id)) && WaitingRecord(w.records[id])
  {
    CellSound(c, w, w.tasks[t].id);
  }

  lemma WaitInv(c: Config, w: World, t: nat)
    requires Inv(c, w) && w.up
    ensures Kept(c, w, Wait(w, t))
  {
    hide Inv;
    hide Kept;
    KeptSame(c, w);
    if At(w, t, true, Ready) { PhaseStepInv(c, w, t, Queued); }
  }

  lemma RunInitialInv(c: Config, w: World, t: nat, ok: bool)
    requires Inv(c, w) && w.up
    ensures Kept(c, w, RunInitial(c, w, t, ok))
  {
    hide Inv;
    hide Kept;
    hide EnterInitial;
    KeptSame(c, w);
    if At(w, t, true, Queued) { EnterInv(c, w, t, ok); }
  }

  lemma InitialReturnsInv(c: Config, w: World, t: nat, p: Pipeline, outcome: Outcome,
                          ok1: bool, ok2: bool, ok3: bool, ok4: bool)
    requires Inv(c, w) && w.up
    ensures Kept(c, w, ReturnInitial(c, w, t, p, outcome, ok1, ok2, ok3, ok4))
  {
    hide Inv;
    hide Kept;
    hide FinishInitial;
    hide Merge;
    hide Grows;
    hide StoreSound;
    KeptSame(c, w);
    if At(w, t, true, InPipeline) {
      var x := CellAt(w, w.tasks[t].id);
      TaskCell(c, w, t);
      FinishInitialGrows(x, p, outcome, ok1, ok2, ok3, ok4);
      GrowsKeepsId(x, FinishInitial(x, p, outcome, ok1, ok2, ok3, ok4));
      LastInv(c, w, t, FinishInitial(x, p, outcome, ok1, ok2, ok3, ok4));
    }
  }

  lemma GrowsKeepsId(x: Cell, y: Cell)
    requires Grows(x, y)
    ensures y.id == x.id
  {
  }

  lemma InitialRaisesInv(c: Config, w: World, t: nat, to: Status, ok1: bool, ok2: bool)
    requires Inv(c, w) && w.up
    ensures Kept(c, w, RaiseInitial(c, w, t, to, ok1, ok2))
  {
    hide Inv;
    hide Kept;
    hide Handle;
    hide Merge;
    hide Grows;
    hide StoreSound;
    KeptSame(c, w);
    if Interruptible(w, t, to) {
      var x := CellAt(w, w.tasks[t].id);
      TaskCell(c, w, t);
      HandleGrows(x, to, ok1, true, ok2);
      GrowsKeepsId(x, Handle(x, to, ok1, true, ok2));
      LastInv(c, w, t, Handle(x, to, ok1, true, ok2));
    }
  }

  lemma RunResumeInv(c: Config, w: World, t: nat)
    requires Inv(c, w) && w.up
    ensures Kept(c, w, RunResume(w, t))
  {
    hide Inv;
    hide Kept;
    KeptSame(c, w);
    if At(w, t, false, Ready) { PhaseStepInv(c, w, t, InPipeline); }
  }

  lemma ResumeReturnsInv(c: Config, w: World, t: nat, p: Pipeline, outcome: Outcome, ok1: bool, ok2: bool, ok3: bool)
    requires Inv(c, w) && w.up
    ensures Kept(c, w, ReturnResume(c, w, t, p, outcome, ok1, ok2, ok3))
  {
    hide Inv;
    hide Kept;
    hide FinishResume;
    hide Merge;
    hide Grows;
    hide StoreSound;
    KeptSame(c, w);
    if At(w, t, false, InPipeline) {
      var x := CellAt(w, w.tasks[t].id);
      TaskCell(c, w, t);
      var decision := w.tasks[t].job.decision;
      if decision.Deny? {
        DenyGrows(x, p, outcome, ok1, ok2, ok3);
      } else {
        AllowGrows(x, p, outcome, ok1, ok2, ok3);
      }
      GrowsKeepsId(x, FinishResume(x, decision, p, outcome, ok1, ok2, ok3));
      LastInv(c, w, t, FinishResume(x, decision, p, outcome, ok1, ok2, ok3));
    }
  }

  lemma ResumeRaisesInv(c: Config, w: World, t: nat, to: Status, ok: bool)
    requires Inv(c, w) && w.up
    ensures Kept(c, w, RaiseResume(c, w, t, to, ok))
  {
    hide Inv;
    hide Kept;
    hide Handle;
    hide Merge;
    hide Grows;
    hide StoreSound;
    KeptSame(c, w);
    if At(w, t, false, InPipeline) && (to.Cancelled? || to.Failed?) {
      var x := CellAt(w, w.tasks[t].id);
      TaskCell(c, w, t);
      HandleGrows(x, to, ok, false, false);
      GrowsKeepsId(x, Handle(x, to, ok, false, false));
      LastInv(c, w, t, Handle(x, to, ok, false, false));
    }
  }

  lemma AbandonInv(c: Config, w: World, t: nat)
    requires Inv(c, w) && w.up
    ensures Kept(c, w, Abandon(w, t))
  {
    hide Inv;
    hide Kept;
    KeptSame(c, w);
    if Live(w, t) { PhaseStepInv(c, w, t, Done); }
  }

  lemma AskCancelInv(c: Config, w: World, id: Id)
    requires Inv(c, w) && w.up
    ensures Kept(c, w, AskCancel(c, w, id))
  {
    hide Inv;
    hide Kept;
    hide Merge;
    KeptSame(c, w);
    if Open(w, id) { RequestCancelInv(c, w, id); }
  }

  lemma EndCancelInv(c: Config, w: World, id: Id, ok1: bool, ok2: bool)
    requires Inv(c, w) && w.up
    ensures Kept(c, w, EndCancel(c, w, id, ok1, ok2))
  {
    hide Inv;
    hide Kept;
    hide Merge;
    hide CompleteCancel;
    KeptSame(c, w);
    if id in w.records { FinishCancelInv(c, w, id, ok1, ok2); }
  }

  lemma AskTimeoutInv(c: Config, w: World, id: Id, ok: bool)
    requires Inv(c, w) && w.up
    ensures Kept(c, w, AskTimeout(c, w, id, ok))
  {
    hide Inv;
    hide Kept;
    hide StartTimeout;
    KeptSame(c, w);
    if Open(w, id) { TimeoutInv(c, w, id, ok); }
  }

  lemma EndTimeoutInv(c: Config, w: World, id: Id, ok: bool)
    requires Inv(c, w) && w.up
    ensures Kept(c, w, EndTimeout(c, w, id, ok))
  {
    hide Kept;
    KeptSame(c, w);
    if id in w.records && w.records[id].status.TimedOut? {
      var x := CellAt(w, id);
      CellSound(c, w, id);
      CheckpointInv(c, w, x.(r := ClearPending(WithResult(x.r))), false, ok);
    }
  }

  lemma ReportInv(c: Config, w: World, id: Id, captured: Option<Pipeline>, safe: bool, ok: bool)
    requires Inv(c, w) && w.up
    ensures Kept(c, w, Report(c, w, id, captured, safe, ok))
  {
    hide Kept;
    KeptSame(c, w);
    if id in w.records {
      var x := CellAt(w, id);
      CellSound(c, w, id);
      CheckpointInv(c, w, if captured.Some? then x.(r := x.r.(pipeline := captured)) else x, safe, ok);
    }
  }

  lemma FlagOnly(w: World, w2: World)
    requires Evolves(w.(recoverCalled := true), w2)
    ensures Evolves(w, w2)
  {
    var w1 := w.(recoverCalled := true);
    forall x | x in w2.store
      ensures StoreStep(w, w2, x)
    {
      assert StoreStep(w1, w2, x);
    }
    forall t | |w.tasks| <= t < |w2.tasks|
      ensures NewTask(w, w2.tasks[t])
    {
      assert NewTask(w1, w2.tasks[t]);
    }
  }

  lemma RecoverAllInv(c: Config, w: World)
    requires Inv(c, w) && w.up && !w.recoverCalled
    ensures Kept(c, w, RecoverPending(w.(recoverCalled := true), w.listed))
  {
    hide Evolves;
    var w1 := w.(recoverCalled := true);
    assert forall t: nat :: Live(w1, t) <==> Live(w, t);
    assert Inv(c, w1);
    RecoverInv(c, w1, w.listed);
    FlagOnly(w, RecoverPending(w1, w.listed));
  }

  lemma StartKept(c: Config, w: World, id: Id, ok1: bool, ok2: bool)
    requires Inv(c, w) && w.up && id !in w.used
    ensures Kept(c, w, StartExecution(c, w, id, ok1, ok2))
  {
    hide Evolves;
    hide StartExecution;
    StartInv(c, w, id, ok1, ok2);
  }

  lemma SubmitKept(c: Config, w: World, id: Id, approval: string, decision: Option<Decision>, ok1: bool, ok2: bool, ok3: bool)
    requires Inv(c, w) && w.up
    ensures Kept(c, w, SubmitApproval(c, w, id, approval, decision, ok1, ok2, ok3))
  {
    hide Evolves;
    hide Inv;
    hide SubmitApproval;
    SubmitInv(c, w, id, approval, decision, ok1, ok2, ok3);
  }

  lemma CoreInv(c: Config, w: World, a: Action)
    requires Inv(c, w) && Proper(w, Act(a))
    ensures Kept(c, w, Core(c, w, a))
  {
    hide Inv;
    hide Kept;
    hide StartExecution;
    hide RecoverPending;
    hide SubmitApproval;
    hide Wait;
    hide RunInitial;
    hide ReturnInitial;
    hide RaiseInitial;
    hide RunResume;
    hide ReturnResume;
    hide RaiseResume;
    hide Abandon;
    hide AskCancel;
    hide EndCancel;
    hide AskTimeout;
    hide EndTimeout;
    hide Report;
    KeptSame(c, w);
    if w.up {
      match a
      case Idle =>
      case Start(id, ok1, ok2) => StartKept(c, w, id, ok1, ok2);
      case Recover => RecoverAllInv(c, w);
      case Submit(id, approval, decision, ok1, ok2, ok3) => SubmitKept(c, w, id, approval, decision, ok1, ok2, ok3);
      case Enqueue(t) => WaitInv(c, w, t);
      case BeginInitial(t, ok) => RunInitialInv(c, w, t, ok);
      case InitialReturns(t, p, outcome, ok1, ok2, ok3, ok4) => InitialReturnsInv(c, w, t, p, outcome, ok1, ok2, ok3, ok4);
      case InitialRaises(t, to, ok1, ok2) => InitialRaisesInv(c, w, t, to, ok1, ok2);
      case BeginResume(t) => RunResumeInv(c, w, t);
      case ResumeReturns(t, p, outcome, ok1, ok2, ok3) => ResumeReturnsInv(c, w, t, p, outcome, ok1, ok2, ok3);
      case ResumeRaises(t, to, ok) => ResumeRaisesInv(c, w, t, to, ok);
      case AbandonTask(t) => AbandonInv(c, w, t);
      case RequestCancel(id) => AskCancelInv(c, w, id);
      case FinishCancel(id, ok1, ok2) => EndCancelInv(c, w, id, ok1, ok2);
      case Timeout(id, ok) => AskTimeoutInv(c, w, id, ok);
      case FinishTimeout(id, ok) => EndTimeoutInv(c, w, id, ok);
      case RuntimeCheckpoint(id, captured, safe, ok) => ReportInv(c, w, id, captured, safe, ok);
    }
  }

  lemma RebootInv(c: Config, w: World, order: seq<Id>)
    requires Inv(c, w) && CanRestart(w, order)
    ensures Inv(c, Reboot(c, w, order))
  {
    var records := map id | id in order :: Restore(w.store[id]);
    var w1 := w.(up := true, records := records, listed := order, restored := Count(order, OpenIds(records)));
    PruneInv(c, w1, None);
  }

  lemma StepInv(c: Config, w: World, s: Step)
    requires Inv(c, w) && Proper(w, s)
    ensures Inv(c, Apply(c, w, s))
  {
    match s
    case Act(a) => CoreInv(c, w, a); LogOnly(c, Core(c, w, a), Calls(c, w, a));
    case DieDuring(a) => CoreInv(c, w, a);
    case Restart(order) => if CanRestart(w, order) { RebootInv(c, w, order); }
  }

  lemma LogOnly(c: Config, w: World, events: seq<Event>)
    requires Inv(c, w)
    ensures Inv(c, w.(log := w.log + events))
  {
    var w1 := w.(log := w.log + events);
    assert forall t: nat :: Live(w1, t) <==> Live(w, t);
  }

  /** Every reachable state satisfies the invariant. */
  lemma {:induction false} RunInv(c: Config, w: World, steps: seq<Step>)
    requires Inv(c, w) && ProperRun(c, w, steps)
    ensures Inv(c, Exec(c, w, steps))
    decreases |steps|
  {
    if steps != [] {
      StepInv(c, w, steps[0]);
      RunInv(c, Apply(c, w, steps[0]), steps[1..]);
    }
  }
}
