/** The execution coordinator as a state machine: one `Action` per stretch of code
    between two `await` points, a durable checkpoint store, process death at any
    point and restart from the store. */
module Lifecycle {

  import opened Wrappers
  import opened Retention

  // ---------------------------------------------------------------- data

  datatype Status =
    | Created | Planning | AwaitingApproval | Approved | Running | Paused | Recovering
    | Completed | Failed | Denied | Cancelled | TimedOut

  predicate Terminal(s: Status) {
    s.Completed? || s.Failed? || s.Denied? || s.Cancelled? || s.TimedOut?
  }

  /** Statuses that startup treats as interrupted work. */
  predicate InFlight(s: Status) {
    s.Created? || s.Planning? || s.Approved? || s.Running? || s.Recovering?
  }

  /** Does `ExecutionState.transition` accept this move? */
  predicate Legal(from: Status, to: Status) {
    from == to ||
    match from
    case Created => to.Planning? || to.Recovering? || to.Failed? || to.Cancelled? || to.TimedOut?
    case Planning =>
      to.AwaitingApproval? || to.Running? || to.Completed? || to.Failed? || to.Denied? || to.Cancelled? || to.TimedOut? || to.Recovering?
    case AwaitingApproval => to.Approved? || to.Denied? || to.Cancelled? || to.TimedOut? || to.Recovering?
    case Approved => to.Running? || to.AwaitingApproval? || to.Completed? || to.Failed? || to.Cancelled? || to.TimedOut?
    case Running => to.AwaitingApproval? || to.Completed? || to.Failed? || to.Cancelled? || to.TimedOut? || to.Recovering?
    case Recovering =>
      to.Planning? || to.Running? || to.AwaitingApproval? || to.Completed? || to.Failed? || to.Cancelled? || to.TimedOut?
    case _ => false
  }

  /** The parts of a pipeline state that decide how a recovered execution is re-entered. */
  datatype Pipeline = Pipeline(hasWorkflow: bool, hasPlan: bool)

  datatype Record = Record(
    status: Status,
    pendingApproval: Option<string>,
    pendingTask: Option<string>,
    pipeline: Option<Pipeline>,
    resolved: set<string>,
    task: Option<nat>,
    cancelSet: bool,
    generation: nat,
    recovered: bool)

  datatype Checkpoint = Checkpoint(
    generation: nat,
    status: Status,
    pendingApproval: Option<string>,
    pendingTask: Option<string>,
    pipeline: Option<Pipeline>,
    resolved: set<string>,
    safe: bool)

  datatype Decision = Allow | Deny
  datatype Job = Initial | Resume(approval: string, decision: Decision)
  datatype Phase = Ready | Queued | InPipeline | Done
  datatype Task = Task(id: Id, job: Job, phase: Phase, cancelRequested: bool)

  datatype Call = RunPipeline | ResumeRecovered

  /** History: accepted saves, pipeline calls made by `_run_initial`, pipeline calls made
      for a user decision, and process deaths.  The flag of a call records whether the
      store had already caught up with it when the call was made. */
  datatype Event =
    | Saved(id: Id, safe: bool)
    | Invoked(id: Id, call: Call, closed: bool)
    | Resumed(id: Id, approval: string, recorded: bool)
    | Crashed

  datatype Config = Config(maxActive: int, maxPending: int, maxRetained: int)

  function Capacity(c: Config): nat {
    (if c.maxActive < 1 then 1 else c.maxActive) + (if c.maxPending < 0 then 0 else c.maxPending)
  }

  function Retained(c: Config): nat {
    if c.maxRetained < 1 then 1 else c.maxRetained
  }

  /** `records` are the record objects alive in the process, `listed` the keys of the
      `_executions` dictionary in insertion order; pruning removes a key while tasks may
      still hold the object. */
  datatype World = World(
    up: bool,
    store: map<Id, Checkpoint>,
    records: map<Id, Record>,
    listed: seq<Id>,
    tasks: seq<Task>,
    recoverCalled: bool,
    restored: nat,
    used: set<Id>,
    log: seq<Event>)

  const BOOT := World(true, map[], map[], [], [], false, 0, {}, [])

  function TerminalIds(records: map<Id, Record>): set<Id> {
    set id | id in records && Terminal(records[id].status)
  }

  function OpenIds(records: map<Id, Record>): set<Id> {
    set id | id in records && !Terminal(records[id].status)
  }

  function NonterminalCount(w: World): nat { Count(w.listed, OpenIds(w.records)) }

  function TerminalCount(w: World): nat { Count(w.listed, TerminalIds(w.records)) }

  // ---------------------------------------------------------------- one record and its checkpoint

  /** A record together with what the store holds for it, the saves accepted so far in
      the current action, and whether the action ended the execution (and so pruned). */
  datatype Cell = Cell(id: Id, r: Record, cp: Option<Checkpoint>, events: seq<Event>, ended: bool)

  function Snapshot(r: Record, safe: bool): Checkpoint {
    Checkpoint(r.generation, r.status, r.pendingApproval, r.pendingTask, r.pipeline, r.resolved, safe)
  }

  /** `_save_checkpoint`: the generation always advances; the store keeps the checkpoint
      only when nothing goes wrong (`ok`) and the generation supersedes the stored one. */
  function Save(x: Cell, safe: bool, ok: bool): Cell {
    var r := x.r.(generation := x.r.generation + 1);
    if ok && (x.cp.Some? ==> x.cp.value.generation < r.generation) then
      x.(r := r, cp := Some(Snapshot(r, safe)), events := x.events + [Saved(x.id, safe)])
    else x.(r := r)
  }

  /** `_transition`; None when the status machine rejects the move with an exception. */
  function Move(x: Cell, to: Status, ok: bool): Option<Cell> {
    if !Legal(x.r.status, to) then None
    else Some(Save(x.(r := x.r.(status := to), ended := x.ended || Terminal(to)), to == Planning, ok))
  }

  /** `_set_terminal_result`: afterwards a pipeline state is always present. */
  function WithResult(r: Record): Record {
    if r.pipeline.None? then r.(pipeline := Some(Pipeline(false, false))) else r
  }

  function ClearPending(r: Record): Record {
    r.(pendingApproval := None, pendingTask := None)
  }

  datatype Outcome = PausedOn(task: string) | Finished | Aborted | Broken

  function OutcomeStatus(outcome: Outcome): Status {
    match outcome
    case PausedOn(_) => AwaitingApproval
    case Finished => Completed
    case Aborted => Cancelled
    case Broken => Failed
  }

  /** `_settle_pipeline`: the flag is false when the transition raised. */
  function Settle(x: Cell, outcome: Outcome, ok1: bool, ok2: bool): (Cell, bool) {
    var r := if outcome.PausedOn? then x.r.(pendingApproval := Some(outcome.task), pendingTask := Some(outcome.task))
             else ClearPending(x.r);
    var moved := Move(x.(r := r), OutcomeStatus(outcome), ok1);
    if moved.Some? then (Save(moved.value, false, ok2), true) else (x.(r := r), false)
  }

  /** The exception handlers of `_run_initial` and `_run_resume`; a rejected transition
      escapes the handler and leaves the record as it is. */
  function Handle(x: Cell, to: Status, ok1: bool, saves: bool, ok2: bool): Cell {
    var moved := if Terminal(x.r.status) then Some(x) else Move(x, to, ok1);
    if moved.None? then x
    else
      var y := moved.value.(r := WithResult(moved.value.r));
      if saves then Save(y, false, ok2) else y
  }

  function FinishInitial(x: Cell, p: Pipeline, outcome: Outcome, ok1: bool, ok2: bool, ok3: bool, ok4: bool): Cell {
    var (y, settled) := Settle(x.(r := x.r.(pipeline := Some(p))), outcome, ok1, ok2);
    if settled then y else Handle(y, Failed, ok3, true, ok4)
  }

  function FinishResume(x: Cell, decision: Decision, p: Pipeline, outcome: Outcome,
                        ok1: bool, ok2: bool, ok3: bool): Cell
  {
    var x0 := x.(r := x.r.(pipeline := Some(p)));
    if decision.Deny? then
      var y := x0.(r := WithResult(ClearPending(x0.r)));
      var moved := Move(y, Denied, ok1);
      if moved.Some? then moved.value else Handle(y, Failed, ok3, false, false)
    else
      var (y, settled) := Settle(x0, outcome, ok1, ok2);
      if settled then y else Handle(y, Failed, ok3, false, false)
  }

  /** The saves of `submit_approval` up to the creation of the resume task. */
  function Decide(x: Cell, approval: string, decision: Decision, ok1: bool, ok2: bool, ok3: bool): Option<Cell> {
    var y := Save(x.(r := x.r.(resolved := x.r.resolved + {approval})), false, ok1);
    if decision.Deny? then Some(y)
    else
      var z := Move(y, Approved, ok2);
      if z.None? then None else Move(z.value, Running, ok3)
  }

  function CompleteCancel(x: Cell, ok1: bool, ok2: bool): Cell {
    var moved := if Terminal(x.r.status) then Some(x) else Move(x, Cancelled, ok1);
    if moved.None? then x
    else Save(moved.value.(r := ClearPending(WithResult(moved.value.r))), false, ok2)
  }

  // ---------------------------------------------------------------- the whole process

  function CellAt(w: World, id: Id): Cell
    requires id in w.records
  {
    Cell(id, w.records[id], if id in w.store then Some(w.store[id]) else None, [], false)
  }

  /** `_prune_terminal_records`. */
  function PruneHistory(c: Config, w: World, keep: Option<Id>): World {
    w.(listed := Prune(w.listed, TerminalIds(w.records), Retained(c), keep))
  }

  /** Write a cell back; an execution that just ended also prunes the history. */
  function Merge(c: Config, w: World, x: Cell): World {
    var w1 := w.(records := w.records[x.id := x.r],
                 store := if x.cp.Some? then w.store[x.id := x.cp.value] else w.store,
                 log := w.log + x.events);
    if x.ended then PruneHistory(c, w1, Some(x.id)) else w1
  }

  function Spawn(w: World, id: Id, job: Job): World
    requires id in w.records
  {
    w.(records := w.records[id := w.records[id].(task := Some(|w.tasks|))],
       tasks := w.tasks + [Task(id, job, Ready, false)])
  }

  function SetPhase(w: World, t: nat, phase: Phase): World
    requires t < |w.tasks|
  {
    w.(tasks := w.tasks[t := w.tasks[t].(phase := phase)])
  }

  predicate TaskLive(w: World, r: Record) {
    r.task.Some? && r.task.value < |w.tasks| && !w.tasks[r.task.value].phase.Done?
  }

  function CancelTask(w: World, r: Record): World {
    if TaskLive(w, r) then
      w.(tasks := w.tasks[r.task.value := w.tasks[r.task.value].(cancelRequested := true)])
    else w
  }

  // ---------------------------------------------------------------- actions

  datatype Action =
    | Idle
    | Start(id: Id, ok1: bool, ok2: bool)
    | Recover
    | Enqueue(t: nat)
    | BeginInitial(t: nat, ok: bool)
    | InitialReturns(t: nat, p: Pipeline, outcome: Outcome, ok1: bool, ok2: bool, ok3: bool, ok4: bool)
    | InitialRaises(t: nat, to: Status, ok1: bool, ok2: bool)
    | Submit(id: Id, approval: string, decision: Option<Decision>, ok1: bool, ok2: bool, ok3: bool)
    | BeginResume(t: nat)
    | ResumeReturns(t: nat, p: Pipeline, outcome: Outcome, ok1: bool, ok2: bool, ok3: bool)
    | ResumeRaises(t: nat, to: Status, ok: bool)
    | AbandonTask(t: nat)
    | RequestCancel(id: Id)
    | FinishCancel(id: Id, ok1: bool, ok2: bool)
    | Timeout(id: Id, ok: bool)
    | FinishTimeout(id: Id, ok: bool)
    | RuntimeCheckpoint(id: Id, captured: Option<Pipeline>, safe: bool, ok: bool)

  const FRESH_RECORD := Record(Created, None, None, None, {}, None, false, 0, false)

  predicate Admitted(c: Config, w: World, id: Id) {
    id !in w.listed && NonterminalCount(w) < Capacity(c)
  }

  /** The two saves of `start_execution`: created, then planning. */
  function Launch(x: Cell, ok1: bool, ok2: bool): Cell {
    var y := Save(x, true, ok1);
    var moved := Move(y, Planning, ok2);
    if moved.Some? then moved.value else y
  }

  function StartExecution(c: Config, w: World, id: Id, ok1: bool, ok2: bool): World {
    if !Admitted(c, w, id) then w
    else
      var w1 := w.(records := w.records[id := FRESH_RECORD], listed := w.listed + [id], used := w.used + {id});
      Spawn(Merge(c, w1, Launch(CellAt(w1, id), ok1, ok2)), id, Initial)
  }

  /** `recover_pending`: one task per listed record that is still recovering. */
  function RecoverPending(w: World, ids: seq<Id>): World
    decreases |ids|
  {
    if ids == [] then w
    else if ids[0] in w.records && w.records[ids[0]].status.Recovering? then
      RecoverPending(Spawn(w, ids[0], Initial), ids[1..])
    else RecoverPending(w, ids[1..])
  }

  /** `_run_initial` up to the pipeline call. */
  function EnterInitial(c: Config, w: World, t: nat, ok: bool): World
    requires t < |w.tasks| && w.tasks[t].id in w.records
  {
    var x := CellAt(w, w.tasks[t].id);
    if x.r.cancelSet || Terminal(x.r.status) then SetPhase(w, t, Done)
    else
      var moved := if x.r.status.Planning? || x.r.status.Recovering? then Move(x, Running, ok) else Some(x);
      if moved.None? then w else Merge(c, SetPhase(w, t, InPipeline), moved.value)
  }

  predicate CanSubmit(w: World, id: Id, approval: string) {
    && id in w.listed && id in w.records
    && var r := w.records[id];
    && r.status.AwaitingApproval? && r.pendingApproval == Some(approval) && approval !in r.resolved
    && r.pipeline.Some? && r.pendingTask.Some?
  }

  function SubmitApproval(c: Config, w: World, id: Id, approval: string, decision: Option<Decision>,
                          ok1: bool, ok2: bool, ok3: bool): World
  {
    if !CanSubmit(w, id, approval) || decision.None? then w
    else
      var x := Decide(CellAt(w, id), approval, decision.value, ok1, ok2, ok3);
      if x.None? then w
      else Spawn(Merge(c, w, x.value), id, Resume(approval, decision.value))
  }

  function StartTimeout(c: Config, w: World, id: Id, ok: bool): World
    requires id in w.records
  {
    var x := Move(CellAt(w, id), TimedOut, ok);
    if x.None? then w
    else Merge(c, CancelTask(w, w.records[id]), x.value.(r := x.value.r.(cancelSet := true)))
  }

  /** Task `t` runs `initial` work and is in `phase`. */
  predicate At(w: World, t: nat, initial: bool, phase: Phase) {
    && t < |w.tasks| && w.tasks[t].phase == phase && w.tasks[t].job.Initial? == initial
    && w.tasks[t].id in w.records
  }

  predicate Interruptible(w: World, t: nat, to: Status) {
    || (At(w, t, true, InPipeline) && (to.Cancelled? || to.TimedOut? || to.Failed?))
    || (At(w, t, true, Queued) && to == Cancelled)
  }

  predicate Open(w: World, id: Id) {
    id in w.listed && id in w.records && !Terminal(w.records[id].status)
  }

  /** An initial task reaches the capacity semaphore. */
  function Wait(w: World, t: nat): World {
    if At(w, t, true, Ready) && !w.tasks[t].cancelRequested then SetPhase(w, t, Queued) else w
  }

  function RunInitial(c: Config, w: World, t: nat, ok: bool): World {
    if At(w, t, true, Queued) then EnterInitial(c, w, t, ok) else w
  }

  function ReturnInitial(c: Config, w: World, t: nat, p: Pipeline, outcome: Outcome,
                         ok1: bool, ok2: bool, ok3: bool, ok4: bool): World
  {
    if At(w, t, true, InPipeline) then
      Merge(c, SetPhase(w, t, Done), FinishInitial(CellAt(w, w.tasks[t].id), p, outcome, ok1, ok2, ok3, ok4))
    else w
  }

  function RaiseInitial(c: Config, w: World, t: nat, to: Status, ok1: bool, ok2: bool): World {
    if Interruptible(w, t, to) then
      Merge(c, SetPhase(w, t, Done), Handle(CellAt(w, w.tasks[t].id), to, ok1, true, ok2))
    else w
  }

  function RunResume(w: World, t: nat): World {
    if At(w, t, false, Ready) && !w.tasks[t].cancelRequested then SetPhase(w, t, InPipeline) else w
  }

  function ReturnResume(c: Config, w: World, t: nat, p: Pipeline, outcome: Outcome,
                        ok1: bool, ok2: bool, ok3: bool): World
  {
    if At(w, t, false, InPipeline) then
      var x := CellAt(w, w.tasks[t].id);
      Merge(c, SetPhase(w, t, Done), FinishResume(x, w.tasks[t].job.decision, p, outcome, ok1, ok2, ok3))
    else w
  }

  function RaiseResume(c: Config, w: World, t: nat, to: Status, ok: bool): World {
    if At(w, t, false, InPipeline) && (to.Cancelled? || to.Failed?) then
      Merge(c, SetPhase(w, t, Done), Handle(CellAt(w, w.tasks[t].id), to, ok, false, false))
    else w
  }

  /** A task that was cancelled before it ever ran. */
  function Abandon(w: World, t: nat): World {
    if t < |w.tasks| && w.tasks[t].phase.Ready? && w.tasks[t].cancelRequested then SetPhase(w, t, Done) else w
  }

  function AskCancel(c: Config, w: World, id: Id): World {
    if Open(w, id) then
      var x := CellAt(w, id);
      Merge(c, CancelTask(w, x.r), x.(r := x.r.(cancelSet := true)))
    else w
  }

  /** `cancel_execution` after its wait; by then a decision may have put a new task there. */
  function EndCancel(c: Config, w: World, id: Id, ok1: bool, ok2: bool): World {
    if id in w.records && w.records[id].cancelSet then Merge(c, w, CompleteCancel(CellAt(w, id), ok1, ok2)) else w
  }

  function AskTimeout(c: Config, w: World, id: Id, ok: bool): World {
    if Open(w, id) then StartTimeout(c, w, id, ok) else w
  }

  function EndTimeout(c: Config, w: World, id: Id, ok: bool): World {
    if id in w.records && w.records[id].status.TimedOut? && !TaskLive(w, w.records[id]) then
      var x := CellAt(w, id);
      Merge(c, w, Save(x.(r := ClearPending(WithResult(x.r))), false, ok))
    else w
  }

  function Report(c: Config, w: World, id: Id, captured: Option<Pipeline>, safe: bool, ok: bool): World {
    if id in w.records then
      var x := CellAt(w, id);
      Merge(c, w, Save(if captured.Some? then x.(r := x.r.(pipeline := captured)) else x, safe, ok))
    else w
  }

  /** Effect of one action on memory and store; an action that is not enabled (the caller
      gets an error, or the task is elsewhere) changes nothing. */
  function Core(c: Config, w: World, a: Action): World {
    if !w.up then w else
    match a
    case Idle => w
    case Start(id, ok1, ok2) => StartExecution(c, w, id, ok1, ok2)
    case Recover => RecoverPending(w.(recoverCalled := true), w.listed)
    case Enqueue(t) => Wait(w, t)
    case BeginInitial(t, ok) => RunInitial(c, w, t, ok)
    case InitialReturns(t, p, outcome, ok1, ok2, ok3, ok4) => ReturnInitial(c, w, t, p, outcome, ok1, ok2, ok3, ok4)
    case InitialRaises(t, to, ok1, ok2) => RaiseInitial(c, w, t, to, ok1, ok2)
    case Submit(id, approval, decision, ok1, ok2, ok3) =>
      SubmitApproval(c, w, id, approval, decision, ok1, ok2, ok3)
    case BeginResume(t) => RunResume(w, t)
    case ResumeReturns(t, p, outcome, ok1, ok2, ok3) => ReturnResume(c, w, t, p, outcome, ok1, ok2, ok3)
    case ResumeRaises(t, to, ok) => RaiseResume(c, w, t, to, ok)
    case AbandonTask(t) => Abandon(w, t)
    case RequestCancel(id) => AskCancel(c, w, id)
    case FinishCancel(id, ok1, ok2) => EndCancel(c, w, id, ok1, ok2)
    case Timeout(id, ok) => AskTimeout(c, w, id, ok)
    case FinishTimeout(id, ok) => EndTimeout(c, w, id, ok)
    case RuntimeCheckpoint(id, captured, safe, ok) => Report(c, w, id, captured, safe, ok)
  }

  /** Which orchestrator entry `_execute_initial_pipeline` uses. */
  function CallFor(r: Record): Call {
    if r.recovered && r.pipeline.Some? && (r.pipeline.value.hasWorkflow || r.pipeline.value.hasPlan)
    then ResumeRecovered else RunPipeline
  }

  /** A restart would put `id` up for replay. */
  predicate Replayable(store: map<Id, Checkpoint>, id: Id) {
    id in store && InFlight(store[id].status) && store[id].safe
  }

  /** Pipeline calls made by an action, after its checkpoints were written. */
  function Calls(c: Config, w: World, a: Action): seq<Event> {
    var w' := Core(c, w, a);
    match a
    case BeginInitial(t, _) =>
      if w.up && At(w, t, true, Queued) && t < |w'.tasks| && w'.tasks[t].phase.InPipeline? then
        var id := w.tasks[t].id;
        [Invoked(id, CallFor(w.records[id]), id in w'.store && !Replayable(w'.store, id))]
      else []
    case BeginResume(t) =>
      if w.up && At(w, t, false, Ready) && !w.tasks[t].cancelRequested then
        var id := w.tasks[t].id;
        var approval := w.tasks[t].job.approval;
        [Resumed(id, approval, id in w'.store && approval in w'.store[id].resolved)]
      else []
    case _ => []
  }

  // ---------------------------------------------------------------- process death and restart

  /** `_restore_checkpoints` for one checkpoint. */
  function Restore(cp: Checkpoint): Record {
    var r := Record(cp.status, cp.pendingApproval, cp.pendingTask, cp.pipeline, cp.resolved,
                    None, false, cp.generation, true);
    if !InFlight(cp.status) then r
    else if cp.safe then r.(status := Recovering)
    else WithResult(r.(status := Failed))
  }

  function Die(w: World): World {
    w.(up := false, records := map[], listed := [], tasks := [], recoverCalled := false, restored := 0,
       log := w.log + [Crashed])
  }

  /** `order` lists the checkpoints that could be read and validated. */
  function Reboot(c: Config, w: World, order: seq<Id>): World
    requires forall id :: id in order ==> id in w.store
  {
    var records := map id | id in order :: Restore(w.store[id]);
    PruneHistory(c, w.(up := true, records := records, listed := order,
                       restored := Count(order, OpenIds(records))), None)
  }

  /** `Act` runs an action to its end.  `DieDuring` runs a part of it: the process dies
      before the action's pipeline call, with any of its saves missing from the store.
      `Restart` builds a new coordinator over the store. */
  datatype Step = Act(a: Action) | DieDuring(a: Action) | Restart(order: seq<Id>)

  predicate CanRestart(w: World, order: seq<Id>) {
    !w.up && (forall i, j :: 0 <= i < j < |order| ==> order[i] != order[j])
    && (forall id :: id in order ==> id in w.store)
  }

  function Apply(c: Config, w: World, s: Step): World {
    match s
    case Act(a) => var w' := Core(c, w, a); w'.(log := w'.log + Calls(c, w, a))
    case DieDuring(a) => if w.up then Die(Core(c, w, a)) else w
    case Restart(order) => if CanRestart(w, order) then Reboot(c, w, order) else w
  }

  function Exec(c: Config, w: World, steps: seq<Step>): World
    decreases |steps|
  {
    if steps == [] then w else Exec(c, Apply(c, w, steps[0]), steps[1..])
  }

  /** The two promises callers keep: execution ids are new, and `recover_pending` is
      called once per process. */
  predicate Proper(w: World, s: Step) {
    match s
    case Act(Start(id, _, _)) => id !in w.used
    case DieDuring(Start(id, _, _)) => id !in w.used
    case Act(Recover) => !w.recoverCalled
    case DieDuring(Recover) => !w.recoverCalled
    case _ => true
  }

  predicate ProperRun(c: Config, w: World, steps: seq<Step>)
    decreases |steps|
  {
    steps == [] || (Proper(w, steps[0]) && ProperRun(c, Apply(c, w, steps[0]), steps[1..]))
  }
}
