/** What each action of the coordinator leaves behind, said of the records, the tasks and the
    store alone: the status an execution ends in, what is cleared, what a restart will find. */
module LifecycleOutcomes {

  import opened Wrappers
  import opened Retention
  import opened Lifecycle

  /** The store holds the record as it is now. */
  predicate UpToDate(w: World, id: Id, safe: bool) {
    && id in w.records && id in w.store
    && var (r, cp) := (w.records[id], w.store[id]);
    && cp.status == r.status && cp.generation == r.generation && cp.safe == safe
    && cp.pendingApproval == r.pendingApproval && cp.pendingTask == r.pendingTask
    && cp.pipeline == r.pipeline && cp.resolved == r.resolved
  }

  /** No checkpoint runs ahead of its record, as in every reachable state. */
  predicate Behind(w: World, id: Id) {
    id in w.records && (id in w.store ==> w.store[id].generation <= w.records[id].generation)
  }

  /** A task of the right kind is inside a pipeline call. */
  predicate Calling(w: World, t: nat, initial: bool) {
    && w.up && t < |w.tasks| && w.tasks[t].phase.InPipeline? && (w.tasks[t].job.Initial? <==> initial)
    && Behind(w, w.tasks[t].id)
  }

  /** A pipeline that was there stays; otherwise the result stands in one without workflow and
      plan. */
  predicate Resulted(was: Option<Pipeline>, now: Option<Pipeline>) {
    now == if was.Some? then was else Some(Pipeline(false, false))
  }

  predicate Waits(r: Record) { r.pendingApproval.Some? || r.pendingTask.Some? }

  function Written(r: Record, safe: bool): Option<Checkpoint> {
    Some(Checkpoint(r.generation, r.status, r.pendingApproval, r.pendingTask, r.pipeline, r.resolved, safe))
  }

  lemma SavedCell(x: Cell, safe: bool, ok: bool)
    requires x.cp.Some? ==> x.cp.value.generation <= x.r.generation
    ensures var y := Save(x, safe, ok);
            var r := x.r.(generation := x.r.generation + 1);
            y.id == x.id && y.r == r && y.cp == (if ok then Written(r, safe) else x.cp)
  {
  }

  lemma MovedCell(x: Cell, to: Status, ok: bool)
    requires Legal(x.r.status, to) && (x.cp.Some? ==> x.cp.value.generation <= x.r.generation)
    ensures Move(x, to, ok).Some?
    ensures var y := Move(x, to, ok).value;
            var r := x.r.(status := to, generation := x.r.generation + 1);
            y.id == x.id && y.r == r && y.cp == (if ok then Written(r, to.Planning?) else x.cp)
  {
    hide Legal;
    SavedCell(x.(r := x.r.(status := to)), to == Planning, ok);
    hide Save;
  }

  lemma MergedCell(c: Config, w: World, x: Cell)
    ensures var w' := Merge(c, w, x);
            && w'.records == w.records[x.id := x.r] && w'.tasks == w.tasks
            && w'.store == (if x.cp.Some? then w.store[x.id := x.cp.value] else w.store)
  {
    hide Prune;
  }

  // ---------------------------------------------------------------- the status machine

  /** The status machine by where a move leads: nothing leads back to CREATED, a failure is no
      way out of waiting for approval, a refusal only ends planning or waiting, a final status
      is never left and PAUSED is never entered. */
  lemma MovesInto(from: Status)
    ensures Legal(from, Created) <==> from.Created?
    ensures Legal(from, Planning) <==> from.Planning? || from.Created? || from.Recovering?
    ensures Legal(from, AwaitingApproval) <==>
              from.AwaitingApproval? || from.Planning? || from.Approved? || from.Running? || from.Recovering?
    ensures Legal(from, Approved) <==> from.Approved? || from.AwaitingApproval?
    ensures Legal(from, Running) <==> from.Running? || from.Planning? || from.Approved? || from.Recovering?
    ensures Legal(from, Paused) <==> from.Paused?
    ensures Legal(from, Recovering) <==>
              from.Recovering? || from.Created? || from.Planning? || from.AwaitingApproval? || from.Running?
    ensures Legal(from, Completed) <==>
              from.Completed? || from.Planning? || from.Approved? || from.Running? || from.Recovering?
    ensures Legal(from, Failed) <==>
              from.Failed? || from.Created? || from.Planning? || from.Approved? || from.Running? || from.Recovering?
    ensures Legal(from, Denied) <==> from.Denied? || from.Planning? || from.AwaitingApproval?
    ensures Legal(from, Cancelled) <==>
              from.Cancelled? || from.Created? || from.Planning? || from.AwaitingApproval? || from.Approved?
              || from.Running? || from.Recovering?
    ensures Legal(from, TimedOut) <==>
              from.TimedOut? || from.Created? || from.Planning? || from.AwaitingApproval? || from.Approved?
              || from.Running? || from.Recovering?
    ensures Terminal(from) <==> from.Completed? || from.Failed? || from.Denied? || from.Cancelled? || from.TimedOut?
  {
  }

  // ---------------------------------------------------------------- the bounded history

  /** The finished executions that are listed. */
  function FinishedIds(w: World): set<Id> {
    set id | id in w.listed && id in w.records
             && (w.records[id].status.Completed? || w.records[id].status.Failed? || w.records[id].status.Denied?
                 || w.records[id].status.Cancelled? || w.records[id].status.TimedOut?)
  }

  /** Pruning leaves as many finished executions as there were, but no more than are to be
      retained, at least one; it drops no unfinished one and not the one to keep, and nothing
      but the list changes. */
  lemma Prunes(c: Config, w: World, keep: Option<Id>)
    requires Distinct(w.listed) && forall id :: id in w.listed ==> id in w.records
    ensures var w' := PruneHistory(c, w, keep);
            var room := if c.maxRetained > 0 then c.maxRetained else 1;
            && w' == w.(listed := w'.listed)
            && |FinishedIds(w')| == (if |FinishedIds(w)| > room then room else |FinishedIds(w)|)
            && (forall id :: id in w'.listed ==> id in w.listed)
            && (forall id :: id in w.listed && (id !in FinishedIds(w) || keep == Some(id)) ==> id in w'.listed)
  {
    var w' := PruneHistory(c, w, keep);
    var T := TerminalIds(w.records);
    PruneSound(w.listed, T, Retained(c), keep);
    CountIsSize(w.listed, T);
    CountIsSize(w'.listed, T);
    hide Prune;
    hide Count;
    assert (set id | id in w.listed && id in T) == FinishedIds(w);
    assert (set id | id in w'.listed && id in T) == FinishedIds(w');
  }

  // ---------------------------------------------------------------- starting

  lemma {:induction false} CountIsSize(s: seq<Id>, T: set<Id>)
    requires Distinct(s)
    ensures Count(s, T) == |set id | id in s && id in T|
  {
    if s == [] {
      assert (set id | id in s && id in T) == {};
    } else {
      CountIsSize(s[1..], T);
      var rest := set id | id in s[1..] && id in T;
      assert s == [s[0]] + s[1..];
      assert (set id | id in s && id in T) == if s[0] in T then rest + {s[0]} else rest;
    }
  }

  /** The executions that count against the capacity. */
  function Unfinished(w: World): set<Id> {
    set id | id in w.listed && id in w.records
             && !w.records[id].status.Completed? && !w.records[id].status.Failed? && !w.records[id].status.Denied?
             && !w.records[id].status.Cancelled? && !w.records[id].status.TimedOut?
  }

  lemma Admits(c: Config, w: World, id: Id)
    requires Distinct(w.listed)
    ensures var room := (if c.maxActive > 0 then c.maxActive else 1) + (if c.maxPending > 0 then c.maxPending else 0);
            Admitted(c, w, id) <==> id !in w.listed && |Unfinished(w)| < room
  {
    CountIsSize(w.listed, OpenIds(w.records));
    assert (set i | i in w.listed && i in OpenIds(w.records)) == Unfinished(w);
  }

  lemma LaunchedCell(x: Cell, ok1: bool, ok2: bool)
    requires x.cp.None? && x.r == Record(Created, None, None, None, {}, None, false, 0, false) && !x.ended
    ensures var y := Launch(x, ok1, ok2);
            && y.id == x.id && y.r == x.r.(status := Planning, generation := 2) && !y.ended
            && y.cp == (if ok2 then Written(y.r, true)
                        else if ok1 then Written(x.r.(generation := 1), true) else None)
  {
    SavedCell(x, true, ok1);
    MovedCell(Save(x, true, ok1), Planning, ok2);
  }

  lemma MergedOpen(c: Config, w: World, x: Cell)
    requires !x.ended
    ensures Merge(c, w, x).listed == w.listed && Merge(c, w, x).up == w.up
    ensures var w' := Merge(c, w, x);
            && w'.records == w.records[x.id := x.r] && w'.tasks == w.tasks
            && w'.store == (if x.cp.Some? then w.store[x.id := x.cp.value] else w.store)
  {
  }

  /** Starting is refused, with nothing changed, exactly for a listed id or when as many
      unfinished executions are listed as may be active and pending, counting at least one and
      at least none; otherwise the execution is listed last, PLANNING, and has a task. */
  lemma Starts(c: Config, w: World, id: Id, ok1: bool, ok2: bool)
    requires w.up && Distinct(w.listed) && id !in w.store
    ensures var w' := Core(c, w, Start(id, ok1, ok2));
            var room := (if c.maxActive > 0 then c.maxActive else 1) + (if c.maxPending > 0 then c.maxPending else 0);
            if id in w.listed || |Unfinished(w)| >= room then w' == w
            else
              && w'.listed == w.listed + [id] && id in w'.records
              && w'.records[id] == Record(Planning, None, None, None, {}, Some(|w.tasks|), false, 2, false)
              && w'.tasks == w.tasks + [Task(id, Initial, Ready, false)]
              && (ok2 ==> UpToDate(w', id, true))
              && (ok1 && !ok2 ==> id in w'.store && w'.store[id].status.Created? && w'.store[id].safe)
              && (!ok1 && !ok2 ==> w'.store == w.store)
  {
    hide SubmitApproval;
    hide RecoverPending;
    hide EnterInitial;
    hide StartTimeout;
    hide CompleteCancel;
    hide Handle;
    hide Settle;
    hide Merge;
    hide Launch;
    Admits(c, w, id);
    hide Admitted;
    hide Unfinished;
    if Admitted(c, w, id) {
      var w1 := w.(records := w.records[id := FRESH_RECORD], listed := w.listed + [id], used := w.used + {id});
      LaunchedCell(CellAt(w1, id), ok1, ok2);
      var y := Launch(CellAt(w1, id), ok1, ok2);
      MergedOpen(c, w1, y);
    }
  }

  // ---------------------------------------------------------------- running

  lemma Begins(c: Config, w: World, t: nat, ok: bool)
    requires w.up && t < |w.tasks| && w.tasks[t].phase.Queued? && w.tasks[t].job.Initial? && Behind(w, w.tasks[t].id)
    ensures var id := w.tasks[t].id;
            var w1 := EnterInitial(c, w, t, ok);
            var w' := Apply(c, w, Act(BeginInitial(t, ok)));
            w' == w1.(log := w1.log + if t < |w1.tasks| && w1.tasks[t].phase.InPipeline?
                                      then [Invoked(id, CallFor(w.records[id]), id in w1.store && !Replayable(w1.store, id))] else [])
  {
    hide EnterInitial;
    hide CallFor;
    hide Replayable;
    hide StartExecution;
    hide RecoverPending;
    hide SubmitApproval;
    hide ReturnInitial;
    hide RaiseInitial;
    hide ReturnResume;
    hide RaiseResume;
    hide AskTimeout;
    hide AskCancel;
    hide EndCancel;
    hide EndTimeout;
    hide Report;
  }

  /** An execution that gets its slot runs, and the store knows that it is not safe to replay;
      cancelled or finished in the meantime, it does not. */
  lemma Enters(c: Config, w: World, t: nat, ok: bool)
    requires w.up && t < |w.tasks| && w.tasks[t].phase.Queued? && w.tasks[t].job.Initial? && Behind(w, w.tasks[t].id)
    requires var r := w.records[w.tasks[t].id]; r.status.Planning? || r.status.Recovering?
    ensures var id := w.tasks[t].id;
            var r := w.records[id];
            var w' := Apply(c, w, Act(BeginInitial(t, ok)));
            && id in w'.records && |w'.tasks| == |w.tasks|
            && if r.cancelSet then w'.tasks[t].phase.Done? && w'.records == w.records && w'.log == w.log
               else
                 && w'.tasks[t].phase.InPipeline? && w'.records[id] == r.(status := Running, generation := r.generation + 1)
                 && (ok ==> UpToDate(w', id, false))
                 && |w'.log| > 0 && w'.log[|w'.log| - 1].Invoked? && w'.log[|w'.log| - 1].id == id
                 && (w'.log[|w'.log| - 1].call.ResumeRecovered? <==>
                       r.recovered && exists p :: r.pipeline == Some(p) && (p.hasWorkflow || p.hasPlan))
  {
    Begins(c, w, t, ok);
    hide Apply;
    hide Merge;
    hide Move;
    var x := CellAt(w, w.tasks[t].id);
    if !x.r.cancelSet {
      MovedCell(x, Running, ok);
      MergedCell(c, SetPhase(w, t, InPipeline), Move(x, Running, ok).value);
    }
  }

  /** A task that finds its execution finished ends without a call. */
  lemma EntersNothingFinished(c: Config, w: World, t: nat, ok: bool)
    requires w.up && t < |w.tasks| && w.tasks[t].phase.Queued? && w.tasks[t].job.Initial? && Behind(w, w.tasks[t].id)
    requires var s := w.records[w.tasks[t].id].status; s.Completed? || s.Failed? || s.Denied? || s.Cancelled? || s.TimedOut?
    ensures var w' := Apply(c, w, Act(BeginInitial(t, ok)));
            && |w'.tasks| == |w.tasks| && w'.tasks[t].phase.Done?
            && w'.records == w.records && w'.store == w.store && w'.log == w.log
  {
  }

  /** What the scheduler does with a task that has not begun: unless it has been cancelled, an
      initial one waits for its slot and a resume calls the pipeline, telling it the approval; a
      cancelled one ends. In any other state none of this happens. */
  lemma Schedules(c: Config, w: World, t: nat)
    requires w.up && t < |w.tasks| && w.tasks[t].id in w.records
    ensures var task := w.tasks[t];
            var starts := task.phase.Ready? && !task.cancelRequested;
            && Core(c, w, Enqueue(t)) ==
                 (if task.job.Initial? && starts then w.(tasks := w.tasks[t := task.(phase := Queued)]) else w)
            && Core(c, w, AbandonTask(t)) ==
                 (if task.phase.Ready? && task.cancelRequested then w.(tasks := w.tasks[t := task.(phase := Done)]) else w)
            && Core(c, w, BeginResume(t)) ==
                 (if task.job.Resume? && starts then w.(tasks := w.tasks[t := task.(phase := InPipeline)]) else w)
    ensures var task := w.tasks[t];
            var w' := Apply(c, w, Act(BeginResume(t)));
            if task.job.Resume? && task.phase.Ready? && !task.cancelRequested then
              |w'.log| == |w.log| + 1 && w'.log[|w.log|].Resumed? && w'.log[|w.log|].id == task.id
              && w'.log[|w.log|].approval == task.job.approval
            else w'.log == w.log
  {
    assert w.log + [] == w.log;
  }

  // ---------------------------------------------------------------- settling

  /** How a running execution ends when its pipeline returns. */
  ghost predicate Settled(w: World, w': World, t: nat, p: Pipeline, outcome: Outcome, saved: bool)
    requires Calling(w, t, true) || Calling(w, t, false)
  {
    var id := w.tasks[t].id;
    && id in w'.records && |w'.tasks| == |w.tasks| && w'.tasks[t].phase.Done? && w'.records[id].pipeline == Some(p)
    && (match outcome
        case PausedOn(task) =>
          && w'.records[id].status.AwaitingApproval?
          && w'.records[id].pendingApproval == Some(task) && w'.records[id].pendingTask == Some(task)
        case Finished => w'.records[id].status.Completed? && !Waits(w'.records[id])
        case Aborted => w'.records[id].status.Cancelled? && !Waits(w'.records[id])
        case Broken => w'.records[id].status.Failed? && !Waits(w'.records[id]))
    && (saved ==> UpToDate(w', id, false))
  }

  lemma SettledCell(x: Cell, outcome: Outcome, ok1: bool, ok2: bool)
    requires x.r.status.Running? && (x.cp.Some? ==> x.cp.value.generation <= x.r.generation)
    ensures var (y, settled) := Settle(x, outcome, ok1, ok2);
            var s := match outcome case PausedOn(_) => AwaitingApproval case Finished => Completed
                                   case Aborted => Cancelled case Broken => Failed;
            var pending := if outcome.PausedOn? then Some(outcome.task) else None;
            var r := x.r.(status := s, pendingApproval := pending, pendingTask := pending, generation := x.r.generation + 2);
            && settled && y.id == x.id && y.r == r
            && (ok2 ==> y.cp == Written(r, false))
  {
    var pending := if outcome.PausedOn? then Some(outcome.task) else None;
    var x1 := x.(r := x.r.(pendingApproval := pending, pendingTask := pending));
    var s := OutcomeStatus(outcome);
    MovedCell(x1, s, ok1);
    SavedCell(Move(x1, s, ok1).value, false, ok2);
    hide Move;
    hide Save;
  }

  lemma CellSettled(c: Config, w: World, t: nat, initial: bool, p: Pipeline, outcome: Outcome, y: Cell, saved: bool)
    requires Calling(w, t, initial) && y.id == w.tasks[t].id && y.r.pipeline == Some(p)
    requires match outcome
             case PausedOn(task) =>
               y.r.status.AwaitingApproval? && y.r.pendingApproval == Some(task) && y.r.pendingTask == Some(task)
             case Finished => y.r.status.Completed? && !Waits(y.r)
             case Aborted => y.r.status.Cancelled? && !Waits(y.r)
             case Broken => y.r.status.Failed? && !Waits(y.r)
    requires saved ==> y.cp == Written(y.r, false)
    ensures Settled(w, Merge(c, SetPhase(w, t, Done), y), t, p, outcome, saved)
  {
    hide Merge;
    MergedCell(c, SetPhase(w, t, Done), y);
  }

  /** The pipeline of a running execution returns: a paused result leads to AWAITING_APPROVAL
      of that task, a completed one to COMPLETED, a cancelled one to CANCELLED, anything else
      and no result to FAILED; and when the last save is accepted a restart finds just that. */
  lemma InitialSettles(c: Config, w: World, t: nat, p: Pipeline, outcome: Outcome, ok1: bool, ok2: bool, ok3: bool, ok4: bool)
    requires Calling(w, t, true) && w.records[w.tasks[t].id].status.Running?
    ensures Settled(w, Core(c, w, InitialReturns(t, p, outcome, ok1, ok2, ok3, ok4)), t, p, outcome, ok2)
  {
    hide StartExecution;
    hide RecoverPending;
    hide SubmitApproval;
    hide EnterInitial;
    hide StartTimeout;
    hide CompleteCancel;
    hide Handle;
    hide Settle;
    hide Merge;
    hide Save;
    hide Settled;
    var x1 := CellAt(w, w.tasks[t].id).(r := w.records[w.tasks[t].id].(pipeline := Some(p)));
    SettledCell(x1, outcome, ok1, ok2);
    CellSettled(c, w, t, true, p, outcome, Settle(x1, outcome, ok1, ok2).0, ok2);
  }

  /** The same for the resume after an approval. */
  lemma ResumeSettles(c: Config, w: World, t: nat, p: Pipeline, outcome: Outcome, ok1: bool, ok2: bool, ok3: bool)
    requires Calling(w, t, false) && w.tasks[t].job.decision.Allow? && w.records[w.tasks[t].id].status.Running?
    ensures Settled(w, Core(c, w, ResumeReturns(t, p, outcome, ok1, ok2, ok3)), t, p, outcome, ok2)
  {
    hide StartExecution;
    hide RecoverPending;
    hide SubmitApproval;
    hide EnterInitial;
    hide StartTimeout;
    hide CompleteCancel;
    hide Handle;
    hide Settle;
    hide Merge;
    hide Save;
    hide Settled;
    var x1 := CellAt(w, w.tasks[t].id).(r := w.records[w.tasks[t].id].(pipeline := Some(p)));
    SettledCell(x1, outcome, ok1, ok2);
    CellSettled(c, w, t, false, p, outcome, Settle(x1, outcome, ok1, ok2).0, ok2);
  }

  /** The resume after a refusal ends the execution as DENIED, whatever the pipeline returned. */
  lemma RefusalSettles(c: Config, w: World, t: nat, p: Pipeline, outcome: Outcome, ok1: bool, ok2: bool, ok3: bool)
    requires Calling(w, t, false) && w.tasks[t].job.decision.Deny? && w.records[w.tasks[t].id].status.AwaitingApproval?
    ensures var id := w.tasks[t].id;
            var w' := Core(c, w, ResumeReturns(t, p, outcome, ok1, ok2, ok3));
            && id in w'.records && |w'.tasks| == |w.tasks| && w'.tasks[t].phase.Done?
            && w'.records[id].status.Denied? && !Waits(w'.records[id]) && w'.records[id].pipeline == Some(p)
            && (ok1 ==> UpToDate(w', id, false))
  {
    hide Prune;
  }

  // ---------------------------------------------------------------- raising

  lemma HandledCell(x: Cell, to: Status, ok1: bool, saves: bool, ok2: bool)
    requires x.cp.Some? ==> x.cp.value.generation <= x.r.generation
    requires x.r.status.Planning? || x.r.status.Running? || x.r.status.Recovering?
    requires to.Cancelled? || to.TimedOut? || to.Failed?
    ensures var y := Handle(x, to, ok1, saves, ok2);
            && y.id == x.id && y.r.status == to && Resulted(x.r.pipeline, y.r.pipeline)
            && y.r.pendingApproval == x.r.pendingApproval && y.r.resolved == x.r.resolved
            && (saves && ok2 ==> y.cp == Written(y.r, false))
            && (!saves && ok1 ==> y.cp.Some? && y.cp.value.status == to && !y.cp.value.safe)
  {
    MovedCell(x, to, ok1);
    hide Legal;
    hide Move;
    var y := Move(x, to, ok1).value;
    SavedCell(y.(r := WithResult(y.r)), false, ok2);
    hide Save;
  }

  lemma HandledFinished(x: Cell, to: Status, ok1: bool, saves: bool, ok2: bool)
    requires x.cp.Some? ==> x.cp.value.generation <= x.r.generation
    requires x.r.status.Completed? || x.r.status.Failed? || x.r.status.Denied? || x.r.status.Cancelled? || x.r.status.TimedOut?
    ensures var y := Handle(x, to, ok1, saves, ok2);
            && y.id == x.id && y.r.status == x.r.status && Resulted(x.r.pipeline, y.r.pipeline)
            && (saves && ok2 ==> y.cp == Written(y.r, false))
            && (!saves ==> y.cp == x.cp)
  {
  }

  /** A pipeline that is cancelled, times out or fails ends its execution in just that status;
      one that had ended already keeps its status. */
  lemma InitialEnds(c: Config, w: World, t: nat, to: Status, ok1: bool, ok2: bool)
    requires Calling(w, t, true) && (to.Cancelled? || to.TimedOut? || to.Failed?)
    requires var s := w.records[w.tasks[t].id].status;
             s.Running? || s.Completed? || s.Failed? || s.Denied? || s.Cancelled? || s.TimedOut?
    ensures var id := w.tasks[t].id;
            var w' := Core(c, w, InitialRaises(t, to, ok1, ok2));
            && id in w'.records && |w'.tasks| == |w.tasks| && w'.tasks[t].phase.Done?
            && Resulted(w.records[id].pipeline, w'.records[id].pipeline)
            && w'.records[id].status == (if w.records[id].status.Running? then to else w.records[id].status)
            && (ok2 ==> UpToDate(w', id, false))
  {
    hide Handle;
    hide Merge;
    var x := CellAt(w, w.tasks[t].id);
    if x.r.status.Running? { HandledCell(x, to, ok1, true, ok2); } else { HandledFinished(x, to, ok1, true, ok2); }
    MergedCell(c, SetPhase(w, t, Done), Handle(x, to, ok1, true, ok2));
  }

  /** A task cancelled while it waits for its slot cancels the execution. */
  lemma QueuedEnds(c: Config, w: World, t: nat, ok1: bool, ok2: bool)
    requires w.up && t < |w.tasks| && w.tasks[t].phase.Queued? && w.tasks[t].job.Initial? && Behind(w, w.tasks[t].id)
    requires var s := w.records[w.tasks[t].id].status; s.Planning? || s.Recovering?
    ensures var id := w.tasks[t].id;
            var w' := Core(c, w, InitialRaises(t, Cancelled, ok1, ok2));
            && id in w'.records && |w'.tasks| == |w.tasks| && w'.tasks[t].phase.Done?
            && w'.records[id].status.Cancelled? && Resulted(w.records[id].pipeline, w'.records[id].pipeline) && (ok2 ==> UpToDate(w', id, false))
  {
    hide Handle;
    hide Merge;
    var x := CellAt(w, w.tasks[t].id);
    HandledCell(x, Cancelled, ok1, true, ok2);
    MergedCell(c, SetPhase(w, t, Done), Handle(x, Cancelled, ok1, true, ok2));
  }

  /** The same for a resume, whose handlers save nothing after the move. */
  lemma ResumeEnds(c: Config, w: World, t: nat, to: Status, ok: bool)
    requires Calling(w, t, false) && (to.Cancelled? || to.Failed?)
    requires var s := w.records[w.tasks[t].id].status;
             s.Running? || s.Completed? || s.Failed? || s.Denied? || s.Cancelled? || s.TimedOut?
    ensures var id := w.tasks[t].id;
            var w' := Core(c, w, ResumeRaises(t, to, ok));
            && id in w'.records && |w'.tasks| == |w.tasks| && w'.tasks[t].phase.Done?
            && Resulted(w.records[id].pipeline, w'.records[id].pipeline)
            && w'.records[id].status == (if w.records[id].status.Running? then to else w.records[id].status)
            && (w.records[id].status.Running? && ok ==> id in w'.store && w'.store[id].status == to && !w'.store[id].safe)
  {
    hide Handle;
    hide Merge;
    var x := CellAt(w, w.tasks[t].id);
    if x.r.status.Running? { HandledCell(x, to, ok, false, false); } else { HandledFinished(x, to, ok, false, false); }
    MergedCell(c, SetPhase(w, t, Done), Handle(x, to, ok, false, false));
  }

  // ---------------------------------------------------------------- deciding

  lemma DecidedCell(x: Cell, approval: string, decision: Decision, ok1: bool, ok2: bool, ok3: bool)
    requires x.r.status.AwaitingApproval? && (x.cp.Some? ==> x.cp.value.generation <= x.r.generation)
    ensures Decide(x, approval, decision, ok1, ok2, ok3).Some?
    ensures var y := Decide(x, approval, decision, ok1, ok2, ok3).value;
            var n := if decision.Allow? then 3 else 1;
            && y.id == x.id
            && y.r == x.r.(resolved := x.r.resolved + {approval}, generation := x.r.generation + n,
                           status := if decision.Allow? then Running else AwaitingApproval)
            && (ok1 || (decision.Allow? && (ok2 || ok3)) ==> y.cp.Some? && y.cp.value.resolved == y.r.resolved)
            && ((if decision.Allow? then ok3 else ok1) ==> y.cp == Written(y.r, false))
  {
    var x0 := x.(r := x.r.(resolved := x.r.resolved + {approval}));
    SavedCell(x0, false, ok1);
    var y := Save(x0, false, ok1);
    if decision.Allow? {
      MovedCell(y, Approved, ok2);
      MovedCell(Move(y, Approved, ok2).value, Running, ok3);
    }
    hide Move;
    hide Save;
  }

  /** A decision is accepted exactly when the execution is listed and waits for this approval,
      which is not resolved, the word is known, and task and pipeline are there. Then the
      approval is resolved and a resume task carries the decision; an allowed execution runs,
      a refused one goes on waiting. Otherwise nothing changes. */
  lemma Submits(c: Config, w: World, id: Id, approval: string, decision: Option<Decision>, ok1: bool, ok2: bool, ok3: bool)
    requires w.up && (id in w.records ==> Behind(w, id))
    ensures var w' := Core(c, w, Submit(id, approval, decision, ok1, ok2, ok3));
            if id in w.listed && id in w.records && decision.Some?
               && w.records[id].status.AwaitingApproval? && w.records[id].pendingApproval == Some(approval)
               && approval !in w.records[id].resolved && w.records[id].pipeline.Some? && w.records[id].pendingTask.Some?
            then
              && id in w'.records && w'.records[id].resolved == w.records[id].resolved + {approval}
              && w'.tasks == w.tasks + [Task(id, Resume(approval, decision.value), Ready, false)]
              && w'.records[id].task == Some(|w.tasks|)
              && w'.records[id].pendingTask == w.records[id].pendingTask && w'.records[id].pipeline == w.records[id].pipeline
              && (if decision.value.Allow? then w'.records[id].status.Running? else w'.records[id].status.AwaitingApproval?)
              && (ok1 || (decision.value.Allow? && (ok2 || ok3)) ==> id in w'.store && approval in w'.store[id].resolved)
              && ((if decision.value.Allow? then ok3 else ok1) ==> UpToDate(w', id, false))
            else w' == w
  {
    hide StartExecution;
    hide RecoverPending;
    hide EnterInitial;
    hide StartTimeout;
    hide CompleteCancel;
    hide Handle;
    hide Settle;
    hide Merge;
    hide Decide;
    if CanSubmit(w, id, approval) && decision.Some? {
      var x := CellAt(w, id);
      DecidedCell(x, approval, decision.value, ok1, ok2, ok3);
      MergedCell(c, w, Decide(x, approval, decision.value, ok1, ok2, ok3).value);
    }
  }

  // ---------------------------------------------------------------- cancelling and timing out

  /** Cancelling sets the flag and cancels the task; a finished or unlisted execution is left
      alone. */
  lemma AsksCancel(c: Config, w: World, id: Id)
    requires w.up && (id in w.records && w.records[id].task.Some? ==> w.records[id].task.value < |w.tasks|)
    ensures var w' := Core(c, w, RequestCancel(id));
            if id in w.listed && id in w.records
               && !w.records[id].status.Completed? && !w.records[id].status.Failed? && !w.records[id].status.Denied?
               && !w.records[id].status.Cancelled? && !w.records[id].status.TimedOut?
            then
              && w'.records == w.records[id := w.records[id].(cancelSet := true)] && w'.store == w.store
              && |w'.tasks| == |w.tasks|
              && (forall t: nat :: t < |w.tasks| ==>
                    w'.tasks[t] == if w.records[id].task == Some(t) && !w.tasks[t].phase.Done?
                                   then w.tasks[t].(cancelRequested := true) else w.tasks[t])
            else w' == w
  {
  }

  lemma CancelledCell(x: Cell, ok1: bool, ok2: bool)
    requires !x.r.status.Paused? && (x.cp.Some? ==> x.cp.value.generation <= x.r.generation)
    ensures var y := CompleteCancel(x, ok1, ok2);
            var s := x.r.status;
            && y.id == x.id && !Waits(y.r) && Resulted(x.r.pipeline, y.r.pipeline) && (ok2 ==> y.cp == Written(y.r, false))
            && y.r.status == (if s.Completed? || s.Failed? || s.Denied? || s.TimedOut? then s else Cancelled)
  {
    MovesInto(x.r.status);
    hide Legal;
    hide Terminal;
    if !Terminal(x.r.status) { MovedCell(x, Cancelled, ok1); }
    hide Move;
    var y := if Terminal(x.r.status) then x else Move(x, Cancelled, ok1).value;
    SavedCell(y.(r := ClearPending(WithResult(y.r))), false, ok2);
    hide Save;
  }

  /** After the wait the execution is CANCELLED, unless it ended in another way, and waits for
      nothing. */
  lemma EndsCancel(c: Config, w: World, id: Id, ok1: bool, ok2: bool)
    requires w.up && Behind(w, id) && w.records[id].cancelSet && !w.records[id].status.Paused?
    ensures var s := w.records[id].status;
            var w' := Core(c, w, FinishCancel(id, ok1, ok2));
            && id in w'.records && !Waits(w'.records[id]) && Resulted(w.records[id].pipeline, w'.records[id].pipeline)
            && w'.records[id].status ==
                 (if s.Completed? || s.Failed? || s.Denied? || s.TimedOut? then s else Cancelled)
            && (ok2 ==> UpToDate(w', id, false))
  {
    hide StartExecution;
    hide SubmitApproval;
    hide RecoverPending;
    hide EnterInitial;
    hide Handle;
    hide Settle;
    hide StartTimeout;
    hide CompleteCancel;
    hide Merge;
    CancelledCell(CellAt(w, id), ok1, ok2);
    MergedCell(c, w, CompleteCancel(CellAt(w, id), ok1, ok2));
  }

  lemma TimesOut(c: Config, w: World, id: Id, ok: bool)
    ensures w.up ==> Core(c, w, Timeout(id, ok)) == AskTimeout(c, w, id, ok)
  {
    hide AskTimeout;
  }

  lemma TaskAsked(w: World, id: Id)
    requires id in w.records && w.records[id].task.Some? ==> w.records[id].task.value < |w.tasks|
    ensures id in w.records ==>
              var w' := CancelTask(w, w.records[id]);
              && w' == w.(tasks := w'.tasks) && |w'.tasks| == |w.tasks|
              && (forall t: nat :: t < |w.tasks| ==>
                    w'.tasks[t] == if w.records[id].task == Some(t) && !w.tasks[t].phase.Done?
                                   then w.tasks[t].(cancelRequested := true) else w.tasks[t])
  {
  }

  lemma AskedCell(c: Config, w: World, id: Id, ok: bool)
    requires Behind(w, id) && Legal(w.records[id].status, TimedOut)
    ensures var w' := StartTimeout(c, w, id, ok);
            && id in w'.records && w'.records[id].status.TimedOut? && w'.records[id].cancelSet
            && w'.tasks == CancelTask(w, w.records[id]).tasks && (ok ==> UpToDate(w', id, false))
  {
    hide Legal;
    hide Merge;
    hide Move;
    MovedCell(CellAt(w, id), TimedOut, ok);
    var x := Move(CellAt(w, id), TimedOut, ok).value;
    MergedCell(c, CancelTask(w, w.records[id]), x.(r := x.r.(cancelSet := true)));
  }

  /** Timing out moves an unfinished listed execution to TIMED_OUT at once and cancels its
      task. */
  lemma AsksTimeout(c: Config, w: World, id: Id, ok: bool)
    requires w.up && (id in w.records ==> Behind(w, id) && !w.records[id].status.Paused?)
    requires id in w.records && w.records[id].task.Some? ==> w.records[id].task.value < |w.tasks|
    ensures var w' := Core(c, w, Timeout(id, ok));
            if id in w.listed && id in w.records
               && !w.records[id].status.Completed? && !w.records[id].status.Failed? && !w.records[id].status.Denied?
               && !w.records[id].status.Cancelled? && !w.records[id].status.TimedOut?
            then
              && id in w'.records && w'.records[id].status.TimedOut? && w'.records[id].cancelSet
              && (ok ==> UpToDate(w', id, false)) && |w'.tasks| == |w.tasks|
              && (forall t: nat :: t < |w.tasks| ==>
                    w'.tasks[t] == if w.records[id].task == Some(t) && !w.tasks[t].phase.Done?
                                   then w.tasks[t].(cancelRequested := true) else w.tasks[t])
            else w' == w
  {
    TimesOut(c, w, id, ok);
    hide Core;
    hide CancelTask;
    TaskAsked(w, id);
    if id in w.records {
      MovesInto(w.records[id].status);
      hide Legal;
      hide Terminal;
      if Open(w, id) { AskedCell(c, w, id, ok); }
    }
    hide StartTimeout;
  }

  /** Once its task is done, a timed-out execution waits for nothing. */
  lemma EndsTimeout(c: Config, w: World, id: Id, ok: bool)
    requires w.up && Behind(w, id) && w.records[id].status.TimedOut?
    requires w.records[id].task.Some? ==> w.records[id].task.value < |w.tasks| && w.tasks[w.records[id].task.value].phase.Done?
    ensures var w' := Core(c, w, FinishTimeout(id, ok));
            && id in w'.records && w'.records[id].status.TimedOut? && !Waits(w'.records[id]) && Resulted(w.records[id].pipeline, w'.records[id].pipeline)
            && (ok ==> UpToDate(w', id, false))
  {
    hide StartExecution;
    hide SubmitApproval;
    hide RecoverPending;
    hide EnterInitial;
    hide Handle;
    hide Settle;
    hide CompleteCancel;
    hide StartTimeout;
    hide Merge;
    hide Save;
    var x := CellAt(w, id);
    var y := x.(r := ClearPending(WithResult(x.r)));
    SavedCell(y, false, ok);
    MergedCell(c, w, Save(y, false, ok));
  }

  /** Nothing is finished off that was not asked for: no cancellation without the flag, and no
      timeout before the task is done. */
  lemma NotAskedFor(c: Config, w: World, id: Id, ok1: bool, ok2: bool)
    requires w.up
    ensures id !in w.records || !w.records[id].cancelSet ==> Core(c, w, FinishCancel(id, ok1, ok2)) == w
    ensures id !in w.records || !w.records[id].status.TimedOut?
            || (w.records[id].task.Some? && w.records[id].task.value < |w.tasks|
                && !w.tasks[w.records[id].task.value].phase.Done?) ==>
              Core(c, w, FinishTimeout(id, ok2)) == w
  {
  }

  /** A runtime checkpoint changes nothing but the pipeline and what the store holds. */
  lemma Reports(c: Config, w: World, id: Id, captured: Option<Pipeline>, safe: bool, ok: bool)
    requires w.up && Behind(w, id)
    ensures var r := w.records[id];
            var w' := Core(c, w, RuntimeCheckpoint(id, captured, safe, ok));
            && w'.records == w.records[id := r.(pipeline := if captured.Some? then captured else r.pipeline,
                                                generation := r.generation + 1)]
            && w'.listed == w.listed && w'.tasks == w.tasks
            && (if ok then UpToDate(w', id, safe) else w'.store == w.store)
  {
  }

  // ---------------------------------------------------------------- restarting

  /** A restart gives every readable checkpoint its record back as it was saved, but that work
      in flight is RECOVERING when it is safe to replay and FAILED when it is not. */
  lemma Restarts(c: Config, w: World, order: seq<Id>, id: Id)
    requires CanRestart(w, order) && id in order
    ensures var cp := w.store[id];
            var w' := Apply(c, w, Step.Restart(order));
            && w'.up && w'.tasks == w.tasks && w'.store == w.store && id in w'.records
            && var r := w'.records[id];
               && r.pendingApproval == cp.pendingApproval && r.pendingTask == cp.pendingTask && r.resolved == cp.resolved
               && r.generation == cp.generation && r.recovered && !r.cancelSet && r.task.None?
               && (if r.status.Failed? && !cp.status.Failed? then Resulted(cp.pipeline, r.pipeline) else r.pipeline == cp.pipeline)
               && r.status == (match cp.status
                               case AwaitingApproval => AwaitingApproval
                               case Paused => Paused
                               case Completed => Completed
                               case Failed => Failed
                               case Denied => Denied
                               case Cancelled => Cancelled
                               case TimedOut => TimedOut
                               case _ => if cp.safe then Recovering else Failed)
  {
    hide Prune;
  }

  /** A restart offers an execution for replay exactly when its checkpoint is of work in flight
      and marked safe. */
  lemma ReplayableExactly(c: Config, w: World, order: seq<Id>, id: Id)
    requires CanRestart(w, order) && id in order
    ensures var w' := Apply(c, w, Step.Restart(order));
            var s := w.store[id].status;
            && id in w'.records
            && (w'.records[id].status.Recovering? <==> Replayable(w.store, id))
            && (Replayable(w.store, id) <==>
                  w.store[id].safe && (s.Created? || s.Planning? || s.Approved? || s.Running? || s.Recovering?))
  {
    Restarts(c, w, order, id);
    hide Apply;
  }

  /** What was saved last is what a restart finds: the record comes back field by field. */
  lemma SavedComesBack(c: Config, w: World, order: seq<Id>, id: Id, a: Action, safe: bool)
    requires w.up && UpToDate(Core(c, w, a), id, safe)
    requires CanRestart(Die(Core(c, w, a)), order) && id in order
    ensures var r := Core(c, w, a).records[id];
            var w' := Apply(c, Apply(c, w, DieDuring(a)), Step.Restart(order));
            && id in w'.records
            && w'.records[id].pendingApproval == r.pendingApproval && w'.records[id].pendingTask == r.pendingTask
            && w'.records[id].resolved == r.resolved && w'.records[id].generation == r.generation
            && (!InFlight(r.status) ==> w'.records[id].status == r.status && w'.records[id].pipeline == r.pipeline)
  {
    hide Core;
    Restarts(c, Die(Core(c, w, a)), order, id);
  }

  lemma {:induction false} RecoverGives(w: World, ids: seq<Id>, id: Id)
    requires Distinct(ids) && (forall i :: i in ids ==> i in w.records)
    ensures var w' := RecoverPending(w, ids);
            && w'.records.Keys == w.records.Keys && |w.tasks| <= |w'.tasks| && w'.tasks[..|w.tasks|] == w.tasks
            && w'.store == w.store && w'.listed == w.listed && w'.log == w.log
            && (id in w.records ==>
                  if id in ids && w.records[id].status.Recovering? then
                    && w'.records[id].task.Some? && |w.tasks| <= w'.records[id].task.value < |w'.tasks|
                    && w'.tasks[w'.records[id].task.value] == Task(id, Initial, Ready, false)
                    && w'.records[id] == w.records[id].(task := w'.records[id].task)
                  else w'.records[id] == w.records[id])
    decreases |ids|
  {
    if ids != [] {
      var x := ids[0];
      assert Distinct(ids[1..]);
      if w.records[x].status.Recovering? {
        RecoverGives(Spawn(w, x, Initial), ids[1..], id);
      } else {
        RecoverGives(w, ids[1..], id);
      }
    }
  }

  /** `recover_pending` gives every listed RECOVERING execution a new task, and changes nothing
      else. */
  lemma Recovers(c: Config, w: World, id: Id)
    requires w.up && Distinct(w.listed) && (forall i :: i in w.listed ==> i in w.records) && id in w.records
    ensures var w' := Core(c, w, Recover);
            && id in w'.records && w'.store == w.store && w'.listed == w.listed && |w.tasks| <= |w'.tasks|
            && if id in w.listed && w.records[id].status.Recovering? then
                 && w'.records[id].task.Some? && |w.tasks| <= w'.records[id].task.value < |w'.tasks|
                 && w'.tasks[w'.records[id].task.value] == Task(id, Initial, Ready, false)
                 && w'.records[id] == w.records[id].(task := w'.records[id].task)
               else w'.records[id] == w.records[id]
  {
    RecoverGives(w.(recoverCalled := true), w.listed, id);
  }
}
