/** The evidence store under concurrent connections: every interleaving of transactions
    is equivalent to running the committed ones one after another. */
module EvidenceRuns {

  import opened Wrappers
  import opened Evidence

  type Conn = nat

  /** The transaction that holds SQLite's write reservation.  An appender works through
      its batch; a cleanup deletes events first and summaries second. */
  datatype Txn =
    | Appending(conn: Conn, work: Db, batch: seq<Event>, done: seq<Stamped>)
    | Deleting(conn: Conn, work: Db, gone: set<string>, half: bool)

  /** A committed transaction. */
  datatype Op = Appended(events: seq<Stamped>) | Purged(gone: set<string>)

  datatype Sys = Sys(db: Db, writer: Option<Txn>, selected: map<Conn, set<string>>, history: seq<Op>)

  const FRESH := Sys(EMPTY_DB, None, map[], [])

  datatype Step =
    | Begin(conn: Conn, batch: seq<Event>)
    | InsertNext(conn: Conn, now: int)
    | Select(conn: Conn, cutoff: int)
    | DeleteEvents(conn: Conn)
    | DeleteSummaries(conn: Conn)
    | Commit(conn: Conn)
    | Rollback(conn: Conn)

  predicate Writes(s: Sys, conn: Conn) { s.writer.Some? && s.writer.value.conn == conn }

  /** One statement of one connection; a statement that is not enabled (the reservation is
      taken, or the connection is elsewhere in its code) changes nothing. */
  function Apply(s: Sys, step: Step): Sys {
    match step
    case Begin(conn, batch) =>
      if s.writer.None? then s.(writer := Some(Appending(conn, s.db, batch, []))) else s
    case InsertNext(conn, now) =>
      if Writes(s, conn) && s.writer.value.Appending? && |s.writer.value.done| < |s.writer.value.batch| then
        var t := s.writer.value;
        var e := t.batch[|t.done|];
        var work := Insert(t.work, e, now);
        if work.Some? then s.(writer := Some(t.(work := work.value, done := t.done + [Stamped(e, now)])))
        else s.(writer := None)
      else s
    case Select(conn, cutoff) =>
      if Writes(s, conn) then s else s.(selected := s.selected[conn := Selected(s.db, cutoff)])
    case DeleteEvents(conn) =>
      if s.writer.None? && conn in s.selected && s.selected[conn] != {} then
        var gone := s.selected[conn];
        s.(writer := Some(Deleting(conn, Db(KeepRows(s.db.rows, gone), s.db.summaries), gone, true)))
      else s
    case DeleteSummaries(conn) =>
      if Writes(s, conn) && s.writer.value.Deleting? && s.writer.value.half then
        var t := s.writer.value;
        s.(writer := Some(t.(work := Db(t.work.rows, t.work.summaries - t.gone), half := false)))
      else s
    case Commit(conn) =>
      if Writes(s, conn) then
        var t := s.writer.value;
        if t.Appending? && |t.done| == |t.batch| then
          s.(db := t.work, writer := None, history := s.history + [Appended(t.done)])
        else if t.Deleting? && !t.half then
          s.(db := t.work, writer := None, selected := s.selected - {conn}, history := s.history + [Purged(t.gone)])
        else s
      else s
    case Rollback(conn) => if Writes(s, conn) then s.(writer := None) else s
  }

  function Exec(s: Sys, steps: seq<Step>): Sys
    decreases |steps|
  {
    if steps == [] then s else Exec(Apply(s, steps[0]), steps[1..])
  }

  /** The committed transactions run alone, in commit order. */
  function Serial(history: seq<Op>): Option<Db>
    decreases |history|
  {
    if history == [] then Some(EMPTY_DB)
    else
      var prev := Serial(history[..|history| - 1]);
      if prev.None? then None
      else
        match history[|history| - 1]
        case Appended(events) => InsertAll(prev.value, events)
        case Purged(gone) => Some(Purge(prev.value, gone))
  }

  function Events(done: seq<Stamped>): seq<Event> {
    seq(|done|, i requires 0 <= i < |done| => done[i].event)
  }

  ghost predicate WriterOk(s: Sys) {
    s.writer.Some? ==>
      match s.writer.value
      case Appending(_, work, batch, done) =>
        && InsertAll(s.db, done) == Some(work)
        && |done| <= |batch| && Events(done) == batch[..|done|]
      case Deleting(_, work, gone, half) =>
        work == if half then Db(KeepRows(s.db.rows, gone), s.db.summaries) else Purge(s.db, gone)
  }

  ghost predicate Inv(s: Sys) {
    Consistent(s.db) && Serial(s.history) == Some(s.db) && WriterOk(s)
  }

  lemma InsertNextOk(db: Db, done: seq<Stamped>, work: Db, x: Stamped)
    requires InsertAll(db, done) == Some(work)
    ensures InsertAll(db, done + [x]) == Insert(work, x.event, x.now)
  {
    assert (done + [x])[..|done|] == done;
  }

  lemma NothingInserted(db: Db)
    ensures InsertAll(db, []) == Some(db)
  {
  }

  lemma SerialNext(history: seq<Op>, op: Op)
    requires Serial(history).Some?
    ensures Serial(history + [op])
            == match op
               case Appended(events) => InsertAll(Serial(history).value, events)
               case Purged(gone) => Some(Purge(Serial(history).value, gone))
  {
    assert (history + [op])[..|history|] == history;
  }

  lemma StepInv(s: Sys, step: Step)
    requires Inv(s)
    ensures Inv(Apply(s, step))
  {
    hide Consistent;
    hide Serial;
    hide InsertAll;
    hide Insert;
    hide KeepRows;
    hide Selected;
    match step
    case InsertNext(conn, now) =>
      if Writes(s, conn) && s.writer.value.Appending? && |s.writer.value.done| < |s.writer.value.batch| {
        var t := s.writer.value;
        InsertNextOk(s.db, t.done, t.work, Stamped(t.batch[|t.done|], now));
        assert t.batch[..|t.done| + 1] == t.batch[..|t.done|] + [t.batch[|t.done|]];
      }
    case Begin(conn, batch) => NothingInserted(s.db);
    case Commit(conn) =>
      if Writes(s, conn) {
        var t := s.writer.value;
        if t.Appending? && |t.done| == |t.batch| {
          InsertAllKeeps(s.db, t.done);
          SerialNext(s.history, Appended(t.done));
        } else if t.Deleting? && !t.half {
          PurgeKeeps(s.db, t.gone);
          SerialNext(s.history, Purged(t.gone));
        }
      }
    case _ =>
  }

  lemma EmptyConsistent()
    ensures Consistent(EMPTY_DB)
  {
    forall x
      ensures Indexed(EMPTY_DB, x)
    {
    }
  }

  lemma {:induction false} RunInv(s: Sys, steps: seq<Step>)
    requires Inv(s)
    ensures Inv(Exec(s, steps))
    decreases |steps|
  {
    if steps != [] {
      StepInv(s, steps[0]);
      RunInv(Apply(s, steps[0]), steps[1..]);
    }
  }

  /** For every interleaving of appenders and cleanups on any number of connections, with
      rollbacks anywhere: the committed tables are exactly what the committed transactions
      give when run one by one in commit order; every execution is numbered 1..n; and every
      summary is the fold of its execution's log. */
  lemma Serializable(steps: seq<Step>)
    ensures var s := Exec(FRESH, steps);
            && Serial(s.history) == Some(s.db)
            && (forall x :: Numbered(Log(s.db.rows, x))
                            && (x in s.db.summaries <==> Log(s.db.rows, x) != [])
                            && (x in s.db.summaries ==> s.db.summaries[x] == Summarize(Log(s.db.rows, x))))
  {
    EmptyConsistent();
    RunInv(FRESH, steps);
    var s := Exec(FRESH, steps);
    forall x
      ensures Numbered(Log(s.db.rows, x))
              && (x in s.db.summaries <==> Log(s.db.rows, x) != [])
              && (x in s.db.summaries ==> s.db.summaries[x] == Summarize(Log(s.db.rows, x)))
    {
      assert Indexed(s.db, x);
    }
  }

  /** A step changes the committed tables only when it commits: a whole batch at once, in
      order and with nothing left out, or one purge of whole executions. */
  lemma AllOrNothing(before: seq<Step>, step: Step)
    ensures var s := Exec(FRESH, before);
            var s' := Apply(s, step);
            || s'.db == s.db
            || (step.Commit? && Writes(s, step.conn) &&
                match s.writer.value
                case Appending(_, _, batch, done) =>
                  Events(done) == batch && InsertAll(s.db, done) == Some(s'.db)
                case Deleting(_, _, gone, _) => s'.db == Purge(s.db, gone))
  {
    EmptyConsistent();
    RunInv(FRESH, before);
    var s := Exec(FRESH, before);
    if step.Commit? && Writes(s, step.conn) && s.writer.value.Appending? {
      var t := s.writer.value;
      if |t.done| == |t.batch| { assert t.batch[..|t.done|] == t.batch; }
    }
  }

  /** Connections take turns: while one holds the write reservation, no step of another touches
      its transaction or the tables; whoever begins while it is free gets it, with the tables
      as they are; a rollback gives it back and leaves the tables alone; and a cleanup deletes
      only after a selection of its own. */
  lemma TakingTurns(s: Sys, step: Step)
    ensures var s' := Apply(s, step);
            && (s.writer.Some? && step.conn != s.writer.value.conn ==> s'.writer == s.writer && s'.db == s.db && s'.history == s.history)
            && (s.writer.None? && step.Begin? ==> s' == s.(writer := Some(Appending(step.conn, s.db, step.batch, []))))
            && (s.writer.Some? && (step.Begin? || step.DeleteEvents?) ==> s' == s)
            && (step.Rollback? && s.writer.Some? && s.writer.value.conn == step.conn ==> s' == s.(writer := None))
            && (step.Rollback? && s.writer.None? ==> s' == s)
            && (step.Commit? && s'.db != s.db ==> s'.writer.None?)
            && (step.Commit? && s'.writer.None? && s.writer.Some? && s.writer.value.Deleting? ==> step.conn !in s'.selected)
            && (step.DeleteEvents? && step.conn !in s.selected ==> s' == s)
            && (step.Select? && s.writer.Some? && s.writer.value.conn == step.conn ==> s' == s)
  {
    hide Insert;
    hide KeepRows;
    hide Selected;
  }

  // ---------------------------------------------------------------- cleanup under concurrency

  function Done(id: string): Event {
    Event(id, "x", OtherKind("execution_completed"), None, None, Some("completed"), None, None)
  }

  function Bare(at: int): Summary {
    Summary("unknown", "unknown", 0, at, Some(at), Some("completed"), None, if at == 0 then 1 else 2, 0, 0, 0, 0, None)
  }

  const ONE := Db([Row(Done("a"), 1, 0)], map["x" := Bare(0)])
  const TWO := Db([Row(Done("a"), 1, 0), Row(Done("b"), 2, 10)], map["x" := Bare(10)])

  lemma TwoAppends()
    ensures Insert(EMPTY_DB, Done("a"), 0) == Some(ONE) && Insert(ONE, Done("b"), 10) == Some(TWO)
    ensures Selected(ONE, 5) == {"x"} && Selected(TWO, 5) == {} && Purge(TWO, {"x"}) == EMPTY_DB
  {
    assert ONE.rows[..0] == [];
    assert Insert(EMPTY_DB, Done("a"), 0).value == ONE;
    assert TWO.rows[..1] == ONE.rows;
    assert Insert(ONE, Done("b"), 10).value == TWO;
    assert KeepRows(ONE.rows, {"x"}) == [];
  }

  /** Cleanup selects outside its transaction.  Execution "x" expires, is selected, and then
      gets a new final event at time 10; at deletion nothing is expired for cutoff 5, yet the
      whole execution, new event included, is removed. */
  lemma CleanupCanBeStale()
    ensures var s1 := Apply(Apply(Apply(FRESH, Begin(0, [Done("a")])), InsertNext(0, 0)), Commit(0));
            var s2 := Apply(s1, Select(1, 5));
            var s3 := Apply(Apply(Apply(s2, Begin(0, [Done("b")])), InsertNext(0, 10)), Commit(0));
            var s4 := Apply(Apply(Apply(s3, DeleteEvents(1)), DeleteSummaries(1)), Commit(1));
            s3.db == TWO && Selected(s3.db, 5) == {} && s4.db == EMPTY_DB
  {
    TwoAppends();
    hide Insert;
    hide Selected;
    var s1 := Apply(Apply(Apply(FRESH, Begin(0, [Done("a")])), InsertNext(0, 0)), Commit(0));
    assert s1.db == ONE && s1.writer == None && s1.selected == map[];
    var s2 := Apply(s1, Select(1, 5));
    var s3 := Apply(Apply(Apply(s2, Begin(0, [Done("b")])), InsertNext(0, 10)), Commit(0));
    assert s3.db == TWO && s3.writer == None && s3.selected == map[1 := {"x"}];
  }
}
