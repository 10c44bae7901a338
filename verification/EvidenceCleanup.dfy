/** Retention cleanup selects outside the transaction that deletes. When exactly an execution
    it deletes was still due, and what the write reservation of an append is for. */
module EvidenceCleanup {

  import opened Wrappers
  import opened Evidence
  import opened EvidenceRuns

  /** Due for removal: ended before the cutoff. */
  predicate Due(db: Db, x: string, cutoff: int) { x in Selected(db, cutoff) }

  // ---------------------------------------------------------------- what happens to one execution

  /** A committed event with a final status word, or a committed removal. */
  datatype Mark = Ended(at: int) | Removed

  function EventMarks(events: seq<Stamped>, x: string): seq<Mark> {
    if events == [] then []
    else
      var last := events[|events| - 1];
      EventMarks(events[..|events| - 1], x)
      + if last.event.execution == x && Final(last.event) then [Ended(last.now)] else []
  }

  /** The ends and removals of an execution in a stretch of the history, oldest first. */
  function Marks(ops: seq<Op>, x: string): seq<Mark> {
    if ops == [] then []
    else
      Marks(ops[..|ops| - 1], x)
      + match ops[|ops| - 1]
        case Appended(events) => EventMarks(events, x)
        case Purged(gone) => if x in gone then [Removed] else []
  }

  /** An execution that was due still is: nothing ended or removed it since, or the last to do
      so was a final event from before the cutoff. */
  predicate StillDue(marks: seq<Mark>, cutoff: int) {
    marks == [] || (marks[|marks| - 1].Ended? && marks[|marks| - 1].at < cutoff)
  }

  function Carried(due: bool, marks: seq<Mark>, cutoff: int): bool {
    if marks == [] then due else StillDue(marks, cutoff)
  }

  lemma CarriedConcat(due: bool, a: seq<Mark>, b: seq<Mark>, cutoff: int)
    ensures Carried(due, a + b, cutoff) == Carried(Carried(due, a, cutoff), b, cutoff)
  {
    if b == [] { assert a + b == a; }
  }

  lemma InsertDue(db: Db, e: Event, now: int, x: string, cutoff: int)
    requires Insert(db, e, now).Some?
    ensures Due(Insert(db, e, now).value, x, cutoff)
            <==> if e.execution == x && Final(e) then now < cutoff else Due(db, x, cutoff)
  {
  }

  lemma {:induction false} InsertAllDue(db: Db, batch: seq<Stamped>, x: string, cutoff: int)
    requires InsertAll(db, batch).Some?
    ensures Due(InsertAll(db, batch).value, x, cutoff) <==> Carried(Due(db, x, cutoff), EventMarks(batch, x), cutoff)
    decreases |batch|
  {
    hide Due;
    if batch != [] {
      var init, last := batch[..|batch| - 1], batch[|batch| - 1];
      InsertAllDue(db, init, x, cutoff);
      var mid := InsertAll(db, init).value;
      InsertDue(mid, last.event, last.now, x, cutoff);
      hide Insert;
      CarriedConcat(Due(db, x, cutoff), EventMarks(init, x),
                    if last.event.execution == x && Final(last.event) then [Ended(last.now)] else [], cutoff);
    }
  }

  lemma PurgeDue(db: Db, gone: set<string>, x: string, cutoff: int)
    ensures Due(Purge(db, gone), x, cutoff) <==> x !in gone && Due(db, x, cutoff)
  {
  }

  lemma {:induction false} SerialDue(history: seq<Op>, ops: seq<Op>, x: string, cutoff: int)
    requires Serial(history + ops).Some?
    ensures Serial(history).Some?
    ensures Due(Serial(history + ops).value, x, cutoff)
            <==> Carried(Due(Serial(history).value, x, cutoff), Marks(ops, x), cutoff)
    decreases |ops|
  {
    hide Due;
    hide InsertAll;
    hide Purge;
    if ops == [] {
      assert history + ops == history;
    } else {
      var init, op := ops[..|ops| - 1], ops[|ops| - 1];
      assert (history + ops)[..|history + ops| - 1] == history + init && (history + ops)[|history + ops| - 1] == op;
      SerialDue(history, init, x, cutoff);
      var db, mid := Serial(history).value, Serial(history + init).value;
      match op
      case Appended(events) =>
        InsertAllDue(mid, events, x, cutoff);
        CarriedConcat(Due(db, x, cutoff), Marks(init, x), EventMarks(events, x), cutoff);
      case Purged(gone) =>
        PurgeDue(mid, gone, x, cutoff);
        CarriedConcat(Due(db, x, cutoff), Marks(init, x), if x in gone then [Removed] else [], cutoff);
    }
  }

  // ---------------------------------------------------------------- over every run

  lemma {:induction false} ExecConcat(s: Sys, a: seq<Step>, b: seq<Step>)
    ensures Exec(s, a + b) == Exec(Exec(s, a), b)
    decreases |a|
  {
    hide Apply;
    if a == [] {
      assert a + b == b;
    } else {
      assert (a + b)[1..] == a[1..] + b;
      ExecConcat(Apply(s, a[0]), a[1..], b);
    }
  }

  lemma {:induction false} HistoryGrows(s: Sys, steps: seq<Step>)
    ensures s.history <= Exec(s, steps).history
    decreases |steps|
  {
    if steps != [] {
      HistoryGrows(Apply(s, steps[0]), steps[1..]);
    }
  }

  /** What a connection deletes is what it selected last. */
  predicate Deletes(s: Sys, conn: Conn, gone: set<string>) {
    && (conn in s.selected ==> s.selected[conn] == gone)
    && (Writes(s, conn) && s.writer.value.Deleting? ==> s.writer.value.gone == gone)
  }

  predicate SelectsAgain(step: Step, conn: Conn) { step.Select? && step.conn == conn }

  lemma {:induction false} DeletesRun(s: Sys, steps: seq<Step>, conn: Conn, gone: set<string>)
    requires Deletes(s, conn, gone) && forall i :: 0 <= i < |steps| ==> !SelectsAgain(steps[i], conn)
    ensures Deletes(Exec(s, steps), conn, gone)
    decreases |steps|
  {
    if steps != [] {
      assert !SelectsAgain(steps[0], conn);
      DeletesStep(s, steps[0], conn, gone);
      hide Apply;
      hide Deletes;
      DeletesRun(Apply(s, steps[0]), steps[1..], conn, gone);
    }
  }

  lemma DeletesStep(s: Sys, step: Step, conn: Conn, gone: set<string>)
    requires Deletes(s, conn, gone) && !SelectsAgain(step, conn)
    ensures Deletes(Apply(s, step), conn, gone)
  {
    hide Insert;
    hide Selected;
    hide KeepRows;
  }

  /** Over every run: a cleanup that selected at `cutoff` and is about to commit its removal
      deletes what it selected; and an execution among these is still due at that moment if
      and only if the last final event or removal committed for it in between, if any, is a
      final event from before the cutoff. */
  lemma DueAtDeletionExactly(before: seq<Step>, mid: seq<Step>, conn: Conn, cutoff: int)
    requires !Writes(Exec(FRESH, before), conn) && forall i :: 0 <= i < |mid| ==> !SelectsAgain(mid[i], conn)
    requires var s := Exec(Exec(FRESH, before), [Select(conn, cutoff)] + mid);
             Writes(s, conn) && s.writer.value.Deleting? && !s.writer.value.half
    ensures var s := Exec(FRESH, before);
            var t := Exec(s, [Select(conn, cutoff)] + mid);
            && t.writer.value.gone == Selected(s.db, cutoff)
            && Apply(t, Commit(conn)).db == Purge(t.db, t.writer.value.gone)
            && |s.history| <= |t.history|
            && forall x :: x in t.writer.value.gone ==>
                 (Due(t.db, x, cutoff) <==> StillDue(Marks(t.history[|s.history|..], x), cutoff))
  {
    var s := Exec(FRESH, before);
    var s0 := Apply(s, Select(conn, cutoff));
    var steps := [Select(conn, cutoff)] + mid;
    var t := Exec(s, steps);
    assert steps[1..] == mid && t == Exec(s0, mid);
    DeletesRun(s0, mid, conn, Selected(s.db, cutoff));
    HistoryGrows(s0, mid);
    ExecConcat(FRESH, before, steps);
    Serializable(before);
    Serializable(before + steps);
    AllOrNothing(before + steps, Commit(conn));
    Committed(before + steps, conn);
    hide Apply;
    hide Selected;
    forall x | x in t.writer.value.gone
      ensures Due(t.db, x, cutoff) <==> StillDue(Marks(t.history[|s.history|..], x), cutoff)
    {
      var ops := t.history[|s.history|..];
      assert t.history == s.history + ops;
      SerialDue(s.history, ops, x, cutoff);
    }
  }

  lemma Committed(steps: seq<Step>, conn: Conn)
    requires var s := Exec(FRESH, steps); Writes(s, conn) && s.writer.value.Deleting? && !s.writer.value.half
    ensures var s := Exec(FRESH, steps); Apply(s, Commit(conn)).db == Purge(s.db, s.writer.value.gone)
  {
    EmptyConsistent();
    RunInv(FRESH, steps);
    hide Purge;
    hide Consistent;
  }

  /** So cleanup removes only what is due exactly when nothing it selected has ended again
      at or after the cutoff, or been removed and begun again, in the meantime. */
  lemma CleanupIsSoundExactly(before: seq<Step>, mid: seq<Step>, conn: Conn, cutoff: int)
    requires !Writes(Exec(FRESH, before), conn) && forall i :: 0 <= i < |mid| ==> !SelectsAgain(mid[i], conn)
    requires var s := Exec(Exec(FRESH, before), [Select(conn, cutoff)] + mid);
             Writes(s, conn) && s.writer.value.Deleting? && !s.writer.value.half
    ensures var s := Exec(FRESH, before);
            var t := Exec(s, [Select(conn, cutoff)] + mid);
            |s.history| <= |t.history|
            && ((forall x :: x in t.db.summaries && x !in Apply(t, Commit(conn)).db.summaries ==> Due(t.db, x, cutoff))
                <==> forall x :: x in t.writer.value.gone && x in t.db.summaries ==>
                       StillDue(Marks(t.history[|s.history|..], x), cutoff))
  {
    DueAtDeletionExactly(before, mid, conn, cutoff);
    hide Apply;
    hide Exec;
    hide Due;
    hide Marks;
    hide StillDue;
    hide Selected;
  }

  // ---------------------------------------------------------------- without the reservation

  /** The number an appender reads. */
  function Observed(db: Db, x: string): nat { MaxSeq(db.rows, x) + 1 }

  predicate Taken(rows: seq<Row>, x: string, n: nat) {
    exists i :: 0 <= i < |rows| && rows[i].event.execution == x && rows[i].seqNo == n
  }

  /** An insert with a number read earlier, under both of the table's uniqueness constraints. */
  function InsertAs(db: Db, e: Event, n: nat, now: int): Option<Db> {
    if HasEvidence(db.rows, e.evidenceId) || Taken(db.rows, e.execution, n) then None
    else Some(Db(db.rows + [Row(e, n, now)], db.summaries[e.execution := Upsert(Lookup(db.summaries, e.execution), e, now)]))
  }

  lemma {:induction false} TakenExactly(rows: seq<Row>, x: string, n: nat)
    requires Numbered(Log(rows, x))
    ensures Taken(rows, x, n) <==> 1 <= n <= |Log(rows, x)|
  {
    if rows != [] {
      var init, last := rows[..|rows| - 1], rows[|rows| - 1];
      var log := Log(rows, x);
      assert Numbered(Log(init, x)) by {
        assert forall i :: 0 <= i < |Log(init, x)| ==> log[i] == Log(init, x)[i];
      }
      TakenExactly(init, x, n);
      assert last.event.execution == x ==> log[|log| - 1] == last;
      assert Taken(rows, x, n) <==> Taken(init, x, n) || (last.event.execution == x && last.seqNo == n) by {
        assert forall i :: 0 <= i < |init| ==> rows[i] == init[i];
      }
    }
  }

  /** A number read under the write reservation is never taken: the append is the one of
      `Insert`. A number read earlier is taken if and only if the execution has grown to it
      since, and when it is not, the numbering stays gapless if and only if nothing has been
      appended or removed. */
  lemma NumberReadEarlier(seen: Db, db: Db, e: Event, now: int)
    requires Consistent(seen) && Consistent(db) && !HasEvidence(db.rows, e.evidenceId)
    ensures var n := Observed(seen, e.execution);
            && InsertAs(db, e, Observed(db, e.execution), now) == Insert(db, e, now)
            && (InsertAs(db, e, n, now).None? <==> n <= |Log(db.rows, e.execution)|)
            && (InsertAs(db, e, n, now).Some? ==>
                  (Numbered(Log(InsertAs(db, e, n, now).value.rows, e.execution)) <==> n == |Log(db.rows, e.execution)| + 1))
  {
    hide Upsert;
    hide Taken;
    hide HasEvidence;
    hide Log;
    hide Numbered;
    hide Consistent;
    hide MaxSeq;
    var x := e.execution;
    ObservedIsNext(seen, x);
    ObservedIsNext(db, x);
    var n := Observed(seen, x);
    TakenExactly(db.rows, x, n);
    TakenExactly(db.rows, x, Observed(db, x));
    var r := Row(e, n, now);
    LogAppend(db.rows, r, x);
    NumberedAppend(Log(db.rows, x), r);
  }

  lemma ObservedIsNext(db: Db, x: string)
    requires Consistent(db)
    ensures Numbered(Log(db.rows, x)) && Observed(db, x) == |Log(db.rows, x)| + 1
  {
    assert Indexed(db, x);
    MaxIsCount(db.rows, x);
  }

  lemma NumberedAppend(log: seq<Row>, r: Row)
    requires Numbered(log)
    ensures Numbered(log + [r]) <==> r.seqNo == |log| + 1
  {
    assert (log + [r])[|log|] == r;
  }

  /** Two appenders that read before either writes take the same number, and the second one
      is refused. */
  lemma DeferredAppendersCollide(db: Db, e: Event, f: Event, now: int, later: int)
    requires Consistent(db) && e.execution == f.execution && e.evidenceId != f.evidenceId
    requires !HasEvidence(db.rows, e.evidenceId) && !HasEvidence(db.rows, f.evidenceId)
    ensures var n := Observed(db, e.execution);
            && n == Observed(db, f.execution)
            && InsertAs(db, e, n, now).Some?
            && InsertAs(InsertAs(db, e, n, now).value, f, n, later).None?
  {
    NumberReadEarlier(db, db, e, now);
    var n := Observed(db, e.execution);
    assert Indexed(db, e.execution);
    MaxIsCount(db.rows, e.execution);
    var rows := db.rows + [Row(e, n, now)];
    assert rows[|db.rows|] == Row(e, n, now);
    assert Taken(rows, f.execution, n);
  }
}
