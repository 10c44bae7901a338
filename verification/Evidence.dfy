/** The durable evidence store: an append-only log with per-execution numbering, and a
    summary row per execution that is maintained incrementally. */
module Evidence {

  import opened Wrappers

  datatype Kind =
    | RetryScheduled
    | ApprovalResolved
    | SecurityDenied | FilesystemDenied | ShellDenied | NetworkDenied | WindowsDenied
    | RecoveryStarted | RecoveryCompleted
    | OtherKind(name: string)

  datatype Event = Event(
    evidenceId: string,
    execution: string,
    kind: Kind,
    principal: Option<string>,
    session: Option<string>,
    status: Option<string>,
    failure: Option<string>,
    request: Option<string>)

  /** One row of `evidence_events`; `at` is the clock reading taken while the summary
      was updated for it. */
  datatype Row = Row(event: Event, seqNo: nat, at: int)

  /** One row of `executions`. */
  datatype Summary = Summary(
    principal: string,
    session: string,
    created: int,
    updated: int,
    terminalAt: Option<int>,
    finalStatus: Option<string>,
    request: Option<string>,
    total: nat,
    retries: nat,
    approvals: nat,
    denials: nat,
    recoveries: nat,
    failure: Option<string>)

  datatype Db = Db(rows: seq<Row>, summaries: map<string, Summary>)

  const EMPTY_DB := Db([], map[])

  // ---------------------------------------------------------------- the two statements of one append

  predicate Final(e: Event) {
    e.status == Some("completed") || e.status == Some("failed") || e.status == Some("cancelled")
    || e.status == Some("timed_out") || e.status == Some("denied")
  }

  predicate IsRetry(k: Kind) { k.RetryScheduled? }

  predicate IsApproval(k: Kind) { k.ApprovalResolved? }

  predicate IsDenial(k: Kind) {
    k.SecurityDenied? || k.FilesystemDenied? || k.ShellDenied? || k.NetworkDenied? || k.WindowsDenied?
  }

  predicate IsRecovery(k: Kind) { k.RecoveryStarted? || k.RecoveryCompleted? }

  function OrUnknown(s: Option<string>): string {
    if s.Some? && s.value != "" then s.value else "unknown"
  }

  function RequestSummary(s: Option<string>): Option<string> {
    if s.None? || s.value == "" then None
    else if |s.value| <= 200 then s else Some(s.value[..200])
  }

  /** `SELECT COALESCE(MAX(sequence_number), 0) ... WHERE execution_id = x`. */
  function MaxSeq(rows: seq<Row>, x: string): nat {
    if rows == [] then 0
    else
      var m := MaxSeq(rows[..|rows| - 1], x);
      var r := rows[|rows| - 1];
      if r.event.execution == x && m < r.seqNo then r.seqNo else m
  }

  /** `_upsert_execution_summary`: the insert branch starts every counter at zero. */
  function Upsert(s: Option<Summary>, e: Event, now: int): Summary {
    if s.None? then
      Summary(OrUnknown(e.principal), OrUnknown(e.session), now, now,
              if Final(e) then Some(now) else None, if Final(e) then e.status else None,
              RequestSummary(e.request), 1, 0, 0, 0, 0, if Final(e) then e.failure else None)
    else
      var prev := s.value;
      prev.(updated := now,
           terminalAt := if Final(e) then Some(now) else prev.terminalAt,
           finalStatus := if Final(e) then e.status else prev.finalStatus,
           total := prev.total + 1,
           retries := prev.retries + (if IsRetry(e.kind) then 1 else 0),
           approvals := prev.approvals + (if IsApproval(e.kind) then 1 else 0),
           denials := prev.denials + (if IsDenial(e.kind) then 1 else 0),
           recoveries := prev.recoveries + (if IsRecovery(e.kind) then 1 else 0),
           failure := if Final(e) then e.failure else prev.failure)
  }

  function Lookup(m: map<string, Summary>, x: string): Option<Summary> {
    if x in m then Some(m[x]) else None
  }

  predicate HasEvidence(rows: seq<Row>, evidenceId: string) {
    exists i :: 0 <= i < |rows| && rows[i].event.evidenceId == evidenceId
  }

  /** Insert one event and update its summary; None when the evidence id is taken. */
  function Insert(db: Db, e: Event, now: int): Option<Db> {
    if HasEvidence(db.rows, e.evidenceId) then None
    else Some(Db(db.rows + [Row(e, MaxSeq(db.rows, e.execution) + 1, now)],
                 db.summaries[e.execution := Upsert(Lookup(db.summaries, e.execution), e, now)]))
  }

  datatype Stamped = Stamped(event: Event, now: int)

  /** The body of `append_many`: all events in turn, or an integrity error. */
  function InsertAll(db: Db, batch: seq<Stamped>): Option<Db>
    decreases |batch|
  {
    if batch == [] then Some(db)
    else
      var prefix := InsertAll(db, batch[..|batch| - 1]);
      if prefix.None? then None
      else Insert(prefix.value, batch[|batch| - 1].event, batch[|batch| - 1].now)
  }

  function KeepRows(rows: seq<Row>, gone: set<string>): seq<Row> {
    if rows == [] then []
    else
      var kept := KeepRows(rows[..|rows| - 1], gone);
      if rows[|rows| - 1].event.execution in gone then kept else kept + [rows[|rows| - 1]]
  }

  /** Retention: terminal before the cutoff. */
  predicate Expired(s: Summary, cutoff: int) {
    s.terminalAt.Some? && s.terminalAt.value < cutoff && s.finalStatus.Some?
  }

  function Selected(db: Db, cutoff: int): set<string> {
    set x | x in db.summaries && Expired(db.summaries[x], cutoff)
  }

  function Purge(db: Db, gone: set<string>): Db {
    Db(KeepRows(db.rows, gone), db.summaries - gone)
  }

  // ---------------------------------------------------------------- what the tables mean

  /** The events of one execution, in insertion order. */
  function Log(rows: seq<Row>, x: string): seq<Row> {
    if rows == [] then []
    else
      var log := Log(rows[..|rows| - 1], x);
      if rows[|rows| - 1].event.execution == x then log + [rows[|rows| - 1]] else log
  }

  ghost predicate Numbered(log: seq<Row>) {
    forall i :: 0 <= i < |log| ==> log[i].seqNo == i + 1
  }

  function CountIf(log: seq<Row>, p: Kind -> bool): nat {
    if log == [] then 0
    else CountIf(log[..|log| - 1], p) + (if p(log[|log| - 1].event.kind) then 1 else 0)
  }

  /** The last event whose status word is final. */
  function LastFinal(log: seq<Row>): Option<Row> {
    if log == [] then None
    else if Final(log[|log| - 1].event) then Some(log[|log| - 1])
    else LastFinal(log[..|log| - 1])
  }

  /** What the summary of a log should say, read off the whole log at once. */
  ghost function Summarize(log: seq<Row>): Summary
    requires log != []
  {
    var first, last, final := log[0], log[|log| - 1], LastFinal(log);
    Summary(OrUnknown(first.event.principal), OrUnknown(first.event.session), first.at, last.at,
            if final.Some? then Some(final.value.at) else None,
            if final.Some? then final.value.event.status else None,
            RequestSummary(first.event.request), |log|,
            CountIf(log[1..], IsRetry),
            CountIf(log[1..], IsApproval),
            CountIf(log[1..], IsDenial),
            CountIf(log[1..], IsRecovery),
            if final.Some? then final.value.event.failure else None)
  }

  ghost predicate Indexed(db: Db, x: string) {
    var log := Log(db.rows, x);
    && Numbered(log)
    && (x in db.summaries <==> log != [])
    && (log != [] ==> db.summaries[x] == Summarize(log))
  }

  ghost predicate DistinctIds(rows: seq<Row>) {
    forall i, j :: 0 <= i < j < |rows| ==> rows[i].event.evidenceId != rows[j].event.evidenceId
  }

  /** The committed state is well formed: every execution is numbered 1..n without gap or
      repeat, has a summary exactly when it has events, and the summary is its log's. */
  ghost predicate Consistent(db: Db) {
    && (forall x :: Indexed(db, x))
    && DistinctIds(db.rows)
  }

  // ---------------------------------------------------------------- one append

  lemma {:induction false} MaxIsCount(rows: seq<Row>, x: string)
    requires Numbered(Log(rows, x))
    ensures MaxSeq(rows, x) == |Log(rows, x)|
  {
    if rows != [] {
      var log := Log(rows, x);
      var prefix := Log(rows[..|rows| - 1], x);
      assert forall i :: 0 <= i < |prefix| ==> log[i] == prefix[i];
      MaxIsCount(rows[..|rows| - 1], x);
      if rows[|rows| - 1].event.execution == x { assert log[|log| - 1] == rows[|rows| - 1]; }
    }
  }

  lemma LogAppend(rows: seq<Row>, r: Row, x: string)
    ensures Log(rows + [r], x) == if r.event.execution == x then Log(rows, x) + [r] else Log(rows, x)
  {
    assert (rows + [r])[..|rows|] == rows;
  }

  lemma SummarizeAppend(log: seq<Row>, r: Row)
    ensures Summarize(log + [r]) == Upsert(if log == [] then None else Some(Summarize(log)), r.event, r.at)
  {
    var more := log + [r];
    assert more[..|log|] == log;
    if log == [] {
      assert more[..0] == [] && more[1..] == [];
      assert LastFinal(more) == if Final(r.event) then Some(r) else LastFinal([]);
      assert CountIf(more[1..], IsRetry) == 0 && CountIf(more[1..], IsApproval) == 0;
      assert CountIf(more[1..], IsDenial) == 0 && CountIf(more[1..], IsRecovery) == 0;
    } else {
      assert more[1..] == log[1..] + [r];
      assert more[1..][..|log| - 1] == log[1..];
    }
  }

  lemma NewEvidence(rows: seq<Row>, r: Row)
    requires DistinctIds(rows) && !HasEvidence(rows, r.event.evidenceId)
    ensures DistinctIds(rows + [r])
  {
  }

  lemma NextNumber(log: seq<Row>, r: Row)
    requires Numbered(log) && r.seqNo == |log| + 1
    ensures Numbered(log + [r])
  {
  }

  /** An accepted append takes the next number of its execution, leaves every other
      execution alone and keeps both tables in step. */
  lemma InsertKeeps(db: Db, e: Event, now: int)
    requires Consistent(db) && Insert(db, e, now).Some?
    ensures var db' := Insert(db, e, now).value;
            && Consistent(db')
            && Log(db'.rows, e.execution)
               == Log(db.rows, e.execution) + [Row(e, |Log(db.rows, e.execution)| + 1, now)]
            && (forall x :: x != e.execution ==> Log(db'.rows, x) == Log(db.rows, x))
  {
    hide Log;
    hide Upsert;
    hide Summarize;
    hide MaxSeq;
    hide DistinctIds;
    hide Numbered;
    var db' := Insert(db, e, now).value;
    var x := e.execution;
    assert Indexed(db, x);
    MaxIsCount(db.rows, x);
    var r := Row(e, |Log(db.rows, x)| + 1, now);
    assert db'.rows == db.rows + [r];
    NewEvidence(db.rows, r);
    forall y
      ensures Log(db'.rows, y) == if y == x then Log(db.rows, x) + [r] else Log(db.rows, y)
    {
      LogAppend(db.rows, r, y);
    }
    forall y
      ensures Indexed(db', y)
    {
      assert Indexed(db, y);
      if y == x {
        SummarizeAppend(Log(db.rows, x), r);
        NextNumber(Log(db.rows, x), r);
      }
    }
  }

  lemma {:induction false} InsertAllKeeps(db: Db, batch: seq<Stamped>)
    requires Consistent(db) && InsertAll(db, batch).Some?
    ensures Consistent(InsertAll(db, batch).value)
    decreases |batch|
  {
    if batch != [] {
      InsertAllKeeps(db, batch[..|batch| - 1]);
      InsertKeeps(InsertAll(db, batch[..|batch| - 1]).value, batch[|batch| - 1].event, batch[|batch| - 1].now);
    }
  }

  // ---------------------------------------------------------------- retention

  lemma {:induction false} LogKept(rows: seq<Row>, gone: set<string>, x: string)
    ensures Log(KeepRows(rows, gone), x) == if x in gone then [] else Log(rows, x)
  {
    if rows != [] {
      LogKept(rows[..|rows| - 1], gone, x);
      var r := rows[|rows| - 1];
      if r.event.execution !in gone { LogAppend(KeepRows(rows[..|rows| - 1], gone), r, x); }
    }
  }

  lemma {:induction false} KeptRows(rows: seq<Row>, gone: set<string>)
    requires DistinctIds(rows)
    ensures DistinctIds(KeepRows(rows, gone)) && forall r :: r in KeepRows(rows, gone) ==> r in rows
  {
    if rows != [] {
      var init := rows[..|rows| - 1];
      KeptRows(init, gone);
      var r := rows[|rows| - 1];
      assert rows == init + [r];
      assert forall x :: x in init ==> x.event.evidenceId != r.event.evidenceId;
    }
  }

  /** Cleanup removes the events and the summary of an execution together and touches no other. */
  lemma PurgeKeeps(db: Db, gone: set<string>)
    requires Consistent(db)
    ensures Consistent(Purge(db, gone))
    ensures forall x :: Log(Purge(db, gone).rows, x) == if x in gone then [] else Log(db.rows, x)
    ensures Purge(db, gone).summaries.Keys == db.summaries.Keys - gone
  {
    forall x
      ensures Log(Purge(db, gone).rows, x) == if x in gone then [] else Log(db.rows, x)
    {
      LogKept(db.rows, gone, x);
    }
    forall x
      ensures Indexed(Purge(db, gone), x)
    {
      assert Indexed(db, x);
    }
    KeptRows(db.rows, gone);
  }
}
