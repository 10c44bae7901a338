/** What the summary of an execution says of its log, and which executions cleanup removes:
    said of the events, their status words and their kinds alone. */
module EvidenceMeaning {

  import opened Wrappers
  import opened Evidence

  // ---------------------------------------------------------------- one append

  /** An accepted append in full: the first event of an execution makes its summary, a later
      one updates it; an event with one of the five closing words sets end, status and failure,
      any other leaves them; and each counter rises for its kinds of event alone. */
  lemma AppendExactly(db: Db, e: Event, now: int)
    requires Insert(db, e, now).Some?
    ensures var db' := Insert(db, e, now).value;
            var ends := e.status == Some("completed") || e.status == Some("failed") || e.status == Some("cancelled")
                        || e.status == Some("timed_out") || e.status == Some("denied");
            && |db'.rows| == |db.rows| + 1 && db'.rows[..|db.rows|] == db.rows
            && db'.rows[|db.rows|].event == e && db'.rows[|db.rows|].at == now
            && db'.summaries.Keys == db.summaries.Keys + {e.execution}
            && (forall x :: x in db.summaries && x != e.execution ==> db'.summaries[x] == db.summaries[x])
            && var s := db'.summaries[e.execution];
            && s.updated == now
            && (ends ==> s.terminalAt == Some(now) && s.finalStatus == e.status && s.failure == e.failure)
            && if e.execution in db.summaries then
                 var prev := db.summaries[e.execution];
                 && (!ends ==> s.terminalAt == prev.terminalAt && s.finalStatus == prev.finalStatus && s.failure == prev.failure)
                 && s.principal == prev.principal && s.session == prev.session && s.created == prev.created
                 && s.request == prev.request && s.total == prev.total + 1
                 && s.retries == prev.retries + (if e.kind == RetryScheduled then 1 else 0)
                 && s.approvals == prev.approvals + (if e.kind == ApprovalResolved then 1 else 0)
                 && s.denials == prev.denials
                      + (if e.kind == SecurityDenied || e.kind == FilesystemDenied || e.kind == ShellDenied
                            || e.kind == NetworkDenied || e.kind == WindowsDenied then 1 else 0)
                 && s.recoveries == prev.recoveries + (if e.kind == RecoveryStarted || e.kind == RecoveryCompleted then 1 else 0)
               else
                 && (!ends ==> s.terminalAt.None? && s.finalStatus.None? && s.failure.None?)
                 && s.principal == (if e.principal.None? || e.principal.value == "" then "unknown" else e.principal.value)
                 && s.session == (if e.session.None? || e.session.value == "" then "unknown" else e.session.value)
                 && s.created == now && s.total == 1
                 && s.retries == 0 && s.approvals == 0 && s.denials == 0 && s.recoveries == 0
                 && (e.request.None? || e.request.value == "" ==> s.request.None?)
                 && (e.request.Some? && e.request.value != "" ==>
                       s.request.Some? && |s.request.value| == (if |e.request.value| > 200 then 200 else |e.request.value|)
                       && s.request.value <= e.request.value)
  {
    hide MaxSeq;
    hide HasEvidence;
  }

  lemma {:induction false} MaxSeqIsMax(rows: seq<Row>, x: string)
    ensures forall r :: r in rows && r.event.execution == x ==> r.seqNo <= MaxSeq(rows, x)
    ensures MaxSeq(rows, x) > 0 ==> exists r :: r in rows && r.event.execution == x && r.seqNo == MaxSeq(rows, x)
  {
    if rows != [] {
      var init, last := rows[..|rows| - 1], rows[|rows| - 1];
      MaxSeqIsMax(init, x);
      assert rows == init + [last];
      assert last in rows;
    }
  }

  // ---------------------------------------------------------------- the whole log

  /** The last event of the log with one of these status words. */
  predicate LastWith(log: seq<Row>, words: set<string>, i: int) {
    && 0 <= i < |log| && log[i].event.status.Some? && log[i].event.status.value in words
    && forall j :: i < j < |log| ==> log[j].event.status.None? || log[j].event.status.value !in words
  }

  predicate NoneWith(log: seq<Row>, words: set<string>) {
    forall j :: 0 <= j < |log| ==> log[j].event.status.None? || log[j].event.status.value !in words
  }

  lemma {:induction false} LastFinalExactly(log: seq<Row>)
    ensures var words := {"completed", "failed", "cancelled", "timed_out", "denied"};
            if LastFinal(log).Some? then exists i :: LastWith(log, words, i) && LastFinal(log) == Some(log[i])
            else NoneWith(log, words)
  {
    var words := {"completed", "failed", "cancelled", "timed_out", "denied"};
    if log != [] {
      var init, last := log[..|log| - 1], log[|log| - 1];
      FinalWords(last.event);
      hide Final;
      if Final(last.event) {
        assert LastWith(log, words, |log| - 1);
      } else {
        LastFinalExactly(init);
        if LastFinal(init).Some? {
          var i :| LastWith(init, words, i) && LastFinal(init) == Some(init[i]);
          assert LastWith(log, words, i);
        }
      }
    }
  }

  lemma FinalWords(e: Event)
    ensures Final(e) <==> e.status.Some? && e.status.value in {"completed", "failed", "cancelled", "timed_out", "denied"}
  {
  }

  /** The events after the first whose kind passes. */
  ghost function Later(log: seq<Row>, p: Kind -> bool): set<int> {
    set i | 1 <= i < |log| && p(log[i].event.kind)
  }

  lemma {:induction false} CountedAfterFirst(log: seq<Row>, p: Kind -> bool, q: Kind -> bool)
    requires log != [] && forall k :: p(k) == q(k)
    ensures CountIf(log[1..], p) == |Later(log, q)|
    decreases |log|
  {
    var n := |log| - 1;
    if n == 0 {
      assert Later(log, q) == {};
    } else {
      var init := log[..n];
      CountedAfterFirst(init, p, q);
      assert log[1..][..n - 1] == init[1..] && log[1..][n - 1] == log[n];
      assert forall i :: 0 <= i < n ==> init[i] == log[i];
      assert Later(log, q) == if q(log[n].event.kind) then Later(init, q) + {n} else Later(init, q);
    }
  }

  lemma CountsOfLog(log: seq<Row>)
    requires log != []
    ensures var s := Summarize(log);
            && s.retries == |Later(log, k => k == RetryScheduled)|
            && s.approvals == |Later(log, k => k == ApprovalResolved)|
            && s.denials == |Later(log, k => k in {SecurityDenied, FilesystemDenied, ShellDenied, NetworkDenied, WindowsDenied})|
            && s.recoveries == |Later(log, k => k in {RecoveryStarted, RecoveryCompleted})|
  {
    hide CountIf;
    hide LastFinal;
    hide Later;
    CountedAfterFirst(log, IsRetry, k => k == RetryScheduled);
    CountedAfterFirst(log, IsApproval, k => k == ApprovalResolved);
    CountedAfterFirst(log, IsDenial, k => k in {SecurityDenied, FilesystemDenied, ShellDenied, NetworkDenied, WindowsDenied});
    CountedAfterFirst(log, IsRecovery, k => k in {RecoveryStarted, RecoveryCompleted});
  }

  /** The summary of every execution is about its log: first and last event, the last one with a
      closing word, and how many events after the first are of each kind. */
  lemma SummaryOfLog(db: Db, x: string)
    requires Consistent(db) && x in db.summaries
    ensures var log := Log(db.rows, x);
            var s := db.summaries[x];
            var words := {"completed", "failed", "cancelled", "timed_out", "denied"};
            && log != [] && s.total == |log| && s.created == log[0].at && s.updated == log[|log| - 1].at
            && (NoneWith(log, words) ==> s.terminalAt.None? && s.finalStatus.None? && s.failure.None?)
            && (forall i :: LastWith(log, words, i) ==>
                  s.terminalAt == Some(log[i].at) && s.finalStatus == log[i].event.status && s.failure == log[i].event.failure)
            && s.retries == |Later(log, k => k == RetryScheduled)|
            && s.approvals == |Later(log, k => k == ApprovalResolved)|
            && s.denials == |Later(log, k => k in {SecurityDenied, FilesystemDenied, ShellDenied, NetworkDenied, WindowsDenied})|
            && s.recoveries == |Later(log, k => k in {RecoveryStarted, RecoveryCompleted})|
  {
    assert Indexed(db, x);
    hide Consistent;
    hide Log;
    hide Numbered;
    hide LastWith;
    hide NoneWith;
    hide Later;
    var log := Log(db.rows, x);
    SummaryEdges(log);
    Ending(log);
    CountsOfLog(log);
    hide Summarize;
  }

  lemma SummaryEdges(log: seq<Row>)
    requires log != []
    ensures var s := Summarize(log); s.total == |log| && s.created == log[0].at && s.updated == log[|log| - 1].at
  {
  }

  lemma Ending(log: seq<Row>)
    requires log != []
    ensures var s := Summarize(log);
            var words := {"completed", "failed", "cancelled", "timed_out", "denied"};
            && (NoneWith(log, words) ==> s.terminalAt.None? && s.finalStatus.None? && s.failure.None?)
            && (forall i :: LastWith(log, words, i) ==>
                  s.terminalAt == Some(log[i].at) && s.finalStatus == log[i].event.status && s.failure == log[i].event.failure)
  {
    var words := {"completed", "failed", "cancelled", "timed_out", "denied"};
    LastFinalExactly(log);
    hide LastFinal;
    forall i | LastWith(log, words, i)
      ensures LastFinal(log) == Some(log[i])
    {
      if NoneWith(log, words) {
        assert false;
      } else {
        var k :| LastWith(log, words, k) && LastFinal(log) == Some(log[k]);
        assert i == k;
      }
    }
  }

  // ---------------------------------------------------------------- cleanup

  /** Cleanup removes an execution if and only if its last event with one of the five closing
      words is from before the cutoff. */
  lemma CleanedExactly(db: Db, cutoff: int, x: string)
    requires Consistent(db)
    ensures var words := {"completed", "failed", "cancelled", "timed_out", "denied"};
            var log := Log(db.rows, x);
            x in Selected(db, cutoff) <==> exists i :: LastWith(log, words, i) && log[i].at < cutoff
    ensures var db' := Purge(db, Selected(db, cutoff));
            Log(db'.rows, x) == if x in Selected(db, cutoff) then [] else Log(db.rows, x)
  {
    var words := {"completed", "failed", "cancelled", "timed_out", "denied"};
    PurgeKeeps(db, Selected(db, cutoff));
    assert Indexed(db, x);
    hide Consistent;
    var log := Log(db.rows, x);
    if log != [] {
      Ending(log);
      LastFinalExactly(log);
      hide LastFinal;
    }
  }
}
