/** `EvidenceStore` as one connection sees it: a transaction works on its own copy of the
    tables and replaces them on commit. */
module EvidenceStoreClass {

  import opened Wrappers
  import opened Evidence

  function Stamp(events: seq<Event>, clock: seq<int>): (batch: seq<Stamped>)
    requires |events| <= |clock|
  {
    seq(|events|, i requires 0 <= i < |events| => Stamped(events[i], clock[i]))
  }

  lemma {:induction false} FailureIsFinal(db: Db, batch: seq<Stamped>, k: nat)
    requires k <= |batch| && InsertAll(db, batch[..k]).None?
    ensures InsertAll(db, batch).None?
    decreases |batch|
  {
    if k < |batch| {
      assert batch[..|batch| - 1][..k] == batch[..k];
      FailureIsFinal(db, batch[..|batch| - 1], k);
    } else {
      assert batch[..k] == batch;
    }
  }

  /** The rows are the events in order, each with its clock reading. */
  predicate Listed(rows: seq<Row>, events: seq<Event>, clock: seq<int>)
    requires |events| <= |clock|
  {
    |rows| == |events| && forall i :: 0 <= i < |events| ==> rows[i].event == events[i] && rows[i].at == clock[i]
  }

  lemma ListedNone(events: seq<Event>, clock: seq<int>)
    ensures Listed([], events[..0], clock)
  {
  }

  lemma ListedOneMore(rows: seq<Row>, events: seq<Event>, clock: seq<int>, i: nat, row: Row)
    requires i < |events| <= |clock| && Listed(rows, events[..i], clock) && row.event == events[i] && row.at == clock[i]
    ensures Listed(rows + [row], events[..i + 1], clock)
  {
  }

  lemma InsertNone(db: Db)
    ensures InsertAll(db, []) == Some(db)
  {
  }

  lemma InsertedRow(db: Db, e: Event, now: int)
    ensures Insert(db, e, now).Some? ==> Insert(db, e, now).value.rows == db.rows + [Row(e, MaxSeq(db.rows, e.execution) + 1, now)]
  {
  }

  lemma InsertOneMore(db: Db, batch: seq<Stamped>, i: nat, work: Db)
    requires i < |batch| && InsertAll(db, batch[..i]) == Some(work)
    ensures InsertAll(db, batch[..i + 1]) == Insert(work, batch[i].event, batch[i].now)
  {
    assert batch[..i + 1][..i] == batch[..i];
  }

  class EvidenceStore {
    var db: Db

    constructor ()
      ensures db == EMPTY_DB && Consistent(db)
    {
      db := EMPTY_DB;
      new;
      forall x ensures Indexed(EMPTY_DB, x) {}
    }

    /** The stored event carries the next number of its execution; a duplicate evidence id
        rolls the transaction back. */
    method Append(e: Event, now: int) returns (r: Result<Row, string>)
      requires Consistent(db)
      modifies this
      ensures Consistent(db)
      ensures r.Ok? <==> !HasEvidence(old(db).rows, e.evidenceId)
      ensures r.Err? ==> db == old(db)
      ensures r.Ok? ==> Insert(old(db), e, now) == Some(db)
      ensures r.Ok? ==> r.value == Row(e, |Log(old(db).rows, e.execution)| + 1, now)
                        && Log(db.rows, e.execution) == Log(old(db).rows, e.execution) + [r.value]
    {
      var work := Insert(db, e, now);
      if work.None? {
        return Err("UNIQUE constraint failed: evidence_events.evidence_id");
      }
      InsertKeeps(db, e, now);
      MaxIsCount(db.rows, e.execution) by { assert Indexed(db, e.execution); }
      r := Ok(Row(e, MaxSeq(db.rows, e.execution) + 1, now));
      db := work.value;
    }

    /** All events in one transaction, or none; the result lists the events as numbered. */
    method AppendMany(events: seq<Event>, clock: seq<int>) returns (r: Result<seq<Row>, string>)
      requires Consistent(db) && |events| <= |clock|
      modifies this
      ensures Consistent(db)
      ensures r.Ok? <==> InsertAll(old(db), Stamp(events, clock)).Some?
      ensures r.Ok? ==> InsertAll(old(db), Stamp(events, clock)) == Some(db)
      ensures r.Ok? ==> db.rows == old(db).rows + r.value && Listed(r.value, events, clock)
      ensures r.Err? ==> db == old(db)
    {
      hide Insert;
      hide InsertAll;
      hide Consistent;
      hide MaxSeq;
      hide Listed;
      ghost var batch := Stamp(events, clock);
      var work, rows: seq<Row> := db, [];
      InsertNone(db);
      ListedNone(events, clock);
      var i := 0;
      while i < |events|
        invariant 0 <= i <= |events|
        invariant InsertAll(db, batch[..i]) == Some(work)
        invariant work.rows == db.rows + rows && Listed(rows, events[..i], clock)
        invariant db == old(db)
      {
        InsertOneMore(db, batch, i, work);
        InsertedRow(work, events[i], clock[i]);
        var next := Insert(work, events[i], clock[i]);
        if next.None? {
          FailureIsFinal(db, batch, i + 1);
          return Err("UNIQUE constraint failed: evidence_events.evidence_id");
        }
        var row := Row(events[i], MaxSeq(work.rows, events[i].execution) + 1, clock[i]);
        ListedOneMore(rows, events, clock, i, row);
        rows := rows + [row];
        work := next.value;
        i := i + 1;
      }
      assert batch[..|events|] == batch && events[..|events|] == events;
      InsertAllKeeps(db, batch);
      db := work;
      return Ok(rows);
    }

    /** Every execution that ended before the cutoff disappears from both tables, and
        nothing else changes. */
    method CleanupRetention(cutoff: int) returns (deletedEvents: nat, deletedExecutions: nat)
      requires Consistent(db)
      modifies this
      ensures Consistent(db)
      ensures db == Purge(old(db), Selected(old(db), cutoff))
      ensures deletedEvents + |db.rows| == |old(db).rows|
      ensures deletedExecutions == |Selected(old(db), cutoff)|
    {
      var gone := Selected(db, cutoff);
      NothingSelected(db, gone);
      if gone == {} {
        return 0, 0;
      }
      PurgeKeeps(db, gone);
      FewerRows(db.rows, gone);
      var rows := KeepRows(db.rows, gone);
      deletedEvents, deletedExecutions := |db.rows| - |rows|, |gone|;
      db := Db(rows, db.summaries - gone);
    }
  }

  lemma {:induction false} FewerRows(rows: seq<Row>, gone: set<string>)
    ensures |KeepRows(rows, gone)| <= |rows|
    ensures gone == {} ==> KeepRows(rows, gone) == rows
  {
    if rows != [] { FewerRows(rows[..|rows| - 1], gone); }
  }

  lemma NothingSelected(db: Db, gone: set<string>)
    ensures gone == {} ==> Purge(db, gone) == db
  {
    FewerRows(db.rows, gone);
    assert db.summaries - {} == db.summaries;
  }
}
