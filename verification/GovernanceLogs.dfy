/** The execution record store and the audit log: hash chains kept in memory and in a table,
    and reloaded from the table in the order of a sort key. */
module GovernanceLogs {

  import opened Wrappers
  import opened Ordering
  import opened Strings
  import opened HashChain

  // ---------------------------------------------------------------- execution records

  /** The hashed fields of an execution record. */
  datatype Fields = Fields(
    recordId: string, recordedAt: string, requestId: string, taskId: string, targetType: string, target: string,
    decision: string, risk: string, status: string, permissions: seq<string>, error: Option<string>,
    permitId: Option<string>, operationDigest: Option<string>, authorizationSource: Option<string>)

  type Record = Link<Fields>

  predicate DistinctIds(rows: seq<Record>) {
    forall i, j :: 0 <= i < j < |rows| ==> rows[i].fields.recordId != rows[j].fields.recordId
  }

  predicate ById(a: Record, b: Record) { Less(a.fields.recordId, b.fields.recordId) }

  predicate ByTime(a: Record, b: Record) { Less(a.fields.recordedAt, b.fields.recordedAt) }

  /** The order of a reload: time first, then id. */
  predicate RecordBefore(a: Record, b: Record) {
    ByTime(a, b) || (a.fields.recordedAt == b.fields.recordedAt && ById(a, b))
  }

  /** What `_load_backing` puts into memory: the rows as `SELECT … ORDER BY id` returns them,
      sorted by time. */
  function ReloadRecords(rows: seq<Record>): seq<Record> { Sort(ByTime, Sort(ById, rows)) }

  lemma IdOrder()
    ensures StrictOrder(ById)
  {
    forall x: Record
      ensures !ById(x, x)
    {
      LessIrreflexive(x.fields.recordId);
    }
    forall x: Record, y: Record, z: Record | ById(x, y) && ById(y, z)
      ensures ById(x, z)
    {
      LessTransitive(x.fields.recordId, y.fields.recordId, z.fields.recordId);
    }
  }

  lemma TimeOrder()
    ensures WeakOrder(ByTime)
  {
    forall x: Record
      ensures !ByTime(x, x)
    {
      LessIrreflexive(x.fields.recordedAt);
    }
    forall x: Record, y: Record, z: Record | ByTime(x, y) && ByTime(y, z)
      ensures ByTime(x, z)
    {
      LessTransitive(x.fields.recordedAt, y.fields.recordedAt, z.fields.recordedAt);
    }
    forall x: Record, y: Record, z: Record | !ByTime(x, y) && !ByTime(y, z)
      ensures !ByTime(x, z)
    {
      LessNegative(x.fields.recordedAt, y.fields.recordedAt, z.fields.recordedAt);
    }
  }

  lemma RecordOrder()
    ensures StrictOrder(RecordBefore)
  {
    IdOrder();
    TimeOrder();
    hide Less;
    forall x: Record, y: Record, z: Record | RecordBefore(x, y) && RecordBefore(y, z)
      ensures RecordBefore(x, z)
    {
    }
  }

  lemma ReloadSorts(rows: seq<Record>)
    requires DistinctIds(rows)
    ensures Ascending(RecordBefore, ReloadRecords(rows)) && multiset(ReloadRecords(rows)) == multiset(rows)
  {
    forall i, j | 0 <= i < j < |rows|
      ensures ById(rows[i], rows[j]) || ById(rows[j], rows[i])
    {
      LessTotal(rows[i].fields.recordId, rows[j].fields.recordId);
    }
    IdOrder();
    TimeOrder();
    SortAscends(ById, rows);
    SortStable(ByTime, ById, Sort(ById, rows));
    SortPermutes(ByTime, Sort(ById, rows));
    var r := ReloadRecords(rows);
    forall i, j | 0 <= i < j < |r|
      ensures RecordBefore(r[i], r[j])
    {
      assert Then(ByTime, ById)(r[i], r[j]);
      LessTotal(r[i].fields.recordedAt, r[j].fields.recordedAt);
    }
  }

  /** A restart restores the chain, and `verify_chain` accepts what it restored, exactly when
      the records were appended in the order of their time and id. */
  lemma RecordsReload(h: Hash<Fields>, c: seq<Record>)
    requires Injective(h) && NeverEmpty(h) && Verifies(h, c) && DistinctIds(c)
    ensures ReloadRecords(c) == c <==> Ascending(RecordBefore, c)
    ensures Verifies(h, ReloadRecords(c)) <==> Ascending(RecordBefore, c)
  {
    ReloadSorts(c);
    RecordOrder();
    ReloadExactly(h, RecordBefore, c, ReloadRecords(c));
  }

  /** Strictly increasing times are enough. */
  lemma IncreasingTimes(c: seq<Record>)
    requires forall i, j :: 0 <= i < j < |c| ==> Less(c[i].fields.recordedAt, c[j].fields.recordedAt)
    ensures Ascending(RecordBefore, c)
  {
  }

  /** The backing table: one row per record id. */
  class Table {
    var rows: seq<Record>

    constructor ()
      ensures rows == []
    {
      rows := [];
    }
  }

  predicate Has(rows: seq<Record>, id: string) { exists i :: 0 <= i < |rows| && rows[i].fields.recordId == id }

  class ExecutionRecordStore {
    const h: Hash<Fields>
    const backing: Option<Table>
    var records: seq<Record>
    var ids: set<string>

    ghost predicate Valid()
      reads this
    {
      forall id :: id in ids <==> Has(records, id)
    }

    /** `__init__` and `_load_backing`. */
    constructor (h: Hash<Fields>, backing: Option<Table>)
      ensures Valid() && this.h == h && this.backing == backing
      ensures records == if backing.Some? then ReloadRecords(backing.value.rows) else []
    {
      this.h := h;
      this.backing := backing;
      records := [];
      ids := {};
      new;
      if backing.Some? {
        var rows := ReloadRecords(backing.value.rows);
        var i := 0;
        while i < |rows|
          invariant i <= |rows| && records == rows[..i] && Valid()
        {
          AddedId(records, rows[i]);
          records := records + [rows[i]];
          ids := ids + {rows[i].fields.recordId};
          i := i + 1;
        }
      }
    }

    /** `append`: refuse a known id; otherwise seal the record, keep it in memory and write it
        to the table. A row the table already has is refused too, after memory has changed. */
    method Append(fields: Fields) returns (r: Result<Record, string>)
      requires Valid()
      modifies this`records, this`ids
      modifies if backing.Some? then {backing.value} else {}
      ensures Valid()
      ensures r.Err? <==> Has(old(records), fields.recordId)
                          || (backing.Some? && Has(old(backing.value.rows), fields.recordId))
      ensures records == if Has(old(records), fields.recordId) then old(records)
                         else old(records) + [Seal(h, old(records), fields)]
      ensures backing.Some? ==>
                backing.value.rows == if r.Ok? then old(backing.value.rows) + [r.value] else old(backing.value.rows)
      ensures r.Ok? ==> r.value == Seal(h, old(records), fields)
    {
      if fields.recordId in ids { return Err(fields.recordId); }
      var chained := Seal(h, records, fields);
      AddedId(records, chained);
      records := records + [chained];
      ids := ids + {fields.recordId};
      if backing.Some? {
        var known := exists i :: 0 <= i < |backing.value.rows| && backing.value.rows[i].fields.recordId == fields.recordId;
        if known { return Err(fields.recordId); }
        backing.value.rows := backing.value.rows + [chained];
      }
      return Ok(chained);
    }
  }

  lemma AddedId(records: seq<Record>, r: Record)
    ensures forall id :: Has(records + [r], id) <==> Has(records, id) || id == r.fields.recordId
  {
    var s := records + [r];
    assert s[|records|] == r;
    forall id | Has(records, id)
      ensures Has(s, id)
    {
      var i :| 0 <= i < |records| && records[i].fields.recordId == id;
      assert s[i].fields.recordId == id;
    }
  }

  // ---------------------------------------------------------------- audit entries

  /** The hashed fields of an audit entry; the details as canonical text. */
  datatype Audit = Audit(seqNo: int, recordedAt: string, category: string, action: string, subject: string, result: string, details: string)

  type AuditEntry = Link<Audit>

  predicate AuditBefore(a: AuditEntry, b: AuditEntry) {
    Less(a.fields.recordedAt, b.fields.recordedAt)
    || (a.fields.recordedAt == b.fields.recordedAt && a.fields.seqNo < b.fields.seqNo)
  }

  lemma AuditOrder()
    ensures StrictOrder(AuditBefore)
  {
    forall x: AuditEntry
      ensures !AuditBefore(x, x)
    {
      LessIrreflexive(x.fields.recordedAt);
    }
    forall x: AuditEntry, y: AuditEntry, z: AuditEntry | AuditBefore(x, y) && AuditBefore(y, z)
      ensures AuditBefore(x, z)
    {
      if Less(x.fields.recordedAt, y.fields.recordedAt) && Less(y.fields.recordedAt, z.fields.recordedAt) {
        LessTransitive(x.fields.recordedAt, y.fields.recordedAt, z.fields.recordedAt);
      }
    }
  }

  /** `_load_backing`: sorted by time and sequence number. */
  function ReloadEntries(rows: seq<AuditEntry>): seq<AuditEntry> { Sort(AuditBefore, rows) }

  /** Sequence numbers count up from the first entry. */
  predicate Numbered(c: seq<AuditEntry>) { forall i :: 0 <= i < |c| ==> c[i].fields.seqNo == i }

  predicate TimesNeverDecrease(c: seq<AuditEntry>) {
    forall i, j :: 0 <= i < j < |c| ==> !Less(c[j].fields.recordedAt, c[i].fields.recordedAt)
  }

  /** A restart restores the audit trail, and it still verifies, exactly when the clock never
      went back. */
  lemma AuditReload(h: Hash<Audit>, c: seq<AuditEntry>)
    requires Injective(h) && NeverEmpty(h) && Verifies(h, c) && Numbered(c)
    ensures ReloadEntries(c) == c <==> TimesNeverDecrease(c)
    ensures Verifies(h, ReloadEntries(c)) <==> TimesNeverDecrease(c)
  {
    AuditOrder();
    forall i, j | 0 <= i < j < |c|
      ensures AuditBefore(c[i], c[j]) || AuditBefore(c[j], c[i])
    {
      LessTotal(c[i].fields.recordedAt, c[j].fields.recordedAt);
    }
    SortAscends(AuditBefore, c);
    ReloadExactly(h, AuditBefore, c, ReloadEntries(c));
    forall i, j | 0 <= i < j < |c|
      ensures AuditBefore(c[i], c[j]) <==> !Less(c[j].fields.recordedAt, c[i].fields.recordedAt)
    {
      LessTotal(c[i].fields.recordedAt, c[j].fields.recordedAt);
      LessIrreflexive(c[i].fields.recordedAt);
      if Less(c[i].fields.recordedAt, c[j].fields.recordedAt) && Less(c[j].fields.recordedAt, c[i].fields.recordedAt) {
        LessTransitive(c[i].fields.recordedAt, c[j].fields.recordedAt, c[i].fields.recordedAt);
      }
    }
  }

  /** The trail in memory; `rows` is its table. */
  class GovernanceAuditLog {
    const h: Hash<Audit>
    var entries: seq<AuditEntry>
    var nextSeq: int
    var rows: seq<AuditEntry>

    /** A trail that this process has written from the start, or reloaded whole. */
    ghost predicate Valid()
      reads this
    {
      Verifies(h, entries) && Numbered(entries) && nextSeq == |entries| && rows == entries
    }

    constructor (h: Hash<Audit>, rows: seq<AuditEntry>)
      ensures this.h == h && this.rows == rows && entries == ReloadEntries(rows)
      ensures forall e :: e in entries ==> e.fields.seqNo < nextSeq
      ensures nextSeq >= 0 && (nextSeq > 0 ==> exists e :: e in entries && e.fields.seqNo == nextSeq - 1)
      ensures rows == [] ==> Valid()
      ensures Verifies(h, rows) && Numbered(rows) && TimesNeverDecrease(rows) && Injective(h) && NeverEmpty(h) ==> Valid()
    {
      this.h := h;
      this.rows := rows;
      entries := [];
      nextSeq := 0;
      new;
      var sorted := ReloadEntries(rows);
      var i := 0;
      while i < |sorted|
        invariant i <= |sorted| && entries == sorted[..i] && this.h == h && this.rows == rows
        invariant nextSeq >= 0 && (Numbered(sorted) ==> nextSeq == i)
        invariant forall e :: e in entries ==> e.fields.seqNo < nextSeq
        invariant nextSeq > 0 ==> exists e :: e in entries && e.fields.seqNo == nextSeq - 1
      {
        entries := entries + [sorted[i]];
        nextSeq := if sorted[i].fields.seqNo + 1 > nextSeq then sorted[i].fields.seqNo + 1 else nextSeq;
        i := i + 1;
      }
      if Verifies(h, rows) && Numbered(rows) && TimesNeverDecrease(rows) { Restored(h, rows); }
    }

    /** `record`: seal an entry onto the trail in memory and put it into the table. */
    method Record(at: string, category: string, action: string, subject: string, result: string, details: string)
      returns (entry: AuditEntry)
      modifies this
      ensures entry == Seal(h, old(entries), Audit(old(nextSeq), at, category, action, subject, result, details))
      ensures entries == old(entries) + [entry] && nextSeq == old(nextSeq) + 1 && rows == PutRow(old(rows), entry)
      ensures Verifies(h, entries) <==> old(Verifies(h, entries))
      ensures old(Valid()) ==> Valid()
    {
      entry := Seal(h, entries, Audit(nextSeq, at, category, action, subject, result, details));
      AppendVerifies(h, entries, entry.fields);
      if Numbered(rows) && nextSeq == |rows| { NewRow(rows, entry); }
      entries := entries + [entry];
      nextSeq := nextSeq + 1;
      rows := PutRow(rows, entry);
    }
  }

  /** `put` with the sequence number as key: a row with that number is replaced. */
  function PutRow(rows: seq<AuditEntry>, e: AuditEntry): seq<AuditEntry> {
    if rows == [] then [e]
    else if rows[0].fields.seqNo == e.fields.seqNo then [e] + rows[1..]
    else [rows[0]] + PutRow(rows[1..], e)
  }

  /** The row that has the number gives way, and without one the entry comes last. */
  lemma {:induction false} PutRowExactly(rows: seq<AuditEntry>, e: AuditEntry, i: nat)
    requires i <= |rows| && (i < |rows| ==> rows[i].fields.seqNo == e.fields.seqNo)
    requires forall j :: 0 <= j < i ==> rows[j].fields.seqNo != e.fields.seqNo
    ensures PutRow(rows, e) == if i < |rows| then rows[i := e] else rows + [e]
  {
    if i > 0 {
      PutRowExactly(rows[1..], e, i - 1);
      assert rows == [rows[0]] + rows[1..];
    } else if rows != [] {
      assert rows[0 := e] == [e] + rows[1..];
    }
  }

  lemma {:induction false} NewRow(rows: seq<AuditEntry>, e: AuditEntry)
    requires forall i :: 0 <= i < |rows| ==> rows[i].fields.seqNo != e.fields.seqNo
    ensures PutRow(rows, e) == rows + [e]
  {
    if rows != [] {
      NewRow(rows[1..], e);
      assert rows == [rows[0]] + rows[1..];
    }
  }

  lemma Restored(h: Hash<Audit>, rows: seq<AuditEntry>)
    requires Verifies(h, rows) && Numbered(rows) && TimesNeverDecrease(rows)
    ensures Injective(h) && NeverEmpty(h) ==> ReloadEntries(rows) == rows
  {
    if Injective(h) && NeverEmpty(h) { AuditReload(h, rows); }
  }
}
