/** `_encode_toml` as it runs: `emit` appends to one list of lines. */
module TomlWriter {

  import opened Wrappers
  import opened Toml
  import opened TomlDocument
  import opened TomlText

  /** `scalar_items`: everything that is no table. */
  function Scalars(doc: Doc): (r: Doc)
    ensures forall i :: 0 <= i < |r| ==> !r[i].item.Table?
  {
    if doc == [] then [] else (if doc[0].item.Table? then [] else [doc[0]]) + Scalars(doc[1..])
  }

  predicate AllLeaves(doc: Doc) { forall i :: 0 <= i < |doc| ==> doc[i].item.Leaf? }

  predicate AllPrintable(doc: Doc) { forall i :: 0 <= i < |doc| && doc[i].item.Table? ==> Printable(doc[i].item.entries) }

  lemma LeavesCons(e: Entry, rest: Doc)
    ensures AllLeaves([e] + rest) <==> e.item.Leaf? && AllLeaves(rest)
    ensures AllPrintable([e] + rest) <==> (e.item.Table? ==> Printable(e.item.entries)) && AllPrintable(rest)
    ensures Printable([e] + rest) <==> PrintableItem(e.item) && Printable(rest)
  {
    hide PrintableItem;
    var doc := [e] + rest;
    assert doc[0] == e;
    forall i | 0 <= i < |rest|
      ensures doc[i + 1] == rest[i]
    {
    }
    forall i | 0 < i < |doc|
      ensures doc[i] == rest[i - 1]
    {
    }
  }

  /** The printer gets through exactly when neither half holds anything without a form. */
  lemma {:induction false} PrintableHalves(doc: Doc)
    ensures Printable(doc) <==> AllLeaves(Scalars(doc)) && AllPrintable(Tables(doc))
  {
    hide AllLeaves;
    hide AllPrintable;
    hide Printable;
    if doc == [] {
      NothingToPrint();
    } else {
      PrintableHalves(doc[1..]);
      LeavesCons(doc[0], doc[1..]);
      LeavesCons(doc[0], Scalars(doc[1..]));
      LeavesCons(doc[0], Tables(doc[1..]));
      assert doc == [doc[0]] + doc[1..];
      if doc[0].item.Table? {
        assert Scalars(doc) == Scalars(doc[1..]);
      } else {
        assert Tables(doc) == Tables(doc[1..]);
      }
    }
  }

  lemma NothingToPrint()
    ensures AllLeaves([]) && AllPrintable([]) && Printable([])
  {
  }

  function Tables(doc: Doc): (r: Doc)
    ensures forall i :: 0 <= i < |r| ==> r[i].item.Table?
  {
    if doc == [] then [] else (if doc[0].item.Table? then [doc[0]] else []) + Tables(doc[1..])
  }

  lemma {:induction false} TablesIn(doc: Doc, i: nat)
    requires i < |Tables(doc)|
    ensures exists j :: 0 <= j < |doc| && doc[j] == Tables(doc)[i]
  {
    if doc[0].item.Table? && i == 0 {
      assert doc[0] == Tables(doc)[0];
    } else {
      var k := if doc[0].item.Table? then i - 1 else i;
      TablesIn(doc[1..], k);
      var j :| 0 <= j < |doc[1..]| && doc[1..][j] == Tables(doc[1..])[k];
      assert doc[j + 1] == Tables(doc)[i];
    }
  }

  lemma ScalarLinesCons(e: Entry, rest: Doc)
    ensures ScalarLines([e] + rest) == (if e.item.Leaf? then [Assignment(e)] else []) + ScalarLines(rest)
  {
    assert ([e] + rest)[1..] == rest;
    hide Assignment;
  }

  lemma HasTableCons(e: Entry, rest: Doc)
    ensures HasTable([e] + rest) <==> e.item.Table? || HasTable(rest)
  {
    var doc := [e] + rest;
    assert doc[0] == e && forall i :: 0 <= i < |rest| ==> doc[i + 1] == rest[i];
  }

  lemma ChildLinesCons(e: Entry, rest: Doc, path: seq<string>)
    ensures ChildLines([e] + rest, path)
            == if !e.item.Table? then ChildLines(rest, path)
               else [Header(path + [e.key])] + Body(e.item.entries, path + [e.key])
                    + (if HasTable(rest) then [""] else []) + ChildLines(rest, path)
  {
    assert ([e] + rest)[1..] == rest;
    hide Header;
    hide Body;
  }

  lemma NoChildren(path: seq<string>)
    ensures ChildLines([], path) == []
  {
  }

  lemma NextChild(children: Doc, i: nat, path: seq<string>)
    requires i < |children| && forall j :: 0 <= j < |children| ==> children[j].item.Table?
    ensures var e := children[i];
            ChildLines(children[i..], path)
            == ([Header(path + [e.key])] + Body(e.item.entries, path + [e.key]))
               + (if i != |children| - 1 then [""] else []) + ChildLines(children[i + 1..], path)
  {
    var rest := children[i + 1..];
    ChildLinesCons(children[i], rest, path);
    assert [children[i]] + rest == children[i..];
    assert HasTable(rest) <==> i != |children| - 1 by { assert rest != [] ==> rest[0] == children[i + 1]; }
  }

  lemma Regroup(a: seq<string>, b: seq<string>, c: seq<string>, d: seq<string>, e: seq<string>)
    ensures a + (((b + c) + d) + e) == (((a + b) + c) + d) + e
    ensures d == [] ==> ((a + b) + c) + d == (a + b) + c
  {
  }

  /** What one turn of the loop over the children does to the lines and to what is left. */
  lemma ChildTurn(was: seq<string>, children: Doc, i: nat, path: seq<string>)
    requires i < |children| && forall j :: 0 <= j < |children| ==> children[j].item.Table?
    ensures var here := path + [children[i].key];
            var done := (was + [Header(here)]) + Body(children[i].item.entries, here);
            was + ChildLines(children[i..], path)
            == (if i != |children| - 1 then done + [""] else done) + ChildLines(children[i + 1..], path)
    ensures AllPrintable(children[i..]) <==> Printable(children[i].item.entries) && AllPrintable(children[i + 1..])
  {
    hide Header;
    hide Body;
    hide ChildLines;
    hide AllPrintable;
    hide Printable;
    var here := path + [children[i].key];
    NextChild(children, i, path);
    Regroup(was, [Header(here)], Body(children[i].item.entries, here),
            if i != |children| - 1 then [""] else [], ChildLines(children[i + 1..], path));
    LeavesCons(children[i], children[i + 1..]);
    assert [children[i]] + children[i + 1..] == children[i..];
  }

  lemma {:induction false} ScalarsOnly(doc: Doc)
    ensures ScalarLines(Scalars(doc)) == ScalarLines(doc)
    ensures AllLeaves(Scalars(doc)) ==> (Scalars(doc) == [] <==> ScalarLines(doc) == [])
  {
    hide ScalarLines;
    hide AllLeaves;
    if doc == [] {
      NoScalars();
    } else {
      ScalarsOnly(doc[1..]);
      ScalarLinesCons(doc[0], doc[1..]);
      ScalarLinesCons(doc[0], Scalars(doc[1..]));
      LeavesCons(doc[0], Scalars(doc[1..]));
      assert doc == [doc[0]] + doc[1..];
      if doc[0].item.Table? { assert Scalars(doc) == Scalars(doc[1..]); }
    }
  }

  lemma {:induction false} TablesOnly(doc: Doc, path: seq<string>)
    ensures ChildLines(Tables(doc), path) == ChildLines(doc, path)
    ensures HasTable(Tables(doc)) <==> HasTable(doc)
    ensures HasTable(doc) <==> Tables(doc) != []
  {
    if doc != [] {
      TablesOnly(doc[1..], path);
      ChildLinesCons(doc[0], doc[1..], path);
      ChildLinesCons(doc[0], Tables(doc[1..]), path);
      HasTableCons(doc[0], doc[1..]);
      HasTableCons(doc[0], Tables(doc[1..]));
      hide ChildLines;
      hide HasTable;
      hide Body;
      assert doc == [doc[0]] + doc[1..];
      if !doc[0].item.Table? { assert Tables(doc) == Tables(doc[1..]); }
    }
  }

  /** The list that `emit` appends to. */
  class Writer {
    var lines: seq<string>

    constructor ()
      ensures lines == []
    {
      lines := [];
    }

    /** `emit`: header, scalar lines, and each child table in turn; a value without a form
        raises. */
    method Emit(table: Doc, path: seq<string>) returns (ok: bool)
      modifies this
      ensures ok <==> Printable(table)
      ensures ok ==> lines == old(lines) + (if path != [] then [Header(path)] else []) + Body(table, path)
      decreases table
    {
      hide Header;
      hide ChildLines;
      hide ScalarLines;
      hide Printable;
      hide AllLeaves;
      hide AllPrintable;
      var scalars, children := Scalars(table), Tables(table);
      ScalarsOnly(table);
      TablesOnly(table, path);
      PrintableHalves(table);
      if path != [] { lines := lines + [Header(path)]; }
      ok := EmitScalars(scalars);
      if !ok { return; }
      if scalars != [] && children != [] { lines := lines + [""]; }
      ok := EmitChildren(table, children, path);
    }

    method EmitScalars(scalars: Doc) returns (ok: bool)
      requires forall i :: 0 <= i < |scalars| ==> !scalars[i].item.Table?
      modifies this
      ensures ok <==> AllLeaves(scalars)
      ensures ok ==> lines == old(lines) + ScalarLines(scalars)
    {
      hide Assignment;
      hide ScalarLines;
      hide AllLeaves;
      var i := 0;
      assert scalars[0..] == scalars;
      while i < |scalars|
        invariant i <= |scalars|
        invariant AllLeaves(scalars) <==> AllLeaves(scalars[i..])
        invariant lines + ScalarLines(scalars[i..]) == old(lines) + ScalarLines(scalars)
      {
        ScalarLinesCons(scalars[i], scalars[i + 1..]);
        LeavesCons(scalars[i], scalars[i + 1..]);
        assert [scalars[i]] + scalars[i + 1..] == scalars[i..];
        if !scalars[i].item.Leaf? { return false; }
        lines := lines + [Assignment(scalars[i])];
        i := i + 1;
      }
      NothingToPrint();
      NoScalars();
      assert scalars[i..] == [] && lines + [] == lines;
      return true;
    }

    method EmitChildren(table: Doc, children: Doc, path: seq<string>) returns (ok: bool)
      requires children == Tables(table)
      modifies this
      ensures ok <==> AllPrintable(children)
      ensures ok ==> lines == old(lines) + ChildLines(children, path)
      decreases table, 0
    {
      hide Header;
      hide Body;
      hide ChildLines;
      hide AllPrintable;
      hide Printable;
      var i := 0;
      assert children[0..] == children;
      while i < |children|
        invariant i <= |children|
        invariant AllPrintable(children) <==> AllPrintable(children[i..])
        invariant lines + ChildLines(children[i..], path) == old(lines) + ChildLines(children, path)
      {
        TablesIn(table, i);
        ghost var j :| 0 <= j < |table| && table[j] == children[i];
        ghost var was := lines;
        ChildTurn(was, children, i, path);
        ok := Emit(children[i].item.entries, path + [children[i].key]);
        if !ok { return; }
        assert path + [children[i].key] != [];
        if i != |children| - 1 { lines := lines + [""]; }
        i := i + 1;
      }
      NoChildren(path);
      NothingToPrint();
      assert children[i..] == [] && lines + [] == lines;
      return true;
    }
  }

  lemma NoScalars()
    ensures ScalarLines([]) == []
  {
  }

  /** `_encode_toml`: nothing comes out when a value has no form. */
  method EncodeToml(doc: Doc) returns (text: Option<string>)
    ensures text == if Printable(doc) then Some(Print(doc)) else None
  {
    hide Printable;
    var w := new Writer();
    var ok := w.Emit(doc, []);
    if !ok { return None; }
    assert w.lines == Body(doc, []);
    return Some(RStrip(Join(w.lines)) + "\n");
  }
}
