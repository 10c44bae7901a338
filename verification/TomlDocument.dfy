/** Whole documents: nested tables printed as headers and key/value lines, read back into
    a tree of maps. */
module TomlDocument {

  import opened Wrappers
  import opened Toml

  // ---------------------------------------------------------------- documents

  /** A Python dictionary in iteration order. */
  type Doc = seq<Entry>
  datatype Entry = Entry(key: string, item: Item)
  /** `Mixed` is a list with a table or a date somewhere in it, `Moment` a date or time: values
      that a TOML file can hold and the printer has no form for. */
  datatype Item = Leaf(v: Scalar) | Table(entries: Doc) | Mixed(items: seq<Item>) | Moment(text: string)

  /** What a document means: a dictionary without an order. */
  datatype Tree = Value(v: Scalar) | Node(children: map<string, Tree>) | Array(items: seq<Tree>) | Time(text: string)
  type Dict = map<string, Tree>

  function Meaning(doc: Doc): Dict {
    if doc == [] then map[]
    else Meaning(doc[..|doc| - 1])[doc[|doc| - 1].key := ItemMeaning(doc[|doc| - 1].item)]
  }

  function ItemMeaning(item: Item): Tree {
    match item
    case Leaf(v) => Value(v)
    case Table(entries) => Node(Meaning(entries))
    case Mixed(items) => Array(Meanings(items))
    case Moment(text) => Time(text)
  }

  function Meanings(items: seq<Item>): (r: seq<Tree>)
    ensures |r| == |items| && forall i :: 0 <= i < |items| ==> r[i] == ItemMeaning(items[i])
  {
    if items == [] then [] else Meanings(items[..|items| - 1]) + [ItemMeaning(items[|items| - 1])]
  }

  predicate DistinctKeys(doc: Doc) {
    forall i, j :: 0 <= i < j < |doc| ==> doc[i].key != doc[j].key
  }

  /** Every dictionary in the document has each key once, and a list is only `Mixed` when
      something in it is no scalar. */
  predicate Proper(doc: Doc) {
    DistinctKeys(doc) && forall i :: 0 <= i < |doc| ==> ProperItem(doc[i].item)
  }

  predicate ProperItem(item: Item) {
    match item
    case Leaf(_) => true
    case Table(entries) => Proper(entries)
    case Mixed(items) =>
      (exists i :: 0 <= i < |items| && !items[i].Leaf?) && forall i :: 0 <= i < |items| ==> ProperItem(items[i])
    case Moment(_) => true
  }

  /** The printer has a form for everything in the document. */
  predicate Printable(doc: Doc) {
    forall i :: 0 <= i < |doc| ==> PrintableItem(doc[i].item)
  }

  predicate PrintableItem(item: Item) {
    match item
    case Leaf(_) => true
    case Table(entries) => Printable(entries)
    case _ => false
  }

  /** No key and no string contains a control character other than newline and tab. */
  predicate CleanDoc(doc: Doc) {
    forall i :: 0 <= i < |doc| ==> CleanEntry(doc[i])
  }

  predicate CleanEntry(e: Entry) {
    Clean(e.key) && match e.item
                    case Leaf(v) => CleanValue(v)
                    case Table(entries) => CleanDoc(entries)
                    case _ => true
  }

  // ---------------------------------------------------------------- the printer

  predicate BareChar(c: char) { 'A' <= c <= 'Z' || 'a' <= c <= 'z' || '0' <= c <= '9' || c == '_' || c == '-' }

  predicate Bare(s: string) { s != [] && forall i :: 0 <= i < |s| ==> BareChar(s[i]) }

  /** `_toml_key`. */
  function PrintKey(k: string): string { if Bare(k) then k else Quote(k) }

  /** A key is printed as it is exactly when it is not empty and has only ASCII letters, digits,
      underscores and dashes; otherwise it is quoted. */
  lemma KeysExactly(k: string)
    ensures var plain := forall i :: 0 <= i < |k| ==>
                           var n := k[i] as int;
                           65 <= n <= 90 || 97 <= n <= 122 || 48 <= n <= 57 || n == 95 || n == 45;
            if k != "" && plain then PrintKey(k) == k else PrintKey(k) == "\"" + Escape(k) + "\""
  {
    hide Escape;
  }

  function JoinKeys(path: seq<string>): string {
    if path == [] then "" else if |path| == 1 then PrintKey(path[0])
    else PrintKey(path[0]) + "." + JoinKeys(path[1..])
  }

  function Header(path: seq<string>): string { "[" + JoinKeys(path) + "]" }

  function Assignment(e: Entry): string
    requires e.item.Leaf?
  {
    PrintKey(e.key) + " = " + PrintValue(e.item.v)
  }

  function ScalarLines(doc: Doc): seq<string> {
    if doc == [] then []
    else (if doc[0].item.Leaf? then [Assignment(doc[0])] else []) + ScalarLines(doc[1..])
  }

  predicate HasTable(doc: Doc) { exists i :: 0 <= i < |doc| && doc[i].item.Table? }

  /** The lines of a table below its header. */
  function Body(doc: Doc, path: seq<string>): seq<string>
    decreases doc, 1
  {
    ScalarLines(doc) + (if ScalarLines(doc) != [] && HasTable(doc) then [""] else []) + ChildLines(doc, path)
  }

  function ChildLines(doc: Doc, path: seq<string>): seq<string>
    decreases doc, 0
  {
    if doc == [] then []
    else if !doc[0].item.Table? then ChildLines(doc[1..], path)
    else
      [Header(path + [doc[0].key])] + Body(doc[0].item.entries, path + [doc[0].key])
      + (if HasTable(doc[1..]) then [""] else []) + ChildLines(doc[1..], path)
  }

  // ---------------------------------------------------------------- the reader

  function BareRun(s: string): (k: nat)
    ensures k <= |s| && (forall i :: 0 <= i < k ==> BareChar(s[i])) && (k < |s| ==> !BareChar(s[k]))
  {
    if s == [] || !BareChar(s[0]) then 0 else 1 + BareRun(s[1..])
  }

  function ReadKey(s: string): (r: Option<(string, string)>)
    ensures r.Some? ==> |r.value.1| < |s|
  {
    if s == [] then None
    else if s[0] == '"' then ReadString(s[1..])
    else
      var k := BareRun(s);
      if k == 0 then None else Some((s[..k], s[k..]))
  }

  /** A dotted key up to the closing bracket, which must end the line. */
  function ReadPath(s: string): Option<seq<string>>
    decreases |s|
  {
    var k := ReadKey(s);
    if k.None? || k.value.1 == [] then None
    else if k.value.1 == "]" then Some([k.value.0])
    else if k.value.1[0] == '.' then
      var more := ReadPath(k.value.1[1..]);
      if more.None? then None else Some([k.value.0] + more.value)
    else None
  }

  function ReadAssignment(s: string): Option<(string, Scalar)> {
    var k := ReadKey(s);
    if k.None? then None
    else
      var t := Skip(k.value.1);
      if t == [] || t[0] != '=' then None
      else
        var v := ReadValue(Skip(t[1..]));
        if v.None? || Skip(v.value.1) != [] then None else Some((k.value.0, v.value.0))
  }

  /** The dictionary at a path of tables. */
  function Get(root: Dict, path: seq<string>): Option<Dict>
    decreases |path|
  {
    if path == [] then Some(root)
    else if path[0] in root && root[path[0]].Node? then Get(root[path[0]].children, path[1..])
    else None
  }

  function Put(root: Dict, path: seq<string>, d: Dict): Dict
    requires Get(root, path).Some?
    decreases |path|
  {
    if path == [] then d else root[path[0] := Node(Put(root[path[0]].children, path[1..], d))]
  }

  /** `[path]`: the table must not exist yet; missing tables above it are created. */
  function Open(root: Dict, path: seq<string>): Option<Dict>
    decreases |path|
  {
    if path == [] then None
    else if |path| == 1 then
      if path[0] in root then None else Some(root[path[0] := Node(map[])])
    else if path[0] in root && !root[path[0]].Node? then None
    else
      var child := Open(if path[0] in root then root[path[0]].children else map[], path[1..]);
      if child.None? then None else Some(root[path[0] := Node(child.value)])
  }

  /** A document being read: the tree so far and the table that assignments go to. */
  /** What the reader does not take: an assignment without its equals sign or with anything but
      blanks after the value, and a table or key that is there already. */
  lemma NotRead(s: string, root: Dict, path: seq<string>, k: string)
    ensures ReadKey(s).Some? && (var t := Skip(ReadKey(s).value.1); t == [] || t[0] != '=') ==> ReadAssignment(s).None?
    ensures ReadKey(s).Some? ==>
              var t := Skip(ReadKey(s).value.1);
              t != [] && ReadValue(Skip(t[1..])).Some? && Skip(ReadValue(Skip(t[1..])).value.1) != [] ==> ReadAssignment(s).None?
    ensures k in root ==> Open(root, [k]).None?
    ensures var there := Get(root, path).Some? && ReadAssignment(s).Some? && ReadAssignment(s).value.0 in Get(root, path).value;
            there && s[0] != '[' ==> ReadLine(State(root, path), s).None?
  {
    hide ReadKey;
    hide ReadValue;
  }

  datatype State = State(root: Dict, path: seq<string>)

  function ReadLine(st: State, line: string): Option<State> {
    if line == [] then Some(st)
    else if line[0] == '[' then
      var path := ReadPath(line[1..]);
      if path.None? then None
      else
        var root := Open(st.root, path.value);
        if root.None? then None else Some(State(root.value, path.value))
    else
      var a := ReadAssignment(line);
      var d := Get(st.root, st.path);
      if a.None? || d.None? || a.value.0 in d.value then None
      else Some(State(Put(st.root, st.path, d.value[a.value.0 := Value(a.value.1)]), st.path))
  }

  function ReadLines(st: State, lines: seq<string>): Option<State>
    decreases |lines|
  {
    if lines == [] then Some(st)
    else
      var next := ReadLine(st, lines[0]);
      if next.None? then None else ReadLines(next.value, lines[1..])
  }

  // ---------------------------------------------------------------- one line

  lemma ReadPrintedKey(k: string, rest: string)
    requires rest == [] || !BareChar(rest[0])
    ensures ReadKey(PrintKey(k) + rest) == if Clean(k) then Some((k, rest)) else None
  {
    var s := PrintKey(k) + rest;
    if Bare(k) {
      assert Clean(k);
      assert rest != [] ==> s[|k|] == rest[0];
      assert forall i :: 0 <= i < |k| ==> s[i] == k[i];
      assert BareRun(s) == |k|;
      assert s[..|k|] == k && s[|k|..] == rest;
    } else {
      ReadQuoted(k, rest);
    }
  }

  lemma PathShape(path: seq<string>)
    requires |path| > 1
    ensures var tail := JoinKeys(path[1..]) + "]";
            JoinKeys(path) + "]" == PrintKey(path[0]) + ("." + tail) && ("." + tail)[1..] == tail
  {
    hide PrintKey;
    RegroupPath(PrintKey(path[0]), JoinKeys(path[1..]));
  }

  lemma RegroupPath(head: string, tail: string)
    ensures (head + "." + tail) + "]" == head + ("." + (tail + "]")) && ("." + (tail + "]"))[1..] == tail + "]"
  {
  }

  predicate CleanPath(path: seq<string>) { forall i :: 0 <= i < |path| ==> Clean(path[i]) }

  lemma ReadPathStep(s: string, k: string, tail: string)
    requires ReadKey(s) == Some((k, "." + tail)) && ("." + tail)[1..] == tail
    ensures ReadPath(s) == var more := ReadPath(tail);
                           if more.None? then None else Some([k] + more.value)
  {
    hide ReadKey;
  }

  lemma {:induction false} ReadPrintedPath(path: seq<string>)
    requires path != []
    ensures ReadPath(JoinKeys(path) + "]") == if CleanPath(path) then Some(path) else None
    decreases |path|
  {
    hide ReadKey;
    hide PrintKey;
    var s := JoinKeys(path) + "]";
    if |path| == 1 {
      ReadPrintedKey(path[0], "]");
      assert [path[0]] == path;
    } else {
      PathShape(path);
      var tail := JoinKeys(path[1..]) + "]";
      ReadPrintedKey(path[0], "." + tail);
      ReadPrintedPath(path[1..]);
      assert path == [path[0]] + path[1..];
      assert CleanPath(path) <==> Clean(path[0]) && CleanPath(path[1..]);
      hide CleanPath;
      hide Clean;
      if Clean(path[0]) { ReadPathStep(s, path[0], tail); }
    }
  }

  lemma ReadPrintedAssignment(e: Entry)
    requires e.item.Leaf?
    ensures ReadAssignment(Assignment(e)) == if CleanEntry(e) then Some((e.key, e.item.v)) else None
    ensures Assignment(e) != [] && Assignment(e)[0] != '['
  {
    var value := PrintValue(e.item.v);
    var rest := " = " + value;
    var line := PrintKey(e.key) + rest;
    assert Assignment(e) == line;
    ReadPrintedKey(e.key, rest);
    assert line[0] == PrintKey(e.key)[0];
    assert rest[1..] == "= " + value && ("= " + value)[1..] == " " + value && (" " + value)[1..] == value;
    FirstChar(e.item.v, "");
    assert value + "" == value;
    ReadPrinted(e.item.v, "");
    hide ReadValue;
    hide PrintValue;
    assert Skip(rest) == "= " + value;
    assert Skip(" " + value) == value;
  }

  // ---------------------------------------------------------------- paths in a tree

  lemma {:induction false} GetPut(root: Dict, path: seq<string>, d: Dict)
    requires Get(root, path).Some?
    ensures Get(Put(root, path, d), path) == Some(d)
    decreases |path|
  {
    if path != [] { GetPut(root[path[0]].children, path[1..], d); }
  }

  lemma {:induction false} PutPut(root: Dict, path: seq<string>, d: Dict, e: Dict)
    requires Get(root, path).Some?
    ensures Get(Put(root, path, d), path).Some? && Put(Put(root, path, d), path, e) == Put(root, path, e)
    decreases |path|
  {
    GetPut(root, path, d);
    if path != [] { PutPut(root[path[0]].children, path[1..], d, e); }
  }

  lemma {:induction false} PutSame(root: Dict, path: seq<string>)
    requires Get(root, path).Some?
    ensures Put(root, path, Get(root, path).value) == root
    decreases |path|
  {
    if path != [] { PutSame(root[path[0]].children, path[1..]); }
  }

  /** Writing below a table is writing the table with that child replaced. */
  lemma {:induction false} PutChild(root: Dict, path: seq<string>, k: string, m: Dict)
    requires Get(root, path).Some? && k in Get(root, path).value && Get(root, path).value[k].Node?
    ensures var d := Get(root, path).value;
            Get(root, path + [k]) == Some(d[k].children)
            && Put(root, path + [k], m) == Put(root, path, d[k := Node(m)])
    decreases |path|
  {
    if path == [] {
      assert path + [k] == [k] && [k][1..] == [];
    } else {
      assert (path + [k])[1..] == path[1..] + [k] && (path + [k])[0] == path[0];
      PutChild(root[path[0]].children, path[1..], k, m);
    }
  }

  lemma {:induction false} OpenChild(root: Dict, path: seq<string>, k: string)
    requires Get(root, path).Some? && k !in Get(root, path).value
    ensures Open(root, path + [k]) == Some(Put(root, path, Get(root, path).value[k := Node(map[])]))
    decreases |path|
  {
    if path == [] {
      assert path + [k] == [k];
    } else {
      assert (path + [k])[1..] == path[1..] + [k] && (path + [k])[0] == path[0];
      OpenChild(root[path[0]].children, path[1..], k);
    }
  }

  // ---------------------------------------------------------------- lines in sequence

  lemma {:induction false} ReadLinesConcat(st: State, a: seq<string>, b: seq<string>)
    ensures ReadLines(st, a + b)
            == var mid := ReadLines(st, a); if mid.None? then None else ReadLines(mid.value, b)
    decreases |a|
  {
    hide ReadLine;
    if a == [] {
      assert a + b == b;
    } else {
      assert (a + b)[1..] == a[1..] + b && (a + b)[0] == a[0];
      var next := ReadLine(st, a[0]);
      if next.Some? { ReadLinesConcat(next.value, a[1..], b); }
    }
  }

  lemma ReadOne(st: State, line: string)
    ensures ReadLines(st, [line]) == ReadLine(st, line)
  {
    hide ReadLine;
    assert [line][1..] == [];
    var next := ReadLine(st, line);
    if next.Some? { assert ReadLines(next.value, []) == Some(next.value); }
  }

  lemma ReadBlank(st: State, blank: bool)
    ensures ReadLines(st, if blank then [""] else []) == Some(st)
  {
    if blank { ReadOne(st, ""); }
  }

  // ---------------------------------------------------------------- scalars

  /** The dictionary with the scalar entries of a document added. */
  function AddLeaves(d: Dict, doc: Doc): Dict
    decreases |doc|
  {
    if doc == [] then d
    else AddLeaves(if doc[0].item.Leaf? then d[doc[0].key := Value(doc[0].item.v)] else d, doc[1..])
  }

  predicate CleanLeaves(doc: Doc) {
    forall i :: 0 <= i < |doc| && doc[i].item.Leaf? ==> CleanEntry(doc[i])
  }

  predicate Absent(d: Dict, doc: Doc) { forall i :: 0 <= i < |doc| ==> doc[i].key !in d }

  lemma ReadScalarLine(st: State, e: Entry)
    requires e.item.Leaf? && Get(st.root, st.path).Some? && e.key !in Get(st.root, st.path).value
    ensures ReadLines(st, [Assignment(e)])
            == if CleanEntry(e)
               then Some(State(Put(st.root, st.path, Get(st.root, st.path).value[e.key := Value(e.item.v)]), st.path))
               else None
  {
    ReadOne(st, Assignment(e));
    ReadPrintedAssignment(e);
    hide ReadAssignment;
    hide Assignment;
    hide CleanEntry;
  }

  lemma DocTail(doc: Doc)
    requires doc != []
    ensures Proper(doc) ==> Proper(doc[1..])
    ensures Printable(doc) ==> Printable(doc[1..])
    ensures DistinctKeys(doc) ==> DistinctKeys(doc[1..]) && forall i :: 0 <= i < |doc[1..]| ==> doc[1..][i].key != doc[0].key
    ensures CleanLeaves(doc) <==> (doc[0].item.Leaf? ==> CleanEntry(doc[0])) && CleanLeaves(doc[1..])
    ensures CleanTables(doc) <==> (doc[0].item.Table? ==> CleanEntry(doc[0])) && CleanTables(doc[1..])
    ensures forall d: Dict :: Absent(d, doc) ==> Absent(d, doc[1..]) && doc[0].key !in d
  {
    hide CleanEntry;
    assert forall i :: 0 < i < |doc| ==> doc[i] == doc[1..][i - 1];
  }

  lemma {:induction false} ReadScalars(st: State, doc: Doc)
    requires DistinctKeys(doc) && Get(st.root, st.path).Some? && Absent(Get(st.root, st.path).value, doc)
    ensures ReadLines(st, ScalarLines(doc))
            == if CleanLeaves(doc)
               then Some(State(Put(st.root, st.path, AddLeaves(Get(st.root, st.path).value, doc)), st.path))
               else None
    decreases |doc|
  {
    var d := Get(st.root, st.path).value;
    if doc == [] {
      PutSame(st.root, st.path);
    } else {
      DocTail(doc);
      hide CleanLeaves;
      hide ReadLines;
      hide CleanEntry;
      if doc[0].item.Leaf? {
        ReadScalarLine(st, doc[0]);
        ReadLinesConcat(st, [Assignment(doc[0])], ScalarLines(doc[1..]));
        if CleanEntry(doc[0]) {
          var d' := d[doc[0].key := Value(doc[0].item.v)];
          var st' := State(Put(st.root, st.path, d'), st.path);
          GetPut(st.root, st.path, d');
          ReadScalars(st', doc[1..]);
          PutPut(st.root, st.path, d', AddLeaves(d', doc[1..]));
        }
      } else {
        assert ScalarLines(doc) == ScalarLines(doc[1..]);
        ReadScalars(st, doc[1..]);
      }
    }
  }

  // ---------------------------------------------------------------- tables

  function AddTables(d: Dict, doc: Doc): Dict
    decreases |doc|
  {
    if doc == [] then d
    else AddTables(if doc[0].item.Table? then d[doc[0].key := Node(Meaning(doc[0].item.entries))] else d, doc[1..])
  }

  predicate CleanTables(doc: Doc) {
    forall i :: 0 <= i < |doc| && doc[i].item.Table? ==> CleanEntry(doc[i])
  }

  /** No table of the document is in the dictionary yet. */
  predicate TablesAbsent(d: Dict, doc: Doc) {
    forall i :: 0 <= i < |doc| && doc[i].item.Table? ==> doc[i].key !in d
  }

  lemma {:induction false} MeaningAt(doc: Doc)
    requires DistinctKeys(doc)
    ensures Meaning(doc).Keys == set e | e in doc :: e.key
    ensures forall i :: 0 <= i < |doc| ==> doc[i].key in Meaning(doc) && Meaning(doc)[doc[i].key] == ItemMeaning(doc[i].item)
  {
    if doc != [] {
      var init := doc[..|doc| - 1];
      MeaningAt(init);
      assert doc == init + [doc[|doc| - 1]];
    }
  }

  function Look(d: Dict, k: string): Option<Tree> { if k in d then Some(d[k]) else None }

  /** The item under a key. */
  function Under(doc: Doc, k: string): Option<Item> {
    if doc == [] then None else if doc[0].key == k then Some(doc[0].item) else Under(doc[1..], k)
  }

  lemma {:induction false} UnderAt(doc: Doc, k: string)
    ensures Under(doc, k).Some? ==> exists i :: 0 <= i < |doc| && doc[i].key == k && Under(doc, k) == Some(doc[i].item)
    ensures Under(doc, k).None? ==> forall i :: 0 <= i < |doc| ==> doc[i].key != k
  {
    if doc != [] && doc[0].key != k {
      UnderAt(doc[1..], k);
      if Under(doc[1..], k).Some? {
        var i :| 0 <= i < |doc[1..]| && doc[1..][i].key == k && Under(doc[1..], k) == Some(doc[1..][i].item);
        assert doc[i + 1].key == k;
      } else {
        assert forall i :: 0 < i < |doc| ==> doc[i] == doc[1..][i - 1];
      }
    }
  }

  /** With distinct keys the head's key is not in the tail. */
  lemma TailMisses(doc: Doc)
    requires doc != [] && DistinctKeys(doc)
    ensures DistinctKeys(doc[1..]) && Under(doc[1..], doc[0].key) == None
  {
    DocTail(doc);
    UnderAt(doc[1..], doc[0].key);
  }

  lemma LookMeaning(doc: Doc, k: string)
    requires DistinctKeys(doc)
    ensures Look(Meaning(doc), k) == if Under(doc, k).Some? then Some(ItemMeaning(Under(doc, k).value)) else None
  {
    hide ItemMeaning;
    MeaningAt(doc);
    hide Meaning;
    UnderAt(doc, k);
  }

  lemma {:induction false} LookLeaves(d: Dict, doc: Doc, k: string)
    requires DistinctKeys(doc)
    ensures Look(AddLeaves(d, doc), k)
            == if Under(doc, k).Some? && Under(doc, k).value.Leaf? then Some(Value(Under(doc, k).value.v)) else Look(d, k)
    decreases |doc|
  {
    hide DistinctKeys;
    if doc != [] {
      TailMisses(doc);
      LookLeaves(if doc[0].item.Leaf? then d[doc[0].key := Value(doc[0].item.v)] else d, doc[1..], k);
    }
  }

  lemma {:induction false} LookTables(d: Dict, doc: Doc, k: string)
    requires DistinctKeys(doc)
    ensures Look(AddTables(d, doc), k)
            == if Under(doc, k).Some? && Under(doc, k).value.Table? then Some(Node(Meaning(Under(doc, k).value.entries))) else Look(d, k)
    decreases |doc|
  {
    hide DistinctKeys;
    hide Meaning;
    if doc != [] {
      TailMisses(doc);
      LookTables(if doc[0].item.Table? then d[doc[0].key := Node(Meaning(doc[0].item.entries))] else d, doc[1..], k);
    }
  }

  lemma LeavesMissTables(doc: Doc)
    requires DistinctKeys(doc)
    ensures TablesAbsent(AddLeaves(map[], doc), doc)
  {
    hide AddLeaves;
    forall i | 0 <= i < |doc| && doc[i].item.Table?
      ensures doc[i].key !in AddLeaves(map[], doc)
    {
      LookLeaves(map[], doc, doc[i].key);
      UnderAt(doc, doc[i].key);
    }
  }

  /** Scalars first and tables after them add up to the whole document. */
  lemma PhasesMean(doc: Doc)
    requires DistinctKeys(doc) && forall i :: 0 <= i < |doc| ==> doc[i].item.Leaf? || doc[i].item.Table?
    ensures TablesAbsent(AddLeaves(map[], doc), doc)
    ensures AddTables(AddLeaves(map[], doc), doc) == Meaning(doc)
  {
    hide AddLeaves;
    hide AddTables;
    hide Meaning;
    hide DistinctKeys;
    LeavesMissTables(doc);
    var d := AddLeaves(map[], doc);
    var m := AddTables(d, doc);
    forall k
      ensures Look(m, k) == Look(Meaning(doc), k)
    {
      LookLeaves(map[], doc, k);
      LookTables(d, doc, k);
      LookMeaning(doc, k);
      UnderAt(doc, k);
    }
    forall k
      ensures k in m <==> k in Meaning(doc)
      ensures k in m ==> m[k] == Meaning(doc)[k]
    {
      assert Look(m, k) == Look(Meaning(doc), k);
    }
  }

  /** Reading the lines of a document into an empty table at `path`. */
  lemma {:induction false} ReadBody(root: Dict, path: seq<string>, doc: Doc)
    requires Proper(doc) && Printable(doc) && CleanPath(path) && Get(root, path) == Some(map[])
    ensures var r := ReadLines(State(root, path), Body(doc, path));
            if CleanDoc(doc) then r.Some? && r.value.root == Put(root, path, Meaning(doc)) else r.None?
    decreases doc, 1
  {
    hide ScalarLines;
    hide ChildLines;
    hide HasTable;
    hide ReadLines;
    hide Header;
    hide Proper;
    hide Printable;
    hide Get;
    hide Put;
    hide Meaning;
    hide CleanDoc;
    hide CleanLeaves;
    hide CleanTables;
    hide CleanEntry;
    hide CleanPath;
    hide AddLeaves;
    hide AddTables;
    var st := State(root, path);
    var lines, blank, rest := ScalarLines(doc), ScalarLines(doc) != [] && HasTable(doc), ChildLines(doc, path);
    var gap := if blank then [""] else [];
    assert Body(doc, path) == lines + (gap + rest);
    ReadLinesConcat(st, lines, gap + rest);
    LeavesAndTables(doc);
    ReadScalars(st, doc);
    CleanPhases(doc);
    if CleanLeaves(doc) {
      var leaves := AddLeaves(map[], doc);
      var st' := State(Put(root, path, leaves), path);
      ReadLinesConcat(st', gap, rest);
      ReadBlank(st', blank);
      PhasesMean(doc);
      GetPut(root, path, leaves);
      ReadChildren(st', path, doc);
      PutPut(root, path, leaves, Meaning(doc));
    }
  }

  lemma LeavesAndTables(doc: Doc)
    requires Proper(doc) && Printable(doc)
    ensures DistinctKeys(doc) && forall i :: 0 <= i < |doc| ==> doc[i].item.Leaf? || doc[i].item.Table?
  {
  }

  lemma CleanPhases(doc: Doc)
    requires Printable(doc)
    ensures CleanDoc(doc) <==> CleanLeaves(doc) && CleanTables(doc)
  {
    hide CleanEntry;
  }

  lemma {:induction false} ReadChildren(st: State, path: seq<string>, doc: Doc)
    requires Proper(doc) && Printable(doc) && CleanPath(path) && Get(st.root, path).Some? && TablesAbsent(Get(st.root, path).value, doc)
    ensures var r := ReadLines(st, ChildLines(doc, path));
            if CleanTables(doc) then r.Some? && r.value.root == Put(st.root, path, AddTables(Get(st.root, path).value, doc))
            else r.None?
    decreases doc, 0
  {
    hide CleanTables;
    hide CleanEntry;
    hide CleanPath;
    hide ReadLines;
    hide Body;
    hide Header;
    hide Proper;
    hide Printable;
    hide Get;
    hide Put;
    hide Meaning;
    var d := Get(st.root, path).value;
    if doc == [] {
      PutSame(st.root, path);
      NothingToRead(st);
    } else {
      DocTail(doc);
      if !doc[0].item.Table? {
        ReadChildren(st, path, doc[1..]);
      } else {
        HeadTable(doc);
        var lines := [Header(path + [doc[0].key])] + Body(doc[0].item.entries, path + [doc[0].key]);
        var blank, rest := HasTable(doc[1..]), ChildLines(doc[1..], path);
        var gap := if blank then [""] else [];
        assert ChildLines(doc, path) == lines + (gap + rest);
        ReadLinesConcat(st, lines, gap + rest);
        ReadChild(st, path, doc[0]);
        var mid := ReadLines(st, lines);
        if mid.Some? {
          var d' := d[doc[0].key := Node(Meaning(doc[0].item.entries))];
          ReadLinesConcat(mid.value, gap, rest);
          ReadBlank(mid.value, blank);
          GetPut(st.root, path, d');
          TablesStillAbsent(d, doc, Node(Meaning(doc[0].item.entries)));
          ReadChildren(mid.value, path, doc[1..]);
          PutPut(st.root, path, d', AddTables(d', doc[1..]));
        }
      }
    }
  }

  lemma NothingToRead(st: State)
    ensures ReadLines(st, []) == Some(st) && CleanTables([])
  {
  }

  lemma HeadTable(doc: Doc)
    requires doc != [] && Proper(doc) && Printable(doc) && doc[0].item.Table?
    ensures Proper(doc[0].item.entries) && Printable(doc[0].item.entries)
  {
    assert ProperItem(doc[0].item) && PrintableItem(doc[0].item);
  }

  lemma TablesStillAbsent(d: Dict, doc: Doc, t: Tree)
    requires doc != [] && Proper(doc) && TablesAbsent(d, doc)
    ensures TablesAbsent(d[doc[0].key := t], doc[1..])
  {
    DocTail(doc);
  }

  lemma CleanChild(path: seq<string>, k: string)
    requires CleanPath(path)
    ensures CleanPath(path + [k]) <==> Clean(k)
  {
    hide Clean;
    assert (path + [k])[|path|] == k;
  }

  lemma ReadHeader(st: State, path: seq<string>, k: string)
    requires CleanPath(path) && Get(st.root, path).Some? && k !in Get(st.root, path).value
    ensures ReadLines(st, [Header(path + [k])])
            == if Clean(k) then Some(State(Put(st.root, path, Get(st.root, path).value[k := Node(map[])]), path + [k])) else None
  {
    var line := Header(path + [k]);
    ReadOne(st, line);
    ReadPrintedPath(path + [k]);
    assert line[1..] == JoinKeys(path + [k]) + "]";
    OpenChild(st.root, path, k);
    CleanChild(path, k);
    hide ReadPath;
    hide JoinKeys;
  }

  lemma ReadChild(st: State, path: seq<string>, e: Entry)
    requires e.item.Table? && Proper(e.item.entries) && Printable(e.item.entries) && CleanPath(path)
    requires Get(st.root, path).Some? && e.key !in Get(st.root, path).value
    ensures var r := ReadLines(st, [Header(path + [e.key])] + Body(e.item.entries, path + [e.key]));
            if CleanEntry(e) then r.Some? && r.value.root == Put(st.root, path, Get(st.root, path).value[e.key := Node(Meaning(e.item.entries))])
            else r.None?
    decreases e.item.entries, 2
  {
    hide Body;
    hide Header;
    hide ReadLines;
    hide Clean;
    hide CleanPath;
    hide Meaning;
    var d, k, doc := Get(st.root, path).value, e.key, e.item.entries;
    ReadHeader(st, path, k);
    ReadLinesConcat(st, [Header(path + [k])], Body(doc, path + [k]));
    if Clean(k) {
      var d' := d[k := Node(map[])];
      var root' := Put(st.root, path, d');
      GetPut(st.root, path, d');
      PutChild(root', path, k, Meaning(doc));
      CleanChild(path, k);
      ReadBody(root', path + [k], doc);
      PutPut(st.root, path, d', d'[k := Node(Meaning(doc))]);
      assert d'[k := Node(Meaning(doc))] == d[k := Node(Meaning(doc))];
    }
  }
}
