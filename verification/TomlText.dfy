/** The printed text as a whole, its reading, and the round trip. */
module TomlText {

  import opened Wrappers
  import opened Toml
  import opened TomlDocument

  /** The characters Python's `str.rstrip` removes. */
  predicate Space(c: char) {
    var n := c as int;
    0x09 <= n <= 0x0D || 0x1C <= n <= 0x20 || n == 0x85 || n == 0xA0 || n == 0x1680 || 0x2000 <= n <= 0x200A
    || n == 0x2028 || n == 0x2029 || n == 0x202F || n == 0x205F || n == 0x3000
  }

  function RStrip(s: string): string {
    if s != [] && Space(s[|s| - 1]) then RStrip(s[..|s| - 1]) else s
  }

  /** `"\n".join(lines)`. */
  function Join(lines: seq<string>): string {
    if lines == [] then "" else if |lines| == 1 then lines[0] else lines[0] + "\n" + Join(lines[1..])
  }

  /** `_encode_toml`: the top table has no header. */
  function Print(doc: Doc): string { RStrip(Join(Body(doc, []))) + "\n" }

  predicate OneLine(s: string) { forall i :: 0 <= i < |s| ==> s[i] != '\n' }

  function LineLength(s: string): (k: nat)
    ensures k <= |s| && OneLine(s[..k]) && (k < |s| ==> s[k] == '\n')
  {
    if s == [] || s[0] == '\n' then 0 else 1 + LineLength(s[1..])
  }

  function Split(s: string): seq<string>
    decreases |s|
  {
    var k := LineLength(s);
    if k == |s| then [s] else [s[..k]] + Split(s[k + 1..])
  }

  function Parse(text: string): Option<Dict> {
    var st := ReadLines(State(map[], []), Split(text));
    if st.None? then None else Some(st.value.root)
  }

  // ---------------------------------------------------------------- lines

  lemma {:induction false} LineEnds(s: string, k: nat)
    requires k < |s| && s[k] == '\n' && OneLine(s[..k])
    ensures LineLength(s) == k
  {
    if k > 0 {
      assert s[..k][0] == s[0] && s[1..][..k - 1] == s[..k][1..];
      LineEnds(s[1..], k - 1);
    }
  }

  lemma SplitFirst(line: string, rest: string)
    requires OneLine(line)
    ensures Split(line) == [line]
    ensures Split(line + "\n" + rest) == [line] + Split(rest)
  {
    assert LineLength(line) == |line|;
    var s := line + "\n" + rest;
    assert s[|line|] == '\n' && s[..|line|] == line;
    LineEnds(s, |line|);
    assert s[|line| + 1..] == rest;
  }

  /** Splitting undoes joining, for lines without a newline. */
  lemma {:induction false} SplitJoin(lines: seq<string>)
    requires lines != [] && forall i :: 0 <= i < |lines| ==> OneLine(lines[i])
    ensures Split(Join(lines) + "\n") == lines + [""]
  {
    SplitFirst(lines[0], "");
    SplitFirst("", "");
    if |lines| == 1 {
      assert lines[0] + "\n" + "" == Join(lines) + "\n";
      assert lines == [lines[0]];
    } else {
      assert Join(lines) + "\n" == lines[0] + "\n" + (Join(lines[1..]) + "\n");
      SplitFirst(lines[0], Join(lines[1..]) + "\n");
      SplitJoin(lines[1..]);
      assert lines == [lines[0]] + lines[1..];
    }
  }

  lemma {:induction false} JoinLast(lines: seq<string>)
    requires lines != [] && Solid(lines[|lines| - 1])
    ensures Solid(Join(lines))
  {
    if |lines| > 1 {
      JoinLast(lines[1..]);
      assert Join(lines)[|Join(lines)| - 1] == Join(lines[1..])[|Join(lines[1..])| - 1];
    }
  }

  /** Ends in a character that `rstrip` keeps. */
  predicate Solid(s: string) { s != [] && !Space(s[|s| - 1]) }

  // ---------------------------------------------------------------- printed lines

  lemma {:induction false} EscapedOneLine(s: string)
    ensures OneLine(Escaped(s))
  {
    if s != [] { EscapedOneLine(s[1..]); }
  }

  lemma QuoteGood(s: string)
    ensures OneLine(Quote(s)) && Solid(Quote(s))
  {
    EscapeIsCharwise(s);
    EscapedOneLine(s);
    hide Escape;
    hide Escaped;
  }

  lemma IntGood(n: int)
    ensures OneLine(PrintInt(n)) && Solid(PrintInt(n))
  {
    var d := Digits(if n < 0 then -n else n);
    hide Digits;
    assert d != [] && forall i :: 0 <= i < |d| ==> Digit(d[i]);
    assert PrintInt(n)[|PrintInt(n)| - 1] == d[|d| - 1];
  }

  lemma {:induction false} ValueGood(v: Scalar)
    ensures OneLine(PrintValue(v)) && Solid(PrintValue(v))
    decreases v, 0
  {
    hide PrintInt;
    hide Quote;
    match v
    case Bool(b) =>
    case Int(n) => IntGood(n);
    case Str(s) => QuoteGood(s);
    case List(items) =>
      ItemsGood(items);
      hide PrintItems;
  }

  lemma {:induction false} ItemsGood(items: seq<Scalar>)
    ensures OneLine(PrintItems(items))
    decreases items, 1
  {
    if items != [] {
      ValueGood(items[0]);
      hide PrintValue;
      if |items| > 1 { ItemsGood(items[1..]); }
    }
  }

  lemma KeyGood(k: string)
    ensures OneLine(PrintKey(k))
  {
    QuoteGood(k);
    hide Quote;
  }

  lemma {:induction false} PathGood(path: seq<string>)
    ensures OneLine(JoinKeys(path))
    decreases |path|
  {
    if path != [] {
      KeyGood(path[0]);
      hide PrintKey;
      if |path| > 1 { PathGood(path[1..]); }
    }
  }

  lemma HeaderGood(path: seq<string>)
    ensures OneLine(Header(path)) && Solid(Header(path))
  {
    PathGood(path);
    hide JoinKeys;
  }

  lemma AssignmentGood(e: Entry)
    requires e.item.Leaf?
    ensures OneLine(Assignment(e)) && Solid(Assignment(e))
  {
    KeyGood(e.key);
    ValueGood(e.item.v);
    hide PrintKey;
    hide PrintValue;
    assert Assignment(e)[|Assignment(e)| - 1] == PrintValue(e.item.v)[|PrintValue(e.item.v)| - 1];
  }

  /** No line holds a newline, and the last line, if any, ends the text visibly. */
  predicate Good(lines: seq<string>) {
    (forall i :: 0 <= i < |lines| ==> OneLine(lines[i])) && (lines != [] ==> Solid(lines[|lines| - 1]))
  }

  lemma GoodConcat(a: seq<string>, blank: bool, b: seq<string>)
    requires Good(a) && Good(b) && (blank ==> b != [])
    ensures Good(a + (if blank then [""] else []) + b)
  {
    hide Solid;
  }

  lemma {:induction false} ScalarsGood(doc: Doc)
    ensures Good(ScalarLines(doc))
  {
    if doc != [] {
      ScalarsGood(doc[1..]);
      if doc[0].item.Leaf? { AssignmentGood(doc[0]); }
      hide OneLine;
      hide Solid;
      hide Assignment;
    }
  }

  lemma {:induction false} BodyGood(doc: Doc, path: seq<string>)
    ensures Good(Body(doc, path))
    decreases doc, 1
  {
    ScalarsGood(doc);
    ChildrenGood(doc, path);
    hide Good;
    GoodConcat(ScalarLines(doc), ScalarLines(doc) != [] && HasTable(doc), ChildLines(doc, path));
  }

  lemma {:induction false} ChildrenGood(doc: Doc, path: seq<string>)
    ensures Good(ChildLines(doc, path)) && (HasTable(doc) <==> ChildLines(doc, path) != [])
    decreases doc, 0
  {
    hide OneLine;
    hide Solid;
    hide Body;
    hide Header;
    if doc != [] {
      ChildrenGood(doc[1..], path);
      assert HasTable(doc) <==> doc[0].item.Table? || HasTable(doc[1..]);
      if doc[0].item.Table? {
        var here := path + [doc[0].key];
        HeaderGood(here);
        BodyGood(doc[0].item.entries, here);
        var lines := [Header(here)] + Body(doc[0].item.entries, here);
        assert Good(lines);
        GoodConcat(lines, HasTable(doc[1..]), ChildLines(doc[1..], path));
      }
    }
  }

  // ---------------------------------------------------------------- the round trip

  lemma PrintLines(doc: Doc)
    ensures Split(Print(doc)) == if Body(doc, []) == [] then ["", ""] else Body(doc, []) + [""]
  {
    var lines := Body(doc, []);
    BodyGood(doc, []);
    hide Body;
    if lines == [] {
      SplitFirst("", "");
      assert Print(doc) == "" + "\n" + "";
    } else {
      JoinLast(lines);
      assert RStrip(Join(lines)) == Join(lines);
      SplitJoin(lines);
    }
  }

  /** Reading the printed document gives back the document, for every document whose keys
      and strings have no control character but newline and tab; any other document prints
      as text that is not TOML. */
  lemma RoundTrip(doc: Doc)
    requires Proper(doc) && Printable(doc)
    ensures Parse(Print(doc)) == if CleanDoc(doc) then Some(Meaning(doc)) else None
  {
    var st, lines := State(map[], []), Body(doc, []);
    PrintLines(doc);
    ReadBody(map[], [], doc);
    hide Print;
    hide Body;
    hide CleanDoc;
    hide Proper;
    if lines == [] {
      assert ReadLines(st, lines) == Some(st);
      assert ["", ""][1..] == [""];
      ReadOne(st, "");
      assert ReadLines(st, ["", ""]) == ReadLines(st, [""]);
    } else {
      ReadLinesConcat(st, lines, [""]);
      var r := ReadLines(st, lines);
      if r.Some? { ReadOne(r.value, ""); }
    }
  }

  /** Two documents that print alike mean the same. */
  lemma PrintedAlikeMeansAlike(a: Doc, b: Doc)
    requires Proper(a) && Printable(a) && Proper(b) && Printable(b) && CleanDoc(a) && CleanDoc(b) && Print(a) == Print(b)
    ensures Meaning(a) == Meaning(b)
  {
    RoundTrip(a);
    RoundTrip(b);
  }
}
