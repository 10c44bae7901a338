/** The settings document as text: the printer of `app/config/store.py`, and a reader for
    the part of TOML v1.0.0 the printer uses (basic strings, bare and quoted keys,
    integers, booleans, arrays, standard tables). */
module Toml {

  import opened Wrappers

  datatype Scalar = Bool(b: bool) | Int(n: int) | Str(s: string) | List(items: seq<Scalar>)

  // ---------------------------------------------------------------- strings

  /** Python's `str.replace` of one character by a string. */
  function Replace(s: string, c: char, sub: string): string {
    if s == [] then [] else (if s[0] == c then sub else [s[0]]) + Replace(s[1..], c, sub)
  }

  /** `_toml_string`: three replacements, one after the other. */
  function Escape(s: string): string {
    Replace(Replace(Replace(s, '\\', "\\\\"), '"', "\\\""), '\n', "\\n")
  }

  function Quote(s: string): string { "\"" + Escape(s) + "\"" }

  /** The same escaping, one character at a time. */
  function EscapeChar(c: char): string {
    if c == '\\' then "\\\\" else if c == '"' then "\\\"" else if c == '\n' then "\\n" else [c]
  }

  function Escaped(s: string): string {
    if s == [] then [] else EscapeChar(s[0]) + Escaped(s[1..])
  }

  lemma {:induction false} ReplaceConcat(s: string, t: string, c: char, sub: string)
    ensures Replace(s + t, c, sub) == Replace(s, c, sub) + Replace(t, c, sub)
  {
    if s == [] {
      assert s + t == t;
    } else {
      assert (s + t)[1..] == s[1..] + t;
      ReplaceConcat(s[1..], t, c, sub);
    }
  }

  lemma {:induction false} EscapeIsCharwise(s: string)
    ensures Escape(s) == Escaped(s)
  {
    if s != [] {
      EscapeIsCharwise(s[1..]);
      var one := Replace([s[0]], '\\', "\\\\");
      assert s == [s[0]] + s[1..];
      ReplaceConcat([s[0]], s[1..], '\\', "\\\\");
      ReplaceConcat(one, Replace(s[1..], '\\', "\\\\"), '"', "\\\"");
      ReplaceConcat(Replace(one, '"', "\\\""), Replace(Replace(s[1..], '\\', "\\\\"), '"', "\\\""), '\n', "\\n");
      EscapeOne(s[0]);
    }
  }

  lemma EscapeOne(c: char)
    ensures Escape([c]) == EscapeChar(c)
  {
    assert [c][1..] == [];
    if c == '\\' {
      var t := "\\\\";
      assert Replace([c], '\\', t) == t;
      assert t[1..] == ['\\'] && t[1..][1..] == [];
      assert Replace(t[1..], '"', "\\\"") == ['\\'];
      assert Replace(t, '"', "\\\"") == t;
      assert Replace(t[1..], '\n', "\\n") == ['\\'];
      assert Replace(t, '\n', "\\n") == t;
    } else if c == '"' {
      var t := "\\\"";
      assert Replace([c], '\\', "\\\\") == [c];
      assert Replace([c], '"', t) == t;
      assert t[1..] == ['"'] && t[1..][1..] == [];
      assert Replace(t[1..], '\n', "\\n") == ['"'];
      assert Replace(t, '\n', "\\n") == t;
    } else {
      assert Replace([c], '\\', "\\\\") == [c];
      assert Replace([c], '"', "\\\"") == [c];
      assert Replace([c], '\n', "\\n") == EscapeChar(c) + [];
    }
  }

  /** Control characters that a basic string may not contain unescaped. */
  predicate Illegal(c: char) { (c as int < 0x20 && c != '\t') || c as int == 0x7F }

  /** What the printer escapes or may leave as it is. */
  predicate Clean(s: string) {
    forall i :: 0 <= i < |s| ==> s[i] == '\n' || !Illegal(s[i])
  }

  /** So a text is clean when it has no control character but newline and tab. */
  lemma CleanExactly(s: string)
    ensures Clean(s) <==>
              forall i :: 0 <= i < |s| ==> s[i] == '\n' || s[i] == '\t' || (s[i] as int >= 32 && s[i] as int != 127)
  {
  }

  /** The character an escape stands for (section String of TOML v1.0.0, short forms). */
  function Unescape(c: char): Option<char> {
    if c == 'b' then Some('\U{0008}') else if c == 't' then Some('\t') else if c == 'n' then Some('\n')
    else if c == 'f' then Some('\U{000C}') else if c == 'r' then Some('\r')
    else if c == '"' then Some('"') else if c == '\\' then Some('\\') else None
  }

  lemma UnescapeExactly(c: char)
    ensures Unescape(c) == match c case 'b' => Some(8 as char) case 't' => Some(9 as char) case 'n' => Some(10 as char)
                                   case 'f' => Some(12 as char) case 'r' => Some(13 as char)
                                   case '"' => Some('"') case '\\' => Some('\\') case _ => None
  {
  }

  /** Read a basic string whose opening quote is gone. */
  function ReadString(s: string): (r: Option<(string, string)>)
    ensures r.Some? ==> |r.value.1| < |s|
  {
    if s == [] then None
    else if s[0] == '"' then Some(([], s[1..]))
    else if s[0] == '\\' then
      if |s| < 2 || Unescape(s[1]).None? then None
      else
        var tail := ReadString(s[2..]);
        if tail.None? then None else Some(([Unescape(s[1]).value] + tail.value.0, tail.value.1))
    else if Illegal(s[0]) then None
    else
      var tail := ReadString(s[1..]);
      if tail.None? then None else Some(([s[0]] + tail.value.0, tail.value.1))
  }

  lemma {:induction false} ReadEscaped(s: string, rest: string)
    ensures ReadString(Escaped(s) + "\"" + rest) == if Clean(s) then Some((s, rest)) else None
  {
    var text := Escaped(s) + "\"" + rest;
    if s == [] {
      assert text == "\"" + rest;
      assert text[1..] == rest;
    } else {
      ReadEscaped(s[1..], rest);
      var more := Escaped(s[1..]) + "\"" + rest;
      assert text == EscapeChar(s[0]) + more;
      assert text[|EscapeChar(s[0])|..] == more;
      assert Clean(s) <==> (s[0] == '\n' || !Illegal(s[0])) && Clean(s[1..]) by {
        assert s == [s[0]] + s[1..];
      }
      assert s == [s[0]] + s[1..];
    }
  }

  lemma ReadQuoted(s: string, rest: string)
    ensures var text := Quote(s) + rest;
            text[0] == '"' && ReadString(text[1..]) == if Clean(s) then Some((s, rest)) else None
  {
    EscapeIsCharwise(s);
    ReadEscaped(s, rest);
    assert (Quote(s) + rest)[1..] == Escaped(s) + "\"" + rest;
  }

  // ---------------------------------------------------------------- integers

  predicate Digit(c: char) { '0' <= c <= '9' }

  function DigitOf(d: nat): char
    requires d < 10
  {
    (d + '0' as int) as char
  }

  function DigitValue(c: char): nat
    requires Digit(c)
  {
    c as int - '0' as int
  }

  /** Python's `str` of a non-negative integer. */
  function Digits(n: nat): (s: string)
    ensures s != [] && (forall i :: 0 <= i < |s| ==> Digit(s[i]))
    ensures n > 0 ==> s[0] != '0'
  {
    if n < 10 then [DigitOf(n)] else Digits(n / 10) + [DigitOf(n % 10)]
  }

  function PrintInt(n: int): string { if n < 0 then "-" + Digits(-n) else Digits(n) }

  function Value(s: string): nat
    requires forall i :: 0 <= i < |s| ==> Digit(s[i])
  {
    if s == [] then 0 else 10 * Value(s[..|s| - 1]) + DigitValue(s[|s| - 1])
  }

  lemma {:induction false} ValueOfDigits(n: nat)
    ensures Value(Digits(n)) == n
  {
    var s := Digits(n);
    if n < 10 {
      assert s[..0] == [];
    } else {
      assert s[..|s| - 1] == Digits(n / 10);
      ValueOfDigits(n / 10);
    }
  }

  /** Length of the leading run of digits. */
  function DigitRun(s: string): (k: nat)
    ensures k <= |s| && forall i :: 0 <= i < k ==> Digit(s[i])
    ensures k < |s| ==> !Digit(s[k])
  {
    if s == [] || !Digit(s[0]) then 0 else 1 + DigitRun(s[1..])
  }

  /** An unsigned decimal integer: at least one digit, no leading zero. */
  function ReadNat(s: string): (r: Option<(nat, string)>)
    ensures r.Some? ==> |r.value.1| < |s|
  {
    var k := DigitRun(s);
    if k == 0 || (k > 1 && s[0] == '0') then None else Some((Value(s[..k]), s[k..]))
  }

  lemma ReadDigits(n: nat, rest: string)
    requires rest == [] || !Digit(rest[0])
    ensures ReadNat(Digits(n) + rest) == Some((n, rest))
  {
    var d := Digits(n);
    var s := d + rest;
    var k := DigitRun(s);
    assert forall i :: 0 <= i < |d| ==> s[i] == d[i];
    assert rest != [] ==> s[|d|] == rest[0];
    assert k == |d|;
    assert s[..k] == d && s[k..] == rest;
    ValueOfDigits(n);
    if n == 0 { assert |d| == 1; }
  }

  // ---------------------------------------------------------------- values

  function PrintValue(v: Scalar): string {
    match v
    case Bool(b) => if b then "true" else "false"
    case Int(n) => PrintInt(n)
    case Str(s) => Quote(s)
    case List(items) => "[" + PrintItems(items) + "]"
  }

  function PrintItems(items: seq<Scalar>): string {
    if items == [] then ""
    else if |items| == 1 then PrintValue(items[0])
    else PrintValue(items[0]) + ", " + PrintItems(items[1..])
  }

  predicate CleanValue(v: Scalar) {
    match v
    case Str(s) => Clean(s)
    case List(items) => forall i :: 0 <= i < |items| ==> CleanValue(items[i])
    case _ => true
  }

  function Skip(s: string): (r: string)
    ensures |r| <= |s|
  {
    if s != [] && (s[0] == ' ' || s[0] == '\t') then Skip(s[1..]) else s
  }

  function ReadValue(s: string): (r: Option<(Scalar, string)>)
    ensures r.Some? ==> |r.value.1| < |s|
    decreases |s|, 0
  {
    if s == [] then None
    else if s[0] == '"' then
      var t := ReadString(s[1..]);
      if t.None? then None else Some((Str(t.value.0), t.value.1))
    else if s[0] == '[' then
      var t := Skip(s[1..]);
      if t != [] && t[0] == ']' then Some((List([]), t[1..]))
      else
        var items := ReadItems(t);
        if items.None? then None else Some((List(items.value.0), items.value.1))
    else if s[0] == '-' then
      var t := ReadNat(s[1..]);
      if t.None? then None else Some((Int(0 - t.value.0 as int), t.value.1))
    else if Digit(s[0]) then
      var t := ReadNat(s);
      if t.None? then None else Some((Int(t.value.0), t.value.1))
    else if |s| >= 4 && s[..4] == "true" then Some((Bool(true), s[4..]))
    else if |s| >= 5 && s[..5] == "false" then Some((Bool(false), s[5..]))
    else None
  }

  /** Array elements up to and including the closing bracket. */
  function ReadItems(s: string): (r: Option<(seq<Scalar>, string)>)
    ensures r.Some? ==> |r.value.1| < |s|
    decreases |s|, 1
  {
    var v := ReadValue(s);
    if v.None? then None
    else
      var t := Skip(v.value.1);
      if t == [] then None
      else if t[0] == ']' then Some(([v.value.0], t[1..]))
      else if t[0] == ',' then
        var more := ReadItems(Skip(t[1..]));
        if more.None? then None else Some(([v.value.0] + more.value.0, more.value.1))
      else None
  }

  /** Text that may follow a value: nothing that could continue a number. */
  /** What the reader does not take: a number with a leading zero, a word that only begins like
      one of the two, and items without a comma between them; blanks are skipped and nothing
      else is. */
  lemma NotTaken(s: string)
    ensures |s| > 1 && s[0] == '0' && Digit(s[1]) ==> ReadNat(s).None?
    ensures s != [] && s[0] == 't' && !(|s| >= 4 && s[..4] == "true") ==> ReadValue(s).None?
    ensures s != [] && s[0] == 'f' && !(|s| >= 5 && s[..5] == "false") ==> ReadValue(s).None?
    ensures s != [] && s[0] !in {'"', '[', '-', 't', 'f'} && !('0' <= s[0] <= '9') ==> ReadValue(s).None?
    ensures s != [] ==> Skip(s) == if s[0] == ' ' || s[0] == '\t' then Skip(s[1..]) else s
    ensures ReadValue(s).Some? ==>
              var t := Skip(ReadValue(s).value.1);
              t == [] || (t[0] != ',' && t[0] != ']') ==> ReadItems(s).None?
  {
  }

  predicate Stops(rest: string) { rest == [] || !Digit(rest[0]) }

  lemma FirstChar(v: Scalar, rest: string)
    ensures var s := PrintValue(v) + rest;
            s != [] && s[0] != ' ' && s[0] != '\t' && s[0] != ']' && s[0] != ','
  {
    if v.Int? {
      if v.n < 0 { assert PrintValue(v)[0] == '-'; } else { assert PrintValue(v)[0] == Digits(v.n)[0]; }
    }
  }

  lemma ReadPrintedInt(n: int, rest: string)
    requires Stops(rest)
    ensures ReadValue(PrintInt(n) + rest) == Some((Int(n), rest))
  {
    hide ReadItems;
    hide ReadString;
    hide ReadNat;
    if n < 0 {
      ReadDigits(-n, rest);
      assert (PrintInt(n) + rest)[1..] == Digits(-n) + rest;
    } else {
      ReadDigits(n, rest);
      assert (Digits(n) + rest)[0] == Digits(n)[0];
    }
  }

  /** Reading a printed value gives it back, or fails when a string in it has a control
      character the printer does not escape. */
  lemma {:induction false} ReadPrinted(v: Scalar, rest: string)
    requires Stops(rest)
    ensures ReadValue(PrintValue(v) + rest) == if CleanValue(v) then Some((v, rest)) else None
    decreases v, 0
  {
    hide ReadItems;
    hide ReadString;
    hide ReadNat;
    var s := PrintValue(v) + rest;
    match v
    case Bool(b) =>
      if b { assert s[..4] == "true" && s[4..] == rest; } else { assert s[..5] == "false" && s[5..] == rest; }
    case Int(n) => ReadPrintedInt(n, rest);
    case Str(t) => ReadQuoted(t, rest);
    case List(items) =>
      assert s[1..] == PrintItems(items) + "]" + rest;
      if items == [] {
        assert s[1..] == "]" + rest;
      } else {
        ReadPrintedItems(items, rest);
        ItemsFirst(items, "]" + rest);
        assert ItemsText(items, rest) == PrintItems(items) + ("]" + rest);
      }
  }

  lemma ItemsFirst(items: seq<Scalar>, rest: string)
    requires items != []
    ensures var s := PrintItems(items) + rest;
            s != [] && s[0] != ' ' && s[0] != '\t' && s[0] != ']'
  {
    if |items| == 1 {
      FirstChar(items[0], rest);
    } else {
      var tail := ", " + PrintItems(items[1..]) + rest;
      FirstChar(items[0], tail);
      assert PrintItems(items) + rest == PrintValue(items[0]) + tail;
    }
  }

  lemma ReadLastItem(s: string, v: Scalar, rest: string)
    requires ReadValue(s) == Some((v, "]" + rest))
    ensures ReadItems(s) == Some(([v], rest))
  {
    hide ReadValue;
    assert ("]" + rest)[1..] == rest;
  }

  lemma ReadBadItem(s: string)
    requires ReadValue(s) == None
    ensures ReadItems(s) == None
  {
  }

  lemma ReadMoreItems(s: string, v: Scalar, tail: string)
    requires ReadValue(s) == Some((v, ", " + tail)) && tail != [] && tail[0] != ' ' && tail[0] != '\t'
    ensures ReadItems(s) == var more := ReadItems(tail);
                            if more.None? then None else Some(([v] + more.value.0, more.value.1))
  {
    hide ReadValue;
    var next := ", " + tail;
    assert next[1..] == " " + tail && (" " + tail)[1..] == tail;
    assert Skip(next[1..]) == Skip(tail);
  }

  lemma CleanItems(items: seq<Scalar>)
    requires items != []
    ensures CleanValue(List(items)) <==> CleanValue(items[0]) && CleanValue(List(items[1..]))
    ensures |items| == 1 ==> CleanValue(List(items[1..]))
  {
    assert forall i :: 0 < i < |items| ==> items[i] == items[1..][i - 1];
  }

  function ItemsText(items: seq<Scalar>, rest: string): string { PrintItems(items) + "]" + rest }

  lemma ItemsShape(items: seq<Scalar>, rest: string)
    requires items != []
    ensures ItemsText(items, rest)
            == PrintValue(items[0]) + if |items| == 1 then "]" + rest else ", " + ItemsText(items[1..], rest)
    ensures ItemsText(items, rest) != [] && ItemsText(items, rest)[0] != ' ' && ItemsText(items, rest)[0] != '\t'
  {
    hide PrintValue;
    ItemsFirst(items, "]" + rest);
    assert ItemsText(items, rest) == PrintItems(items) + ("]" + rest);
    if |items| > 1 {
      var head, tail := PrintValue(items[0]), PrintItems(items[1..]);
      RegroupItems(head, tail, rest);
    }
  }

  lemma RegroupItems(head: string, tail: string, rest: string)
    ensures (head + ", " + tail) + "]" + rest == head + (", " + (tail + "]" + rest))
  {
  }

  lemma {:induction false} ReadPrintedItems(items: seq<Scalar>, rest: string)
    requires items != []
    ensures ReadItems(ItemsText(items, rest)) == if CleanValue(List(items)) then Some((items, rest)) else None
    decreases items, 1
  {
    CleanItems(items);
    ItemsShape(items, rest);
    hide ReadValue;
    hide ReadItems;
    hide PrintValue;
    hide CleanValue;
    var s := ItemsText(items, rest);
    if |items| == 1 {
      hide ItemsText;
      ReadPrinted(items[0], "]" + rest);
      if CleanValue(items[0]) { ReadLastItem(s, items[0], rest); } else { ReadBadItem(s); }
      assert [items[0]] == items;
    } else {
      ItemsShape(items[1..], rest);
      hide ItemsText;
      var tail := ItemsText(items[1..], rest);
      ReadPrinted(items[0], ", " + tail);
      ReadPrintedItems(items[1..], rest);
      if CleanValue(items[0]) { ReadMoreItems(s, items[0], tail); } else { ReadBadItem(s); }
      assert [items[0]] + items[1..] == items;
    }
  }
}
