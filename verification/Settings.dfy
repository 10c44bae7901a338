/** The settings store: reading, merging over the defaults, refusing secrets, saving. */
module Settings {

  import opened Wrappers
  import opened Toml
  import opened TomlDocument
  import opened TomlText
  import opened TomlWriter
  import opened Merge

  // ---------------------------------------------------------------- merging dictionaries

  /** The position of a key, or the length. */
  function Find(doc: Doc, k: string): (i: nat)
    ensures i <= |doc| && (i < |doc| ==> doc[i].key == k)
    ensures forall j :: 0 <= j < i ==> doc[j].key != k
    ensures (exists j :: 0 <= j < |doc| && doc[j].key == k) ==> i < |doc|
  {
    if doc == [] || doc[0].key == k then 0 else 1 + Find(doc[1..], k)
  }

  /** `d[k] = item`: in place when the key is there, at the end when it is new. */
  function Assign(doc: Doc, k: string, item: Item): Doc {
    var i := Find(doc, k);
    if i < |doc| then doc[i := Entry(k, item)] else doc + [Entry(k, item)]
  }

  lemma AssignKeepsProper(doc: Doc, k: string, item: Item)
    requires Proper(doc) && ProperItem(item)
    ensures Proper(Assign(doc, k, item))
  {
  }

  lemma AssignFind(doc: Doc, k: string, item: Item, x: string)
    ensures var r, i, j := Assign(doc, k, item), Find(doc, x), Find(Assign(doc, k, item), x);
            if x == k then j < |r| && r[j].item == item
            else (j < |r| <==> i < |doc|) && (i < |doc| ==> r[j].item == doc[i].item)
  {
    var r, i, j := Assign(doc, k, item), Find(doc, x), Find(Assign(doc, k, item), x);
    if x == k {
      assert r[Find(doc, k)].key == k;
    } else {
      if i < |doc| { assert r[i].key == x; }
      if j < |r| { assert doc[j].key == x; }
    }
  }

  lemma AssignMeans(doc: Doc, k: string, item: Item)
    requires Proper(doc) && ProperItem(item)
    ensures Proper(Assign(doc, k, item))
    ensures Meaning(Assign(doc, k, item)) == Meaning(doc)[k := ItemMeaning(item)]
  {
    var r := Assign(doc, k, item);
    AssignKeepsProper(doc, k, item);
    assert DistinctKeys(r) && DistinctKeys(doc);
    hide Meaning;
    hide ItemMeaning;
    hide Assign;
    hide Proper;
    hide DistinctKeys;
    var m := Meaning(doc)[k := ItemMeaning(item)];
    forall x
      ensures x in Meaning(r) <==> x in m
      ensures x in m ==> Meaning(r)[x] == m[x]
    {
      MeaningFind(doc, x);
      MeaningFind(r, x);
      AssignFind(doc, k, item, x);
    }
  }

  lemma KeysOf(doc: Doc, k: string)
    ensures k in (set e | e in doc :: e.key) <==> Find(doc, k) < |doc|
  {
    if Find(doc, k) < |doc| {
      assert doc[Find(doc, k)] in doc;
    }
  }

  lemma OverlayAdd(b: Dict, o: Dict, k: string, v: Tree)
    requires k !in o
    ensures Overlay(b, o[k := v])
            == Overlay(b, o)[k := if k in b && b[k].Node? && v.Node? then Node(Overlay(b[k].children, v.children)) else v]
  {
    var o' := o[k := v];
    assert Overlay(b, o').Keys == Overlay(b, o).Keys + {k};
    assert forall x :: x in Overlay(b, o) && x != k ==> Overlay(b, o')[x] == Overlay(b, o)[x];
  }

  lemma EmptyMeans()
    ensures Meaning([]) == map[]
  {
  }

  lemma OverlayNothing(b: Dict)
    ensures Overlay(b, map[]) == b
  {
  }

  /** A key the overlay has not reached yet is still the base's. */
  lemma MergeStep(b: Dict, o: Dict, k: string)
    requires k !in o
    ensures k in Overlay(b, o) <==> k in b
    ensures k in b ==> Overlay(b, o)[k] == b[k]
  {
  }

  lemma MeaningFind(doc: Doc, k: string)
    requires DistinctKeys(doc)
    ensures var i := Find(doc, k);
            if i < |doc| then k in Meaning(doc) && Meaning(doc)[k] == ItemMeaning(doc[i].item) else k !in Meaning(doc)
  {
    MeaningAt(doc);
    KeysOf(doc, k);
  }

  lemma MeaningNext(o: Doc, i: nat)
    requires i < |o| && Proper(o)
    ensures o[i].key !in Meaning(o[..i])
    ensures Meaning(o[..i + 1]) == Meaning(o[..i])[o[i].key := ItemMeaning(o[i].item)]
  {
    assert o[..i + 1][..i] == o[..i];
    MeaningAt(o[..i]);
  }

  /** `_deep_merge`: the loop over the overlay's items computes the key-by-key overlay. */
  method DeepMerge(b: Doc, o: Doc) returns (m: Doc)
    requires Proper(b) && Proper(o)
    ensures Proper(m) && Meaning(m) == Overlay(Meaning(b), Meaning(o))
    decreases o
  {
    hide Overlay;
    hide Meaning;
    hide DistinctKeys;
    m := b;
    var i := 0;
    OverlayNothing(Meaning(b));
    EmptyMeans();
    assert o[..0] == [];
    while i < |o|
      invariant i <= |o|
      invariant Proper(m) && Meaning(m) == Overlay(Meaning(b), Meaning(o[..i]))
    {
      var k, item := o[i].key, o[i].item;
      var j := Find(m, k);
      assert ProperItem(item) && (j < |m| ==> ProperItem(m[j].item));
      MeaningNext(o, i);
      OverlayAdd(Meaning(b), Meaning(o[..i]), k, ItemMeaning(item));
      MeaningFind(m, k);
      MergeStep(Meaning(b), Meaning(o[..i]), k);
      var merged;
      if j < |m| && m[j].item.Table? && item.Table? {
        var sub := DeepMerge(m[j].item.entries, item.entries);
        merged := Table(sub);
      } else {
        merged := item;
      }
      AssignMeans(m, k, merged);
      m := Assign(m, k, merged);
      i := i + 1;
    }
    assert o[..i] == o;
  }

  // ---------------------------------------------------------------- secrets

  /** Case folding of one character as `re.I` does it for the letters of the pattern. */
  function Fold(c: char): char {
    if 'A' <= c <= 'Z' then (c as int + 32) as char
    else if c == '\U{017F}' then 's' else if c == '\U{212A}' then 'k'
    else if c == '\U{0130}' || c == '\U{0131}' then 'i' else c
  }

  predicate EndsFolded(s: string, suffix: string) {
    |s| >= |suffix| && forall i :: 0 <= i < |suffix| ==> Fold(s[|s| - |suffix| + i]) == suffix[i]
  }

  const WORDS: seq<string> := ["password", "apikey", "api_key", "api-key", "secret", "token", "credential_blob"]

  /** `_SECRET_KEY.search`: `$` also matches before one final newline. */
  predicate SecretName(k: string) {
    var s := if k != [] && k[|k| - 1] == '\n' then k[..|k| - 1] else k;
    exists i :: 0 <= i < |WORDS| && (EndsFolded(k, WORDS[i]) || EndsFolded(s, WORDS[i]))
  }

  predicate EndsWith(s: string, suffix: string) { |s| >= |suffix| && s[|s| - |suffix|..] == suffix }

  /** The refusal condition of `_reject_secret_fields`. */
  predicate Refused(k: string) { SecretName(k) && !EndsWith(k, "credential_id") }

  /** The exemption for credential ids never decides anything. */
  lemma ExemptionIsIdle(k: string)
    ensures Refused(k) <==> SecretName(k)
  {
    if EndsWith(k, "credential_id") {
      var tail := k[|k| - 13..];
      assert tail == "credential_id";
      assert k[|k| - 1] == tail[12] == 'd' && k[|k| - 2] == tail[11] == 'i';
      forall i | 0 <= i < |WORDS|
        ensures !EndsFolded(k, WORDS[i])
      {
        var w := WORDS[i];
        var n := |w|;
        assert w[n - 1] != 'd' || w[n - 2] != 'i';
        assert |k| - n + (n - 1) == |k| - 1 && |k| - n + (n - 2) == |k| - 2;
      }
    }
  }

  /** A letter of the pattern in any case; the pattern's case folding also takes the long s, the
      Kelvin sign and the two Turkish letters for s, k and i. */
  predicate SameLetter(c: char, l: char) {
    || c == l || (l == 's' && c == '\U{017F}') || (l == 'k' && c == '\U{212A}')
    || (l == 'i' && (c == '\U{0130}' || c == '\U{0131}'))
    || ('A' <= c <= 'Z' && c as int + 32 == l as int)
  }

  predicate EndsLike(k: string, word: string) {
    |word| <= |k| && forall i :: 0 <= i < |word| ==> SameLetter(k[|k| - |word| + i], word[i])
  }

  /** A key is refused if and only if it ends, in any letter case and up to one final newline,
      with one of seven words. */
  lemma RefusedExactly(k: string)
    ensures var bare := if k != "" && k[|k| - 1] == '\n' then k[..|k| - 1] else k;
            Refused(k) <==>
              || EndsLike(k, "password") || EndsLike(k, "apikey") || EndsLike(k, "api_key") || EndsLike(k, "api-key")
              || EndsLike(k, "secret") || EndsLike(k, "token") || EndsLike(k, "credential_blob")
              || EndsLike(bare, "password") || EndsLike(bare, "apikey") || EndsLike(bare, "api_key") || EndsLike(bare, "api-key")
              || EndsLike(bare, "secret") || EndsLike(bare, "token") || EndsLike(bare, "credential_blob")
  {
    ExemptionIsIdle(k);
    hide Refused;
    var bare := if k != "" && k[|k| - 1] == '\n' then k[..|k| - 1] else k;
    forall i | 0 <= i < |WORDS|
      ensures EndsFolded(k, WORDS[i]) <==> EndsLike(k, WORDS[i])
      ensures EndsFolded(bare, WORDS[i]) <==> EndsLike(bare, WORDS[i])
    {
      LikeFolded(k, i);
      LikeFolded(bare, i);
    }
    hide EndsFolded;
    hide EndsLike;
    assert WORDS[0] == "password" && WORDS[1] == "apikey" && WORDS[2] == "api_key" && WORDS[3] == "api-key"
           && WORDS[4] == "secret" && WORDS[5] == "token" && WORDS[6] == "credential_blob" && |WORDS| == 7;
  }

  lemma LikeFolded(k: string, i: nat)
    requires i < |WORDS|
    ensures EndsFolded(k, WORDS[i]) <==> EndsLike(k, WORDS[i])
  {
    forall c: char, j | 0 <= j < |WORDS[i]|
      ensures Fold(c) == WORDS[i][j] <==> SameLetter(c, WORDS[i][j])
    {
      LowerWord(i, j);
    }
  }

  lemma LowerWord(i: nat, j: nat)
    requires i < |WORDS| && j < |WORDS[i]|
    ensures 'a' <= WORDS[i][j] <= 'z' || WORDS[i][j] == '_' || WORDS[i][j] == '-'
  {
  }

  predicate SecretFree(d: Dict)
    decreases Node(d)
  {
    forall k :: k in d ==> !Refused(k) && (d[k].Node? ==> SecretFree(d[k].children))
  }

  /** Free of secrets means no table at any path has a refused key. */
  lemma {:induction false} SecretFreeEverywhere(d: Dict, path: seq<string>)
    requires SecretFree(d) && Get(d, path).Some?
    ensures forall k :: k in Get(d, path).value ==> !Refused(k)
    decreases |path|
  {
    hide Refused;
    if path != [] { SecretFreeEverywhere(d[path[0]].children, path[1..]); }
  }

  /** An offending key, with the tables that lead to it. */
  predicate Offends(d: Dict, at: seq<string>) {
    at != [] && Get(d, at[..|at| - 1]).Some? && at[|at| - 1] in Get(d, at[..|at| - 1]).value && Refused(at[|at| - 1])
  }

  lemma NothingOffends(d: Dict, at: seq<string>)
    requires SecretFree(d)
    ensures !Offends(d, at)
  {
    hide Refused;
    if Offends(d, at) {
      SecretFreeEverywhere(d, at[..|at| - 1]);
    }
  }

  lemma OffendsBelow(d: Dict, k: string, at: seq<string>)
    requires k in d && d[k].Node? && Offends(d[k].children, at)
    ensures Offends(d, [k] + at)
  {
    hide Refused;
    var up := [k] + at;
    assert up[..|up| - 1] == [k] + at[..|at| - 1];
    assert up[..|up| - 1][1..] == at[..|at| - 1];
    assert up[|up| - 1] == at[|at| - 1];
  }

  /** `_reject_secret_fields`: the qualified name of an offending key, if there is one. */
  method RejectSecretFields(doc: Doc) returns (at: Option<seq<string>>)
    requires Proper(doc)
    ensures at.None? <==> SecretFree(Meaning(doc))
    ensures at.Some? ==> Offends(Meaning(doc), at.value)
    decreases doc
  {
    hide Refused;
    MeaningAt(doc);
    var i := 0;
    while i < |doc|
      invariant i <= |doc|
      invariant forall j :: 0 <= j < i ==> !Refused(doc[j].key) && (doc[j].item.Table? ==> SecretFree(Meaning(doc[j].item.entries)))
    {
      var k, item := doc[i].key, doc[i].item;
      assert ProperItem(item);
      if Refused(k) {
        assert [k][..0] == [];
        assert Offends(Meaning(doc), [k]);
        NotFree(Meaning(doc), [k]);
        return Some([k]);
      }
      if item.Table? {
        var sub := RejectSecretFields(item.entries);
        if sub.Some? {
          OffendsBelow(Meaning(doc), k, sub.value);
          NotFree(Meaning(doc), [k] + sub.value);
          return Some([k] + sub.value);
        }
      }
      i := i + 1;
    }
    return None;
  }

  lemma NotFree(d: Dict, at: seq<string>)
    requires Offends(d, at)
    ensures !SecretFree(d)
  {
    if SecretFree(d) { NothingOffends(d, at); }
  }

  lemma {:induction false} OverlaySecretFree(b: Dict, o: Dict)
    requires SecretFree(b) && SecretFree(o)
    ensures SecretFree(Overlay(b, o))
    decreases Node(o)
  {
    hide Refused;
    forall k | Both(b, o, k)
      ensures SecretFree(Overlay(b[k].children, o[k].children))
    {
      OverlaySecretFree(b[k].children, o[k].children);
    }
  }

  /** Not free of secrets means that some key offends, and the tables above it are known. */
  lemma {:induction false} SomethingOffends(d: Dict)
    requires !SecretFree(d)
    ensures exists at :: Offends(d, at)
    decreases Node(d)
  {
    hide Refused;
    var k :| k in d && (Refused(k) || (d[k].Node? && !SecretFree(d[k].children)));
    if Refused(k) {
      assert [k][..0] == [];
      assert Offends(d, [k]);
    } else {
      SomethingOffends(d[k].children);
      var at :| Offends(d[k].children, at);
      OffendsBelow(d, k, at);
    }
  }

  // ---------------------------------------------------------------- secrets inside lists

  /** A refused key occurs somewhere, at the head of a table or inside a list. */
  predicate Mentions(t: Tree) {
    match t
    case Value(_) => false
    case Node(children) => exists k :: k in children && (Refused(k) || Mentions(children[k]))
    case Array(items) => exists i :: 0 <= i < |items| && Mentions(items[i])
    case Time(_) => false
  }

  /** A table without tables or lists in it mentions a secret when a key of its own is refused; a
      refused key on the way, in tables or in lists, is a mention. */
  lemma MentionsExactly(d: Dict, k: string)
    requires k in d
    ensures (forall j :: j in d ==> d[j].Value? || d[j].Time?) ==> (Mentions(Node(d)) <==> exists j :: j in d && Refused(j))
    ensures Refused(k) || Mentions(d[k]) ==> Mentions(Node(d))
    ensures Mentions(Array([Node(d)])) <==> Mentions(Node(d))
  {
    hide Refused;
    assert Mentions(Node(d)) ==> Mentions([Node(d)][0]);
  }

  /** Merging neither hides nor adds a mention, over defaults without any. */
  lemma {:induction false} OverlayMentions(b: Dict, o: Dict)
    requires !Mentions(Node(b))
    ensures Mentions(Node(Overlay(b, o))) <==> Mentions(Node(o))
    decreases Node(o)
  {
    hide Refused;
    var m := Overlay(b, o);
    forall k | k in m
      ensures Mentions(m[k]) <==> k in o && Mentions(o[k])
    {
      if Both(b, o, k) {
        assert b[k] == Node(b[k].children) && o[k] == Node(o[k].children);
        OverlayMentions(b[k].children, o[k].children);
      }
    }
    assert forall k :: k in b ==> !Refused(k) && !Mentions(b[k]);
    if Mentions(Node(m)) {
      var k :| k in m && (Refused(k) || Mentions(m[k]));
      assert k in o && (Refused(k) || Mentions(o[k]));
    }
    if Mentions(Node(o)) {
      var k :| k in o && (Refused(k) || Mentions(o[k]));
      assert k in m && (Refused(k) || Mentions(m[k]));
    }
  }

  // ---------------------------------------------------------------- what can be printed

  predicate PrintableTree(t: Tree) {
    match t
    case Value(_) => true
    case Node(children) => forall k :: k in children ==> PrintableTree(children[k])
    case _ => false
  }

  lemma {:induction false} PrintableMeans(doc: Doc)
    requires Proper(doc)
    ensures Printable(doc) <==> PrintableTree(Node(Meaning(doc)))
    decreases doc
  {
    hide Meaning;
    MeaningAt(doc);
    forall i | 0 <= i < |doc|
      ensures PrintableItem(doc[i].item) <==> PrintableTree(ItemMeaning(doc[i].item))
    {
      assert ProperItem(doc[i].item);
      if doc[i].item.Table? { PrintableMeans(doc[i].item.entries); }
    }
    forall k | k in Meaning(doc)
      ensures exists i :: 0 <= i < |doc| && doc[i].key == k
    {
      KeysOf(doc, k);
    }
    hide PrintableItem;
    hide ItemMeaning;
    if Printable(doc) {
      forall k | k in Meaning(doc)
        ensures PrintableTree(Meaning(doc)[k])
      {
        var i :| 0 <= i < |doc| && doc[i].key == k;
      }
    }
  }

  lemma {:induction false} OverlayPrintable(b: Dict, o: Dict)
    requires PrintableTree(Node(b))
    ensures PrintableTree(Node(Overlay(b, o))) <==> PrintableTree(Node(o))
    decreases Node(o)
  {
    var m := Overlay(b, o);
    forall k | k in m
      ensures PrintableTree(m[k]) <==> (k in o ==> PrintableTree(o[k]))
    {
      if Both(b, o, k) {
        assert b[k] == Node(b[k].children) && o[k] == Node(o[k].children);
        OverlayPrintable(b[k].children, o[k].children);
      }
    }
    assert forall k :: k in o ==> k in m;
  }

  // ---------------------------------------------------------------- the store

  datatype Error = Malformed | SecretField | Unsupported | NotPersisted

  type Reader = string -> Option<Dict>

  /** A TOML reader that reads printed documents as TOML says. What it makes of other text,
      comments or lists of tables for instance, is left open. */
  ghost predicate ReadsPrinted(read: Reader) {
    forall doc :: Proper(doc) && Printable(doc) ==> read(Print(doc)) == Parse(Print(doc))
  }

  /** `load` on the text of the settings file, if there is one. */
  function Loaded(read: Reader, base: Dict, file: Option<string>): Result<Dict, Error> {
    if file.None? then Ok(base)
    else
      var loaded := read(file.value);
      if loaded.None? then Err(Malformed)
      else if !SecretFree(loaded.value) then Err(SecretField)
      else Ok(Overlay(base, loaded.value))
  }

  /** Which system call of a save fails, if any; a write may fail after a part of the text. */
  datatype Fault = NoFault | OpenFails | WriteFails(written: nat) | SyncFails | ReplaceFails

  class SettingsStore {
    const read: Reader
    var file: Option<string>
    /** The temporary file beside it. */
    var temporary: Option<string>

    constructor (read: Reader, text: Option<string>)
      ensures this.read == read && file == text && temporary == None
    {
      this.read := read;
      file, temporary := text, None;
    }

    /** `load`: the defaults, overlaid with what the file holds. `reading` is the dictionary the
        TOML reader builds, in its order, or nothing when the text is malformed. */
    method Load(base: Doc, reading: Option<Doc>) returns (r: Result<Doc, Error>)
      requires Proper(base) && (reading.Some? ==> Proper(reading.value))
      requires file.Some? ==> read(file.value) == if reading.Some? then Some(Meaning(reading.value)) else None
      ensures r.Ok? ==> Proper(r.value) && Loaded(read, Meaning(base), file) == Ok(Meaning(r.value))
      ensures r.Err? ==> Loaded(read, Meaning(base), file) == Err(r.error)
    {
      if file.None? { return Ok(base); }
      if reading.None? { return Err(Malformed); }
      var secret := RejectSecretFields(reading.value);
      if secret.Some? { return Err(SecretField); }
      var merged := DeepMerge(base, reading.value);
      return Ok(merged);
    }

    /** `save`: refuse secrets and values without a form, write the text to a temporary file,
        replace the settings file by it; a failing call removes the temporary file. */
    method Save(document: Doc, fault: Fault, unlinks: bool) returns (r: Result<(), Error>)
      requires Proper(document)
      modifies this
      ensures r == if !SecretFree(Meaning(document)) then Err(SecretField)
                   else if !Printable(document) then Err(Unsupported)
                   else if fault == NoFault then Ok(()) else Err(NotPersisted)
      ensures file == if r.Ok? then Some(Print(document)) else old(file)
      ensures r.Ok? || (r == Err(NotPersisted) && unlinks) ==> temporary == None
      ensures r == Err(NotPersisted) && !unlinks ==>
                match fault
                case OpenFails => temporary == old(temporary)
                case WriteFails(n) => temporary.Some? && temporary.value <= Print(document)
                                      && |temporary.value| == if n < |Print(document)| then n else |Print(document)|
                case _ => temporary == Some(Print(document))
      ensures r == Err(SecretField) || r == Err(Unsupported) ==> temporary == old(temporary)
    {
      hide Printable;
      var secret := RejectSecretFields(document);
      if secret.Some? { return Err(SecretField); }
      var encoded := EncodeToml(document);
      if encoded.None? { return Err(Unsupported); }
      if !fault.OpenFails? {
        temporary := Some("");
        if fault.WriteFails? {
          temporary := Some(encoded.value[..if fault.written <= |encoded.value| then fault.written else |encoded.value|]);
        } else {
          temporary := encoded;
          if fault.NoFault? {
            file, temporary := temporary, None;
            return Ok(());
          }
        }
      }
      if unlinks { temporary := None; }
      return Err(NotPersisted);
    }
  }

  // ---------------------------------------------------------------- what loading refuses

  /** Loading refuses exactly the files with a secret name that is reached through tables
      alone. */
  lemma LoadRefusesExactly(read: Reader, base: Dict, text: string)
    requires read(text).Some?
    ensures Loaded(read, base, Some(text)) == Err(SecretField) <==> exists at :: Offends(read(text).value, at)
  {
    var d := read(text).value;
    if SecretFree(d) {
      forall at
        ensures !Offends(d, at)
      {
        NothingOffends(d, at);
      }
    } else {
      SomethingOffends(d);
    }
    hide SecretFree;
    hide Overlay;
  }

  /** So no loaded settings have a secret name in any table that tables alone lead to; but a
      name inside a list is not looked for: over defaults without one, what loads mentions a
      secret exactly when the file does. */
  lemma LoadsNoSecretOutsideLists(read: Reader, base: Dict, text: string, at: seq<string>)
    requires SecretFree(base) && !Mentions(Node(base)) && Loaded(read, base, Some(text)).Ok?
    ensures var d := Loaded(read, base, Some(text)).value;
            !Offends(d, at) && (Mentions(Node(d)) <==> Mentions(Node(read(text).value)))
  {
    var o := read(text).value;
    OverlaySecretFree(base, o);
    OverlayMentions(base, o);
    NothingOffends(Overlay(base, o), at);
  }

  /** What was loaded can be saved at all exactly when the file holds no table or date inside
      a list, and no date. */
  lemma SavableExactly(read: Reader, base: Dict, text: string, doc: Doc)
    requires SecretFree(base) && PrintableTree(Node(base)) && Proper(doc)
    requires Loaded(read, base, Some(text)) == Ok(Meaning(doc))
    ensures SecretFree(Meaning(doc)) && (Printable(doc) <==> PrintableTree(Node(read(text).value)))
  {
    var o := read(text).value;
    OverlaySecretFree(base, o);
    OverlayPrintable(base, o);
    PrintableMeans(doc);
    hide Overlay;
    hide SecretFree;
  }

  /** `[[accounts]]` with a `password`. */
  const ACCOUNT: Doc := [Entry("password", Leaf(Str("x")))]
  const ACCOUNTS: Doc := [Entry("accounts", Mixed([Table(ACCOUNT)]))]
  const ACCOUNTS_TEXT := "[[accounts]]\npassword = \"x\"\n"

  lemma AccountsMean()
    ensures Meaning(ACCOUNT) == map["password" := Value(Str("x"))]
    ensures Meaning(ACCOUNTS) == map["accounts" := Array([Node(Meaning(ACCOUNT))])]
    ensures Proper(ACCOUNTS)
  {
    assert ACCOUNT[..0] == [] && ACCOUNTS[..0] == [];
    var items := [Table(ACCOUNT)];
    assert items[..0] == [];
    assert Meanings([]) == [];
    assert Meanings(items) == [Node(Meaning(ACCOUNT))];
    assert Proper(ACCOUNT);
    assert ProperItem(Table(ACCOUNT)) && ProperItem(Mixed(items));
  }

  /** A list of tables hides a password from the check: with a reader that reads lists of
      tables the file loads with the password in it, and what was loaded cannot be saved. */
  lemma ListHidesSecret(read: Reader)
    requires read(ACCOUNTS_TEXT) == Some(Meaning(ACCOUNTS))
    ensures Loaded(read, map[], Some(ACCOUNTS_TEXT)) == Ok(Meaning(ACCOUNTS))
    ensures Mentions(Node(Meaning(ACCOUNTS))) && SecretFree(Meaning(ACCOUNTS))
    ensures Proper(ACCOUNTS) && !Printable(ACCOUNTS)
  {
    var inner: Dict := map["password" := Value(Str("x"))];
    var d: Dict := map["accounts" := Array([Node(inner)])];
    AccountsMean();
    assert !Refused("accounts") && Refused("password") by { SecretNames(); }
    hide Refused;
    hide Meaning;
    assert SecretFree(d);
    CoversExactly(map[], d);
    assert Mentions(Node(inner)) by { assert "password" in inner; }
    assert Mentions(Array([Node(inner)])) by { assert Mentions([Node(inner)][0]); }
    assert "accounts" in d && Mentions(d["accounts"]);
    assert !PrintableItem(ACCOUNTS[0].item);
  }

  /** A date loads and cannot be saved either. */
  lemma DateIsNotPrinted(k: string, text: string)
    ensures Proper([Entry(k, Moment(text))]) && !Printable([Entry(k, Moment(text))])
  {
    var doc := [Entry(k, Moment(text))];
    assert ProperItem(doc[0].item);
    assert !PrintableItem(doc[0].item);
  }

  lemma SecretNames()
    ensures !Refused("accounts") && Refused("password")
  {
    hide EndsFolded;
    ExemptionIsIdle("accounts");
    ExemptionIsIdle("password");
    WholeWord("password");
    assert WORDS[0] == "password";
    var k := "accounts";
    assert k[|k| - 1] == 's';
    forall i | 0 <= i < |WORDS|
      ensures !EndsFolded(k, WORDS[i])
    {
      WordsEnd(i);
      if EndsFolded(k, WORDS[i]) { LastFolded(k, WORDS[i]); }
    }
  }

  lemma WholeWord(w: string)
    requires forall i :: 0 <= i < |w| ==> 'a' <= w[i] <= 'z'
    ensures EndsFolded(w, w)
  {
  }

  lemma LastFolded(k: string, w: string)
    requires w != [] && EndsFolded(k, w)
    ensures k != [] && Fold(k[|k| - 1]) == w[|w| - 1]
  {
    assert Fold(k[|k| - |w| + (|w| - 1)]) == w[|w| - 1];
  }

  lemma WordsEnd(i: nat)
    requires i < |WORDS|
    ensures WORDS[i] != [] && WORDS[i][|WORDS[i]| - 1] != 's'
  {
  }

  // ---------------------------------------------------------------- load, save, load

  /** What a saved document loads as: itself over the defaults, or nothing at all when a
      key or string has a control character the printer leaves as it is. */
  lemma SavedLoads(read: Reader, base: Dict, doc: Doc)
    requires ReadsPrinted(read) && Proper(doc) && Printable(doc) && SecretFree(Meaning(doc))
    ensures Loaded(read, base, Some(Print(doc))) == if CleanDoc(doc) then Ok(Overlay(base, Meaning(doc))) else Err(Malformed)
  {
    hide Print;
    hide Parse;
    hide CleanDoc;
    RoundTrip(doc);
  }

  /** Load, save, load: whatever the file was, saving what was loaded, in whatever order its
      keys are kept, loads as the same settings again. */
  lemma LoadSaveLoad(read: Reader, base: Dict, file: Option<string>, doc: Doc)
    requires ReadsPrinted(read) && SecretFree(base)
    requires Loaded(read, base, file) == Ok(Meaning(doc)) && Proper(doc) && Printable(doc)
    ensures SecretFree(Meaning(doc))
    ensures Loaded(read, base, Some(Print(doc))) == if CleanDoc(doc) then Ok(Meaning(doc)) else Err(Malformed)
  {
    hide Parse;
    hide Print;
    hide CleanDoc;
    hide Printable;
    hide Proper;
    hide ReadsPrinted;
    LoadedAbsorbs(read, base, file);
    SavedLoads(read, base, doc);
  }

  /** What loads is free of secrets, and the defaults change nothing in it any more. */
  lemma LoadedAbsorbs(read: Reader, base: Dict, file: Option<string>)
    requires SecretFree(base) && Loaded(read, base, file).Ok?
    ensures var d := Loaded(read, base, file).value; SecretFree(d) && Overlay(base, d) == d
  {
    if file.None? {
      OverlaySelf(base);
    } else {
      var loaded := read(file.value).value;
      OverlaySecretFree(base, loaded);
      BaseAbsorbed(base, loaded);
    }
  }

  /** A file can load and still not survive saving: a carriage return read from an escape
      is written back as it is. */
  lemma EscapedReturnIsLost()
    ensures var doc := [Entry("a", Leaf(Str("\r")))];
            Loaded(Parse, map[], Some("a = \"\\r\"")) == Ok(Meaning(doc))
            && Loaded(Parse, map[], Some(Print(doc))) == Err(Malformed)
  {
    hide Print;
    hide Parse;
    hide SecretName;
    hide Refused;
    var doc := [Entry("a", Leaf(Str("\r")))];
    var d: Dict := map["a" := Value(Str("\r"))];
    assert doc[..0] == [] && Meaning(doc) == d;
    ReturnText();
    PlainName();
    assert SecretFree(d);
    CoversExactly(map[], d);
    assert !Clean("\r") by { assert "\r"[0] == '\r'; }
    assert !CleanEntry(doc[0]);
    assert !CleanDoc(doc);
    assert ReadsPrinted(Parse);
    assert ProperItem(doc[0].item) && Proper(doc) && PrintableItem(doc[0].item) && Printable(doc);
    SavedLoads(Parse, map[], doc);
  }

  lemma PlainName()
    ensures !Refused("a")
  {
    assert forall i :: 0 <= i < |WORDS| ==> |WORDS[i]| > 1;
  }

  /** The line `a = "\r"`, cut where the reader cuts it. */
  const RETURN_VALUE := ['"', '\\', 'r', '"']
  const RETURN_LINE := ['a', ' ', '=', ' '] + RETURN_VALUE

  lemma ReturnPieces()
    ensures "a = \"\\r\"" == RETURN_LINE
    ensures RETURN_LINE == "a" + (" = " + RETURN_VALUE)
    ensures (" = " + RETURN_VALUE)[1..] == "= " + RETURN_VALUE
    ensures ("= " + RETURN_VALUE)[1..] == " " + RETURN_VALUE && (" " + RETURN_VALUE)[1..] == RETURN_VALUE
    ensures OneLine(RETURN_LINE)
  {
  }

  lemma ReturnText()
    ensures Parse("a = \"\\r\"") == Some(map["a" := Value(Str("\r"))])
  {
    hide ReadAssignment;
    hide ReadPath;
    hide ReadLines;
    hide Split;
    var st := State(map[], []);
    ReturnPieces();
    SplitFirst(RETURN_LINE, "");
    ReadOne(st, RETURN_LINE);
    ReturnLine();
    assert RETURN_LINE[0] == 'a';
  }

  lemma ReturnLine()
    ensures ReadAssignment(RETURN_LINE) == Some(("a", Str("\r")))
  {
    hide ReadValue;
    hide ReadKey;
    hide PrintKey;
    ReturnPieces();
    BareA();
    ReadPrintedKey("a", " = " + RETURN_VALUE);
    hide Clean;
    assert Skip(" = " + RETURN_VALUE) == "= " + RETURN_VALUE;
    assert Skip(" " + RETURN_VALUE) == RETURN_VALUE;
    ReturnValue();
  }

  lemma BareA()
    ensures PrintKey("a") == "a" && Clean("a")
  {
  }

  lemma ReturnValue()
    ensures ReadValue(RETURN_VALUE) == Some((Str("\r"), ""))
  {
    hide ReadItems;
    hide ReadNat;
    var inner := ['\\', 'r', '"'];
    assert RETURN_VALUE[1..] == inner && inner[2..] == ['"'] && ['"'][1..] == [];
    var tail := ReadString(inner[2..]);
    assert tail == Some(([], []));
    assert ['\r'] + tail.value.0 == ['\r'];
    assert ReadString(inner) == Some((['\r'], []));
  }
}
