/** Ranking retrieved evidence and keeping one item per id. */
module Ranking {

  import opened Ordering
  import opened Strings

  /** Retrieved evidence; `turn` is the turn number named in the selection reason, 0 if none,
      and `timestamp` is empty when there is none. */
  datatype Evidence = Evidence(
    id: string, source: string, content: string, provenance: string, confidence: real, freshness: string,
    scope: string, reason: string, turn: nat, timestamp: string)

  /** `_source_tier`. */
  function SourceTier(source: string): nat {
    if source == "session_metadata" then 0 else if source == "session" then 1 else if source == "session_summary" then 2
    else if source == "session_history" then 3 else if source == "long_term" then 4 else if source == "skill" then 5
    else if source == "repository" then 6 else if source == "code" then 7 else 8
  }

  /** `_freshness_rank`. */
  function FreshnessRank(freshness: string): nat {
    if freshness == "active" then 0 else if freshness == "stale" then 1 else if freshness == "archived" then 2
    else if freshness == "deleted" then 3 else 1
  }

  datatype Key = Key(tier: nat, doubt: real, freshness: nat, timestamp: string, turn: nat, id: string)

  function KeyOf(e: Evidence): Key {
    Key(SourceTier(e.source), 0.0 - e.confidence, FreshnessRank(e.freshness), e.timestamp, e.turn, e.id)
  }

  /** Tuples compare component by component. */
  predicate KeyLess(a: Key, b: Key) {
    a.tier < b.tier || (a.tier == b.tier && (a.doubt < b.doubt || (a.doubt == b.doubt &&
    (a.freshness < b.freshness || (a.freshness == b.freshness && TextLess(a, b))))))
  }

  predicate TextLess(a: Key, b: Key) {
    Less(a.timestamp, b.timestamp) || (a.timestamp == b.timestamp &&
    (a.turn < b.turn || (a.turn == b.turn && Less(a.id, b.id))))
  }

  predicate Before(a: Evidence, b: Evidence) { KeyLess(KeyOf(a), KeyOf(b)) }

  /** The sources from first to last; any other source comes after all of them. */
  lemma SourcesInOrder(a: Evidence, b: Evidence)
    requires a.source != b.source
    ensures a.source == "session_metadata" ==> Before(a, b)
    ensures a.source == "session" && b.source != "session_metadata" ==> Before(a, b)
    ensures a.source == "session_summary" && b.source != "session_metadata" && b.source != "session" ==> Before(a, b)
    ensures a.source == "session_history" && b.source !in {"session_metadata", "session", "session_summary"} ==> Before(a, b)
    ensures a.source == "long_term" && (b.source in {"skill", "repository", "code"} || Unlisted(b.source)) ==> Before(a, b)
    ensures a.source == "skill" && (b.source == "repository" || b.source == "code" || Unlisted(b.source)) ==> Before(a, b)
    ensures a.source == "repository" && (b.source == "code" || Unlisted(b.source)) ==> Before(a, b)
    ensures a.source == "code" && Unlisted(b.source) ==> Before(a, b)
  {
  }

  predicate Unlisted(source: string) {
    && source != "session_metadata" && source != "session" && source != "session_summary" && source != "session_history"
    && source != "long_term" && source != "skill" && source != "repository" && source != "code"
  }

  /** Within one source, or among unlisted ones: more confidence first; then active, stale or
      unlisted, archived, deleted; then the earlier timestamp, the earlier turn, the smaller
      id. */
  lemma WithinOneSource(a: Evidence, b: Evidence)
    requires a.source == b.source || (Unlisted(a.source) && Unlisted(b.source))
    ensures a.confidence > b.confidence ==> Before(a, b)
    ensures a.confidence == b.confidence ==>
              && (a.freshness == "active" && b.freshness != "active" ==> Before(a, b))
              && (a.freshness !in {"active", "archived", "deleted"} && b.freshness in {"archived", "deleted"} ==> Before(a, b))
              && (a.freshness == "archived" && b.freshness == "deleted" ==> Before(a, b))
    ensures var words := {"active", "archived", "deleted"};
            var alike := a.freshness == b.freshness || (a.freshness !in words && b.freshness !in words);
            a.confidence == b.confidence && alike ==>
              (Before(a, b) <==>
                 Less(a.timestamp, b.timestamp)
                 || (a.timestamp == b.timestamp && (a.turn < b.turn || (a.turn == b.turn && Less(a.id, b.id)))))
  {
    hide Less;
  }

  lemma KeyTotal(a: Key, b: Key)
    ensures KeyLess(a, b) || a == b || KeyLess(b, a)
  {
    LessTotal(a.timestamp, b.timestamp);
    LessTotal(a.id, b.id);
    hide Less;
  }

  lemma KeyTransitive(a: Key, b: Key, c: Key)
    requires KeyLess(a, b) && KeyLess(b, c)
    ensures KeyLess(a, c)
  {
    hide Less;
    if Less(a.timestamp, b.timestamp) && Less(b.timestamp, c.timestamp) { LessTransitive(a.timestamp, b.timestamp, c.timestamp); }
    if Less(a.id, b.id) && Less(b.id, c.id) { LessTransitive(a.id, b.id, c.id); }
  }

  lemma KeyIrreflexive(a: Key)
    ensures !KeyLess(a, a)
  {
    LessIrreflexive(a.timestamp);
    LessIrreflexive(a.id);
  }

  lemma BeforeOrder()
    ensures WeakOrder(Before)
  {
    hide KeyLess;
    hide KeyOf;
    forall x: Evidence
      ensures !Before(x, x)
    {
      KeyIrreflexive(KeyOf(x));
    }
    forall x: Evidence, y: Evidence, z: Evidence | Before(x, y) && Before(y, z)
      ensures Before(x, z)
    {
      KeyTransitive(KeyOf(x), KeyOf(y), KeyOf(z));
    }
    forall x: Evidence, y: Evidence, z: Evidence | !Before(x, y) && !Before(y, z)
      ensures !Before(x, z)
    {
      KeyTotal(KeyOf(x), KeyOf(y));
      KeyTotal(KeyOf(y), KeyOf(z));
      if KeyLess(KeyOf(z), KeyOf(y)) && KeyLess(KeyOf(y), KeyOf(x)) { KeyTransitive(KeyOf(z), KeyOf(y), KeyOf(x)); }
      if KeyLess(KeyOf(x), KeyOf(z)) && KeyLess(KeyOf(z), KeyOf(x)) { KeyTransitive(KeyOf(x), KeyOf(z), KeyOf(x)); }
      KeyIrreflexive(KeyOf(x));
    }
  }

  // ---------------------------------------------------------------- ranking

  predicate HasId(s: seq<Evidence>, id: string) { exists i :: 0 <= i < |s| && s[i].id == id }

  /** Keep the first item of each id. */
  function FirstOfEach(s: seq<Evidence>): seq<Evidence> {
    if s == [] then []
    else
      var init, last := FirstOfEach(s[..|s| - 1]), s[|s| - 1];
      if HasId(s[..|s| - 1], last.id) then init else init + [last]
  }

  function Ranked(evidence: seq<Evidence>): seq<Evidence> { FirstOfEach(Sort(Before, evidence)) }

  /** `_rank_and_dedupe`. */
  method RankAndDedupe(evidence: seq<Evidence>) returns (unique: seq<Evidence>)
    ensures unique == Ranked(evidence)
  {
    var sorted := Sort(Before, evidence);
    var seen: set<string> := {};
    unique := [];
    var i := 0;
    while i < |sorted|
      invariant i <= |sorted| && unique == FirstOfEach(sorted[..i])
      invariant forall id :: id in seen <==> HasId(sorted[..i], id)
    {
      assert sorted[..i + 1][..i] == sorted[..i] && sorted[..i + 1][i] == sorted[i];
      HasIdNext(sorted[..i], sorted[i]);
      assert sorted[..i] + [sorted[i]] == sorted[..i + 1];
      if sorted[i].id !in seen {
        seen := seen + {sorted[i].id};
        unique := unique + [sorted[i]];
      }
      i := i + 1;
    }
    assert sorted[..i] == sorted;
  }

  lemma HasIdNext(s: seq<Evidence>, e: Evidence)
    ensures forall id :: HasId(s + [e], id) <==> HasId(s, id) || id == e.id
  {
    var t := s + [e];
    assert t[|s|] == e;
    forall id | HasId(s, id)
      ensures HasId(t, id)
    {
      var i :| 0 <= i < |s| && s[i].id == id;
      assert t[i].id == id;
    }
  }

  /** Kept: in the list, and no item with its id comes earlier. */
  predicate FirstAt(s: seq<Evidence>, i: int) { 0 <= i < |s| && forall j :: 0 <= j < i ==> s[j].id != s[i].id }

  lemma {:induction false} KeptAreFirst(s: seq<Evidence>, x: Evidence)
    requires x in FirstOfEach(s)
    ensures exists i :: FirstAt(s, i) && s[i] == x
  {
    var init, last := s[..|s| - 1], s[|s| - 1];
    if x in FirstOfEach(init) {
      KeptAreFirst(init, x);
      var i :| FirstAt(init, i) && init[i] == x;
      assert FirstAt(s, i) && s[i] == x;
    } else {
      assert FirstAt(s, |init|) && s[|init|] == x;
    }
  }

  lemma {:induction false} FirstAreKept(s: seq<Evidence>, i: int)
    requires FirstAt(s, i)
    ensures s[i] in FirstOfEach(s)
  {
    var init := s[..|s| - 1];
    if i < |init| {
      assert FirstAt(init, i);
      FirstAreKept(init, i);
    }
  }

  predicate InKeyOrder(s: seq<Evidence>) { forall i, j :: 0 <= i < j < |s| ==> !Before(s[j], s[i]) }

  /** Keeping the first of each id of a list in key order gives strictly ascending keys. */
  lemma {:induction false} FirstOfEachAscends(s: seq<Evidence>)
    requires InKeyOrder(s)
    ensures Ascending(Before, FirstOfEach(s))
    ensures forall i, j :: 0 <= i < j < |FirstOfEach(s)| ==> FirstOfEach(s)[i].id != FirstOfEach(s)[j].id
  {
    if s != [] {
      var init, last := s[..|s| - 1], s[|s| - 1];
      FirstOfEachAscends(init);
      var kept := FirstOfEach(init);
      if !HasId(init, last.id) {
        forall i | 0 <= i < |kept|
          ensures Before(kept[i], last) && kept[i].id != last.id
        {
          KeptAreFirst(init, kept[i]);
          var k :| FirstAt(init, k) && init[k] == kept[i];
          assert !Before(s[|s| - 1], s[k]) && init[k].id != last.id;
          KeyTotal(KeyOf(kept[i]), KeyOf(last));
        }
      }
    }
  }

  lemma SortedByKey(evidence: seq<Evidence>)
    ensures InKeyOrder(Sort(Before, evidence))
    ensures forall x :: x in Sort(Before, evidence) <==> x in evidence
  {
    var any := (a: Evidence, b: Evidence) => true;
    var s := Sort(Before, evidence);
    BeforeOrder();
    assert Ascending(any, evidence);
    SortStable(Before, any, evidence);
    SortPermutes(Before, evidence);
    forall i, j | 0 <= i < j < |s|
      ensures !Before(s[j], s[i])
    {
      assert Then(Before, any)(s[i], s[j]);
    }
    assert forall x :: x in s <==> x in multiset(s);
    assert forall x :: x in evidence <==> x in multiset(evidence);
  }

  /** `x` is the one to keep for its id: nothing with that id ranks before it. */
  ghost predicate Least(evidence: seq<Evidence>, x: Evidence) {
    x in evidence && forall y :: y in evidence && y.id == x.id ==> !Before(y, x)
  }

  /** The result has unique ids in strictly ascending key order, an item for every id of the
      input, and for each id its least item. */
  lemma RankedExactly(evidence: seq<Evidence>)
    ensures Ascending(Before, Ranked(evidence))
    ensures forall i, j :: 0 <= i < j < |Ranked(evidence)| ==> Ranked(evidence)[i].id != Ranked(evidence)[j].id
    ensures forall x :: x in Ranked(evidence) ==> Least(evidence, x)
    ensures forall y :: y in evidence ==> HasId(Ranked(evidence), y.id)
  {
    var s := Sort(Before, evidence);
    var r := Ranked(evidence);
    SortedByKey(evidence);
    FirstOfEachAscends(s);
    BeforeOrder();
    hide WeakOrder;
    hide Before;
    hide Sort;
    hide FirstOfEach;
    forall x | x in r
      ensures Least(evidence, x)
    {
      KeptAreFirst(s, x);
      var i :| FirstAt(s, i) && s[i] == x;
      forall y | y in evidence && y.id == x.id
        ensures !Before(y, x)
      {
        assert y in s;
        var j :| 0 <= j < |s| && s[j] == y;
        if j > i { assert !Before(s[j], s[i]); }
      }
    }
    forall y | y in evidence
      ensures HasId(r, y.id)
    {
      assert y in s;
      var j :| 0 <= j < |s| && s[j] == y;
      var i := FirstIndex(s, j);
      FirstAreKept(s, i);
      var k :| 0 <= k < |r| && r[k] == s[i];
      assert r[k].id == y.id;
    }
  }

  /** Where the id of `s[j]` first appears. */
  function FirstIndex(s: seq<Evidence>, j: nat): (i: nat)
    requires j < |s|
    ensures FirstAt(s, i) && s[i].id == s[j].id
    decreases j
  {
    if i :| 0 <= i < j && s[i].id == s[j].id && FirstAt(s, i) then i
    else FirstIndexHolds(s, j); j
  }

  lemma {:induction false} FirstIndexHolds(s: seq<Evidence>, j: nat)
    requires j < |s|
    ensures FirstAt(s, j) || exists i :: 0 <= i < j && s[i].id == s[j].id && FirstAt(s, i)
  {
    if i :| 0 <= i < j && s[i].id == s[j].id { FirstIndexHolds(s, i); }
  }

  /** No two different items share the whole key. */
  ghost predicate KeysTellApart(evidence: seq<Evidence>) {
    forall x, y :: x in evidence && y in evidence && KeyOf(x) == KeyOf(y) ==> x == y
  }

  lemma LeastIsKept(evidence: seq<Evidence>, x: Evidence)
    requires KeysTellApart(evidence) && Least(evidence, x)
    ensures x in Ranked(evidence)
  {
    RankedExactly(evidence);
    var r := Ranked(evidence);
    var k :| 0 <= k < |r| && r[k].id == x.id;
    assert r[k] in r;
    KeyTotal(KeyOf(x), KeyOf(r[k]));
    hide Ranked;
  }

  lemma UniqueItems(r: seq<Evidence>)
    requires forall i, j :: 0 <= i < j < |r| ==> r[i].id != r[j].id
    ensures forall x :: multiset(r)[x] == if x in r then 1 else 0
  {
    forall x | x in r
      ensures multiset(r)[x] == 1
    {
      var k :| 0 <= k < |r| && r[k] == x;
      assert r == r[..k] + [x] + r[k + 1..];
      assert x !in r[..k] && x !in r[k + 1..];
      assert multiset(r) == multiset(r[..k]) + multiset{x} + multiset(r[k + 1..]);
    }
  }

  /** When keys tell different items apart, the order of the input does not matter. */
  lemma AnyOrderRanksAlike(s: seq<Evidence>, t: seq<Evidence>)
    requires multiset(s) == multiset(t) && KeysTellApart(s)
    ensures Ranked(s) == Ranked(t)
  {
    var a, b := Ranked(s), Ranked(t);
    RankedExactly(s);
    RankedExactly(t);
    hide Ranked;
    hide Before;
    hide KeyOf;
    forall x
      ensures x in a <==> x in b
    {
      if x in a { LeastCarries(s, t, x); }
      if x in b { LeastCarries(t, s, x); }
    }
    UniqueItems(a);
    UniqueItems(b);
    assert multiset(a) == multiset(b);
    BeforeOrder();
    OneAscendingOrder(Before, a, b);
  }

  lemma LeastCarries(s: seq<Evidence>, t: seq<Evidence>, x: Evidence)
    requires multiset(s) == multiset(t) && (KeysTellApart(s) || KeysTellApart(t)) && Least(s, x)
    ensures x in Ranked(t)
  {
    hide Before;
    hide KeyOf;
    forall y
      ensures y in s <==> y in t
    {
      assert y in s <==> y in multiset(s);
      assert y in t <==> y in multiset(t);
    }
    assert KeysTellApart(t) && Least(t, x);
    LeastIsKept(t, x);
  }
}
