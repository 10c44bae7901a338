/** Sorting by a strict order: the stable insertion sort that stands for Python's `sorted`,
    and the fact that a list has only one ascending arrangement. */
module Ordering {

  ghost predicate StrictOrder<T(!new)>(before: (T, T) -> bool) {
    (forall x :: !before(x, x)) && (forall x, y, z :: before(x, y) && before(y, z) ==> before(x, z))
  }

  /** Not being before is transitive too: ties behave like equality. */
  ghost predicate WeakOrder<T(!new)>(before: (T, T) -> bool) {
    StrictOrder(before) && forall x, y, z :: !before(x, y) && !before(y, z) ==> !before(x, z)
  }

  predicate Ascending<T>(before: (T, T) -> bool, s: seq<T>) {
    forall i, j :: 0 <= i < j < |s| ==> before(s[i], s[j])
  }

  /** No two entries are tied. */
  predicate NoTies<T>(before: (T, T) -> bool, s: seq<T>) {
    forall i, j :: 0 <= i < j < |s| ==> before(s[i], s[j]) || before(s[j], s[i])
  }

  /** Put `x` before the first entry that is not before it. */
  function Insert<T>(before: (T, T) -> bool, x: T, s: seq<T>): seq<T> {
    if s == [] || !before(s[0], x) then [x] + s else [s[0]] + Insert(before, x, s[1..])
  }

  function Sort<T>(before: (T, T) -> bool, s: seq<T>): seq<T> {
    if s == [] then [] else Insert(before, s[0], Sort(before, s[1..]))
  }

  // ---------------------------------------------------------------- one ascending arrangement

  lemma SameLeast<T(!new)>(before: (T, T) -> bool, c: seq<T>, d: seq<T>, i: nat, j: nat)
    requires StrictOrder(before) && Ascending(before, c) && Ascending(before, d)
    requires i < |d| && j < |c| && d[i] == c[0] && c[j] == d[0]
    ensures c[0] == d[0]
  {
  }

  lemma SplitHead<T>(c: seq<T>)
    requires c != []
    ensures multiset(c[1..]) == multiset(c) - multiset{c[0]} && c[0] in multiset(c) && c == [c[0]] + c[1..]
  {
    assert c == [c[0]] + c[1..];
  }

  /** Ascending lists with the same entries are the same list. */
  lemma {:induction false} OneAscendingOrder<T(!new)>(before: (T, T) -> bool, c: seq<T>, d: seq<T>)
    requires StrictOrder(before) && Ascending(before, c) && Ascending(before, d) && multiset(c) == multiset(d)
    ensures c == d
    decreases |c|
  {
    hide StrictOrder;
    assert |multiset(c)| == |c| && |multiset(d)| == |d|;
    if c != [] {
      SplitHead(c);
      SplitHead(d);
      assert c[0] in multiset(d) && d[0] in multiset(c);
      var i :| 0 <= i < |d| && d[i] == c[0];
      var j :| 0 <= j < |c| && c[j] == d[0];
      SameLeast(before, c, d, i, j);
      assert Ascending(before, c[1..]) && Ascending(before, d[1..]);
      hide Ascending;
      OneAscendingOrder(before, c[1..], d[1..]);
    }
  }

  // ---------------------------------------------------------------- the sort

  lemma {:induction false} InsertPermutes<T>(before: (T, T) -> bool, x: T, s: seq<T>)
    ensures multiset(Insert(before, x, s)) == multiset{x} + multiset(s)
  {
    if s != [] && before(s[0], x) {
      InsertPermutes(before, x, s[1..]);
      assert s == [s[0]] + s[1..];
    }
  }

  lemma {:induction false} SortPermutes<T>(before: (T, T) -> bool, s: seq<T>)
    ensures multiset(Sort(before, s)) == multiset(s)
  {
    if s != [] {
      SortPermutes(before, s[1..]);
      InsertPermutes(before, s[0], Sort(before, s[1..]));
      assert s == [s[0]] + s[1..];
    }
  }

  /** An entry before all of an ascending list extends it. */
  lemma AscendingCons<T>(before: (T, T) -> bool, x: T, s: seq<T>)
    requires Ascending(before, s) && forall y :: y in multiset(s) ==> before(x, y)
    ensures Ascending(before, [x] + s)
  {
    assert forall i :: 0 <= i < |s| ==> s[i] in multiset(s);
  }

  /** The given order first, then the other one among ties. */
  function Then<T>(before: (T, T) -> bool, tie: (T, T) -> bool): (T, T) -> bool {
    (a, b) => before(a, b) || (!before(b, a) && tie(a, b))
  }

  lemma ThenAll<T(!new)>(before: (T, T) -> bool, tie: (T, T) -> bool, x: T, s: seq<T>)
    requires WeakOrder(before) && s != [] && !before(s[0], x) && Ascending(Then(before, tie), s)
    requires forall y :: y in multiset(s) ==> tie(x, y)
    ensures forall y :: y in multiset(s) ==> Then(before, tie)(x, y)
  {
    forall y | y in multiset(s)
      ensures Then(before, tie)(x, y)
    {
      var k :| 0 <= k < |s| && s[k] == y;
      if k > 0 { assert Then(before, tie)(s[0], s[k]); }
    }
  }

  lemma {:induction false} InsertStable<T(!new)>(before: (T, T) -> bool, tie: (T, T) -> bool, x: T, s: seq<T>)
    requires WeakOrder(before) && Ascending(Then(before, tie), s) && forall y :: y in multiset(s) ==> tie(x, y)
    ensures Ascending(Then(before, tie), Insert(before, x, s))
  {
    var lex := Then(before, tie);
    if s != [] {
      hide WeakOrder;
      if !before(s[0], x) {
        ThenAll(before, tie, x, s);
        AscendingCons(lex, x, s);
      } else {
        SplitHead(s);
        assert Ascending(lex, s[1..]);
        InsertStable(before, tie, x, s[1..]);
        InsertPermutes(before, x, s[1..]);
        forall y | y in multiset(Insert(before, x, s[1..]))
          ensures lex(s[0], y)
        {
          if y != x {
            assert y in multiset(s[1..]);
            var k :| 0 <= k < |s[1..]| && s[1..][k] == y;
            assert s[k + 1] == y;
          }
        }
        AscendingCons(lex, s[0], Insert(before, x, s[1..]));
      }
    }
  }

  /** Sorting is stable: ties stay in the order they came in. */
  lemma {:induction false} SortStable<T(!new)>(before: (T, T) -> bool, tie: (T, T) -> bool, s: seq<T>)
    requires WeakOrder(before) && Ascending(tie, s)
    ensures Ascending(Then(before, tie), Sort(before, s))
  {
    if s != [] {
      hide WeakOrder;
      assert Ascending(tie, s[1..]);
      SortStable(before, tie, s[1..]);
      SortPermutes(before, s[1..]);
      forall y | y in multiset(Sort(before, s[1..]))
        ensures tie(s[0], y)
      {
        assert y in multiset(s[1..]);
        var k :| 0 <= k < |s[1..]| && s[1..][k] == y;
        assert s[k + 1] == y;
      }
      InsertStable(before, tie, s[0], Sort(before, s[1..]));
    }
  }

  lemma {:induction false} InsertAscends<T(!new)>(before: (T, T) -> bool, x: T, s: seq<T>)
    requires StrictOrder(before) && Ascending(before, s) && forall y :: y in multiset(s) ==> before(x, y) || before(y, x)
    ensures Ascending(before, Insert(before, x, s))
  {
    if s != [] {
      SplitHead(s);
      if !before(s[0], x) {
        forall y | y in multiset(s)
          ensures before(x, y)
        {
          var k :| 0 <= k < |s| && s[k] == y;
          if k > 0 { assert before(x, s[0]) && before(s[0], y); }
        }
        AscendingCons(before, x, s);
      } else {
        hide StrictOrder;
        InsertAscends(before, x, s[1..]);
        InsertPermutes(before, x, s[1..]);
        forall y | y in multiset(s[1..])
          ensures before(s[0], y)
        {
          var k :| 0 <= k < |s[1..]| && s[1..][k] == y;
          assert s[k + 1] == y;
        }
        AscendingCons(before, s[0], Insert(before, x, s[1..]));
      }
    }
  }

  /** Without ties the sort is ascending. */
  lemma {:induction false} SortAscends<T(!new)>(before: (T, T) -> bool, s: seq<T>)
    requires StrictOrder(before) && NoTies(before, s)
    ensures Ascending(before, Sort(before, s)) && multiset(Sort(before, s)) == multiset(s)
  {
    SortPermutes(before, s);
    if s != [] {
      hide StrictOrder;
      assert NoTies(before, s[1..]);
      SortAscends(before, s[1..]);
      forall y | y in multiset(Sort(before, s[1..]))
        ensures before(s[0], y) || before(y, s[0])
      {
        assert y in multiset(s[1..]);
        var k :| 0 <= k < |s[1..]| && s[1..][k] == y;
        assert s[k + 1] == y;
      }
      InsertAscends(before, s[0], Sort(before, s[1..]));
    }
  }

  /** Without ties the order of the input does not matter. */
  lemma SortIgnoresOrder<T(!new)>(before: (T, T) -> bool, s: seq<T>, t: seq<T>)
    requires StrictOrder(before) && NoTies(before, s) && NoTies(before, t) && multiset(s) == multiset(t)
    ensures Sort(before, s) == Sort(before, t)
  {
    SortAscends(before, s);
    SortAscends(before, t);
    OneAscendingOrder(before, Sort(before, s), Sort(before, t));
  }
}
