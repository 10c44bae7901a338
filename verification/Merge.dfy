/** Overlaying one settings document on another. */
module Merge {

  import opened Wrappers
  import opened Toml
  import opened TomlDocument

  predicate Both(b: Dict, o: Dict, k: string) { k in b && k in o && b[k].Node? && o[k].Node? }

  /** Key by key: tables on both sides are merged, otherwise the overlay wins. */
  function Overlay(b: Dict, o: Dict): Dict
    decreases Node(o)
  {
    map k | k in b.Keys + o.Keys ::
      if k !in o then b[k]
      else if k in b && b[k].Node? && o[k].Node? then Node(Overlay(b[k].children, o[k].children))
      else o[k]
  }

  lemma {:induction false} OverlaySelf(a: Dict)
    ensures Overlay(a, a) == a
    decreases Node(a)
  {
    forall k | k in a
      ensures Overlay(a, a)[k] == a[k]
    {
      if a[k].Node? { OverlaySelf(a[k].children); }
    }
  }

  /** Merging the same overlay a second time changes nothing. */
  lemma {:induction false} OverlayTwice(b: Dict, o: Dict)
    ensures Overlay(Overlay(b, o), o) == Overlay(b, o)
    decreases Node(o)
  {
    var m := Overlay(b, o);
    forall k | k in m
      ensures Overlay(m, o)[k] == m[k]
    {
      if Both(b, o, k) {
        OverlayTwice(b[k].children, o[k].children);
      } else if k in o && o[k].Node? {
        OverlaySelf(o[k].children);
      }
    }
    assert Overlay(m, o).Keys == m.Keys;
  }

  /** The base is absorbed. */
  lemma {:induction false} BaseAbsorbed(b: Dict, s: Dict)
    ensures Overlay(b, Overlay(b, s)) == Overlay(b, s)
    decreases Node(s)
  {
    var m := Overlay(b, s);
    forall k | k in m
      ensures Overlay(b, m)[k] == m[k]
    {
      if Both(b, s, k) {
        BaseAbsorbed(b[k].children, s[k].children);
      } else if k !in s && b[k].Node? {
        OverlaySelf(b[k].children);
      }
    }
    assert Overlay(b, m).Keys == m.Keys;
  }

  /** Every key of `a` is in `c`, in every table the two have in common. */
  predicate Covers(c: Dict, a: Dict)
    decreases Node(c)
  {
    forall k :: k in a ==> k in c && (c[k].Node? && a[k].Node? ==> Covers(c[k].children, a[k].children))
  }

  lemma {:induction false} CoversExactly(a: Dict, c: Dict)
    ensures Overlay(a, c) == c <==> Covers(c, a)
    decreases Node(c)
  {
    var m := Overlay(a, c);
    assert m.Keys == a.Keys + c.Keys;
    forall k | k in c
      ensures m[k] == c[k] <==> (Both(a, c, k) ==> Covers(c[k].children, a[k].children))
    {
      if Both(a, c, k) { CoversExactly(a[k].children, c[k].children); }
    }
    if Overlay(a, c) == c {
      forall k | k in a
        ensures k in c && (c[k].Node? && a[k].Node? ==> Covers(c[k].children, a[k].children))
      {
        assert k in m.Keys;
        assert m[k] == c[k];
      }
    }
    if Covers(c, a) {
      assert m.Keys == c.Keys;
      assert forall k :: k in c ==> m[k] == c[k];
    }
  }

  /** Wherever the middle document replaces a table of `a` by a scalar, either `c` puts no
      table back or the table it puts back has every key the lost one had. */
  predicate Associates(a: Dict, b: Dict, c: Dict)
    decreases Node(c)
  {
    forall k :: Both(a, c, k) && k in b ==>
      if b[k].Node? then Associates(a[k].children, b[k].children, c[k].children)
      else Covers(c[k].children, a[k].children)
  }

  /** Never in `b` a scalar where `a` has a table. */
  predicate KeepsTables(a: Dict, b: Dict)
    decreases Node(b)
  {
    forall k :: k in a && k in b && a[k].Node? ==> b[k].Node? && KeepsTables(a[k].children, b[k].children)
  }

  lemma AssociatesAt(a: Dict, b: Dict, c: Dict, k: string)
    requires k in Overlay(Overlay(a, b), c)
    requires Both(a, b, k) && k in c && c[k].Node? ==>
               (Overlay(Overlay(a[k].children, b[k].children), c[k].children)
                == Overlay(a[k].children, Overlay(b[k].children, c[k].children))
                <==> Associates(a[k].children, b[k].children, c[k].children))
    ensures k in Overlay(a, Overlay(b, c))
    ensures Overlay(Overlay(a, b), c)[k] == Overlay(a, Overlay(b, c))[k]
            <==> (Both(a, c, k) && k in b ==>
                    if b[k].Node? then Associates(a[k].children, b[k].children, c[k].children)
                    else Covers(c[k].children, a[k].children))
  {
    hide Associates;
    if Both(a, c, k) && k in b && !b[k].Node? { CoversExactly(a[k].children, c[k].children); }
  }

  /** Merging is associative exactly when no table is lost in the middle. */
  lemma {:induction false} AssociativeExactly(a: Dict, b: Dict, c: Dict)
    ensures Overlay(Overlay(a, b), c) == Overlay(a, Overlay(b, c)) <==> Associates(a, b, c)
    decreases Node(c)
  {
    var left, right := Overlay(Overlay(a, b), c), Overlay(a, Overlay(b, c));
    assert left.Keys == right.Keys;
    forall k | k in left
      ensures left[k] == right[k]
              <==> (Both(a, c, k) && k in b ==>
                      if b[k].Node? then Associates(a[k].children, b[k].children, c[k].children)
                      else Covers(c[k].children, a[k].children))
    {
      if Both(a, b, k) && k in c && c[k].Node? {
        AssociativeExactly(a[k].children, b[k].children, c[k].children);
      }
      AssociatesAt(a, b, c, k);
    }
    assert left == right <==> forall k :: k in left ==> left[k] == right[k];
    hide Overlay;
    hide Covers;
  }

  lemma {:induction false} KeepingTablesAssociates(a: Dict, b: Dict, c: Dict)
    requires KeepsTables(a, b)
    ensures Associates(a, b, c)
    decreases Node(c)
  {
    forall k | Both(a, c, k) && k in b
      ensures b[k].Node? && Associates(a[k].children, b[k].children, c[k].children)
    {
      KeepingTablesAssociates(a[k].children, b[k].children, c[k].children);
    }
  }

  /** A scalar in the middle makes a difference. */
  lemma ScalarInTheMiddle()
    ensures var table := Node(map["x" := Value(Int(1))]);
            var a, b, c := map["k" := table], map["k" := Value(Int(2))], map["k" := Node(map[])];
            Overlay(Overlay(a, b), c) == map["k" := Node(map[])] && Overlay(a, Overlay(b, c)) == map["k" := table]
  {
    var table := Node(map["x" := Value(Int(1))]);
    var a: Dict, b: Dict, c: Dict := map["k" := table], map["k" := Value(Int(2))], map["k" := Node(map[])];
    assert Overlay(a, b) == b;
    assert Overlay(b, c) == c;
    assert Overlay(table.children, map[]) == table.children;
    assert Overlay(a, c)["k"] == table;
  }
}
