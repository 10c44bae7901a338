/** The bounded history of finished executions: which entries of the
    insertion-ordered dictionary the pruning loop removes. */
module Retention {

  import opened Wrappers

  type Id = string

  /** How many entries of `s` belong to `T`. */
  function Count(s: seq<Id>, T: set<Id>): nat {
    if s == [] then 0 else (if s[0] in T then 1 else 0) + Count(s[1..], T)
  }

  ghost predicate Distinct(s: seq<Id>) {
    forall i, j :: 0 <= i < j < |s| ==> s[i] != s[j]
  }

  /** Remove the first `n` entries of `T`, passing over `keep`. */
  function DropOldest(s: seq<Id>, T: set<Id>, n: nat, keep: Option<Id>): seq<Id> {
    if s == [] || n == 0 then s
    else if s[0] in T && keep != Some(s[0]) then DropOldest(s[1..], T, n - 1, keep)
    else [s[0]] + DropOldest(s[1..], T, n, keep)
  }

  /** What is left of `s` when at most `limit` entries of `T` may stay. */
  function Prune(s: seq<Id>, T: set<Id>, limit: nat, keep: Option<Id>): seq<Id> {
    if Count(s, T) <= limit then s else DropOldest(s, T, Count(s, T) - limit, keep)
  }

  lemma {:induction false} DropMembers(s: seq<Id>, T: set<Id>, n: nat, keep: Option<Id>)
    ensures forall x :: x in DropOldest(s, T, n, keep) ==> x in s
    ensures forall x :: x in s && (x !in T || keep == Some(x)) ==> x in DropOldest(s, T, n, keep)
  {
    if s != [] && n != 0 {
      var m := if s[0] in T && keep != Some(s[0]) then n - 1 else n;
      DropMembers(s[1..], T, m, keep);
      assert s == [s[0]] + s[1..];
    }
  }

  lemma {:induction false} DropDistinct(s: seq<Id>, T: set<Id>, n: nat, keep: Option<Id>)
    requires Distinct(s)
    ensures Distinct(DropOldest(s, T, n, keep))
  {
    if s != [] && n != 0 {
      var m := if s[0] in T && keep != Some(s[0]) then n - 1 else n;
      DropDistinct(s[1..], T, m, keep);
      DropMembers(s[1..], T, m, keep);
      assert s[0] !in s[1..];
    }
  }

  lemma {:induction false} DropCount(s: seq<Id>, T: set<Id>, n: nat, keep: Option<Id>)
    requires Distinct(s)
    requires n + (if keep.Some? && keep.value in s then 1 else 0) <= Count(s, T)
    ensures Count(DropOldest(s, T, n, keep), T) == Count(s, T) - n
  {
    if s != [] && n != 0 {
      assert s == [s[0]] + s[1..];
      assert s[0] !in s[1..];
      if s[0] in T && keep != Some(s[0]) {
        DropCount(s[1..], T, n - 1, keep);
      } else {
        DropCount(s[1..], T, n, keep);
        assert ([s[0]] + DropOldest(s[1..], T, n, keep))[1..] == DropOldest(s[1..], T, n, keep);
      }
    }
  }

  lemma {:induction false} DropKeepsOthers(s: seq<Id>, T: set<Id>, n: nat, keep: Option<Id>, U: set<Id>)
    requires U !! T
    ensures Count(DropOldest(s, T, n, keep), U) == Count(s, U)
  {
    if s != [] && n != 0 {
      if s[0] in T && keep != Some(s[0]) {
        DropKeepsOthers(s[1..], T, n - 1, keep, U);
      } else {
        DropKeepsOthers(s[1..], T, n, keep, U);
        assert ([s[0]] + DropOldest(s[1..], T, n, keep))[1..] == DropOldest(s[1..], T, n, keep);
      }
    }
  }

  /** A removed entry was inserted before every surviving entry of `T` other than `keep`. */
  lemma {:induction false} DropOrder(s: seq<Id>, T: set<Id>, n: nat, keep: Option<Id>, i: nat, j: nat)
    requires Distinct(s)
    requires i < |s| && s[i] !in DropOldest(s, T, n, keep)
    requires j < |s| && s[j] in T && keep != Some(s[j]) && s[j] in DropOldest(s, T, n, keep)
    ensures i < j
  {
    assert s != [] && n != 0;
    assert s == [s[0]] + s[1..];
    if s[0] in T && keep != Some(s[0]) {
      DropMembers(s[1..], T, n - 1, keep);
      assert s[0] !in s[1..];
      assert j > 0;
      if i > 0 {
        DropOrder(s[1..], T, n - 1, keep, i - 1, j - 1);
      }
    } else {
      assert i > 0 && j > 0;
      DropOrder(s[1..], T, n, keep, i - 1, j - 1);
    }
  }

  lemma {:induction false} CountMonotone(s: seq<Id>, T: set<Id>, U: set<Id>)
    requires forall x :: x in s && x in T ==> x in U
    ensures Count(s, T) <= Count(s, U)
  {
    if s != [] {
      assert s == [s[0]] + s[1..];
      CountMonotone(s[1..], T, U);
    }
  }

  lemma {:induction false} CountAppend(s: seq<Id>, x: Id, T: set<Id>)
    ensures Count(s + [x], T) == Count(s, T) + (if x in T then 1 else 0)
  {
    if s == [] {
      assert s + [x] == [x];
    } else {
      assert (s + [x])[1..] == s[1..] + [x];
      CountAppend(s[1..], x, T);
    }
  }

  /** Pruning the history: unfinished entries and the entry just finished stay, the rest
      leave oldest first, and no more than `limit` finished entries remain. */
  lemma PruneSound(s: seq<Id>, T: set<Id>, limit: nat, keep: Option<Id>)
    requires Distinct(s) && limit >= 1
    ensures var p := Prune(s, T, limit, keep);
            && Distinct(p)
            && (forall x :: x in p ==> x in s)
            && (forall x :: x in s && (x !in T || keep == Some(x)) ==> x in p)
            && Count(p, T) == (if Count(s, T) <= limit then Count(s, T) else limit)
    ensures var p := Prune(s, T, limit, keep);
            forall i, j | 0 <= i < |s| && 0 <= j < |s| && s[i] !in p && s[j] in p ::
              s[j] in T && keep != Some(s[j]) ==> i < j
    ensures forall U :: U !! T ==> Count(Prune(s, T, limit, keep), U) == Count(s, U)
  {
    if Count(s, T) > limit {
      var n := Count(s, T) - limit;
      DropMembers(s, T, n, keep);
      DropDistinct(s, T, n, keep);
      DropCount(s, T, n, keep);
      forall i, j | 0 <= i < |s| && 0 <= j < |s| && s[i] !in DropOldest(s, T, n, keep)
                    && s[j] in T && keep != Some(s[j]) && s[j] in DropOldest(s, T, n, keep)
        ensures i < j
      {
        DropOrder(s, T, n, keep, i, j);
      }
      forall U | U !! T
        ensures Count(DropOldest(s, T, n, keep), U) == Count(s, U)
      {
        DropKeepsOthers(s, T, n, keep, U);
      }
    }
  }
}
