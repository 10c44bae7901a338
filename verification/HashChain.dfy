/** Append-only chains in which every entry's hash covers its fields and the hash before it.
    The hash is a parameter; where its quality matters it is taken as injective and never
    empty. */
module HashChain {

  import opened Ordering

  /** A stored entry: the hashed fields, the stored `previous_hash` and the stored `hash`. */
  datatype Link<P> = Link(fields: P, previous: string, hash: string)

  type Hash<!P> = (string, P) -> string

  ghost predicate Injective<P(!new)>(h: Hash<P>) {
    forall p, x, q, y :: h(p, x) == h(q, y) ==> p == q && x == y
  }

  ghost predicate NeverEmpty<P(!new)>(h: Hash<P>) {
    forall p, x :: h(p, x) != ""
  }

  /** `_previous_hash`. */
  function LastHash<P>(c: seq<Link<P>>): string { if c == [] then "" else c[|c| - 1].hash }

  /** `append` and `record` seal new fields onto the end of a chain. */
  function Seal<P>(h: Hash<P>, c: seq<Link<P>>, fields: P): Link<P> {
    Link(fields, LastHash(c), h(LastHash(c), fields))
  }

  /** Every hash is the hash of the entry's fields and the hash before it. */
  predicate Verifies<P>(h: Hash<P>, c: seq<Link<P>>) {
    forall i :: 0 <= i < |c| ==> c[i].hash == h(LastHash(c[..i]), c[i].fields)
  }

  /** `verify_chain`. */
  method VerifyChain<P>(h: Hash<P>, c: seq<Link<P>>) returns (ok: bool)
    ensures ok <==> Verifies(h, c)
  {
    var previous := "";
    var i := 0;
    while i < |c|
      invariant i <= |c| && previous == LastHash(c[..i])
      invariant forall j :: 0 <= j < i ==> c[j].hash == h(LastHash(c[..j]), c[j].fields)
    {
      if c[i].hash != h(previous, c[i].fields) { return false; }
      previous := c[i].hash;
      i := i + 1;
      assert c[..i][i - 1] == c[i - 1];
    }
    return true;
  }

  /** Every prefix of a verifying chain verifies: cutting off the newest entries goes unseen. */
  lemma PrefixVerifies<P>(h: Hash<P>, c: seq<Link<P>>, n: nat)
    requires Verifies(h, c) && n <= |c|
    ensures Verifies(h, c[..n])
  {
    forall i | 0 <= i < n
      ensures c[..n][i].hash == h(LastHash(c[..n][..i]), c[..n][i].fields)
    {
      assert c[..n][..i] == c[..i];
    }
  }

  /** Appending neither breaks a chain nor mends a broken one. */
  lemma AppendVerifies<P>(h: Hash<P>, c: seq<Link<P>>, fields: P)
    ensures Verifies(h, c + [Seal(h, c, fields)]) <==> Verifies(h, c)
  {
    var d := c + [Seal(h, c, fields)];
    assert d[..|c|] == c;
    if Verifies(h, d) {
      PrefixVerifies(h, d, |c|);
    } else if Verifies(h, c) {
      forall i | 0 <= i < |d|
        ensures d[i].hash == h(LastHash(d[..i]), d[i].fields)
      {
        assert i < |c| ==> d[..i] == c[..i];
      }
    }
  }

  lemma InjectiveAt<P(!new)>(h: Hash<P>, p: string, x: P, q: string, y: P)
    requires Injective(h) && h(p, x) == h(q, y)
    ensures p == q && x == y
  {
  }

  lemma NotEmptyAt<P(!new)>(h: Hash<P>, c: seq<Link<P>>)
    requires NeverEmpty(h) && Verifies(h, c) && c != []
    ensures LastHash(c) == h(LastHash(c[..|c| - 1]), c[|c| - 1].fields) && LastHash(c) != ""
  {
  }

  /** Two verifying chains with the same last hash have the same length and agree on every
      hashed field and every hash. */
  lemma {:induction false} SameEnd<P(!new)>(h: Hash<P>, a: seq<Link<P>>, b: seq<Link<P>>)
    requires Injective(h) && NeverEmpty(h)
    requires Verifies(h, a) && Verifies(h, b) && LastHash(a) == LastHash(b)
    ensures |a| == |b| && forall i :: 0 <= i < |a| ==> a[i].fields == b[i].fields && a[i].hash == b[i].hash
    decreases |a|
  {
    hide Injective;
    hide NeverEmpty;
    hide Verifies;
    if a != [] { NotEmptyAt(h, a); }
    if b != [] { NotEmptyAt(h, b); }
    if a != [] && b != [] {
      var m, n := |a| - 1, |b| - 1;
      InjectiveAt(h, LastHash(a[..m]), a[m].fields, LastHash(b[..n]), b[n].fields);
      PrefixVerifies(h, a, m);
      PrefixVerifies(h, b, n);
      SameEnd(h, a[..m], b[..n]);
      assert forall i :: 0 <= i < m ==> a[i] == a[..m][i] && b[i] == b[..n][i];
    }
  }

  /** Entries whose fields were rewritten while the last hash was kept are always found out. */
  lemma RewritingIsDetected<P(!new)>(h: Hash<P>, c: seq<Link<P>>, d: seq<Link<P>>)
    requires Injective(h) && NeverEmpty(h) && Verifies(h, c) && LastHash(c) == LastHash(d)
    requires |c| != |d| || exists i :: 0 <= i < |c| && c[i].fields != d[i].fields
    ensures !Verifies(h, d)
  {
    if Verifies(h, d) { SameEnd(h, c, d); }
  }

  /** The stored `previous_hash` takes no part in verification. */
  lemma StoredPreviousIsNotChecked<P>(h: Hash<P>, c: seq<Link<P>>, i: nat, previous: string)
    requires i < |c|
    ensures Verifies(h, c[i := c[i].(previous := previous)]) <==> Verifies(h, c)
  {
    var d := c[i := c[i].(previous := previous)];
    forall j | 0 <= j < |c|
      ensures d[j].hash == c[j].hash && d[j].fields == c[j].fields && LastHash(d[..j]) == LastHash(c[..j])
    {
      assert j > 0 ==> d[..j][j - 1].hash == c[..j][j - 1].hash;
    }
  }

  lemma NextIsForced<P(!new)>(h: Hash<P>, c: seq<Link<P>>, d: seq<Link<P>>, i: nat)
    requires Injective(h) && NeverEmpty(h) && Verifies(h, c) && Verifies(h, d)
    requires i < |c| == |d| && c[..i] == d[..i] && d[i] in c
    ensures c[i] == d[i]
  {
    hide Injective;
    hide NeverEmpty;
    var j :| 0 <= j < |c| && c[j] == d[i];
    assert c[j].hash == h(LastHash(c[..j]), c[j].fields) && d[i].hash == h(LastHash(d[..i]), d[i].fields);
    PrefixVerifies(h, c, i);
    PrefixVerifies(h, c, j);
    hide Verifies;
    InjectiveAt(h, LastHash(c[..i]), d[i].fields, LastHash(c[..j]), c[j].fields);
    SameEnd(h, c[..i], c[..j]);
  }

  /** The same entries verify in one order only. */
  lemma OneOrderVerifies<P(!new)>(h: Hash<P>, c: seq<Link<P>>, d: seq<Link<P>>)
    requires Injective(h) && NeverEmpty(h) && Verifies(h, c) && Verifies(h, d)
    requires |c| == |d| && forall x :: x in d ==> x in c
    ensures c == d
  {
    hide Injective;
    hide NeverEmpty;
    hide Verifies;
    for i := 0 to |c|
      invariant c[..i] == d[..i]
    {
      NextIsForced(h, c, d, i);
    }
  }

  // ---------------------------------------------------------------- reloading

  /** Reloading a verifying chain into ascending order gives a verifying chain exactly when
      the chain was in ascending order, and then it is the same chain. */
  lemma ReloadExactly<P(!new)>(h: Hash<P>, before: (Link<P>, Link<P>) -> bool, c: seq<Link<P>>, reloaded: seq<Link<P>>)
    requires Injective(h) && NeverEmpty(h) && StrictOrder(before)
    requires Verifies(h, c) && multiset(c) == multiset(reloaded) && Ascending(before, reloaded)
    ensures reloaded == c <==> Ascending(before, c)
    ensures Verifies(h, reloaded) <==> Ascending(before, c)
  {
    if Ascending(before, c) { OneAscendingOrder(before, c, reloaded); }
    if Verifies(h, reloaded) {
      assert |multiset(c)| == |c| && |multiset(reloaded)| == |reloaded|;
      assert forall x :: x in reloaded ==> x in multiset(reloaded);
      assert forall x :: x in multiset(c) ==> x in c;
      OneOrderVerifies(h, c, reloaded);
    }
  }
}
