/** The version registry: every history ascends, whatever order the versions arrive in. */
module ContractRegistry {

  import opened Wrappers
  import opened Ordering
  import opened Contracts

  type Key = (string, string)

  type Entries = map<Key, seq<Contract>>

  predicate ByVersion(a: Contract, b: Contract) { Older(a.version, b.version) }

  function History(entries: Entries, key: Key): seq<Contract> { if key in entries then entries[key] else [] }

  predicate Known(history: seq<Contract>, v: Version) { exists i :: 0 <= i < |history| && history[i].version == v }

  /** Every history holds contracts of its key, oldest version first, none twice. */
  ghost predicate Sound(entries: Entries) {
    forall key :: key in entries ==>
      Ascending(ByVersion, entries[key]) && forall c :: c in entries[key] ==> c.Key() == key
  }

  /** `register` on the stored histories; `None` when the version is already there. */
  function Registered(entries: Entries, c: Contract): Option<Entries> {
    var history := History(entries, c.Key());
    if Known(history, c.version) then None else Some(entries[c.Key() := Sort(ByVersion, history + [c])])
  }

  lemma VersionOrder()
    ensures StrictOrder(ByVersion)
  {
  }

  predicate DistinctVersions(s: seq<Contract>) {
    forall i, j :: 0 <= i < j < |s| ==> s[i].version != s[j].version
  }

  lemma DistinctHaveNoTies(s: seq<Contract>)
    requires DistinctVersions(s)
    ensures NoTies(ByVersion, s)
  {
  }

  lemma RegisteredIsSound(entries: Entries, c: Contract)
    requires Sound(entries) && Registered(entries, c).Some?
    ensures Sound(Registered(entries, c).value)
    ensures multiset(History(Registered(entries, c).value, c.Key())) == multiset(History(entries, c.Key())) + multiset{c}
  {
    var history := History(entries, c.Key());
    var grown := history + [c];
    assert DistinctVersions(grown) by {
      forall i, j | 0 <= i < j < |grown|
        ensures grown[i].version != grown[j].version
      {
        assert j < |history| ==> ByVersion(history[i], history[j]);
      }
    }
    DistinctHaveNoTies(grown);
    VersionOrder();
    SortAscends(ByVersion, grown);
    forall x | x in Sort(ByVersion, grown)
      ensures x.Key() == c.Key()
    {
      assert x in multiset(Sort(ByVersion, grown));
      assert x in grown;
    }
  }

  class Registry {
    var entries: Entries

    constructor ()
      ensures entries == map[] && Sound(entries)
    {
      entries := map[];
    }

    /** `register`: refuse a version that is there, else append and sort. */
    method Register(c: Contract) returns (r: Result<(), string>)
      requires Sound(entries)
      modifies this
      ensures Sound(entries)
      ensures r.Err? <==> Known(History(old(entries), c.Key()), c.version)
      ensures r.Err? ==> entries == old(entries)
      ensures r.Ok? ==>
                multiset(History(entries, c.Key())) == multiset(History(old(entries), c.Key())) + multiset{c}
                && forall key :: key != c.Key() ==> History(entries, key) == History(old(entries), key)
      ensures Some(entries) == if r.Ok? then Registered(old(entries), c) else Some(old(entries))
    {
      var history := History(entries, c.Key());
      var known := exists i :: 0 <= i < |history| && history[i].version == c.version;
      if known { return Err("already registered"); }
      RegisteredIsSound(entries, c);
      hide Sound;
      hide Sort;
      entries := entries[c.Key() := history + [c]];
      entries := entries[c.Key() := Sort(ByVersion, entries[c.Key()])];
      assert entries == Registered(old(entries), c).value;
      return Ok(());
    }

    /** `get`: the newest contract, or the one whose version is written as asked. */
    method Get(key: Key, text: Option<string>) returns (r: Option<Contract>)
      requires Sound(entries)
      ensures text.None? ==> r == Latest(entries, key)
      ensures text.Some? ==> (r.None? <==> forall c :: c in History(entries, key) ==> c.text != text.value)
      ensures r.Some? ==> r.value in History(entries, key) && (text.Some? ==> r.value.text == text.value)
    {
      var history := History(entries, key);
      if history == [] { return None; }
      if text.None? { return Some(history[|history| - 1]); }
      var i := 0;
      while i < |history|
        invariant i <= |history| && forall j :: 0 <= j < i ==> history[j].text != text.value
      {
        if history[i].text == text.value { return Some(history[i]); }
        i := i + 1;
      }
      return None;
    }
  }

  function Latest(entries: Entries, key: Key): Option<Contract> {
    var history := History(entries, key);
    if history == [] then None else Some(history[|history| - 1])
  }

  /** The latest contract is the one with the greatest version: no other of the key has a higher
      major number, or the same and a higher minor number, or both the same and a patch number
      at least as high. */
  lemma LatestIsGreatest(entries: Entries, key: Key, c: Contract)
    requires Sound(entries) && c in History(entries, key)
    ensures Latest(entries, key).Some? && Latest(entries, key).value in History(entries, key)
    ensures var newest := Latest(entries, key).value;
            c == newest
            || c.version.major < newest.version.major
            || (c.version.major == newest.version.major && c.version.minor < newest.version.minor)
            || (c.version.major == newest.version.major && c.version.minor == newest.version.minor
                && c.version.patch < newest.version.patch)
  {
    var history := History(entries, key);
    var i :| 0 <= i < |history| && history[i] == c;
    assert i < |history| - 1 ==> ByVersion(history[i], history[|history| - 1]);
  }

  // ---------------------------------------------------------------- any order of registration

  /** The constructor's loop. */
  function RegisterAll(contracts: seq<Contract>): Option<Entries> {
    if contracts == [] then Some(map[])
    else
      var before := RegisterAll(contracts[..|contracts| - 1]);
      if before.None? then None else Registered(before.value, contracts[|contracts| - 1])
  }

  function Of(contracts: seq<Contract>, key: Key): seq<Contract> {
    if contracts == [] then []
    else
      Of(contracts[..|contracts| - 1], key)
      + if contracts[|contracts| - 1].Key() == key then [contracts[|contracts| - 1]] else []
  }

  predicate AllDistinct(contracts: seq<Contract>) {
    forall i, j :: 0 <= i < j < |contracts| ==>
      contracts[i].Key() != contracts[j].Key() || contracts[i].version != contracts[j].version
  }

  lemma {:induction false} OfExactly(contracts: seq<Contract>, key: Key)
    ensures forall c :: c in Of(contracts, key) <==> c in contracts && c.Key() == key
    ensures AllDistinct(contracts) ==> DistinctVersions(Of(contracts, key))
  {
    if contracts != [] {
      var init, last := contracts[..|contracts| - 1], contracts[|contracts| - 1];
      OfExactly(init, key);
      assert contracts == init + [last];
      if AllDistinct(contracts) {
        var some := Of(init, key);
        forall i | 0 <= i < |some| && last.Key() == key
          ensures some[i].version != last.version
        {
          assert some[i] in init;
        }
      }
    }
  }

  lemma {:induction false} OfCount(contracts: seq<Contract>, key: Key, c: Contract)
    ensures multiset(Of(contracts, key))[c] == if c.Key() == key then multiset(contracts)[c] else 0
  {
    if contracts != [] {
      var init, last := contracts[..|contracts| - 1], contracts[|contracts| - 1];
      OfCount(init, key, c);
      assert contracts == init + [last];
    }
  }

  lemma OfPermutes(s: seq<Contract>, t: seq<Contract>, key: Key)
    requires multiset(s) == multiset(t)
    ensures multiset(Of(s, key)) == multiset(Of(t, key))
  {
    forall c: Contract
      ensures multiset(Of(s, key))[c] == multiset(Of(t, key))[c]
    {
      OfCount(s, key, c);
      OfCount(t, key, c);
    }
  }

  /** Registering a list succeeds exactly when no version comes twice, and then every history
      is the sorted list of that key's contracts. */
  lemma {:induction false} RegisterAllExactly(contracts: seq<Contract>, key: Key)
    ensures RegisterAll(contracts).Some? <==> AllDistinct(contracts)
    ensures RegisterAll(contracts).Some? ==> Sound(RegisterAll(contracts).value)
    ensures RegisterAll(contracts).Some? ==>
              History(RegisterAll(contracts).value, key) == Sort(ByVersion, Of(contracts, key))
              && (key in RegisterAll(contracts).value <==> Of(contracts, key) != [])
    decreases |contracts|
  {
    if contracts != [] {
      var init, last := contracts[..|contracts| - 1], contracts[|contracts| - 1];
      assert contracts == init + [last];
      RegisterAllExactly(init, key);
      RegisterAllExactly(init, last.Key());
      assert AllDistinct(contracts) ==> AllDistinct(init);
      hide AllDistinct;
      hide Sound;
      hide Sort;
      hide Registered;
      if AllDistinct(init) { RegisterNext(RegisterAll(init).value, init, last, key); }
    }
  }

  lemma OfAppend(init: seq<Contract>, last: Contract, key: Key)
    ensures Of(init + [last], key) == Of(init, key) + if last.Key() == key then [last] else []
  {
    assert (init + [last])[..|init|] == init;
  }

  lemma RegisterNext(before: Entries, init: seq<Contract>, last: Contract, key: Key)
    requires Sound(before) && AllDistinct(init)
    requires History(before, last.Key()) == Sort(ByVersion, Of(init, last.Key()))
    requires History(before, key) == Sort(ByVersion, Of(init, key)) && (key in before <==> Of(init, key) != [])
    ensures Registered(before, last).Some? <==> AllDistinct(init + [last])
    ensures Registered(before, last).Some? ==>
              var after, all := Registered(before, last).value, init + [last];
              Sound(after) && History(after, key) == Sort(ByVersion, Of(all, key)) && (key in after <==> Of(all, key) != [])
  {
    hide AllDistinct;
    hide Sort;
    hide Sound;
    hide Known;
    hide Of;
    KnownExactly(init, last);
    DistinctAppend(init, last);
    OfAppend(init, last, key);
    assert Of(init, key) + [] == Of(init, key);
    if Registered(before, last).Some? {
      RegisteredIsSound(before, last);
      ResortGrown(init, last);
    }
  }

  lemma DistinctAppend(init: seq<Contract>, last: Contract)
    requires AllDistinct(init)
    ensures AllDistinct(init + [last]) <==> !exists i :: 0 <= i < |init| && init[i].Key() == last.Key() && init[i].version == last.version
  {
    var all := init + [last];
    forall i | 0 <= i < |init|
      ensures all[i] == init[i] && all[|init|] == last
    {
    }
  }

  lemma KnownExactly(init: seq<Contract>, last: Contract)
    ensures Known(Sort(ByVersion, Of(init, last.Key())), last.version)
            <==> exists i :: 0 <= i < |init| && init[i].Key() == last.Key() && init[i].version == last.version
  {
    var some := Of(init, last.Key());
    var sorted := Sort(ByVersion, some);
    OfExactly(init, last.Key());
    SortPermutes(ByVersion, some);
    if Known(sorted, last.version) {
      var i :| 0 <= i < |sorted| && sorted[i].version == last.version;
      assert sorted[i] in multiset(sorted);
      assert sorted[i] in some;
    }
    if i :| 0 <= i < |init| && init[i].Key() == last.Key() && init[i].version == last.version {
      assert init[i] in some;
      assert init[i] in multiset(sorted);
    }
  }

  lemma ResortGrown(init: seq<Contract>, last: Contract)
    requires AllDistinct(init + [last])
    ensures var some := Of(init, last.Key());
            Sort(ByVersion, Sort(ByVersion, some) + [last]) == Sort(ByVersion, some + [last])
  {
    hide Sort;
    hide Of;
    hide ByVersion;
    var key := last.Key();
    var some := Of(init, key);
    var all := init + [last];
    OfAppend(init, last, key);
    OfExactly(all, key);
    DistinctHaveNoTies(some + [last]);
    VersionOrder();
    assert NoTies(ByVersion, some) by {
      forall i, j | 0 <= i < j < |some|
        ensures ByVersion(some[i], some[j]) || ByVersion(some[j], some[i])
      {
        assert (some + [last])[i] == some[i] && (some + [last])[j] == some[j];
      }
    }
    SortAscends(ByVersion, some);
    var sorted := Sort(ByVersion, some);
    assert NoTies(ByVersion, sorted + [last]) by {
      forall i | 0 <= i < |sorted|
        ensures ByVersion(sorted[i], last) || ByVersion(last, sorted[i])
      {
        assert sorted[i] in multiset(some);
        var k :| 0 <= k < |some| && some[k] == sorted[i];
        assert (some + [last])[k] == some[k] && (some + [last])[|some|] == last;
      }
    }
    SortIgnoresOrder(ByVersion, sorted + [last], some + [last]);
  }

  predicate Clash(a: Contract, b: Contract) { a.Key() == b.Key() && a.version == b.version }

  /** The same condition without positions. */
  ghost predicate OneEach(m: multiset<Contract>) {
    forall x, y :: x in m && y in m && Clash(x, y) ==> x == y && m[x] == 1
  }

  lemma OneEachAppend(m: multiset<Contract>, c: Contract)
    ensures OneEach(m + multiset{c}) <==> OneEach(m) && forall x :: x in m ==> !Clash(x, c)
  {
    var n := m + multiset{c};
    assert n[c] == m[c] + 1 && Clash(c, c) && c in n;
    if OneEach(n) {
      forall x | x in m
        ensures !Clash(x, c)
      {
        assert x in n && n[x] >= m[x];
      }
      forall x, y | x in m && y in m && Clash(x, y)
        ensures x == y && m[x] == 1
      {
        assert x in n && y in n;
      }
    }
  }

  lemma {:induction false} DistinctExactly(s: seq<Contract>)
    ensures AllDistinct(s) <==> OneEach(multiset(s))
  {
    if s != [] {
      var init, last := s[..|s| - 1], s[|s| - 1];
      assert s == init + [last];
      DistinctExactly(init);
      OneEachAppend(multiset(init), last);
      assert multiset(s) == multiset(init) + multiset{last};
      hide OneEach;
      if AllDistinct(init) {
        DistinctAppend(init, last);
        assert forall i :: 0 <= i < |init| ==> init[i] in multiset(init);
        assert forall x :: x in multiset(init) ==> x in init;
      }
    }
  }

  lemma DistinctPermuted(s: seq<Contract>, t: seq<Contract>)
    requires multiset(s) == multiset(t)
    ensures AllDistinct(s) <==> AllDistinct(t)
  {
    DistinctExactly(s);
    DistinctExactly(t);
  }

  /** Registering the same contracts in another order gives the same registry. */
  lemma AnyOrderOfRegistration(s: seq<Contract>, t: seq<Contract>)
    requires multiset(s) == multiset(t)
    ensures RegisterAll(s) == RegisterAll(t)
  {
    RegisterAllExactly(s, ("", ""));
    RegisterAllExactly(t, ("", ""));
    DistinctPermuted(s, t);
    if AllDistinct(s) {
      var a, b := RegisterAll(s).value, RegisterAll(t).value;
      forall key
        ensures key in a <==> key in b
        ensures History(a, key) == History(b, key)
      {
        RegisterAllExactly(s, key);
        RegisterAllExactly(t, key);
        OfPermutes(s, t, key);
        OfExactly(s, key);
        OfExactly(t, key);
        DistinctHaveNoTies(Of(s, key));
        DistinctHaveNoTies(Of(t, key));
        VersionOrder();
        SortIgnoresOrder(ByVersion, Of(s, key), Of(t, key));
        assert |multiset(Of(s, key))| == |Of(s, key)| && |multiset(Of(t, key))| == |Of(t, key)|;
      }
      assert forall key :: key in a ==> History(a, key) == a[key] && History(b, key) == b[key];
      assert a == b;
    }
  }
}
