/** Capability contracts: structural comparison, version discipline, and when compatibility
    carries over from one version to the next but one. */
module Contracts {

  import opened Wrappers
  import opened Ordering
  import opened Strings

  /** Precedence as in section 11 of Semantic Versioning 2.0.0, without pre-releases. */
  datatype Version = Version(major: nat, minor: nat, patch: nat)

  predicate Older(v: Version, w: Version) {
    v.major < w.major || (v.major == w.major && (v.minor < w.minor || (v.minor == w.minor && v.patch < w.patch)))
  }

  datatype Parameter = Parameter(name: string, required: bool)

  /** `text` is the version as it was written; pre-release and build suffixes show only there. */
  datatype Contract = Contract(
    kind: string, name: string, text: string, version: Version, capabilities: seq<string>, actions: seq<string>,
    permissions: seq<string>, parameters: seq<Parameter>, outputKeys: seq<string>)
  {
    function Key(): (string, string) { (kind, name) }
  }

  function ParameterNames(c: Contract): seq<string> { Names(c.parameters, false) }

  function RequiredNames(c: Contract): seq<string> { Names(c.parameters, true) }

  function Names(ps: seq<Parameter>, onlyRequired: bool): seq<string> {
    if ps == [] then []
    else (if onlyRequired && !ps[0].required then [] else [ps[0].name]) + Names(ps[1..], onlyRequired)
  }

  datatype Category = Capability | Action | Permission | ParameterKind | Output | VersionKind

  datatype Detail = Removed(item: string) | Added(item: string) | RequiredAdded(item: string)
                  | SurfaceDiffers | Downgrade | MajorChange

  datatype Change = Change(category: Category, breaking: bool, detail: Detail)

  // ---------------------------------------------------------------- comparing surfaces

  /** The names of `a` that are not in `b`, each once. */
  function Minus(a: seq<string>, b: seq<string>): (r: seq<string>)
    ensures forall x :: x in r <==> x in a && x !in b
    ensures forall i, j :: 0 <= i < j < |r| ==> r[i] != r[j]
  {
    if a == [] then []
    else
      var rest := Minus(a[1..], b);
      if a[0] in b || a[0] in rest then rest else [a[0]] + rest
  }

  /** `sorted(a - b)`. */
  function Difference(a: seq<string>, b: seq<string>): seq<string> { Sort(Less, Minus(a, b)) }

  lemma DifferenceSorted(a: seq<string>, b: seq<string>)
    ensures Ascending(Less, Difference(a, b))
    ensures forall x :: x in Difference(a, b) <==> x in a && x !in b
    ensures Difference(a, b) == [] <==> forall x :: x in a ==> x in b
  {
    var m := Minus(a, b);
    forall i, j | 0 <= i < j < |m|
      ensures Less(m[i], m[j]) || Less(m[j], m[i])
    {
      LessTotal(m[i], m[j]);
    }
    LessOrder();
    SortAscends(Less, m);
    assert forall x :: x in Sort(Less, m) <==> x in multiset(Sort(Less, m));
    assert forall x :: x in m <==> x in multiset(m);
    if Difference(a, b) == [] {
      forall x | x in a
        ensures x in b
      {
        assert x !in Difference(a, b);
      }
    } else {
      assert Difference(a, b)[0] in Difference(a, b);
    }
  }

  function Removals(names: seq<string>, category: Category): seq<Change> {
    seq(|names|, i requires 0 <= i < |names| => Change(category, true, Removed(names[i])))
  }

  function Additions(names: seq<string>, category: Category): seq<Change> {
    seq(|names|, i requires 0 <= i < |names| => Change(category, false, Added(names[i])))
  }

  function Deltas(before: seq<string>, after: seq<string>, category: Category): seq<Change> {
    Removals(Difference(before, after), category) + Additions(Difference(after, before), category)
  }

  /** `_surface_deltas`. */
  method SurfaceDeltas(before: seq<string>, after: seq<string>, category: Category) returns (changes: seq<Change>)
    ensures changes == Deltas(before, after, category)
  {
    changes := [];
    var removed, added := Difference(before, after), Difference(after, before);
    var i := 0;
    while i < |removed|
      invariant i <= |removed| && changes == Removals(removed, category)[..i]
    {
      changes := changes + [Change(category, true, Removed(removed[i]))];
      i := i + 1;
    }
    i := 0;
    while i < |added|
      invariant i <= |added| && changes == Removals(removed, category) + Additions(added, category)[..i]
    {
      changes := changes + [Change(category, false, Added(added[i]))];
      i := i + 1;
    }
  }

  function NewlyRequired(before: Contract, after: Contract, names: seq<string>): seq<Change> {
    if names == [] then []
    else
      (if names[0] in ParameterNames(before) then [] else [Change(ParameterKind, true, RequiredAdded(names[0]))])
      + NewlyRequired(before, after, names[1..])
  }

  function SurfaceChanges(before: Contract, after: Contract): seq<Change> {
    Deltas(before.capabilities, after.capabilities, Capability)
    + Deltas(before.actions, after.actions, Action)
    + Deltas(before.permissions, after.permissions, Permission)
    + Deltas(before.outputKeys, after.outputKeys, Output)
    + Deltas(ParameterNames(before), ParameterNames(after), ParameterKind)
    + NewlyRequired(before, after, Difference(RequiredNames(after), RequiredNames(before)))
  }

  function VersionChanges(before: Version, after: Version, surfaceDiffers: bool): seq<Change> {
    if before == after then if surfaceDiffers then [Change(VersionKind, true, SurfaceDiffers)] else []
    else if Older(after, before) then [Change(VersionKind, true, Downgrade)]
    else if after.major > before.major then [Change(VersionKind, false, MajorChange)] else []
  }

  function Changes(before: Contract, after: Contract): seq<Change> {
    var surface := SurfaceChanges(before, after);
    surface + VersionChanges(before.version, after.version, surface != [])
  }

  predicate Breaks(changes: seq<Change>) { exists i :: 0 <= i < |changes| && changes[i].breaking }

  predicate Compatible(before: Contract, after: Contract) { !Breaks(Changes(before, after)) }

  datatype Comparison = Comparison(compatible: bool, changes: seq<Change>)

  /** `compare_contracts`: contracts of different contributions cannot be compared. */
  method CompareContracts(before: Contract, after: Contract) returns (r: Result<Comparison, string>)
    ensures r.Ok? <==> before.Key() == after.Key()
    ensures r.Ok? ==> r.value.changes == Changes(before, after) && (r.value.compatible <==> Compatible(before, after))
  {
    hide Deltas;
    hide NewlyRequired;
    hide Difference;
    if before.Key() != after.Key() { return Err("unrelated contracts"); }
    var capabilities := SurfaceDeltas(before.capabilities, after.capabilities, Capability);
    var actions := SurfaceDeltas(before.actions, after.actions, Action);
    var permissions := SurfaceDeltas(before.permissions, after.permissions, Permission);
    var outputs := SurfaceDeltas(before.outputKeys, after.outputKeys, Output);
    var parameters := SurfaceDeltas(ParameterNames(before), ParameterNames(after), ParameterKind);
    var required := RequiredDeltas(before, after);
    var changes := capabilities + actions + permissions + outputs + parameters + required;
    assert changes == SurfaceChanges(before, after);
    hide SurfaceChanges;
    if before.version == after.version {
      if changes != [] { changes := changes + [Change(VersionKind, true, SurfaceDiffers)]; }
    } else if Older(after.version, before.version) {
      changes := changes + [Change(VersionKind, true, Downgrade)];
    } else if after.version.major > before.version.major {
      changes := changes + [Change(VersionKind, false, MajorChange)];
    }
    assert changes == Changes(before, after);
    var breaks := exists i :: 0 <= i < |changes| && changes[i].breaking;
    return Ok(Comparison(!breaks, changes));
  }

  lemma NewlyRequiredCons(before: Contract, after: Contract, names: seq<string>, i: nat)
    requires i < |names|
    ensures NewlyRequired(before, after, names[i..])
         == (if names[i] in ParameterNames(before) then [] else [Change(ParameterKind, true, RequiredAdded(names[i]))])
          + NewlyRequired(before, after, names[i + 1..])
  {
    assert names[i..][1..] == names[i + 1..];
  }

  /** The loop of `compare_contracts` over newly required parameters. */
  method RequiredDeltas(before: Contract, after: Contract) returns (changes: seq<Change>)
    ensures changes == NewlyRequired(before, after, Difference(RequiredNames(after), RequiredNames(before)))
  {
    hide Difference;
    hide ParameterNames;
    hide RequiredNames;
    hide NewlyRequired;
    changes := [];
    var required := Difference(RequiredNames(after), RequiredNames(before));
    var i := 0;
    assert required[0..] == required;
    while i < |required|
      invariant i <= |required|
      invariant changes + NewlyRequired(before, after, required[i..]) == NewlyRequired(before, after, required)
    {
      NewlyRequiredCons(before, after, required, i);
      if required[i] !in ParameterNames(before) {
        changes := changes + [Change(ParameterKind, true, RequiredAdded(required[i]))];
      }
      i := i + 1;
    }
    NothingRequired(before, after, required[i..]);
  }

  lemma NothingRequired(before: Contract, after: Contract, names: seq<string>)
    requires names == []
    ensures NewlyRequired(before, after, names) == []
  {
  }

  // ---------------------------------------------------------------- when contracts are compatible

  predicate Within(a: seq<string>, b: seq<string>) { forall x :: x in a ==> x in b }

  predicate SurfaceKept(a: Contract, b: Contract) {
    Within(a.capabilities, b.capabilities) && Within(a.actions, b.actions) && Within(a.permissions, b.permissions)
    && Within(a.outputKeys, b.outputKeys) && Within(ParameterNames(a), ParameterNames(b))
  }

  predicate SameSurface(a: Contract, b: Contract) { SurfaceKept(a, b) && SurfaceKept(b, a) }

  predicate NoVersionChange(s: seq<Change>) { forall i :: 0 <= i < |s| ==> s[i].category != VersionKind }

  lemma BreaksConcat(s: seq<Change>, t: seq<Change>)
    ensures Breaks(s + t) <==> Breaks(s) || Breaks(t)
    ensures s + t == [] <==> s == [] && t == []
    ensures NoVersionChange(s) && NoVersionChange(t) ==> NoVersionChange(s + t)
  {
    if Breaks(s) {
      var i :| 0 <= i < |s| && s[i].breaking;
      assert (s + t)[i].breaking;
    }
    if Breaks(t) {
      var i :| 0 <= i < |t| && t[i].breaking;
      assert (s + t)[|s| + i].breaking;
    }
  }

  lemma DeltasExactly(a: seq<string>, b: seq<string>, category: Category)
    ensures Breaks(Deltas(a, b, category)) <==> !Within(a, b)
    ensures Deltas(a, b, category) == [] <==> Within(a, b) && Within(b, a)
    ensures category != VersionKind ==> NoVersionChange(Deltas(a, b, category))
  {
    DifferenceSorted(a, b);
    DifferenceSorted(b, a);
    hide Difference;
    var removed, added := Difference(a, b), Difference(b, a);
    BreaksConcat(Removals(removed, category), Additions(added, category));
    if removed != [] { assert Removals(removed, category)[0].breaking; }
  }

  lemma {:induction false} NewlyRequiredExactly(a: Contract, b: Contract, names: seq<string>)
    ensures Breaks(NewlyRequired(a, b, names)) <==> !Within(names, ParameterNames(a))
    ensures NewlyRequired(a, b, names) == [] <==> Within(names, ParameterNames(a))
    ensures NoVersionChange(NewlyRequired(a, b, names))
  {
    if names != [] {
      NewlyRequiredExactly(a, b, names[1..]);
      var first := if names[0] in ParameterNames(a) then [] else [Change(ParameterKind, true, RequiredAdded(names[0]))];
      BreaksConcat(first, NewlyRequired(a, b, names[1..]));
      assert names == [names[0]] + names[1..];
      if names[0] !in ParameterNames(a) { assert first[0].breaking; }
    }
  }

  lemma {:induction false} RequiredIsKnown(ps: seq<Parameter>)
    ensures Within(Names(ps, true), Names(ps, false))
  {
    if ps != [] { RequiredIsKnown(ps[1..]); }
  }

  lemma RequirementsWithin(a: Contract, b: Contract)
    ensures Within(Difference(RequiredNames(b), RequiredNames(a)), ParameterNames(a)) <==> Within(RequiredNames(b), ParameterNames(a))
    ensures Within(ParameterNames(b), ParameterNames(a)) ==> Within(RequiredNames(b), ParameterNames(a))
  {
    DifferenceSorted(RequiredNames(b), RequiredNames(a));
    RequiredIsKnown(a.parameters);
    RequiredIsKnown(b.parameters);
  }

  lemma SurfaceExactly(a: Contract, b: Contract)
    ensures Breaks(SurfaceChanges(a, b)) <==> !SurfaceKept(a, b) || !Within(RequiredNames(b), ParameterNames(a))
    ensures SurfaceChanges(a, b) == [] <==> SameSurface(a, b)
    ensures NoVersionChange(SurfaceChanges(a, b))
  {
    hide Deltas;
    hide NewlyRequired;
    hide Difference;
    hide Breaks;
    hide NoVersionChange;
    hide ParameterNames;
    hide RequiredNames;
    var names := Difference(RequiredNames(b), RequiredNames(a));
    var c1 := Deltas(a.capabilities, b.capabilities, Capability);
    var c2 := Deltas(a.actions, b.actions, Action);
    var c3 := Deltas(a.permissions, b.permissions, Permission);
    var c4 := Deltas(a.outputKeys, b.outputKeys, Output);
    var c5 := Deltas(ParameterNames(a), ParameterNames(b), ParameterKind);
    var c6 := NewlyRequired(a, b, names);
    RequirementsWithin(a, b);
    hide Within;
    DeltasExactly(a.capabilities, b.capabilities, Capability);
    DeltasExactly(a.actions, b.actions, Action);
    BreaksConcat(c1, c2);
    DeltasExactly(a.permissions, b.permissions, Permission);
    BreaksConcat(c1 + c2, c3);
    DeltasExactly(a.outputKeys, b.outputKeys, Output);
    BreaksConcat(c1 + c2 + c3, c4);
    DeltasExactly(ParameterNames(a), ParameterNames(b), ParameterKind);
    BreaksConcat(c1 + c2 + c3 + c4, c5);
    NewlyRequiredExactly(a, b, names);
    BreaksConcat(c1 + c2 + c3 + c4 + c5, c6);
  }

  /** Compatible means: nothing promised is taken away, nothing unknown is demanded, the
      version does not go down, and an unchanged version has an unchanged surface. */
  lemma CompatibleExactly(a: Contract, b: Contract)
    ensures Compatible(a, b)
            <==> SurfaceKept(a, b) && Within(RequiredNames(b), ParameterNames(a))
                 && !Older(b.version, a.version) && (a.version == b.version ==> SameSurface(a, b))
  {
    SurfaceExactly(a, b);
    var surface := SurfaceChanges(a, b);
    var versions := VersionChanges(a.version, b.version, surface != []);
    BreaksConcat(surface, versions);
    hide SurfaceChanges;
    hide SurfaceKept;
    hide Within;
    if versions != [] { assert Breaks(versions) <==> versions[0].breaking; }
  }

  lemma {:induction false} NamesExactly(ps: seq<Parameter>, onlyRequired: bool, x: string)
    ensures x in Names(ps, onlyRequired) <==> exists p :: p in ps && p.name == x && (onlyRequired ==> p.required)
  {
    if ps != [] {
      NamesExactly(ps[1..], onlyRequired, x);
      assert ps == [ps[0]] + ps[1..];
      if onlyRequired && !ps[0].required {
      } else {
        assert ps[0] in ps;
      }
    }
  }

  /** In full: every capability, action, permission, output key and parameter of the old contract
      is in the new one, every parameter the new one requires was a parameter of the old one,
      and the new version is higher, by its major number, under equal ones by its minor number,
      under equal ones by its patch number, or the same with nothing added. */
  lemma CompatibleInFull(a: Contract, b: Contract)
    ensures Compatible(a, b) <==>
              && (forall x :: x in a.capabilities ==> x in b.capabilities)
              && (forall x :: x in a.actions ==> x in b.actions)
              && (forall x :: x in a.permissions ==> x in b.permissions)
              && (forall x :: x in a.outputKeys ==> x in b.outputKeys)
              && (forall p :: p in a.parameters ==> exists q :: q in b.parameters && q.name == p.name)
              && (forall q :: q in b.parameters && q.required ==> exists p :: p in a.parameters && p.name == q.name)
              && (b.version.major > a.version.major
                  || (b.version.major == a.version.major && b.version.minor > a.version.minor)
                  || (b.version.major == a.version.major && b.version.minor == a.version.minor && b.version.patch > a.version.patch)
                  || (b.version == a.version
                      && (forall x :: x in b.capabilities ==> x in a.capabilities)
                      && (forall x :: x in b.actions ==> x in a.actions)
                      && (forall x :: x in b.permissions ==> x in a.permissions)
                      && (forall x :: x in b.outputKeys ==> x in a.outputKeys)
                      && (forall q :: q in b.parameters ==> exists p :: p in a.parameters && p.name == q.name)))
  {
    CompatibleExactly(a, b);
    hide Compatible;
    NamesWithin(a, b, false);
    NamesWithin(b, a, false);
    NamesWithin(b, a, true);
    hide Names;
  }

  lemma NamesWithin(a: Contract, b: Contract, onlyRequired: bool)
    ensures Within(if onlyRequired then RequiredNames(a) else ParameterNames(a), ParameterNames(b))
            <==> forall p :: p in a.parameters && (onlyRequired ==> p.required) ==> exists q :: q in b.parameters && q.name == p.name
  {
    hide Names;
    var names := if onlyRequired then RequiredNames(a) else ParameterNames(a);
    if Within(names, ParameterNames(b)) {
      forall p | p in a.parameters && (onlyRequired ==> p.required)
        ensures exists q :: q in b.parameters && q.name == p.name
      {
        NamesExactly(a.parameters, onlyRequired, p.name);
        NamesExactly(b.parameters, false, p.name);
      }
    }
    if forall p :: p in a.parameters && (onlyRequired ==> p.required) ==> exists q :: q in b.parameters && q.name == p.name {
      forall x | x in names
        ensures x in ParameterNames(b)
      {
        NamesExactly(a.parameters, onlyRequired, x);
        NamesExactly(b.parameters, false, x);
      }
    }
  }

  /** Which changes are reported: what is gone and breaking, what is new and not, the parameters
      newly demanded, and what the version number says. */
  lemma ReportedExactly(a: Contract, b: Contract, x: string)
    ensures var changes := Changes(a, b);
            && (Change(Capability, true, Removed(x)) in changes <==> x in a.capabilities && x !in b.capabilities)
            && (Change(Capability, false, Added(x)) in changes <==> x in b.capabilities && x !in a.capabilities)
            && (Change(Action, true, Removed(x)) in changes <==> x in a.actions && x !in b.actions)
            && (Change(Action, false, Added(x)) in changes <==> x in b.actions && x !in a.actions)
            && (Change(Permission, true, Removed(x)) in changes <==> x in a.permissions && x !in b.permissions)
            && (Change(Permission, false, Added(x)) in changes <==> x in b.permissions && x !in a.permissions)
            && (Change(Output, true, Removed(x)) in changes <==> x in a.outputKeys && x !in b.outputKeys)
            && (Change(Output, false, Added(x)) in changes <==> x in b.outputKeys && x !in a.outputKeys)
            && (Change(ParameterKind, true, Removed(x)) in changes <==> x in ParameterNames(a) && x !in ParameterNames(b))
            && (Change(ParameterKind, false, Added(x)) in changes <==> x in ParameterNames(b) && x !in ParameterNames(a))
            && (Change(ParameterKind, true, RequiredAdded(x)) in changes <==> x in RequiredNames(b) && x !in ParameterNames(a))
  {
    hide Names;
    hide Difference;
    hide Deltas;
    hide NewlyRequired;
    DeltasReport(a.capabilities, b.capabilities, Capability, x);
    DeltasReport(a.actions, b.actions, Action, x);
    DeltasReport(a.permissions, b.permissions, Permission, x);
    DeltasReport(a.outputKeys, b.outputKeys, Output, x);
    DeltasReport(ParameterNames(a), ParameterNames(b), ParameterKind, x);
    RequiredReport(a, b, Difference(RequiredNames(b), RequiredNames(a)), x);
    DifferenceSorted(RequiredNames(b), RequiredNames(a));
    RequiredKnown(a, x);
  }

  lemma RequiredKnown(a: Contract, x: string)
    ensures x in RequiredNames(a) ==> x in ParameterNames(a)
  {
    NamesExactly(a.parameters, true, x);
    NamesExactly(a.parameters, false, x);
    hide Names;
  }

  lemma DeltasReport(a: seq<string>, b: seq<string>, category: Category, x: string)
    ensures var r := Deltas(a, b, category);
            && (Change(category, true, Removed(x)) in r <==> x in a && x !in b)
            && (Change(category, false, Added(x)) in r <==> x in b && x !in a)
            && forall change :: change in r ==> change.category == category && (change.detail.Removed? || change.detail.Added?)
  {
    DifferenceSorted(a, b);
    DifferenceSorted(b, a);
    hide Difference;
    var removed, added := Difference(a, b), Difference(b, a);
    if x in removed {
      var i :| 0 <= i < |removed| && removed[i] == x;
      assert Removals(removed, category)[i] == Change(category, true, Removed(x));
    }
    if x in added {
      var i :| 0 <= i < |added| && added[i] == x;
      assert Additions(added, category)[i] == Change(category, false, Added(x));
    }
  }

  lemma {:induction false} RequiredReport(a: Contract, b: Contract, names: seq<string>, x: string)
    ensures Change(ParameterKind, true, RequiredAdded(x)) in NewlyRequired(a, b, names) <==> x in names && x !in ParameterNames(a)
    ensures forall change :: change in NewlyRequired(a, b, names) ==> change.category == ParameterKind && change.detail.RequiredAdded?
  {
    if names != [] {
      RequiredReport(a, b, names[1..], x);
      assert names == [names[0]] + names[1..];
    }
  }

  /** What is said of the version: a downgrade when it is lower, that the surface differs when it
      is the same and something changed, and a new major number without breaking anything. */
  lemma VersionReported(a: Contract, b: Contract)
    ensures var changes := Changes(a, b);
            && (Change(VersionKind, true, Downgrade) in changes <==>
                  b.version.major < a.version.major
                  || (b.version.major == a.version.major && b.version.minor < a.version.minor)
                  || (b.version.major == a.version.major && b.version.minor == a.version.minor && b.version.patch < a.version.patch))
            && (Change(VersionKind, true, SurfaceDiffers) in changes <==> a.version == b.version && !SameSurface(a, b))
            && (Change(VersionKind, false, MajorChange) in changes <==> b.version.major > a.version.major)
  {
    SurfaceExactly(a, b);
    hide SurfaceChanges;
    hide SameSurface;
    hide SurfaceKept;
    hide Within;
  }

  /** The parameters that `b` introduced are not demanded by `c`. */
  predicate IntroducedStayOptional(a: Contract, b: Contract, c: Contract) {
    forall x :: x in ParameterNames(b) && x !in ParameterNames(a) ==> x !in RequiredNames(c)
  }

  /** Two compatible steps make a compatible upgrade exactly when no parameter introduced by
      the first is required by the second. */
  lemma TransitiveExactly(a: Contract, b: Contract, c: Contract)
    requires Compatible(a, b) && Compatible(b, c)
    ensures Compatible(a, c) <==> IntroducedStayOptional(a, b, c)
  {
    CompatibleExactly(a, b);
    CompatibleExactly(b, c);
    CompatibleExactly(a, c);
    RequiredIsKnown(c.parameters);
    hide Compatible;
    hide ParameterNames;
    hide RequiredNames;
  }

  lemma CompatibleReflexive(a: Contract)
    ensures Compatible(a, a)
  {
    CompatibleExactly(a, a);
    RequiredIsKnown(a.parameters);
  }

  /** A parameter that arrives as optional and is required one version later. */
  lemma TransitivityCanFail()
    ensures exists a, b, c :: Compatible(a, b) && Compatible(b, c) && !Compatible(a, c)
  {
    var a := Contract("tool", "t", "1.0.0", Version(1, 0, 0), [], [], [], [], []);
    var b := a.(text := "1.1.0", version := Version(1, 1, 0), parameters := [Parameter("p", false)]);
    var c := a.(text := "1.2.0", version := Version(1, 2, 0), parameters := [Parameter("p", true)]);
    assert ParameterNames(b) == ["p"] && RequiredNames(b) == [] && ParameterNames(c) == ["p"] && RequiredNames(c) == ["p"] by {
      assert b.parameters[1..] == [] && c.parameters[1..] == [];
    }
    CompatibleExactly(a, b);
    CompatibleExactly(b, c);
    assert "p" in RequiredNames(c);
    TransitiveExactly(a, b, c);
  }

  // ---------------------------------------------------------------- bumps

  datatype Bump = NoBump | Patch | Minor | Major

  function OnSurface(changes: seq<Change>): seq<Change> {
    if changes == [] then []
    else (if changes[0].category != VersionKind then [changes[0]] else []) + OnSurface(changes[1..])
  }

  /** `recommended_bump`. */
  function RecommendedBump(a: Contract, b: Contract): Bump {
    var changes := Changes(a, b);
    if Breaks(changes) then Major
    else if OnSurface(changes) != [] then Minor
    else if b.version != a.version then Patch else NoBump
  }

  /** `version_respects_bump`. */
  predicate RespectsBump(a: Contract, b: Contract) {
    match RecommendedBump(a, b)
    case NoBump => true
    case Major => b.version.major > a.version.major
    case Minor => b.version.minor > a.version.minor
    case Patch => b.version.patch > a.version.patch || b.version.minor > a.version.minor || b.version.major > a.version.major
  }

  lemma {:induction false} OnSurfaceExactly(s: seq<Change>)
    ensures OnSurface(s) == [] <==> forall i :: 0 <= i < |s| ==> s[i].category == VersionKind
  {
    if s != [] {
      OnSurfaceExactly(s[1..]);
      assert forall i :: 0 < i < |s| ==> s[i] == s[1..][i - 1];
    }
  }

  lemma BumpExactly(a: Contract, b: Contract)
    ensures RecommendedBump(a, b)
            == if !Compatible(a, b) then Major else if !SameSurface(a, b) then Minor
               else if a.version != b.version then Patch else NoBump
  {
    SurfaceExactly(a, b);
    OnSurfaceExactly(Changes(a, b));
    var surface, changes := SurfaceChanges(a, b), Changes(a, b);
    hide SurfaceChanges;
    hide SameSurface;
    hide OnSurface;
    if surface != [] {
      assert changes[0] == surface[0];
    }
  }

  /** What the discipline accepts: a breaking change with a higher major number, an additive
      one with a higher minor number, and any other step that does not go down. */
  lemma RespectsBumpExactly(a: Contract, b: Contract)
    ensures RespectsBump(a, b)
            <==> if !Compatible(a, b) then b.version.major > a.version.major
                 else if !SameSurface(a, b) then b.version.minor > a.version.minor
                 else true
  {
    BumpExactly(a, b);
    CompatibleExactly(a, b);
    hide RecommendedBump;
    hide Compatible;
    hide SameSurface;
    hide SurfaceKept;
  }

  /** An accepted change of surface has a strictly higher version, a breaking one a higher
      major number. */
  lemma BumpIsSound(a: Contract, b: Contract)
    requires RespectsBump(a, b)
    ensures !SameSurface(a, b) ==>
              a.version.major < b.version.major
                || (a.version.major == b.version.major
                    && (a.version.minor < b.version.minor || (a.version.minor == b.version.minor && a.version.patch < b.version.patch)))
    ensures !SurfaceKept(a, b) || !Within(RequiredNames(b), ParameterNames(a)) ==> b.version.major > a.version.major
  {
    RespectsBumpExactly(a, b);
    CompatibleExactly(a, b);
    hide RespectsBump;
    hide Compatible;
    hide Within;
  }

  /** The patch branch never rejects. */
  lemma PatchAlwaysAccepted(a: Contract, b: Contract)
    requires RecommendedBump(a, b) == Patch
    ensures RespectsBump(a, b)
    ensures a.version.major < b.version.major
            || (a.version.major == b.version.major
                && (a.version.minor < b.version.minor || (a.version.minor == b.version.minor && a.version.patch < b.version.patch)))
  {
    BumpExactly(a, b);
    CompatibleExactly(a, b);
    hide RecommendedBump;
    hide Compatible;
    hide SurfaceKept;
  }

  /** An additive change is refused under a major bump that resets the minor number. */
  lemma AdditiveUnderMajorIsRefused()
    ensures exists a, b :: Compatible(a, b) && b.version.major > a.version.major && !RespectsBump(a, b)
  {
    var a := Contract("tool", "t", "1.0.0", Version(1, 0, 0), [], [], [], [], []);
    var b := a.(text := "2.0.0", version := Version(2, 0, 0), actions := ["go"]);
    CompatibleExactly(a, b);
    assert "go" in b.actions && "go" !in a.actions;
    assert !SameSurface(a, b);
    RespectsBumpExactly(a, b);
  }
}
