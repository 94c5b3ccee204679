/**
 Property inheritance between credential types: `getCredentialsProperties` and the
 in-place merge it is built from.
 */
module CredentialProperties {
  import opened CredentialTypes
  import opened Wrappers

  datatype Property = Property(name: string, doNotInherit: bool, definition: int)

  /** A loaded credential type.  `parents` is its `extends` list, which may be missing; that is
      not the same as being empty. */
  datatype CredentialType = CredentialType(parents: Option<seq<string>>, properties: seq<Property>)

  type Loaded = map<string, CredentialType>

  datatype Collected = Ok(properties: seq<Property>) | UnknownType(typeName: string)

  /** The hierarchy that the loaded types spell out. */
  function HierarchyOf(loaded: Loaded): Hierarchy {
    map t | t in loaded && loaded[t].parents.Some? :: loaded[t].parents.value
  }

  ghost predicate AtOrAbove(loaded: Loaded, t: string, u: string) {
    u == t || Reaches(HierarchyOf(loaded), t, u)
  }

  // ---------------------------------------------------------------------------
  // mergeNodeProperties
  // ---------------------------------------------------------------------------

  ghost predicate UniqueNames(ps: seq<Property>) {
    forall i, j | 0 <= i < j < |ps| :: ps[i].name != ps[j].name
  }

  ghost predicate Inheritable(ps: seq<Property>) {
    forall p | p in ps :: !p.doNotInherit
  }

  /** The first property called `name`. */
  ghost function Find(ps: seq<Property>, name: string): Option<Property> {
    if ps == [] then None
    else if ps[0].name == name then Some(ps[0])
    else Find(ps[1..], name)
  }

  /** The last inheritable property called `name`. */
  ghost function Last(ps: seq<Property>, name: string): Option<Property> {
    if ps == [] then None
    else
      var p := ps[|ps| - 1];
      if p.name == name && !p.doNotInherit then Some(p) else Last(ps[..|ps| - 1], name)
  }

  ghost function Override(before: Option<Property>, after: Option<Property>): Option<Property> {
    if after.Some? then after else before
  }

  lemma {:induction false} FindCases(ps: seq<Property>, name: string)
    ensures Find(ps, name).None? <==> forall p | p in ps :: p.name != name
    ensures forall i | 0 <= i < |ps| && ps[i].name == name && (forall j | 0 <= j < i :: ps[j].name != name) ::
              Find(ps, name) == Some(ps[i])
    decreases |ps|
  {
    if ps != [] {
      FindCases(ps[1..], name);
      assert forall i | 1 <= i < |ps| :: ps[i] == ps[1..][i - 1];
      if ps[0].name == name { assert ps[0] in ps; }
    }
  }

  lemma {:induction false} LastCases(ps: seq<Property>, name: string)
    ensures Last(ps, name).Some? <==> exists p | p in ps :: p.name == name && !p.doNotInherit
    ensures Last(ps, name).Some? ==>
              var p := Last(ps, name).value; p in ps && p.name == name && !p.doNotInherit
    decreases |ps|
  {
    if ps != [] {
      var rest := ps[..|ps| - 1];
      LastCases(rest, name);
      assert ps == rest + [ps[|ps| - 1]];
    }
  }

  /** In a list without repeated names that holds only inheritable properties, first is last. */
  lemma FindIsLast(ps: seq<Property>, name: string)
    requires UniqueNames(ps) && Inheritable(ps)
    ensures Find(ps, name) == Last(ps, name)
  {
    FindCases(ps, name);
    LastCases(ps, name);
    if Last(ps, name).Some? {
      var p := Last(ps, name).value;
      var i :| 0 <= i < |ps| && ps[i] == p;
      assert forall j | 0 <= j < i :: ps[j].name != name;
    }
  }

  /**
   `mergeNodeProperties`: writes `add` into `main`.  Afterwards every name carries the last
   inheritable definition that `add` has for it, and otherwise whatever it carried before;
   names already there keep their places and the new ones follow.
   */
  method MergeNodeProperties(main: seq<Property>, add: seq<Property>) returns (merged: seq<Property>)
    ensures forall name :: Find(merged, name) == Override(Find(main, name), Last(add, name))
    ensures |main| <= |merged| && forall i | 0 <= i < |main| :: merged[i].name == main[i].name
    ensures UniqueNames(main) ==> UniqueNames(merged)
    ensures Inheritable(main) ==> Inheritable(merged)
  {
    merged := main;
    var i := 0;
    while i < |add|
      invariant 0 <= i <= |add|
      invariant forall name :: Find(merged, name) == Override(Find(main, name), Last(add[..i], name))
      invariant |main| <= |merged| && forall j | 0 <= j < |main| :: merged[j].name == main[j].name
      invariant UniqueNames(main) ==> UniqueNames(merged)
      invariant Inheritable(main) ==> Inheritable(merged)
    {
      var property := add[i];
      assert add[..i + 1][..i] == add[..i];
      if !property.doNotInherit {
        ghost var before := merged;
        var existingIndex := FindIndex(merged, property.name);
        if existingIndex == -1 {
          merged := merged + [property];
        } else {
          merged := merged[existingIndex := property];
        }
        Written(before, merged, property, existingIndex);
      }
      i := i + 1;
    }
    assert add[..i] == add;
  }

  method FindIndex(ps: seq<Property>, name: string) returns (index: int)
    ensures -1 <= index < |ps|
    ensures index == -1 ==> forall p | p in ps :: p.name != name
    ensures index >= 0 ==> ps[index].name == name && forall j | 0 <= j < index :: ps[j].name != name
  {
    index := 0;
    while index < |ps|
      invariant 0 <= index <= |ps|
      invariant forall j | 0 <= j < index :: ps[j].name != name
    {
      if ps[index].name == name { return; }
      index := index + 1;
    }
    index := -1;
  }

  /** One write of the merge changes what one name carries. */
  lemma Written(before: seq<Property>, after: seq<Property>, p: Property, index: int)
    requires -1 <= index < |before|
    requires index == -1 ==> after == before + [p] && forall q | q in before :: q.name != p.name
    requires index >= 0 ==> after == before[index := p] && before[index].name == p.name
    requires index >= 0 ==> forall j | 0 <= j < index :: before[j].name != p.name
    ensures forall name :: Find(after, name) == if name == p.name then Some(p) else Find(before, name)
    ensures UniqueNames(before) ==> UniqueNames(after)
    ensures Inheritable(before) && !p.doNotInherit ==> Inheritable(after)
  {
    forall name ensures Find(after, name) == if name == p.name then Some(p) else Find(before, name) {
      if index == -1 {
        FindAppend(before, p, name);
        FindCases(before, name);
      } else {
        FindUpdate(before, index, p, name);
      }
    }
  }

  lemma {:induction false} FindAppend(ps: seq<Property>, p: Property, name: string)
    ensures Find(ps + [p], name) == if Find(ps, name).None? && p.name == name then Some(p) else Find(ps, name)
    decreases |ps|
  {
    if ps != [] {
      FindAppend(ps[1..], p, name);
      assert (ps + [p])[1..] == ps[1..] + [p];
    }
  }

  lemma {:induction false} FindUpdate(ps: seq<Property>, index: nat, p: Property, name: string)
    requires index < |ps| && ps[index].name == p.name
    requires forall j | 0 <= j < index :: ps[j].name != p.name
    ensures Find(ps[index := p], name) == if name == p.name then Some(p) else Find(ps, name)
    decreases |ps|
  {
    if index == 0 {
      assert ps[index := p][1..] == ps[1..];
    } else {
      FindUpdate(ps[1..], index - 1, p, name);
      assert ps[index := p][1..] == ps[1..][index - 1 := p];
    }
  }

  // ---------------------------------------------------------------------------
  // getCredentialsProperties
  // ---------------------------------------------------------------------------

  const OAUTH_TOKEN_DATA := Property("oauthTokenData", false, 0)

  /** What a type itself contributes; the two OAuth types carry one extra property. */
  function Declared(loaded: Loaded, t: string): seq<Property>
    requires t in loaded
  {
    if loaded[t].parents.None? && t in {"oAuth1Api", "oAuth2Api"}
    then loaded[t].properties + [OAUTH_TOKEN_DATA]
    else loaded[t].properties
  }

  /** A type contributes its own properties, and after them one more in just two cases: the OAuth types as long as
      they extend nothing. */
  lemma DeclaredExactly(loaded: Loaded, t: string)
    requires t in loaded
    ensures loaded[t].properties <= Declared(loaded, t)
    ensures forall p | p in Declared(loaded, t)[|loaded[t].properties|..] ::
              p.name == "oauthTokenData" && !p.doNotInherit && loaded[t].parents.None? && (t == "oAuth1Api" || t == "oAuth2Api")
    ensures loaded[t].parents.None? && (t == "oAuth1Api" || t == "oAuth2Api") ==>
              |Declared(loaded, t)| == |loaded[t].properties| + 1
  {
  }

  ghost predicate AllLoaded(loaded: Loaded, t: string) {
    forall u | AtOrAbove(loaded, t, u) :: u in loaded
  }

  /** The definition of `name` that a type passes on: its own if it has one, and otherwise that of
      the last of its parents to pass one on. */
  ghost function PassedOn(loaded: Loaded, t: string, name: string): Option<Property>
    requires Grounded(HierarchyOf(loaded), t) && AllLoaded(loaded, t)
    decreases |Ancestors(HierarchyOf(loaded), t)|, 1, 0
  {
    Override(PassedOnByAll(loaded, t, ParentsOf(HierarchyOf(loaded), t), name), Last(Declared(loaded, t), name))
  }

  ghost function PassedOnByAll(loaded: Loaded, t: string, ps: seq<string>, name: string): Option<Property>
    requires Grounded(HierarchyOf(loaded), t) && AllLoaded(loaded, t)
    requires forall p | p in ps :: p in ParentsOf(HierarchyOf(loaded), t)
    decreases |Ancestors(HierarchyOf(loaded), t)|, 0, |ps|
  {
    if ps == [] then None
    else
      ParentIsGrounded(loaded, t, ps[|ps| - 1]);
      Override(PassedOnByAll(loaded, t, ps[..|ps| - 1], name), PassedOn(loaded, ps[|ps| - 1], name))
  }

  lemma ParentIsGrounded(loaded: Loaded, t: string, p: string)
    requires Grounded(HierarchyOf(loaded), t)
    requires p in ParentsOf(HierarchyOf(loaded), t)
    ensures Reaches(HierarchyOf(loaded), t, p)
    ensures Grounded(HierarchyOf(loaded), p)
    ensures |Ancestors(HierarchyOf(loaded), p)| < |Ancestors(HierarchyOf(loaded), t)|
    ensures forall u | AtOrAbove(loaded, p, u) :: AtOrAbove(loaded, t, u)
  {
    ReachesParent(HierarchyOf(loaded), t, p);
    AncestorsShrink(HierarchyOf(loaded), t, p);
    forall u | AtOrAbove(loaded, p, u) ensures AtOrAbove(loaded, t, u) {
      if u != p { ReachesTransitive(HierarchyOf(loaded), t, p, u); }
    }
  }

  /** Every type at or above `t` is `t` or at or above one of its parents. */
  lemma AboveIsAboveAParent(loaded: Loaded, t: string, u: string) returns (p: string)
    requires Reaches(HierarchyOf(loaded), t, u)
    ensures p in ParentsOf(HierarchyOf(loaded), t) && AtOrAbove(loaded, p, u)
  {
    p := ReachesViaParent(HierarchyOf(loaded), t, u);
  }

  /**
   `getCredentialsProperties`.  It succeeds exactly when every type at or above the given one is
   loaded.  A type without an `extends` list gets its own properties untouched; any other gets,
   once per name, the definition that the hierarchy passes on.
   */
  method GetCredentialsProperties(loaded: Loaded, typeName: string) returns (r: Collected)
    requires Grounded(HierarchyOf(loaded), typeName)
    ensures r.Ok? <==> AllLoaded(loaded, typeName)
    ensures r.UnknownType? ==> AtOrAbove(loaded, typeName, r.typeName) && r.typeName !in loaded
    ensures r.Ok? && loaded[typeName].parents.None? ==> r.properties == Declared(loaded, typeName)
    ensures r.Ok? && loaded[typeName].parents.Some? ==> UniqueNames(r.properties) && Inheritable(r.properties)
    ensures r.Ok? ==> forall name :: Last(r.properties, name) == PassedOn(loaded, typeName, name)
    decreases |Ancestors(HierarchyOf(loaded), typeName)|
  {
    if typeName !in loaded {
      assert AtOrAbove(loaded, typeName, typeName);
      return UnknownType(typeName);
    }
    var credentialTypeData := loaded[typeName];
    if credentialTypeData.parents.None? {
      NothingAbove(loaded, typeName);
      return Ok(Declared(loaded, typeName));
    }
    var ps := credentialTypeData.parents.value;
    assert ps == ParentsOf(HierarchyOf(loaded), typeName);
    var combined: seq<Property> := [];
    var i := 0;
    while i < |ps|
      invariant 0 <= i <= |ps|
      invariant forall p | p in ps[..i] :: AllLoaded(loaded, p)
      invariant UniqueNames(combined) && Inheritable(combined)
      invariant AllLoaded(loaded, typeName) ==>
                  forall name :: Find(combined, name) == PassedOnByAll(loaded, typeName, ps[..i], name)
    {
      ParentIsGrounded(loaded, typeName, ps[i]);
      var inherited := GetCredentialsProperties(loaded, ps[i]);
      if inherited.UnknownType? {
        return inherited;
      }
      combined := MergeNodeProperties(combined, inherited.properties);
      assert ps[..i + 1][..i] == ps[..i] && ps[..i + 1] == ps[..i] + [ps[i]];
      i := i + 1;
    }
    assert ps[..i] == ps;
    LoadedAbove(loaded, typeName);
    combined := MergeNodeProperties(combined, credentialTypeData.properties);
    forall name ensures Last(combined, name) == PassedOn(loaded, typeName, name) {
      FindIsLast(combined, name);
    }
    return Ok(combined);
  }

  lemma NothingAbove(loaded: Loaded, t: string)
    requires t in loaded && loaded[t].parents.None?
    requires Grounded(HierarchyOf(loaded), t)
    ensures AllLoaded(loaded, t)
    ensures forall name :: PassedOn(loaded, t, name) == Last(Declared(loaded, t), name)
  {
    forall u | AtOrAbove(loaded, t, u) ensures u in loaded {
      if u != t { var p := AboveIsAboveAParent(loaded, t, u); }
    }
  }

  lemma LoadedAbove(loaded: Loaded, t: string)
    requires t in loaded
    requires forall p | p in ParentsOf(HierarchyOf(loaded), t) :: AllLoaded(loaded, p)
    ensures AllLoaded(loaded, t)
  {
    forall u | AtOrAbove(loaded, t, u) ensures u in loaded {
      if u != t { var p := AboveIsAboveAParent(loaded, t, u); }
    }
  }

  /** Whatever is passed on was declared somewhere at or above, and whatever is declared there, and
      may be inherited, is passed on under its name. */
  lemma {:induction false} PassedOnFrom(loaded: Loaded, t: string, name: string)
    requires Grounded(HierarchyOf(loaded), t) && AllLoaded(loaded, t)
    ensures PassedOn(loaded, t, name).Some? <==>
            exists u | AtOrAbove(loaded, t, u) :: Last(Declared(loaded, u), name).Some?
    decreases |Ancestors(HierarchyOf(loaded), t)|, 1, 0
  {
    var ps := ParentsOf(HierarchyOf(loaded), t);
    PassedOnByAllFrom(loaded, t, ps, name);
    forall p | p in ps ensures Reaches(HierarchyOf(loaded), t, p) { ParentIsGrounded(loaded, t, p); }
    if u :| AtOrAbove(loaded, t, u) && Last(Declared(loaded, u), name).Some? {
      if u != t {
        var p := AboveIsAboveAParent(loaded, t, u);
      }
    }
    if PassedOnByAll(loaded, t, ps, name).Some? {
      var p, u :| p in ps && AtOrAbove(loaded, p, u) && u in loaded && Last(Declared(loaded, u), name).Some?;
      ParentIsGrounded(loaded, t, p);
      assert AtOrAbove(loaded, t, u);
    }
    if Last(Declared(loaded, t), name).Some? {
      assert AtOrAbove(loaded, t, t);
    }
  }

  lemma {:induction false} PassedOnByAllFrom(loaded: Loaded, t: string, ps: seq<string>, name: string)
    requires Grounded(HierarchyOf(loaded), t) && AllLoaded(loaded, t)
    requires forall p | p in ps :: p in ParentsOf(HierarchyOf(loaded), t)
    ensures PassedOnByAll(loaded, t, ps, name).Some? <==>
            exists p, u :: p in ps && AtOrAbove(loaded, p, u) && u in loaded && Last(Declared(loaded, u), name).Some?
    decreases |Ancestors(HierarchyOf(loaded), t)|, 0, |ps|
  {
    if ps != [] {
      var p, rest := ps[|ps| - 1], ps[..|ps| - 1];
      assert ps == rest + [p];
      ParentIsGrounded(loaded, t, p);
      PassedOnFrom(loaded, p, name);
      PassedOnByAllFrom(loaded, t, rest, name);
    }
  }

  /**
   The names collected for a type are those declared, as inheritable, by the type itself or by one
   of the types that `getParentTypes` returns for it: the two walks agree on who is involved.
   */
  lemma CollectsFromParentTypes(loaded: Loaded, t: string, parents: seq<string>, name: string)
    requires Grounded(HierarchyOf(loaded), t) && AllLoaded(loaded, t)
    requires multiset(parents) == multiset(ParentList(HierarchyOf(loaded), t))
    ensures forall u | u == t || u in parents :: u in loaded
    ensures PassedOn(loaded, t, name).Some? <==>
            exists u | u == t || u in parents :: Last(Declared(loaded, u), name).Some?
  {
    PassedOnFrom(loaded, t, name);
    ParentListIsAncestors(HierarchyOf(loaded), t);
    var list := ParentList(HierarchyOf(loaded), t);
    assert forall u :: u in parents <==> u in multiset(parents);
    assert forall u :: u in list <==> u in multiset(list);
    forall u ensures AtOrAbove(loaded, t, u) <==> u == t || u in parents {}
  }

  lemma OneMoreParent(loaded: Loaded, t: string, ps: seq<string>, p: string, name: string)
    requires Grounded(HierarchyOf(loaded), t) && AllLoaded(loaded, t)
    requires Grounded(HierarchyOf(loaded), p) && AllLoaded(loaded, p)
    requires p in ParentsOf(HierarchyOf(loaded), t) && forall q | q in ps :: q in ParentsOf(HierarchyOf(loaded), t)
    ensures PassedOnByAll(loaded, t, ps + [p], name) == Override(PassedOnByAll(loaded, t, ps, name), PassedOn(loaded, p, name))
  {
    assert (ps + [p])[..|ps|] == ps;
  }

  /** Among the parents the last one to pass a definition on wins. */
  lemma {:induction false} LastParentWins(loaded: Loaded, t: string, ps: seq<string>, i: nat, name: string)
    requires Grounded(HierarchyOf(loaded), t) && AllLoaded(loaded, t)
    requires forall p | p in ps :: p in ParentsOf(HierarchyOf(loaded), t)
    requires forall p | p in ps :: Grounded(HierarchyOf(loaded), p) && AllLoaded(loaded, p)
    requires i < |ps| && PassedOn(loaded, ps[i], name).Some?
    requires forall j | i < j < |ps| :: PassedOn(loaded, ps[j], name).None?
    ensures PassedOnByAll(loaded, t, ps, name) == PassedOn(loaded, ps[i], name)
    decreases |ps|
  {
    var k := |ps| - 1;
    var init := ps[..k];
    assert ps[k] in ps && ps == init + [ps[k]];
    assert forall p | p in init :: p in ps;
    OneMoreParent(loaded, t, init, ps[k], name);
    if i < k {
      LastParentWins(loaded, t, init, i, name);
    }
  }

  /** A definition inherited from the last parent that has one is the one collected, if the type itself has none. */
  lemma InheritedFromLast(loaded: Loaded, t: string, i: nat, name: string)
    requires Grounded(HierarchyOf(loaded), t) && AllLoaded(loaded, t) && loaded[t].parents.Some?
    requires forall p | p in loaded[t].parents.value :: Grounded(HierarchyOf(loaded), p) && AllLoaded(loaded, p)
    requires i < |loaded[t].parents.value| && PassedOn(loaded, loaded[t].parents.value[i], name).Some?
    requires forall j | i < j < |loaded[t].parents.value| :: PassedOn(loaded, loaded[t].parents.value[j], name).None?
    requires forall p | p in loaded[t].properties :: p.name == name ==> p.doNotInherit
    ensures PassedOn(loaded, t, name) == PassedOn(loaded, loaded[t].parents.value[i], name)
  {
    LastCases(Declared(loaded, t), name);
    LastParentWins(loaded, t, loaded[t].parents.value, i, name);
  }

  /** The type's own inheritable definition wins over anything inherited. */
  lemma OwnDefinitionWins(loaded: Loaded, t: string, p: Property)
    requires Grounded(HierarchyOf(loaded), t) && AllLoaded(loaded, t)
    requires p in Declared(loaded, t) && !p.doNotInherit
    ensures PassedOn(loaded, t, p.name).Some?
    ensures PassedOn(loaded, t, p.name) == Last(Declared(loaded, t), p.name)
  {
    LastCases(Declared(loaded, t), p.name);
  }
}
