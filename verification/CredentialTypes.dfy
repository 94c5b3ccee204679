/**
 The `extends` hierarchy between credential types and the walk over it that
 `CredentialTypes.getParentTypes` performs.  The walk appends to the very list it
 is iterating over, so the proof needs its own account of what is still to come.
 */
module CredentialTypes {

  /** `knownCredentials[type].extends`, for the types that have one. */
  type Hierarchy = map<string, seq<string>>

  /** `knownCredentials[type]?.extends ?? []` */
  function ParentsOf(h: Hierarchy, t: string): seq<string> {
    if t in h then h[t] else []
  }

  // ---------------------------------------------------------------------------
  // Ancestry, stated by paths and independently of the walk
  // ---------------------------------------------------------------------------

  ghost predicate IsPath(h: Hierarchy, path: seq<string>) {
    && |path| >= 2
    && forall i | 0 <= i < |path| - 1 :: path[i + 1] in ParentsOf(h, path[i])
  }

  ghost predicate PathFromTo(h: Hierarchy, path: seq<string>, t: string, a: string) {
    IsPath(h, path) && path[0] == t && path[|path| - 1] == a
  }

  /** `a` is a proper ancestor of `t`: some non-empty chain of `extends` leads from `t` to `a`. */
  ghost predicate Reaches(h: Hierarchy, t: string, a: string) {
    exists path :: PathFromTo(h, path, t, a)
  }

  /** No type at or above `t` is its own ancestor. */
  ghost predicate Grounded(h: Hierarchy, t: string) {
    && !Reaches(h, t, t)
    && forall x | Reaches(h, t, x) :: !Reaches(h, x, x)
  }

  ghost function Names(h: Hierarchy): set<string> {
    set t, p | t in h && p in h[t] :: p
  }

  ghost function Ancestors(h: Hierarchy, t: string): set<string> {
    set x | x in Names(h) && Reaches(h, t, x)
  }

  lemma ReachesParent(h: Hierarchy, t: string, p: string)
    requires p in ParentsOf(h, t)
    ensures Reaches(h, t, p)
  {
    assert PathFromTo(h, [t, p], t, p);
  }

  lemma ReachesTransitive(h: Hierarchy, t: string, x: string, a: string)
    requires Reaches(h, t, x) && Reaches(h, x, a)
    ensures Reaches(h, t, a)
  {
    var p :| PathFromTo(h, p, t, x);
    var q :| PathFromTo(h, q, x, a);
    var r := p + q[1..];
    forall i | 0 <= i < |r| - 1
      ensures r[i + 1] in ParentsOf(h, r[i])
    {
      if i >= |p| - 1 {
        assert r[i] == q[i - (|p| - 1)] && r[i + 1] == q[i + 1 - (|p| - 1)];
      }
    }
    assert PathFromTo(h, r, t, a);
  }

  /** A proper ancestor is a parent or a proper ancestor of a parent. */
  lemma ReachesViaParent(h: Hierarchy, t: string, a: string) returns (p: string)
    requires Reaches(h, t, a)
    ensures p in ParentsOf(h, t)
    ensures p == a || Reaches(h, p, a)
  {
    var path :| PathFromTo(h, path, t, a);
    p := path[1];
    if |path| > 2 {
      assert PathFromTo(h, path[1..], p, a);
    }
  }

  lemma ReachedIsNamed(h: Hierarchy, t: string, a: string)
    requires Reaches(h, t, a)
    ensures a in Names(h)
  {
    var path :| PathFromTo(h, path, t, a);
    assert path[|path| - 2 + 1] in ParentsOf(h, path[|path| - 2]);
  }

  /** Going up strictly shrinks the set of ancestors, which is why the recursion ends. */
  lemma AncestorsShrink(h: Hierarchy, t: string, y: string)
    requires Grounded(h, t) && Reaches(h, t, y)
    ensures Grounded(h, y)
    ensures |Ancestors(h, y)| < |Ancestors(h, t)|
  {
    forall x | Reaches(h, y, x) ensures Reaches(h, t, x) {
      ReachesTransitive(h, t, y, x);
    }
    ReachedIsNamed(h, t, y);
    assert y in Ancestors(h, t) && y !in Ancestors(h, y);
    SubsetIsSmaller(Ancestors(h, y), Ancestors(h, t), y);
  }

  lemma SubsetIsSmaller(small: set<string>, big: set<string>, extra: string)
    requires small <= big && extra in big && extra !in small
    ensures |small| < |big|
  {
    var rest := big - {extra} - small;
    assert big == small + rest + {extra};
  }

  // ---------------------------------------------------------------------------
  // What the walk visits
  // ---------------------------------------------------------------------------

  /** Everything that one occurrence of `p` in the list gives rise to: itself, and then
      whatever its own parent types give rise to once they have been appended. */
  ghost function Visits(h: Hierarchy, p: string): (r: seq<string>)
    requires Grounded(h, p)
    ensures forall y | y in r :: y == p || Reaches(h, p, y)
    decreases |Ancestors(h, p)|, 2, 0
  {
    [p] + VisitAll(h, p, ParentList(h, p))
  }

  /** The parent types of `t`, up to the order in which the walk finds them. */
  ghost function ParentList(h: Hierarchy, t: string): (r: seq<string>)
    requires Grounded(h, t)
    ensures forall y | y in r :: Reaches(h, t, y)
    decreases |Ancestors(h, t)|, 1, 0
  {
    forall p | p in ParentsOf(h, t) ensures Reaches(h, t, p) { ReachesParent(h, t, p); }
    VisitAll(h, t, ParentsOf(h, t))
  }

  /** What a list of ancestors of `t` gives rise to; `t` only serves to bound the recursion. */
  ghost function VisitAll(h: Hierarchy, t: string, ys: seq<string>): (r: seq<string>)
    requires Grounded(h, t)
    requires forall y | y in ys :: Reaches(h, t, y)
    ensures forall y | y in r :: Reaches(h, t, y)
    decreases |Ancestors(h, t)|, 0, |ys|
  {
    if ys == [] then []
    else
      AncestorsShrink(h, t, ys[0]);
      assert forall y | Reaches(h, ys[0], y) :: Reaches(h, t, y) by {
        forall y | Reaches(h, ys[0], y) ensures Reaches(h, t, y) { ReachesTransitive(h, t, ys[0], y); }
      }
      Visits(h, ys[0]) + VisitAll(h, t, ys[1..])
  }

  lemma {:induction false} VisitAllAppend(h: Hierarchy, t: string, ys: seq<string>, zs: seq<string>)
    requires Grounded(h, t)
    requires forall y | y in ys + zs :: Reaches(h, t, y)
    ensures forall y | y in ys :: Reaches(h, t, y)
    ensures forall y | y in zs :: Reaches(h, t, y)
    ensures VisitAll(h, t, ys + zs) == VisitAll(h, t, ys) + VisitAll(h, t, zs)
    decreases |ys|
  {
    assert forall y | y in ys :: y in ys + zs;
    assert forall y | y in zs :: y in ys + zs;
    if ys == [] {
      assert ys + zs == zs;
    } else {
      assert (ys + zs)[1..] == ys[1..] + zs;
      VisitAllAppend(h, t, ys[1..], zs);
    }
  }

  /** The bounding type does not matter. */
  lemma {:induction false} VisitAllBound(h: Hierarchy, t: string, u: string, ys: seq<string>)
    requires Grounded(h, t) && Grounded(h, u)
    requires forall y | y in ys :: Reaches(h, t, y) && Reaches(h, u, y)
    ensures VisitAll(h, t, ys) == VisitAll(h, u, ys)
    decreases |ys|
  {
    if ys != [] {
      VisitAllBound(h, t, u, ys[1..]);
    }
  }

  lemma {:induction false} VisitAllPermuted(h: Hierarchy, t: string, ys: seq<string>, zs: seq<string>)
    requires Grounded(h, t)
    requires multiset(ys) == multiset(zs)
    requires forall y | y in ys :: Reaches(h, t, y)
    ensures forall y | y in zs :: Reaches(h, t, y)
    ensures multiset(VisitAll(h, t, ys)) == multiset(VisitAll(h, t, zs))
    decreases |ys|
  {
    forall y | y in zs ensures y in ys { assert y in multiset(zs); assert y in multiset(ys); }
    if ys == [] {
      assert |multiset(zs)| == 0;
    } else {
      var y := ys[0];
      assert y in multiset(ys) && y in multiset(zs);
      var j :| 0 <= j < |zs| && zs[j] == y;
      var before, after := zs[..j], zs[j + 1..];
      TakeOut(ys, zs, j);
      AncestorsShrink(h, t, y);
      VisitAllPermuted(h, t, ys[1..], before + after);
      VisitAllMiddle(h, t, before, y, after);
    }
  }

  lemma VisitAllMiddle(h: Hierarchy, t: string, before: seq<string>, y: string, after: seq<string>)
    requires Grounded(h, t) && Grounded(h, y)
    requires forall x | x in before + ([y] + after) :: Reaches(h, t, x)
    ensures forall x | x in before + after :: Reaches(h, t, x)
    ensures multiset(VisitAll(h, t, before + ([y] + after)))
            == multiset(Visits(h, y)) + multiset(VisitAll(h, t, before + after))
  {
    VisitAllAppend(h, t, before, [y] + after);
    forall x | x in before + after ensures x in before + ([y] + after) {}
    VisitAllAppend(h, t, before, after);
    assert ([y] + after)[1..] == after;
    assert VisitAll(h, t, [y] + after) == Visits(h, y) + VisitAll(h, t, after);
    Regroup(VisitAll(h, t, before), Visits(h, y), VisitAll(h, t, after));
  }

  lemma Regroup(a: seq<string>, b: seq<string>, c: seq<string>)
    ensures multiset(a + (b + c)) == multiset(b) + multiset(a + c)
  {
  }

  lemma TakeOut(ys: seq<string>, zs: seq<string>, j: nat)
    requires ys != [] && multiset(ys) == multiset(zs)
    requires j < |zs| && zs[j] == ys[0]
    ensures zs == zs[..j] + ([ys[0]] + zs[j + 1..])
    ensures multiset(ys[1..]) == multiset(zs[..j] + zs[j + 1..])
  {
    assert ys == [ys[0]] + ys[1..];
    assert zs == zs[..j] + ([ys[0]] + zs[j + 1..]);
    assert multiset(ys) == multiset{ys[0]} + multiset(ys[1..]);
    assert multiset(zs) == multiset{ys[0]} + multiset(zs[..j] + zs[j + 1..]);
    assert multiset(ys[1..]) == multiset(ys) - multiset{ys[0]};
  }

  // ---------------------------------------------------------------------------
  // The walk
  // ---------------------------------------------------------------------------

  /**
   `getParentTypes`.  The loop runs over `extendsArrCopy` while every turn pushes more
   names onto it; it ends because the names still to be visited give rise to strictly
   fewer visits each time round.  The hierarchy above the type has to be free of cycles:
   on a cycle the source recurses for ever.
   */
  method GetParentTypes(h: Hierarchy, typeName: string) returns (parents: seq<string>)
    requires Grounded(h, typeName)
    ensures multiset(parents) == multiset(ParentList(h, typeName))
    ensures forall a :: a in parents <==> Reaches(h, typeName, a)
    decreases |Ancestors(h, typeName)|
  {
    ParentListIsAncestors(h, typeName);
    var extendsArr := ParentsOf(h, typeName);
    if |extendsArr| == 0 {
      return [];
    }
    var extendsArrCopy := extendsArr;
    ghost var all := ParentList(h, typeName);
    var i := 0;
    assert extendsArrCopy[..0] == [] && extendsArrCopy[0..] == extendsArr;
    forall p | p in extendsArr ensures Reaches(h, typeName, p) { ReachesParent(h, typeName, p); }
    while i < |extendsArrCopy|
      invariant 0 <= i <= |extendsArrCopy|
      invariant forall y | y in extendsArrCopy :: Reaches(h, typeName, y)
      invariant forall y | y in extendsArrCopy[i..] :: Reaches(h, typeName, y)
      invariant multiset(extendsArrCopy[..i]) + multiset(VisitAll(h, typeName, extendsArrCopy[i..])) == multiset(all)
      decreases |VisitAll(h, typeName, extendsArrCopy[i..])|
    {
      var x := extendsArrCopy[i];
      AncestorsShrink(h, typeName, x);
      var more := GetParentTypes(h, x);
      WalkStep(h, typeName, extendsArrCopy, i, more);
      extendsArrCopy := extendsArrCopy + more;
      i := i + 1;
    }
    assert extendsArrCopy[..i] == extendsArrCopy;
    assert extendsArrCopy[i..] == [];
    parents := extendsArrCopy;
    assert forall a :: a in parents <==> a in multiset(parents);
    assert forall a :: a in all <==> a in multiset(all);
  }

  /** One turn of the loop moves one visit from the pending part to the done part. */
  lemma WalkStep(h: Hierarchy, t: string, list: seq<string>, i: nat, more: seq<string>)
    requires Grounded(h, t) && i < |list|
    requires forall y | y in list :: Reaches(h, t, y)
    requires Grounded(h, list[i])
    requires multiset(more) == multiset(ParentList(h, list[i]))
    ensures forall y | y in list + more :: Reaches(h, t, y)
    ensures forall y | y in list[i..] :: Reaches(h, t, y)
    ensures forall y | y in (list + more)[i + 1..] :: Reaches(h, t, y)
    ensures multiset((list + more)[..i + 1]) + multiset(VisitAll(h, t, (list + more)[i + 1..]))
            == multiset(list[..i]) + multiset(VisitAll(h, t, list[i..]))
    ensures |VisitAll(h, t, (list + more)[i + 1..])| < |VisitAll(h, t, list[i..])|
  {
    var x, rest := list[i], list[i + 1..];
    assert (list + more)[i + 1..] == rest + more;
    assert list[i..] == [x] + rest;
    assert (list + more)[..i + 1] == list[..i] + [x];
    PendingStep(h, t, x, rest, more);
  }

  /** Visiting the head of the pending list replaces it, at the back, by its parent types. */
  lemma PendingStep(h: Hierarchy, t: string, x: string, rest: seq<string>, more: seq<string>)
    requires Grounded(h, t) && Grounded(h, x)
    requires forall y | y in [x] + rest :: Reaches(h, t, y)
    requires multiset(more) == multiset(ParentList(h, x))
    ensures forall y | y in rest + more :: Reaches(h, t, y)
    ensures multiset(VisitAll(h, t, [x] + rest)) == multiset{x} + multiset(VisitAll(h, t, rest + more))
    ensures |VisitAll(h, t, [x] + rest)| == 1 + |VisitAll(h, t, rest + more)|
  {
    assert x in [x] + rest && forall y | y in rest :: y in [x] + rest;
    VisitsThenParents(h, t, x, more);
    VisitAllAppend(h, t, rest, more);
    assert ([x] + rest)[1..] == rest;
    var big, small := VisitAll(h, t, [x] + rest), VisitAll(h, t, rest + more);
    assert big == Visits(h, x) + VisitAll(h, t, rest);
    assert multiset(big) == multiset(Visits(h, x)) + multiset(VisitAll(h, t, rest));
    assert multiset(small) == multiset(VisitAll(h, t, rest)) + multiset(VisitAll(h, t, more));
  }

  lemma VisitsThenParents(h: Hierarchy, t: string, x: string, more: seq<string>)
    requires Grounded(h, t) && Grounded(h, x) && Reaches(h, t, x)
    requires multiset(more) == multiset(ParentList(h, x))
    ensures forall y | y in more :: Reaches(h, t, y)
    ensures multiset(Visits(h, x)) == multiset{x} + multiset(VisitAll(h, t, more))
    ensures |Visits(h, x)| == 1 + |VisitAll(h, t, more)|
  {
    var own := ParentList(h, x);
    forall y | y in own ensures Reaches(h, t, y) { ReachesTransitive(h, t, x, y); }
    VisitAllPermuted(h, t, own, more);
    VisitAllBound(h, t, x, own);
    assert |VisitAll(h, t, more)| == |multiset(VisitAll(h, t, more))|;
    assert |VisitAll(h, t, own)| == |multiset(VisitAll(h, t, own))|;
  }

  /** The names returned are exactly the proper ancestors. */
  lemma {:induction false} ParentListIsAncestors(h: Hierarchy, t: string)
    requires Grounded(h, t)
    ensures forall a :: a in ParentList(h, t) <==> Reaches(h, t, a)
    decreases |Ancestors(h, t)|
  {
    forall p | p in ParentsOf(h, t) ensures Reaches(h, t, p) { ReachesParent(h, t, p); }
    forall a | Reaches(h, t, a) ensures a in ParentList(h, t) {
      var p := ReachesViaParent(h, t, a);
      AncestorsShrink(h, t, p);
      ParentListIsAncestors(h, p);
      if p != a {
        VisitAllCovers(h, p, ParentList(h, p), a);
      }
      assert a in Visits(h, p);
      var j :| 0 <= j < |ParentsOf(h, t)| && ParentsOf(h, t)[j] == p;
      assert ParentsOf(h, t) == ParentsOf(h, t)[..j] + ([p] + ParentsOf(h, t)[j + 1..]);
      VisitAllAppend(h, t, ParentsOf(h, t)[..j], [p] + ParentsOf(h, t)[j + 1..]);
    }
  }

  /** The same, told by the map alone: a name is returned exactly when a chain of `extends` entries leads to it. */
  lemma ReturnedByChain(h: Hierarchy, t: string, a: string)
    requires Grounded(h, t)
    ensures a in ParentList(h, t) <==>
            exists path: seq<string> ::
              && |path| >= 2 && path[0] == t && path[|path| - 1] == a
              && forall i | 0 <= i < |path| - 1 :: path[i] in h && path[i + 1] in h[path[i]]
    ensures t in h && a in h[t] ==> a in ParentList(h, t)
  {
    ParentListIsAncestors(h, t);
    if Reaches(h, t, a) {
      var path :| PathFromTo(h, path, t, a);
      forall i | 0 <= i < |path| - 1 ensures path[i] in h && path[i + 1] in h[path[i]] {
        assert path[i + 1] in ParentsOf(h, path[i]);
      }
    }
    if path: seq<string> :| |path| >= 2 && path[0] == t && path[|path| - 1] == a
                            && forall i | 0 <= i < |path| - 1 :: path[i] in h && path[i + 1] in h[path[i]] {
      assert PathFromTo(h, path, t, a);
    }
    if t in h && a in h[t] {
      ReachesParent(h, t, a);
    }
  }

  /** A list is contained in what it gives rise to. */
  lemma {:induction false} VisitAllCovers(h: Hierarchy, t: string, ys: seq<string>, a: string)
    requires Grounded(h, t)
    requires forall y | y in ys :: Reaches(h, t, y)
    requires a in ys
    ensures a in VisitAll(h, t, ys)
    decreases |ys|
  {
    if a == ys[0] {
      AncestorsShrink(h, t, a);
      assert Visits(h, a)[0] == a;
    } else {
      VisitAllCovers(h, t, ys[1..], a);
    }
  }

  /** `returned(u)` holds every direct parent of `u` and, beyond those, everything returned for
      each name it holds: what the loop leaves behind whenever it ends. */
  ghost predicate LeftBehind(h: Hierarchy, returned: string -> seq<string>, u: string) {
    forall p | p in ParentsOf(h, u) :: |returned(u)| >= |ParentsOf(h, u)| + |returned(p)|
  }

  /** The requirement on the hierarchy is not only sufficient: where the walk ends for `t` and for
      everything above it, there is no cycle at or above `t`. */
  lemma EndsOnlyWhenGrounded(h: Hierarchy, t: string, returned: string -> seq<string>)
    requires forall u | u == t || Reaches(h, t, u) :: LeftBehind(h, returned, u)
    ensures Grounded(h, t)
  {
    forall x | x == t || Reaches(h, t, x) ensures !Reaches(h, x, x) {
      if Reaches(h, x, x) {
        var path :| PathFromTo(h, path, x, x);
        forall u | u == x || Reaches(h, x, u) ensures LeftBehind(h, returned, u) {
          if x != t && u != x { ReachesTransitive(h, t, x, u); }
        }
        ShorterUpwards(h, path, returned, |path| - 1);
      }
    }
  }

  lemma {:induction false} ShorterUpwards(h: Hierarchy, path: seq<string>, returned: string -> seq<string>, n: nat)
    requires IsPath(h, path) && n < |path|
    requires forall u | u == path[0] || Reaches(h, path[0], u) :: LeftBehind(h, returned, u)
    ensures |returned(path[n])| + n <= |returned(path[0])|
    decreases n
  {
    if n > 0 {
      ShorterUpwards(h, path, returned, n - 1);
      if n > 1 { assert PathFromTo(h, path[..n], path[0], path[n - 1]); }
      assert LeftBehind(h, returned, path[n - 1]);
      assert path[n - 1 + 1] in ParentsOf(h, path[n - 1]);
      assert path[n] in ParentsOf(h, path[n - 1]);
    }
  }

  // ---------------------------------------------------------------------------
  // How often each ancestor is returned
  // ---------------------------------------------------------------------------

  /** How often `a` occurs in what `getParentTypes(t)` returns. */
  ghost function Multiplicity(h: Hierarchy, t: string, a: string): nat {
    if Grounded(h, t) then multiset(ParentList(h, t))[a] else 0
  }

  /** How often `a` is listed among the direct parents of `t`. */
  ghost function Direct(h: Hierarchy, t: string, a: string): nat {
    multiset(ParentsOf(h, t))[a]
  }

  ghost function Sum(ys: seq<string>, f: string -> nat): nat {
    if ys == [] then 0 else f(ys[0]) + Sum(ys[1..], f)
  }

  lemma {:induction false} SumAppend(ys: seq<string>, zs: seq<string>, f: string -> nat)
    ensures Sum(ys + zs, f) == Sum(ys, f) + Sum(zs, f)
    decreases |ys|
  {
    if ys == [] {
      assert ys + zs == zs;
    } else {
      assert (ys + zs)[1..] == ys[1..] + zs;
      SumAppend(ys[1..], zs, f);
    }
  }

  ghost function Of(h: Hierarchy, a: string): string -> nat {
    (x: string) => Multiplicity(h, x, a)
  }

  ghost function From(h: Hierarchy, t: string): string -> nat {
    (x: string) => Multiplicity(h, t, x)
  }

  /** What a list gives rise to holds `a` once for every time the list names it, and once more
      for every time a type visited on the way has it among its own parent types. */
  lemma {:induction false} VisitAllMultiplicity(h: Hierarchy, t: string, ys: seq<string>, a: string)
    requires Grounded(h, t)
    requires forall y | y in ys :: Reaches(h, t, y)
    ensures multiset(VisitAll(h, t, ys))[a] == multiset(ys)[a] + Sum(VisitAll(h, t, ys), Of(h, a))
    decreases |Ancestors(h, t)|, |ys|
  {
    if ys != [] {
      var y, rest := ys[0], ys[1..];
      AncestorsShrink(h, t, y);
      VisitAllMultiplicity(h, t, rest, a);
      var own := ParentList(h, y);
      VisitAllMultiplicity(h, y, own, a);
      assert Visits(h, y) == [y] + VisitAll(h, y, own);
      assert VisitAll(h, t, ys) == Visits(h, y) + VisitAll(h, t, rest);
      SumAppend([y], VisitAll(h, y, own), Of(h, a));
      SumAppend(Visits(h, y), VisitAll(h, t, rest), Of(h, a));
      assert Sum([y], Of(h, a)) == Multiplicity(h, y, a);
      assert ys == [y] + rest;
    }
  }

  /** Every returned name is a direct parent or was appended when some returned name was visited. */
  lemma MultiplicityByVisits(h: Hierarchy, t: string, a: string)
    requires Grounded(h, t)
    ensures Multiplicity(h, t, a) == Direct(h, t, a) + Sum(ParentList(h, t), Of(h, a))
  {
    forall p | p in ParentsOf(h, t) ensures Reaches(h, t, p) { ReachesParent(h, t, p); }
    VisitAllMultiplicity(h, t, ParentsOf(h, t), a);
  }

  ghost predicate Distinct(types: seq<string>) {
    forall i, j | 0 <= i < j < |types| :: types[i] != types[j]
  }

  /** The sum over `types` of `m(x) * f(x)`. */
  ghost function Weighted(types: seq<string>, m: string -> nat, f: string -> nat): nat {
    if types == [] then 0 else m(types[0]) * f(types[0]) + Weighted(types[1..], m, f)
  }

  ghost function CountIn(ys: seq<string>): string -> nat {
    (x: string) => multiset(ys)[x]
  }

  lemma {:induction false} WeightedSame(types: seq<string>, m: string -> nat, n: string -> nat, f: string -> nat)
    requires forall x | x in types :: m(x) == n(x)
    ensures Weighted(types, m, f) == Weighted(types, n, f)
    decreases |types|
  {
    if types != [] {
      WeightedSame(types[1..], m, n, f);
    }
  }

  /** One more occurrence of `y` adds `f(y)` once. */
  lemma {:induction false} WeightedBump(types: seq<string>, y: string, m: string -> nat, n: string -> nat,
        f: string -> nat)
    requires Distinct(types) && y in types
    requires forall x | x in types :: n(x) == m(x) + if x == y then 1 else 0
    ensures Weighted(types, n, f) == Weighted(types, m, f) + f(y)
    decreases |types|
  {
    var x := types[0];
    if x == y {
      WeightedSame(types[1..], m, n, f);
      assert n(x) * f(x) == (m(x) + 1) * f(x) == m(x) * f(x) + f(x);
    } else {
      WeightedBump(types[1..], y, m, n, f);
    }
  }

  /** Summing over a list is summing over its distinct names, weighted by their counts. */
  lemma {:induction false} SumIsWeighted(ys: seq<string>, types: seq<string>, f: string -> nat)
    requires Distinct(types)
    requires forall y | y in ys :: y in types
    ensures Sum(ys, f) == Weighted(types, CountIn(ys), f)
    decreases |ys|
  {
    if ys == [] {
      WeightedZero(types, f);
      WeightedSame(types, CountIn(ys), _ => 0, f);
    } else {
      SumIsWeighted(ys[1..], types, f);
      assert ys == [ys[0]] + ys[1..];
      WeightedBump(types, ys[0], CountIn(ys[1..]), CountIn(ys), f);
    }
  }

  lemma {:induction false} WeightedZero(types: seq<string>, f: string -> nat)
    ensures Weighted(types, _ => 0, f) == 0
    decreases |types|
  {
    if types != [] {
      WeightedZero(types[1..], f);
    }
  }

  /**
   The exact multiplicities: `m(t, a) = direct(t, a) + sum over x of m(t, x) * m(x, a)`, the
   sum running over any list of distinct names that holds every ancestor of `t`.
   */
  lemma MultiplicityRecurrence(h: Hierarchy, t: string, a: string, types: seq<string>)
    requires Grounded(h, t)
    requires Distinct(types)
    requires forall x | Reaches(h, t, x) :: x in types
    ensures Multiplicity(h, t, a)
            == Direct(h, t, a) + Weighted(types, From(h, t), Of(h, a))
  {
    MultiplicityByVisits(h, t, a);
    ParentListIsAncestors(h, t);
    SumIsWeighted(ParentList(h, t), types, Of(h, a));
    WeightedSame(types, CountIn(ParentList(h, t)), From(h, t), Of(h, a));
  }

  // ---------------------------------------------------------------------------
  // Single inheritance: the Catalan numbers
  // ---------------------------------------------------------------------------

  ghost function Catalan(n: nat): nat
    decreases n, 1
  {
    if n == 0 then 1 else Convolution(n - 1, n)
  }

  /** `C(0) * C(n) + C(1) * C(n-1) + ...`, the first `terms` products. */
  ghost function Convolution(n: nat, terms: nat): nat
    requires terms <= n + 1
    decreases n + 1, 0, terms
  {
    if terms == 0 then 0 else Convolution(n, terms - 1) + Catalan(terms - 1) * Catalan(n + 1 - terms)
  }

  /** Every type of the chain extends exactly the next one, and the last extends nothing. */
  ghost predicate Chain(h: Hierarchy, c: seq<string>) {
    && Distinct(c)
    && (forall i | 0 <= i < |c| - 1 :: ParentsOf(h, c[i]) == [c[i + 1]])
    && (c != [] ==> ParentsOf(h, c[|c| - 1]) == [])
  }

  lemma {:induction false} ChainReaches(h: Hierarchy, c: seq<string>, i: nat, a: string)
    requires Chain(h, c) && i < |c|
    ensures Reaches(h, c[i], a) <==> exists j :: i < j < |c| && c[j] == a
    decreases |c| - i
  {
    if i + 1 < |c| {
      ChainReaches(h, c, i + 1, a);
      ReachesParent(h, c[i], c[i + 1]);
      if Reaches(h, c[i + 1], a) {
        ReachesTransitive(h, c[i], c[i + 1], a);
      }
    }
    if Reaches(h, c[i], a) {
      var p := ReachesViaParent(h, c[i], a);
      if i + 1 < |c| {
        assert ParentsOf(h, c[i]) == [c[i + 1]];
        assert p == c[i + 1];
      }
    }
  }

  lemma ChainGrounded(h: Hierarchy, c: seq<string>, i: nat)
    requires Chain(h, c) && i < |c|
    ensures Grounded(h, c[i])
  {
    ChainReaches(h, c, i, c[i]);
    forall x | Reaches(h, c[i], x) ensures !Reaches(h, x, x) {
      ChainReaches(h, c, i, x);
      var j :| i < j < |c| && c[j] == x;
      ChainReaches(h, c, j, x);
    }
  }

  /** On a chain the ancestor `d` steps up is returned exactly `Catalan(d - 1)` times. */
  lemma {:induction false} ChainMultiplicity(h: Hierarchy, c: seq<string>, i: nat, d: nat)
    requires Chain(h, c) && 1 <= d && i + d < |c|
    ensures Multiplicity(h, c[i], c[i + d]) == Catalan(d - 1)
    decreases d
  {
    var t, a := c[i], c[i + d];
    ChainGrounded(h, c, i);
    forall x | Reaches(h, t, x) ensures x in c { ChainReaches(h, c, i, x); }
    MultiplicityRecurrence(h, t, a, c);
    assert Direct(h, t, a) == if d == 1 then 1 else 0 by {
      assert ParentsOf(h, t) == [c[i + 1]];
    }
    ChainWeighted(h, c, i, d, 0);
    assert c[0..] == c;
    if d > 1 {
      ConvolutionSplit(d - 2, 0);
    }
  }

  /** Only the types strictly between the two ends contribute to the recurrence. */
  lemma {:induction false} ChainWeighted(h: Hierarchy, c: seq<string>, i: nat, d: nat, from: nat)
    requires Chain(h, c) && 1 <= d && i + d < |c| && from <= |c|
    ensures Weighted(c[from..], From(h, c[i]), Of(h, c[i + d]))
            == ConvolutionFrom(d, if from <= i then 0 else from - i - 1)
    decreases d, 1, |c| - from
  {
    if from < |c| {
      ChainWeighted(h, c, i, d, from + 1);
      ChainTerm(h, c, i, d, from);
      WeightedUnfold(c, from, From(h, c[i]), Of(h, c[i + d]));
    }
  }

  lemma WeightedUnfold(c: seq<string>, from: nat, m: string -> nat, f: string -> nat)
    requires from < |c|
    ensures Weighted(c[from..], m, f) == m(c[from]) * f(c[from]) + Weighted(c[from + 1..], m, f)
  {
  }

  lemma ChainTerm(h: Hierarchy, c: seq<string>, i: nat, d: nat, from: nat)
    requires Chain(h, c) && 1 <= d && i + d < |c| && from < |c|
    ensures Multiplicity(h, c[i], c[from]) * Multiplicity(h, c[from], c[i + d])
            == if i < from < i + d then Catalan(from - i - 1) * Catalan(i + d - from - 1) else 0
    decreases d, 0
  {
    if from <= i {
      NotAbove(h, c, i, from);
    } else if from < i + d {
      ChainMultiplicity(h, c, i, from - i);
      ChainMultiplicity(h, c, from, i + d - from);
    } else {
      NotAbove(h, c, from, i + d);
    }
  }

  lemma NotAbove(h: Hierarchy, c: seq<string>, i: nat, j: nat)
    requires Chain(h, c) && j <= i < |c|
    ensures Multiplicity(h, c[i], c[j]) == 0
  {
    ChainGrounded(h, c, i);
    ChainReaches(h, c, i, c[j]);
    ParentListIsAncestors(h, c[i]);
  }

  /** The products `C(e) * C(d-2-e)` for `from <= e <= d-2`. */
  ghost function ConvolutionFrom(d: nat, from: nat): nat
    requires 1 <= d
    decreases if from < d then d - from else 0
  {
    if from >= d - 1 then 0 else Catalan(from) * Catalan(d - 2 - from) + ConvolutionFrom(d, from + 1)
  }

  lemma {:induction false} ConvolutionSplit(n: nat, k: nat)
    requires k <= n + 1
    ensures Convolution(n, k) + ConvolutionFrom(n + 2, k) == Convolution(n, n + 1)
    decreases n + 1 - k
  {
    if k <= n {
      ConvolutionSplit(n, k + 1);
      assert Convolution(n, k + 1) == Convolution(n, k) + Catalan(k) * Catalan(n - k);
    }
  }
}
