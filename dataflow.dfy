/**
 * The Dataflow type system's qualifiers and their hierarchy. A DataFlow
 * qualifier lists the Java type names a value may have at run time
 * (typeNames) and, optionally, root types whose subtypes it also admits
 * (typeNameRoots). The factory simplifies a qualifier by dropping roots
 * below other roots and names below a root, and compares qualifiers by
 * simplifying their combination.
 *
 * Java types are names resolved through the factory's typeNamesMap, or
 * else through the boxed class of a primitive; javac's subtype test is an
 * uninterpreted relation.
 */
module Dataflow {
  import opened Wrappers

  /** A declared Java type, identified by its canonical name. */
  datatype TypeMirror = TypeMirror(name: string)

  /** What the factory knows of Java types: typeNamesMap and javac's isSubtype. */
  datatype TypeEnv = TypeEnv(typeNamesMap: map<string, TypeMirror>, isSubtype: (TypeMirror, TypeMirror) -> bool)

  /** @DataFlow(typeNames, typeNameRoots), @DataFlowTop and @DataFlowInferenceBottom. */
  datatype DataflowQual =
    | DataFlow(typeNames: seq<string>, typeNameRoots: seq<string>)
    | DataFlowTop
    | DataFlowInferenceBottom

  /** The factory's DATAFLOWBOTTOM: a DataFlow qualifier whose only name is empty. */
  const DATAFLOWBOTTOM := DataFlow([""], [])

  /** getTypeNames / getTypeNameRoots: the element values of a DataFlow qualifier, none for the others. */
  function Names(q: DataflowQual): seq<string>
  {
    if q.DataFlow? then q.typeNames else []
  }

  function Roots(q: DataflowQual): seq<string>
  {
    if q.DataFlow? then q.typeNameRoots else []
  }

  /** The elements of a list, as the HashSet built from it. */
  function Elems(s: seq<string>): set<string>
  {
    set x | x in s
  }

  const PRIMITIVES: set<string> := {"int", "short", "byte", "long", "char", "float", "double", "boolean"}

  /** convertToReferenceType: the box class of a primitive type name, any other name unchanged. */
  function ConvertToReferenceType(typeName: string): (r: string)
    ensures typeName == "int" ==> r == "java.lang.Integer"
    ensures typeName == "short" ==> r == "java.lang.Short"
    ensures typeName == "byte" ==> r == "java.lang.Byte"
    ensures typeName == "long" ==> r == "java.lang.Long"
    ensures typeName == "char" ==> r == "java.lang.Character"
    ensures typeName == "float" ==> r == "java.lang.Float"
    ensures typeName == "double" ==> r == "java.lang.Double"
    ensures typeName == "boolean" ==> r == "java.lang.Boolean"
    ensures typeName !in PRIMITIVES ==> r == typeName
  {
    match typeName
    case "int" => "java.lang.Integer"
    case "short" => "java.lang.Short"
    case "byte" => "java.lang.Byte"
    case "long" => "java.lang.Long"
    case "char" => "java.lang.Character"
    case "float" => "java.lang.Float"
    case "double" => "java.lang.Double"
    case "boolean" => "java.lang.Boolean"
    case _ => typeName
  }

  /** The conversion never yields a primitive name, so converting twice is converting once. */
  lemma ConvertToReferenceTypeIdempotent(typeName: string)
    ensures ConvertToReferenceType(typeName) !in PRIMITIVES
    ensures ConvertToReferenceType(ConvertToReferenceType(typeName)) == ConvertToReferenceType(typeName)
  {
  }

  /** getTypeMirror: the recorded type of a name, else the declared type of its reference form. */
  function GetTypeMirror(env: TypeEnv, typeName: string): TypeMirror
  {
    if typeName in env.typeNamesMap then env.typeNamesMap[typeName]
    else TypeMirror(ConvertToReferenceType(typeName))
  }

  /**
   * A name that is not recorded resolves through its box class: a primitive
   * name and its box name give the same type, and a recorded name its entry.
   */
  lemma GetTypeMirrorOfBoxed(env: TypeEnv, typeName: string)
    ensures typeName in env.typeNamesMap ==> GetTypeMirror(env, typeName) == env.typeNamesMap[typeName]
    ensures typeName !in env.typeNamesMap && ConvertToReferenceType(typeName) !in env.typeNamesMap ==>
              GetTypeMirror(env, typeName) == GetTypeMirror(env, ConvertToReferenceType(typeName))
    ensures typeName !in env.typeNamesMap ==> GetTypeMirror(env, typeName).name !in PRIMITIVES
  {
    ConvertToReferenceTypeIdempotent(typeName);
  }

  /** Two types are comparable when one is a subtype of the other. */
  predicate Comparable(env: TypeEnv, a: TypeMirror, b: TypeMirror)
  {
    env.isSubtype(a, b) || env.isSubtype(b, a)
  }

  /** No non-empty root at an index in [from, to) is comparable with decType. */
  predicate IncomparableBetween(env: TypeEnv, decType: TypeMirror, roots: seq<string>, from: nat, to: nat)
    requires to <= |roots|
  {
    forall j :: from <= j < to && roots[j] != "" ==> !Comparable(env, decType, GetTypeMirror(env, roots[j]))
  }

  /** Root j is non-empty and lies strictly above decType. */
  predicate AboveAt(env: TypeEnv, decType: TypeMirror, roots: seq<string>, j: int)
  {
    0 <= j < |roots| && roots[j] != "" &&
    !env.isSubtype(GetTypeMirror(env, roots[j]), decType) && env.isSubtype(decType, GetTypeMirror(env, roots[j]))
  }

  /**
   * The index isComparable removes when it scans from index i: at the first
   * non-empty root comparable with decType, that root when it is below
   * decType, otherwise index 0; None when no root there is comparable.
   */
  function RemovedBy(env: TypeEnv, decType: TypeMirror, roots: seq<string>, i: nat): (r: Option<nat>)
    requires 1 <= i
    decreases |roots| - i
    ensures r.Some? ==> r.value < |roots| && (r.value == 0 || i <= r.value)
    ensures r.None? ==> i >= |roots| || IncomparableBetween(env, decType, roots, i, |roots|)
    ensures r == Some(0) ==> exists j :: i <= j && AboveAt(env, decType, roots, j)
    ensures r.Some? && r.value != 0 ==> (roots[r.value] != "" && env.isSubtype(GetTypeMirror(env, roots[r.value]), decType) &&
              IncomparableBetween(env, decType, roots, i, r.value))
  {
    if i >= |roots| then None
    else if roots[i] == "" then RemovedBy(env, decType, roots, i + 1)
    else
      var comparedDecType := GetTypeMirror(env, roots[i]);
      if env.isSubtype(comparedDecType, decType) then Some(i)
      else if env.isSubtype(decType, comparedDecType) then assert AboveAt(env, decType, roots, i); Some(0)
      else RemovedBy(env, decType, roots, i + 1)
  }

  /** java.util.List.remove(int). */
  function RemoveAt(s: seq<string>, k: nat): (r: seq<string>)
    requires k < |s|
    ensures |r| == |s| - 1
    ensures forall j :: 0 <= j < k ==> r[j] == s[j]
    ensures forall j :: k <= j < |r| ==> r[j] == s[j + 1]
  {
    s[..k] + s[k + 1..]
  }

  lemma RemoveAtElems(s: seq<string>, k: nat)
    requires k < |s|
    ensures Elems(RemoveAt(s, k)) <= Elems(s)
    ensures Elems(s) <= Elems(RemoveAt(s, k)) + {s[k]}
  {
    forall x | x in RemoveAt(s, k)
      ensures x in s
    {
      var j :| 0 <= j < |RemoveAt(s, k)| && RemoveAt(s, k)[j] == x;
      if j >= k {
        assert s[j + 1] == x;
      } else {
        assert s[j] == x;
      }
    }
    forall x | x in s && x != s[k]
      ensures x in RemoveAt(s, k)
    {
      var j :| 0 <= j < |s| && s[j] == x;
      if j < k {
        assert RemoveAt(s, k)[j] == x;
      } else {
        assert RemoveAt(s, k)[j - 1] == x;
      }
    }
  }

  /** HashSet.add on a set kept as its insertion order. */
  function Add(s: seq<string>, x: string): (r: seq<string>)
    ensures Elems(r) == Elems(s) + {x}
    ensures x in s ==> r == s
  {
    if x in s then s else s + [x]
  }

  /**
   * The refinement loop of refineDataflow: while roots remain, drop the one
   * isComparable removes, or, when root 0 is comparable with none, keep it.
   * `refined` is the set of roots kept so far, in insertion order.
   */
  function RefineFrom(env: TypeEnv, roots: seq<string>, refined: seq<string>): (r: seq<string>)
    decreases |roots|
  {
    if |roots| == 0 then refined
    else
      match RemovedBy(env, GetTypeMirror(env, roots[0]), roots, 1)
      case None => RefineFrom(env, roots[1..], Add(refined, roots[0]))
      case Some(k) => RefineFrom(env, RemoveAt(roots, k), refined)
  }

  /** The refined roots: a single root is kept as is, several go through the loop. */
  function RefinedRoots(env: TypeEnv, roots: seq<string>): (r: seq<string>)
  {
    if |roots| == 1 then [roots[0]]
    else if |roots| != 0 then RefineFrom(env, roots, [])
    else []
  }

  /**
   * shouldPresent, with the refined roots visited in insertion order: the
   * first non-empty root comparable with decType decides, false when decType
   * is below it; true when none is comparable.
   */
  function Present(env: TypeEnv, decType: TypeMirror, refinedRoots: seq<string>): bool
    decreases |refinedRoots|
  {
    if |refinedRoots| == 0 then true
    else if refinedRoots[0] == "" then Present(env, decType, refinedRoots[1..])
    else
      var comparedDecType := GetTypeMirror(env, refinedRoots[0]);
      if env.isSubtype(decType, comparedDecType) then false
      else if env.isSubtype(comparedDecType, decType) then true
      else Present(env, decType, refinedRoots[1..])
  }

  /** The names kept next to refined roots: non-empty names that shouldPresent admits. */
  function KeptNames(env: TypeEnv, typeNames: seq<string>, refinedRoots: seq<string>): (r: seq<string>)
    decreases |typeNames|
  {
    if |typeNames| == 0 then []
    else
      var kept := KeptNames(env, typeNames[..|typeNames| - 1], refinedRoots);
      var typeName := typeNames[|typeNames| - 1];
      if typeName != "" && Present(env, GetTypeMirror(env, typeName), refinedRoots) then Add(kept, typeName) else kept
  }

  /** A list's distinct elements, in order of first occurrence (new HashSet<>(list)). */
  function Dedup(s: seq<string>): (r: seq<string>)
    ensures Elems(r) == Elems(s)
    decreases |s|
  {
    if |s| == 0 then [] else Add(Dedup(s[..|s| - 1]), s[|s| - 1])
  }

  /** refineDataflow as a function of the qualifier. */
  function Refine(env: TypeEnv, q: DataflowQual): (r: DataflowQual)
  {
    var refinedRoots := RefinedRoots(env, Roots(q));
    if |refinedRoots| == 0 then DataFlow(Dedup(Names(q)), [])
    else DataFlow(KeptNames(env, Names(q), refinedRoots), refinedRoots)
  }

  // ---------------------------------------------------------------------
  // What refineDataflow computes.

  /** The kept names are exactly the non-empty names shouldPresent admits. */
  lemma {:induction false} KeptNamesElems(env: TypeEnv, typeNames: seq<string>, refinedRoots: seq<string>, n: string)
    ensures n in KeptNames(env, typeNames, refinedRoots) <==>
            n in typeNames && n != "" && Present(env, GetTypeMirror(env, n), refinedRoots)
    decreases |typeNames|
  {
    if |typeNames| != 0 {
      var init := typeNames[..|typeNames| - 1];
      KeptNamesElems(env, init, refinedRoots, n);
      assert typeNames == init + [typeNames[|typeNames| - 1]];
    }
  }

  /** The refinement loop keeps only roots it was given. */
  lemma {:induction false} RefineFromElems(env: TypeEnv, roots: seq<string>, refined: seq<string>)
    ensures Elems(RefineFrom(env, roots, refined)) <= Elems(refined) + Elems(roots)
    decreases |roots|
  {
    if |roots| != 0 {
      match RemovedBy(env, GetTypeMirror(env, roots[0]), roots, 1)
      case None =>
        RefineFromElems(env, roots[1..], Add(refined, roots[0]));
        assert Elems(roots) == {roots[0]} + Elems(roots[1..]);
      case Some(k) =>
        RefineFromElems(env, RemoveAt(roots, k), refined);
        RemoveAtElems(roots, k);
    }
  }

  /** The refinement loop keeps at least one root of a non-empty list. */
  lemma {:induction false} RefineFromNonEmpty(env: TypeEnv, roots: seq<string>, refined: seq<string>)
    requires |roots| != 0 || |refined| != 0
    ensures |RefineFrom(env, roots, refined)| != 0
    decreases |roots|
  {
    if |roots| != 0 {
      match RemovedBy(env, GetTypeMirror(env, roots[0]), roots, 1)
      case None =>
        RefineFromNonEmpty(env, roots[1..], Add(refined, roots[0]));
      case Some(k) =>
        if |roots| == 1 {
          assert false;
        }
        RefineFromNonEmpty(env, RemoveAt(roots, k), refined);
    }
  }

  /** Kept roots are pairwise incomparable: no root of a refined list lies below another. */
  predicate PairwiseIncomparable(env: TypeEnv, refined: seq<string>)
  {
    forall a, b :: a in refined && b in refined && a != b && a != "" && b != "" ==>
      !Comparable(env, GetTypeMirror(env, a), GetTypeMirror(env, b))
  }

  /** Every non-empty root still to visit is incomparable with every root kept so far. */
  predicate ApartFrom(env: TypeEnv, refined: seq<string>, roots: seq<string>)
  {
    forall a, b :: a in refined && b in roots && b != "" ==>
      !Comparable(env, GetTypeMirror(env, a), GetTypeMirror(env, b))
  }

  lemma {:induction false} RefineFromIncomparable(env: TypeEnv, roots: seq<string>, refined: seq<string>)
    requires PairwiseIncomparable(env, refined)
    requires ApartFrom(env, refined, roots)
    ensures PairwiseIncomparable(env, RefineFrom(env, roots, refined))
    decreases |roots|
  {
    if |roots| != 0 {
      var decType := GetTypeMirror(env, roots[0]);
      match RemovedBy(env, decType, roots, 1)
      case None =>
        var refined' := Add(refined, roots[0]);
        assert PairwiseIncomparable(env, refined') by {
          forall a, b | a in refined' && b in refined' && a != b && a != "" && b != ""
            ensures !Comparable(env, GetTypeMirror(env, a), GetTypeMirror(env, b))
          {
            assert a in Elems(refined') && b in Elems(refined');
          }
        }
        assert ApartFrom(env, refined', roots[1..]) by {
          forall a, b | a in refined' && b in roots[1..] && b != ""
            ensures !Comparable(env, GetTypeMirror(env, a), GetTypeMirror(env, b))
          {
            assert a in Elems(refined');
            var j :| 0 <= j < |roots[1..]| && roots[1..][j] == b;
            assert roots[j + 1] == b;
          }
        }
        RefineFromIncomparable(env, roots[1..], refined');
      case Some(k) =>
        RemoveAtElems(roots, k);
        assert ApartFrom(env, refined, RemoveAt(roots, k)) by {
          forall a, b | a in refined && b in RemoveAt(roots, k) && b != ""
            ensures !Comparable(env, GetTypeMirror(env, a), GetTypeMirror(env, b))
          {
            assert b in Elems(RemoveAt(roots, k));
          }
        }
        RefineFromIncomparable(env, RemoveAt(roots, k), refined);
    }
  }

  /**
   * refineDataflow: the refined roots are roots of the qualifier, a single
   * root is kept, a non-empty list keeps at least one root, and no kept
   * non-empty root lies below another. With no roots every original name
   * stays; otherwise a name stays iff it is non-empty and shouldPresent
   * admits it.
   */
  lemma RefineMeaning(env: TypeEnv, q: DataflowQual)
    ensures Refine(env, q).DataFlow?
    ensures Elems(Refine(env, q).typeNameRoots) <= Elems(Roots(q))
    ensures |Roots(q)| == 1 ==> Refine(env, q).typeNameRoots == Roots(q)
    ensures |Roots(q)| == 0 <==> |Refine(env, q).typeNameRoots| == 0
    ensures |Roots(q)| == 0 ==> Elems(Refine(env, q).typeNames) == Elems(Names(q))
    ensures |Roots(q)| != 0 ==> forall n :: n in Refine(env, q).typeNames <==>
              n in Names(q) && n != "" && Present(env, GetTypeMirror(env, n), Refine(env, q).typeNameRoots)
    ensures PairwiseIncomparable(env, Refine(env, q).typeNameRoots)
  {
    var roots := Roots(q);
    if |roots| > 1 {
      RefineFromElems(env, roots, []);
      RefineFromNonEmpty(env, roots, []);
      RefineFromIncomparable(env, roots, []);
    }
    if |roots| == 1 {
      assert [roots[0]] == roots;
    }
    if |roots| != 0 {
      var refinedRoots := Refine(env, q).typeNameRoots;
      forall n
        ensures n in Refine(env, q).typeNames <==>
                n in Names(q) && n != "" && Present(env, GetTypeMirror(env, n), refinedRoots)
      {
        KeptNamesElems(env, Names(q), refinedRoots, n);
      }
    }
  }

  // ---------------------------------------------------------------------
  // When javac's subtyping is a partial order, the refinement keeps exactly
  // the maximal roots, whatever their order, and a name stays iff it lies
  // below none of them.

  /** isSubtype is reflexive, transitive and antisymmetric. */
  ghost predicate PartialOrder(env: TypeEnv)
  {
    (forall a :: env.isSubtype(a, a)) &&
    (forall a, b, c :: env.isSubtype(a, b) && env.isSubtype(b, c) ==> env.isSubtype(a, c)) &&
    (forall a, b :: env.isSubtype(a, b) && env.isSubtype(b, a) ==> a == b)
  }

  /** Distinct names of the list denote distinct types, and none is empty. */
  predicate DistinctTypes(env: TypeEnv, roots: seq<string>)
  {
    (forall a :: a in roots ==> a != "") &&
    (forall a, b :: a in roots && b in roots && GetTypeMirror(env, a) == GetTypeMirror(env, b) ==> a == b)
  }

  /** The roots of the list that lie below no other root of it. */
  function Maximal(env: TypeEnv, roots: seq<string>): set<string>
  {
    set a | a in roots && forall b :: b in roots && b != a ==> !env.isSubtype(GetTypeMirror(env, a), GetTypeMirror(env, b))
  }

  /** The maximal roots depend only on which roots the list holds. */
  lemma MaximalOfElems(env: TypeEnv, roots: seq<string>, roots': seq<string>)
    requires Elems(roots) == Elems(roots')
    ensures Maximal(env, roots) == Maximal(env, roots')
  {
    assert forall a :: a in roots <==> a in Elems(roots);
    assert forall a :: a in roots' <==> a in Elems(roots');
  }

  /** Dropping a root that lies below another root keeps the maximal roots. */
  lemma DropBelow(env: TypeEnv, roots: seq<string>, k: nat, above: nat)
    requires PartialOrder(env) && DistinctTypes(env, roots)
    requires k < |roots| && above < |roots| && roots[k] != roots[above]
    requires env.isSubtype(GetTypeMirror(env, roots[k]), GetTypeMirror(env, roots[above]))
    ensures Maximal(env, RemoveAt(roots, k)) == Maximal(env, roots)
  {
    var rest := RemoveAt(roots, k);
    RemoveAtElems(roots, k);
    assert roots[above] in rest by {
      assert roots[above] in Elems(roots) && roots[above] != roots[k];
    }
    forall a | a in Maximal(env, rest)
      ensures a in Maximal(env, roots)
    {
      assert a in Elems(rest);
      forall b | b in roots && b != a
        ensures !env.isSubtype(GetTypeMirror(env, a), GetTypeMirror(env, b))
      {
        if b == roots[k] {
          if env.isSubtype(GetTypeMirror(env, a), GetTypeMirror(env, b)) {
            assert false;
          }
        } else {
          assert b in Elems(rest) by {
            assert b in Elems(roots);
          }
        }
      }
    }
    forall a | a in Maximal(env, roots)
      ensures a in Maximal(env, rest)
    {
      assert a != roots[k];
      assert a in Elems(rest) by {
        assert a in Elems(roots);
      }
      forall b | b in rest && b != a
        ensures !env.isSubtype(GetTypeMirror(env, a), GetTypeMirror(env, b))
      {
        assert b in Elems(rest);
      }
    }
  }

  /** A root comparable with none of the others is maximal, and the others keep their status. */
  lemma KeepFirst(env: TypeEnv, roots: seq<string>)
    requires PartialOrder(env) && DistinctTypes(env, roots) && |roots| != 0
    requires IncomparableBetween(env, GetTypeMirror(env, roots[0]), roots, 1, |roots|)
    ensures Maximal(env, roots) == {roots[0]} + Maximal(env, roots[1..])
  {
    var rest := roots[1..];
    assert roots == [roots[0]] + rest;
    forall b | b in rest
      ensures !Comparable(env, GetTypeMirror(env, roots[0]), GetTypeMirror(env, b))
    {
      var j :| 0 <= j < |rest| && rest[j] == b;
      assert roots[j + 1] == b;
      assert b in roots;
    }
    assert roots[0] !in rest;
    assert roots[0] in Maximal(env, roots);
  }

  /** Under a partial order the refinement loop adds exactly the maximal roots to the kept ones. */
  lemma {:induction false} RefineFromMaximal(env: TypeEnv, roots: seq<string>, refined: seq<string>)
    requires PartialOrder(env) && DistinctTypes(env, roots)
    ensures Elems(RefineFrom(env, roots, refined)) == Elems(refined) + Maximal(env, roots)
    decreases |roots|
  {
    if |roots| == 0 {
      assert Maximal(env, roots) == {};
    } else {
      var decType := GetTypeMirror(env, roots[0]);
      match RemovedBy(env, decType, roots, 1)
      case None =>
        assert DistinctTypes(env, roots[1..]) by {
          forall a | a in roots[1..]
            ensures a in roots
          {
            var j :| 0 <= j < |roots[1..]| && roots[1..][j] == a;
            assert roots[j + 1] == a;
          }
        }
        KeepFirst(env, roots);
        RefineFromMaximal(env, roots[1..], Add(refined, roots[0]));
      case Some(k) =>
        RemoveAtElems(roots, k);
        assert DistinctTypes(env, RemoveAt(roots, k)) by {
          forall a | a in RemoveAt(roots, k)
            ensures a in roots
          {
            assert a in Elems(RemoveAt(roots, k));
          }
        }
        if k == 0 {
          var j :| 1 <= j && AboveAt(env, decType, roots, j);
          DropBelow(env, roots, 0, j);
        } else if roots[k] == roots[0] {
          assert Elems(RemoveAt(roots, k)) == Elems(roots);
          MaximalOfElems(env, RemoveAt(roots, k), roots);
        } else {
          DropBelow(env, roots, k, 0);
        }
        RefineFromMaximal(env, RemoveAt(roots, k), refined);
    }
  }

  /**
   * Under a partial order, shouldPresent does not depend on the order of
   * pairwise incomparable roots: a name is dropped iff it lies below one.
   */
  lemma {:induction false} PresentIffBelowNone(env: TypeEnv, decType: TypeMirror, refinedRoots: seq<string>)
    requires PartialOrder(env) && PairwiseIncomparable(env, refinedRoots)
    ensures Present(env, decType, refinedRoots) <==>
            forall r :: r in refinedRoots && r != "" ==> !env.isSubtype(decType, GetTypeMirror(env, r))
    decreases |refinedRoots|
  {
    if |refinedRoots| != 0 {
      var tail := refinedRoots[1..];
      assert forall r :: r in refinedRoots <==> r == refinedRoots[0] || r in tail;
      assert PairwiseIncomparable(env, tail) by {
        forall a, b | a in tail && b in tail && a != b && a != "" && b != ""
          ensures !Comparable(env, GetTypeMirror(env, a), GetTypeMirror(env, b))
        {
          assert a in refinedRoots && b in refinedRoots;
        }
      }
      PresentIffBelowNone(env, decType, tail);
      var head := refinedRoots[0];
      if head != "" && !env.isSubtype(decType, GetTypeMirror(env, head)) && env.isSubtype(GetTypeMirror(env, head), decType) {
        // decType lies above head, so below no other root: it would lie above that root too.
        forall r | r in tail && r != ""
          ensures !env.isSubtype(decType, GetTypeMirror(env, r))
        {
          if env.isSubtype(decType, GetTypeMirror(env, r)) {
            assert env.isSubtype(GetTypeMirror(env, head), GetTypeMirror(env, r));
            if r == head {
              assert false;
            } else {
              assert Comparable(env, GetTypeMirror(env, head), GetTypeMirror(env, r));
              assert false;
            }
          }
        }
      }
    }
  }

  /**
   * Under a partial order and for a root list naming distinct types, the
   * refined qualifier keeps exactly the maximal roots, and exactly the
   * non-empty names below none of them.
   */
  lemma RefineIsOrderFree(env: TypeEnv, q: DataflowQual)
    requires PartialOrder(env) && DistinctTypes(env, Roots(q))
    ensures Elems(Refine(env, q).typeNameRoots) == Maximal(env, Roots(q))
    ensures |Roots(q)| != 0 ==> forall n :: n in Refine(env, q).typeNames <==>
              n in Names(q) && n != "" && forall r :: r in Maximal(env, Roots(q)) ==> !env.isSubtype(GetTypeMirror(env, n), GetTypeMirror(env, r))
  {
    var roots := Roots(q);
    RefineMeaning(env, q);
    if |roots| == 1 {
      assert Maximal(env, roots) == {roots[0]};
    } else {
      RefineFromMaximal(env, roots, []);
    }
    var refinedRoots := Refine(env, q).typeNameRoots;
    assert Elems(refinedRoots) == Maximal(env, roots);
    if |roots| != 0 {
      forall n
        ensures n in Refine(env, q).typeNames <==>
                n in Names(q) && n != "" && forall r :: r in Maximal(env, roots) ==> !env.isSubtype(GetTypeMirror(env, n), GetTypeMirror(env, r))
      {
        PresentIffBelowNone(env, GetTypeMirror(env, n), refinedRoots);
        assert forall r :: r in refinedRoots <==> r in Maximal(env, roots);
      }
    }
  }

  // ---------------------------------------------------------------------
  // The imperative members of the factory.

  /** isComparable: scans rootsList from index 1 and removes one root on success. */
  method IsComparable(env: TypeEnv, decType: TypeMirror, rootsList: seq<string>) returns (found: bool, newList: seq<string>)
    ensures found == RemovedBy(env, decType, rootsList, 1).Some?
    ensures found ==> newList == RemoveAt(rootsList, RemovedBy(env, decType, rootsList, 1).value)
    ensures !found ==> newList == rootsList
  {
    var i := 1;
    while i < |rootsList|
      invariant 1 <= i
      invariant RemovedBy(env, decType, rootsList, i) == RemovedBy(env, decType, rootsList, 1)
      decreases |rootsList| - i
    {
      if rootsList[i] == "" {
        i := i + 1;
        continue;
      }
      var comparedDecType := GetTypeMirror(env, rootsList[i]);
      if env.isSubtype(comparedDecType, decType) {
        return true, RemoveAt(rootsList, i);
      } else if env.isSubtype(decType, comparedDecType) {
        return true, RemoveAt(rootsList, 0);
      }
      i := i + 1;
    }
    return false, rootsList;
  }

  /** shouldPresent, over the refined roots in insertion order. */
  method ShouldPresent(env: TypeEnv, decType: TypeMirror, refinedRoots: seq<string>) returns (b: bool)
    ensures b == Present(env, decType, refinedRoots)
  {
    var i := 0;
    while i < |refinedRoots|
      invariant i <= |refinedRoots|
      invariant Present(env, decType, refinedRoots[i..]) == Present(env, decType, refinedRoots)
    {
      assert refinedRoots[i..][1..] == refinedRoots[i + 1..];
      var refinedRoot := refinedRoots[i];
      if refinedRoot != "" {
        var comparedDecType := GetTypeMirror(env, refinedRoot);
        if env.isSubtype(decType, comparedDecType) {
          return false;
        } else if env.isSubtype(comparedDecType, decType) {
          return true;
        }
      }
      i := i + 1;
    }
    return true;
  }

  /**
   * refineDataflow: the root loop removes one root per iteration (in
   * isComparable or when root 0 is kept), then the names are filtered
   * against the refined roots.
   */
  method RefineDataflow(env: TypeEnv, q: DataflowQual) returns (r: DataflowQual)
    ensures r == Refine(env, q)
  {
    var typeNameRoots := Roots(q);
    var refinedRoots: seq<string> := [];
    if |typeNameRoots| == 1 {
      refinedRoots := Add(refinedRoots, typeNameRoots[0]);
    } else if |typeNameRoots| != 0 {
      var rootsList := typeNameRoots;
      while |rootsList| != 0
        invariant RefineFrom(env, rootsList, refinedRoots) == RefineFrom(env, typeNameRoots, [])
        decreases |rootsList|
      {
        var decType := GetTypeMirror(env, rootsList[0]);
        var comparable, rest := IsComparable(env, decType, rootsList);
        if !comparable {
          refinedRoots := Add(refinedRoots, rootsList[0]);
          rootsList := rootsList[1..];
        } else {
          rootsList := rest;
        }
      }
    }
    assert refinedRoots == RefinedRoots(env, typeNameRoots);
    var typeNames := Names(q);
    if |refinedRoots| == 0 {
      return DataFlow(Dedup(typeNames), []);
    }
    var refinedTypeNames: seq<string> := [];
    for i := 0 to |typeNames|
      invariant refinedTypeNames == KeptNames(env, typeNames[..i], refinedRoots)
    {
      assert typeNames[..i + 1][..i] == typeNames[..i];
      var typeName := typeNames[i];
      if typeName == "" {
        continue;
      }
      var decType := GetTypeMirror(env, typeName);
      var present := ShouldPresent(env, decType, refinedRoots);
      if present {
        refinedTypeNames := Add(refinedTypeNames, typeName);
      }
    }
    assert typeNames[..|typeNames|] == typeNames;
    return DataFlow(refinedTypeNames, refinedRoots);
  }

  // ---------------------------------------------------------------------
  // The qualifier hierarchy.

  /** AnnotationUtils.areSame on two built DataFlow qualifiers: the same names and roots. */
  predicate SameDataflow(a: DataflowQual, b: DataflowQual)
  {
    a.DataFlow? == b.DataFlow? &&
    (a.DataFlow? ==> Elems(a.typeNames) == Elems(b.typeNames) && Elems(a.typeNameRoots) == Elems(b.typeNameRoots)) &&
    (!a.DataFlow? ==> a == b)
  }

  /**
   * isSubtypeWithRoots(rhs, lhs): combining rhs into lhs and refining gives
   * what refining lhs alone gives.
   */
  predicate IsSubtypeWithRoots(env: TypeEnv, rhs: DataflowQual, lhs: DataflowQual)
  {
    var combined := DataFlow(Dedup(Names(rhs) + Names(lhs)), Dedup(Roots(rhs) + Roots(lhs)));
    SameDataflow(Refine(env, combined), Refine(env, lhs))
  }

  /** isSubtypeWithoutRoots(rhs, lhs): lhs names every type rhs names. */
  function IsSubtypeWithoutRoots(rhs: DataflowQual, lhs: DataflowQual): (b: bool)
    ensures b <==> forall n :: n in Names(rhs) ==> n in Names(lhs)
  {
    assert forall n :: n in Names(rhs) <==> n in Elems(Names(rhs));
    assert forall n :: n in Names(lhs) <==> n in Elems(Names(lhs));
    Elems(Names(rhs)) <= Elems(Names(lhs))
  }

  /** Without roots, subtyping is a preorder. */
  lemma SubtypeWithoutRootsPreorder(a: DataflowQual, b: DataflowQual, c: DataflowQual)
    ensures IsSubtypeWithoutRoots(a, a)
    ensures IsSubtypeWithoutRoots(a, b) && IsSubtypeWithoutRoots(b, c) ==> IsSubtypeWithoutRoots(a, c)
  {
  }

  /** Without roots, a qualifier that lists no names lies below every qualifier. */
  lemma SubtypeWithoutRootsBottom(a: DataflowQual, b: DataflowQual)
    requires Names(a) == []
    ensures IsSubtypeWithoutRoots(a, b)
  {
  }

  /** isSubtypeWithElements: defined for two DataFlow qualifiers only. */
  function IsSubtypeWithElements(env: TypeEnv, subAnno: DataflowQual, superAnno: DataflowQual): (r: Result<bool>)
    ensures r.Success? <==> subAnno.DataFlow? && superAnno.DataFlow?
    ensures r.Success? ==> r.value == IsSubtypeWithRoots(env, subAnno, superAnno)
    ensures r.Failure? ==> r.error.TypeSystemError?
  {
    if subAnno.DataFlow? && superAnno.DataFlow? then Success(IsSubtypeWithRoots(env, subAnno, superAnno))
    else Failure(TypeSystemError("Unexpected qualifiers"))
  }

  /**
   * leastUpperBoundWithElements: a bottom-kind operand gives the other one;
   * two DataFlow qualifiers give the larger when they are related and
   * DATAFLOWTOP otherwise; any other pair is an error.
   */
  function LeastUpperBound(env: TypeEnv, a1: DataflowQual, a2: DataflowQual): (r: Result<DataflowQual>)
    ensures a1.DataFlowInferenceBottom? ==> r == Success(a2)
    ensures !a1.DataFlowInferenceBottom? && a2.DataFlowInferenceBottom? ==> r == Success(a1)
    ensures r.Failure? <==> !a1.DataFlowInferenceBottom? && !a2.DataFlowInferenceBottom? && !(a1.DataFlow? && a2.DataFlow?)
    ensures r.Failure? ==> r.error.TypeSystemError?
    ensures a1.DataFlow? && a2.DataFlow? ==>
              r == Success(if IsSubtypeWithRoots(env, a1, a2) then a2
                           else if IsSubtypeWithRoots(env, a2, a1) then a1
                           else DataFlowTop)
  {
    if a1.DataFlowInferenceBottom? then Success(a2)
    else if a2.DataFlowInferenceBottom? then Success(a1)
    else if !a1.DataFlow? || !a2.DataFlow? then Failure(TypeSystemError("Unexpected qualifiers"))
    else if IsSubtypeWithRoots(env, a1, a2) then Success(a2)
    else if IsSubtypeWithRoots(env, a2, a1) then Success(a1)
    else Success(DataFlowTop)
  }

  /**
   * greatestLowerBoundWithElements: a top-kind operand gives the other one;
   * two DataFlow qualifiers give the smaller when they are related and
   * DATAFLOWBOTTOM otherwise; any other pair is an error.
   */
  function GreatestLowerBound(env: TypeEnv, a1: DataflowQual, a2: DataflowQual): (r: Result<DataflowQual>)
    ensures a1.DataFlowTop? ==> r == Success(a2)
    ensures !a1.DataFlowTop? && a2.DataFlowTop? ==> r == Success(a1)
    ensures r.Failure? <==> !a1.DataFlowTop? && !a2.DataFlowTop? && !(a1.DataFlow? && a2.DataFlow?)
    ensures r.Failure? ==> r.error.TypeSystemError?
    ensures a1.DataFlow? && a2.DataFlow? ==>
              r == Success(if IsSubtypeWithRoots(env, a1, a2) then a1
                           else if IsSubtypeWithRoots(env, a2, a1) then a2
                           else DATAFLOWBOTTOM)
  {
    if a1.DataFlowTop? then Success(a2)
    else if a2.DataFlowTop? then Success(a1)
    else if !a1.DataFlow? || !a2.DataFlow? then Failure(TypeSystemError("Unexpected qualifiers"))
    else if IsSubtypeWithRoots(env, a1, a2) then Success(a1)
    else if IsSubtypeWithRoots(env, a2, a1) then Success(a2)
    else Success(DATAFLOWBOTTOM)
  }

  // ---------------------------------------------------------------------
  // The order these members induce.

  /**
   * The qualifier order: DataFlowInferenceBottom lies below and DataFlowTop
   * above every qualifier; two DataFlow qualifiers are ordered by
   * isSubtypeWithRoots.
   */
  predicate IsSubtypeQual(env: TypeEnv, sub: DataflowQual, sup: DataflowQual)
  {
    sub.DataFlowInferenceBottom? || sup.DataFlowTop? ||
    (sub.DataFlow? && sup.DataFlow? && IsSubtypeWithRoots(env, sub, sup))
  }

  lemma ElemsOfDouble(s: seq<string>)
    ensures Elems(s + s) == Elems(s)
    ensures Elems(Dedup(s + s)) == Elems(s)
  {
    assert forall x :: x in s + s <==> x in s;
  }

  /**
   * Under a partial order and for roots naming distinct types, every
   * DataFlow qualifier is a subtype of itself: combining it with itself
   * changes nothing once refined.
   */
  lemma SubtypeWithRootsReflexive(env: TypeEnv, a: DataflowQual)
    requires PartialOrder(env) && DistinctTypes(env, Roots(a))
    ensures IsSubtypeWithRoots(env, a, a)
  {
    var combined := DataFlow(Dedup(Names(a) + Names(a)), Dedup(Roots(a) + Roots(a)));
    ElemsOfDouble(Names(a));
    ElemsOfDouble(Roots(a));
    SameElemsSameMembers(Roots(combined), Roots(a));
    SameElemsSameMembers(Names(combined), Names(a));
    RefineAgrees(env, combined, a);
  }

  /** Two lists with the same elements have the same members. */
  lemma SameElemsSameMembers(s: seq<string>, s': seq<string>)
    requires Elems(s) == Elems(s')
    ensures forall x :: x in s <==> x in s'
  {
    assert forall x :: x in s <==> x in Elems(s);
    assert forall x :: x in s' <==> x in Elems(s');
  }

  /**
   * Under a partial order, refining depends only on which roots a qualifier
   * has and, when it has roots, on which non-empty names it has.
   */
  lemma RefineAgrees(env: TypeEnv, q: DataflowQual, q': DataflowQual)
    requires PartialOrder(env) && DistinctTypes(env, Roots(q)) && DistinctTypes(env, Roots(q'))
    requires Elems(Roots(q)) == Elems(Roots(q'))
    requires |Roots(q)| == 0 ==> Elems(Names(q)) == Elems(Names(q'))
    requires |Roots(q)| != 0 ==> forall n | n != "" :: n in Names(q) <==> n in Names(q')
    ensures SameDataflow(Refine(env, q), Refine(env, q'))
  {
    RefineMeaning(env, q);
    RefineMeaning(env, q');
    RefineRootsAgree(env, q, q');
    if |Roots(q)| != 0 {
      RefineNamesAgree(env, q, q');
    } else {
      ElemsEmpty(Roots(q));
      ElemsEmpty(Roots(q'));
    }
  }

  /** A list is empty exactly when it has no elements. */
  lemma ElemsEmpty(s: seq<string>)
    ensures |s| == 0 <==> Elems(s) == {}
  {
    if |s| != 0 {
      assert s[0] in Elems(s);
    }
  }

  /** The refined roots of two qualifiers with the same roots agree. */
  lemma RefineRootsAgree(env: TypeEnv, q: DataflowQual, q': DataflowQual)
    requires PartialOrder(env) && DistinctTypes(env, Roots(q)) && DistinctTypes(env, Roots(q'))
    requires Elems(Roots(q)) == Elems(Roots(q'))
    ensures Elems(Refine(env, q).typeNameRoots) == Elems(Refine(env, q').typeNameRoots)
  {
    RefineIsOrderFree(env, q);
    RefineIsOrderFree(env, q');
    MaximalOfElems(env, Roots(q), Roots(q'));
  }

  /** The refined names of two rooted qualifiers with the same roots and non-empty names agree. */
  lemma RefineNamesAgree(env: TypeEnv, q: DataflowQual, q': DataflowQual)
    requires PartialOrder(env) && DistinctTypes(env, Roots(q)) && DistinctTypes(env, Roots(q'))
    requires Elems(Roots(q)) == Elems(Roots(q')) && |Roots(q)| != 0
    requires forall n | n != "" :: n in Names(q) <==> n in Names(q')
    ensures Elems(Refine(env, q).typeNames) == Elems(Refine(env, q').typeNames)
  {
    assert |Roots(q')| != 0 by {
      assert Roots(q)[0] in Elems(Roots(q));
    }
    RefineIsOrderFree(env, q);
    RefineIsOrderFree(env, q');
    MaximalOfElems(env, Roots(q), Roots(q'));
    var rq := Refine(env, q);
    var rq' := Refine(env, q');
    assert forall n :: n in rq.typeNames <==> n in rq'.typeNames;
    assert Elems(rq.typeNames) == Elems(rq'.typeNames);
  }

  /**
   * Under a partial order and for roots naming distinct types, a successful
   * lub lies above both operands.
   */
  lemma LubIsUpperBound(env: TypeEnv, a1: DataflowQual, a2: DataflowQual)
    requires PartialOrder(env) && DistinctTypes(env, Roots(a1)) && DistinctTypes(env, Roots(a2))
    ensures LeastUpperBound(env, a1, a2).Success? ==>
              IsSubtypeQual(env, a1, LeastUpperBound(env, a1, a2).value) &&
              IsSubtypeQual(env, a2, LeastUpperBound(env, a1, a2).value)
  {
    if a1.DataFlowInferenceBottom? {
      if a2.DataFlow? {
        SubtypeWithRootsReflexive(env, a2);
      }
    } else if a2.DataFlowInferenceBottom? {
      if a1.DataFlow? {
        SubtypeWithRootsReflexive(env, a1);
      }
    } else if a1.DataFlow? && a2.DataFlow? {
      SubtypeWithRootsReflexive(env, a1);
      SubtypeWithRootsReflexive(env, a2);
    }
  }

  /**
   * Under the same conditions, a successful glb of a top-kind operand or of
   * related operands lies below both operands.
   */
  lemma GlbOfRelatedIsLowerBound(env: TypeEnv, a1: DataflowQual, a2: DataflowQual)
    requires PartialOrder(env) && DistinctTypes(env, Roots(a1)) && DistinctTypes(env, Roots(a2))
    requires a1.DataFlow? && a2.DataFlow? ==> IsSubtypeWithRoots(env, a1, a2) || IsSubtypeWithRoots(env, a2, a1)
    ensures GreatestLowerBound(env, a1, a2).Success? ==>
              IsSubtypeQual(env, GreatestLowerBound(env, a1, a2).value, a1) &&
              IsSubtypeQual(env, GreatestLowerBound(env, a1, a2).value, a2)
  {
    if a1.DataFlowTop? {
      if a2.DataFlow? {
        SubtypeWithRootsReflexive(env, a2);
      }
    } else if a2.DataFlowTop? {
      if a1.DataFlow? {
        SubtypeWithRootsReflexive(env, a1);
      }
    } else if a1.DataFlow? && a2.DataFlow? {
      SubtypeWithRootsReflexive(env, a1);
      SubtypeWithRootsReflexive(env, a2);
    }
  }

  /**
   * Without roots, isSubtypeWithRoots is isSubtypeWithoutRoots: refining
   * keeps every name, so the combination equals the supertype exactly when
   * the supertype already names every type of the subtype.
   */
  lemma RootlessSubtyping(env: TypeEnv, a: DataflowQual, b: DataflowQual)
    requires a.DataFlow? && b.DataFlow? && Roots(a) == [] && Roots(b) == []
    ensures IsSubtypeWithRoots(env, a, b) <==> IsSubtypeWithoutRoots(a, b)
  {
    var combined := DataFlow(Dedup(Names(a) + Names(b)), Dedup(Roots(a) + Roots(b)));
    assert Roots(a) + Roots(b) == [];
    assert Refine(env, combined) == DataFlow(Dedup(Names(combined)), []);
    assert Refine(env, b) == DataFlow(Dedup(Names(b)), []);
    assert Elems(Names(a) + Names(b)) == Elems(Names(a)) + Elems(Names(b)) by {
      assert forall x :: x in Names(a) + Names(b) <==> x in Names(a) || x in Names(b);
    }
  }

  /**
   * DATAFLOWBOTTOM lies below a root-less qualifier only when that qualifier
   * names the empty type: without roots, refineDataflow keeps the empty name
   * that DATAFLOWBOTTOM uses for "no type".
   */
  lemma BottomBelowRootless(env: TypeEnv, a: DataflowQual)
    requires a.DataFlow? && Roots(a) == []
    ensures IsSubtypeQual(env, DATAFLOWBOTTOM, a) <==> "" in Names(a)
  {
    RootlessSubtyping(env, DATAFLOWBOTTOM, a);
  }

  /**
   * So the glb of two root-less qualifiers that do not name each other's
   * types is DATAFLOWBOTTOM, which is not below an operand that does not
   * name the empty type.
   */
  lemma GlbOfRootless(env: TypeEnv, a: DataflowQual, b: DataflowQual)
    requires a.DataFlow? && b.DataFlow? && Roots(a) == [] && Roots(b) == []
    requires !IsSubtypeWithoutRoots(a, b) && !IsSubtypeWithoutRoots(b, a)
    ensures GreatestLowerBound(env, a, b) == Success(DATAFLOWBOTTOM)
    ensures IsSubtypeQual(env, DATAFLOWBOTTOM, a) <==> "" in Names(a)
  {
    RootlessSubtyping(env, a, b);
    RootlessSubtyping(env, b, a);
    BottomBelowRootless(env, a);
  }

  /**
   * With roots present the empty name is dropped, so under a partial order
   * DATAFLOWBOTTOM does lie below a qualifier that has roots.
   */
  lemma BottomBelowRooted(env: TypeEnv, a: DataflowQual)
    requires PartialOrder(env) && DistinctTypes(env, Roots(a))
    requires a.DataFlow? && |Roots(a)| != 0
    ensures IsSubtypeQual(env, DATAFLOWBOTTOM, a)
  {
    var combined := DataFlow(Dedup(Names(DATAFLOWBOTTOM) + Names(a)), Dedup(Roots(DATAFLOWBOTTOM) + Roots(a)));
    assert Roots(DATAFLOWBOTTOM) + Roots(a) == Roots(a);
    assert forall x :: x in Names(combined) <==> x in Elems([""] + Names(a));
    assert forall x :: x in [""] + Names(a) <==> x == "" || x in Names(a);
    SameElemsSameMembers(Roots(combined), Roots(a));
    RefineAgrees(env, combined, a);
  }
}
