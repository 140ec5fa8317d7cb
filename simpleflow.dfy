/**
 * The qualifier hierarchy of the SimpleFlow checkers: sources are ordered
 * by inclusion (more sources is higher) and sinks the other way round (more
 * sinks is lower); each hierarchy has a polymorphic qualifier between top
 * and bottom. `all` is the set of every parameterless permission
 * (IFlowUtils.getSetOfAllSources).
 */
module SimpleFlow {
  import opened Wrappers
  import opened IFlow

  /**
   * The hierarchy's private getSources / getSinks: a fresh mutable set for
   * a Source (resp. Sink) qualifier, java.util.Collections.emptySet() for any
   * other, which throws on a non-empty addAll.
   */
  datatype JSet = Fresh(elements: set<PFPermission>) | ImmutableEmpty
  {
    function Contents(): (r: set<PFPermission>)
      ensures ImmutableEmpty? ==> r == {}
    {
      if Fresh? then elements else {}
    }

    function AddAll(t: set<PFPermission>): (r: Result<set<PFPermission>>)
      ensures r.Success? <==> Fresh? || t == {}
      ensures r.Success? ==> r.value == Contents() + t
      ensures r.Failure? ==> r.error.UnsupportedOperation?
    {
      if Fresh? then Success(elements + t)
      else if t == {} then Success({})
      else Failure(UnsupportedOperation("addAll on an immutable empty set"))
    }

    function RetainAll(t: set<PFPermission>): (r: set<PFPermission>)
      ensures r == Contents() * t
    {
      if Fresh? then elements * t else {}
    }
  }

  function HierarchySources(q: FlowQual, all: set<PFPermission>): (r: JSet)
    ensures q.Source? <==> r.Fresh?
    ensures q.Source? ==> r.elements == ToAny(q.sources, all)
  {
    if q.Source? then Fresh(Permissions(Some(q), all, false)) else ImmutableEmpty
  }

  function HierarchySinks(q: FlowQual, all: set<PFPermission>): (r: JSet)
    ensures q.Sink? <==> r.Fresh?
    ensures q.Sink? ==> r.elements == ToAny(q.sinks, all)
  {
    if q.Sink? then Fresh(Permissions(Some(q), all, true)) else ImmutableEmpty
  }

  predicate IsSourceQualifier(q: FlowQual)
  {
    q.Source? || q.PolySource?
  }

  predicate IsSinkQualifier(q: FlowQual)
  {
    q.PolySink? || q.Sink?
  }

  /** getTopAnnotation: NOSINK for a Sink qualifier, ANYSOURCE for anything else (PolySink included). */
  function TopAnnotation(start: FlowQual): (r: FlowQual)
    ensures start.Sink? ==> r == Sink({})
    ensures !start.Sink? ==> r == Source({ANY_PERMISSION})
  {
    if start.Sink? then Sink({}) else Source({ANY_PERMISSION})
  }

  /** getBottomAnnotation: ANYSINK for a Sink qualifier, NOSOURCE for anything else. */
  function BottomAnnotation(start: FlowQual): (r: FlowQual)
    ensures start.Sink? ==> r == Sink({ANY_PERMISSION})
    ensures !start.Sink? ==> r == Source({})
  {
    if start.Sink? then Sink({ANY_PERMISSION}) else Source({})
  }

  /** getTopAnnotations / getBottomAnnotations of the sink or the source checker. */
  function TopAnnotations(sinkChecker: bool): (r: set<FlowQual>)
    ensures |r| == 1
    ensures sinkChecker ==> r == {Sink({})}
    ensures !sinkChecker ==> r == {Source({ANY_PERMISSION})}
  {
    if sinkChecker then {Sink({})} else {Source({ANY_PERMISSION})}
  }

  function BottomAnnotations(sinkChecker: bool): (r: set<FlowQual>)
    ensures |r| == 1
    ensures sinkChecker ==> r == {Sink({ANY_PERMISSION})}
    ensures !sinkChecker ==> r == {Source({})}
  {
    if sinkChecker then {Sink({ANY_PERMISSION})} else {Source({})}
  }

  /** isSuperSet: containment, or ANY in the superset, or every subset element matched in the superset. */
  predicate IsSuperSet(superset: set<PFPermission>, subset: set<PFPermission>)
  {
    subset <= superset || ANY_PERMISSION in superset ||
    forall flow :: flow in subset ==> IsMatchInSet(flow, superset)
  }

  /** The containment shortcut is only a shortcut: without ANY, isSuperSet is the matching loop alone. */
  lemma IsSuperSetIsMatching(superset: set<PFPermission>, subset: set<PFPermission>)
    ensures IsSuperSet(superset, subset) <==>
            ANY_PERMISSION in superset || forall flow :: flow in subset ==> IsMatchInSet(flow, superset)
  {
    if subset <= superset {
      forall flow | flow in subset
        ensures IsMatchInSet(flow, superset)
      {
        MemberIsMatched(flow, superset);
      }
    }
  }

  /** Every permission is parameterless. */
  predicate Coarse(s: set<PFPermission>)
  {
    forall p :: p in s ==> p.parameters == []
  }

  /** On parameterless permissions isSuperSet is containment or ANY. */
  lemma CoarseSuperSet(superset: set<PFPermission>, subset: set<PFPermission>)
    requires Coarse(superset) && Coarse(subset)
    ensures IsSuperSet(superset, subset) <==> subset <= superset || ANY_PERMISSION in superset
  {
    if IsSuperSet(superset, subset) && ANY_PERMISSION !in superset {
      forall flow | flow in subset
        ensures flow in superset
      {
        IsSuperSetIsMatching(superset, subset);
        var f :| f in superset && f.permission == flow.permission && AllParametersMatch(flow.parameters, f.parameters);
        assert f == flow;
      }
    }
  }

  /** isSubtypeQualifiers. */
  predicate IsSubtype(subtype: FlowQual, supertype: FlowQual, all: set<PFPermission>)
  {
    if supertype.PolySource? && subtype.PolySource? then true
    else if supertype.PolySource? && IsSourceQualifier(subtype) then
      HierarchySources(subtype, all).Contents() == {}
    else if IsSourceQualifier(supertype) && subtype.PolySource? then
      ANY_PERMISSION in HierarchySources(supertype, all).Contents()
    else if IsSourceQualifier(supertype) && IsSourceQualifier(subtype) then
      IsSuperSet(HierarchySources(supertype, all).Contents(), HierarchySources(subtype, all).Contents())
    else if supertype.PolySink? && subtype.PolySink? then true
    else if supertype.PolySink? && IsSinkQualifier(subtype) then
      ANY_PERMISSION in HierarchySinks(subtype, all).Contents()
    else if IsSinkQualifier(supertype) && subtype.PolySink? then
      HierarchySinks(supertype, all).Contents() == {}
    else if IsSinkQualifier(supertype) && IsSinkQualifier(subtype) then
      IsSuperSet(HierarchySinks(subtype, all).Contents(), HierarchySinks(supertype, all).Contents())
    else false
  }

  /** Source subtyping is coverage by the supertype's sources; sink subtyping is the reverse. */
  lemma SubtypeOfSets(s: set<PFPermission>, t: set<PFPermission>, all: set<PFPermission>)
    ensures IsSubtype(Source(s), Source(t), all) <==> IsSuperSet(ToAny(t, all), ToAny(s, all))
    ensures IsSubtype(Sink(s), Sink(t), all) <==> IsSuperSet(ToAny(s, all), ToAny(t, all))
  {
  }

  /**
   * The polymorphic qualifiers: PolySource is below exactly the sources
   * holding ANY (or everything) and above exactly the empty source set; the
   * sink side swaps the roles of the empty set and ANY.
   */
  lemma PolySubtyping(s: set<PFPermission>, all: set<PFPermission>)
    requires all != {} && ANY_PERMISSION !in all
    ensures IsSubtype(PolySource, PolySource, all) && IsSubtype(PolySink, PolySink, all)
    ensures IsSubtype(Source(s), PolySource, all) <==> s == {}
    ensures IsSubtype(PolySource, Source(s), all) <==> ANY_PERMISSION in s || s == all
    ensures IsSubtype(Sink(s), PolySink, all) <==> ANY_PERMISSION in s || s == all
    ensures IsSubtype(PolySink, Sink(s), all) <==> s == {}
  {
  }

  /** A source qualifier and a sink qualifier are never related. */
  lemma NoMixedSubtyping(a: FlowQual, b: FlowQual, all: set<PFPermission>)
    requires IsSourceQualifier(a) && IsSinkQualifier(b)
    ensures !IsSubtype(a, b, all) && !IsSubtype(b, a, all)
  {
  }

  /** Every qualifier is a subtype of itself. */
  lemma SubtypeReflexive(q: FlowQual, all: set<PFPermission>)
    ensures IsSubtype(q, q, all)
  {
  }

  /** The permission sets of one hierarchy over parameterless permissions, ANY included. */
  predicate CoarseQual(q: FlowQual, all: set<PFPermission>)
  {
    (q.Source? ==> q.sources <= all + {ANY_PERMISSION}) && (q.Sink? ==> q.sinks <= all + {ANY_PERMISSION})
  }

  lemma ToAnyCoarse(s: set<PFPermission>, all: set<PFPermission>)
    requires Coarse(all) && s <= all + {ANY_PERMISSION}
    ensures Coarse(ToAny(s, all)) && ToAny(s, all) <= all + {ANY_PERMISSION}
  {
  }

  /** Over parameterless permissions subtyping is transitive. */
  lemma SubtypeTransitive(a: FlowQual, b: FlowQual, c: FlowQual, all: set<PFPermission>)
    requires Coarse(all) && ANY_PERMISSION !in all
    requires CoarseQual(a, all) && CoarseQual(b, all) && CoarseQual(c, all)
    requires IsSubtype(a, b, all) && IsSubtype(b, c, all)
    ensures IsSubtype(a, c, all)
  {
    if a.Source? { ToAnyCoarse(a.sources, all); }
    if b.Source? { ToAnyCoarse(b.sources, all); }
    if c.Source? { ToAnyCoarse(c.sources, all); }
    if a.Sink? { ToAnyCoarse(a.sinks, all); }
    if b.Sink? { ToAnyCoarse(b.sinks, all); }
    if c.Sink? { ToAnyCoarse(c.sinks, all); }
    if a.Source? && b.Source? && c.Source? {
      CoarseSuperSet(ToAny(b.sources, all), ToAny(a.sources, all));
      CoarseSuperSet(ToAny(c.sources, all), ToAny(b.sources, all));
      CoarseSuperSet(ToAny(c.sources, all), ToAny(a.sources, all));
    } else if a.Sink? && b.Sink? && c.Sink? {
      CoarseSuperSet(ToAny(a.sinks, all), ToAny(b.sinks, all));
      CoarseSuperSet(ToAny(b.sinks, all), ToAny(c.sinks, all));
      CoarseSuperSet(ToAny(a.sinks, all), ToAny(c.sinks, all));
    } else if a.Source? && b.PolySource? && c.Source? {
      CoarseSuperSet(ToAny(c.sources, all), ToAny(a.sources, all));
    } else if a.Sink? && b.PolySink? && c.Sink? {
      CoarseSuperSet(ToAny(a.sinks, all), ToAny(c.sinks, all));
    }
  }

  /** Both operands are read in the same hierarchy: their tops have the same annotation name. */
  predicate SameHierarchy(a1: FlowQual, a2: FlowQual)
  {
    TopAnnotation(a1).Sink? == TopAnnotation(a2).Sink?
  }

  /**
   * leastUpperBoundQualifiers: null across hierarchies, the larger operand
   * when they are related, otherwise the union of the sources or the
   * intersection of the sinks.
   */
  function Lub(a1: FlowQual, a2: FlowQual, all: set<PFPermission>): (r: Result<Option<FlowQual>>)
    ensures !SameHierarchy(a1, a2) ==> r == Success(None)
    ensures SameHierarchy(a1, a2) && IsSubtype(a1, a2, all) ==> r == Success(Some(a2))
    ensures SameHierarchy(a1, a2) && !IsSubtype(a1, a2, all) && IsSubtype(a2, a1, all) ==> r == Success(Some(a1))
  {
    if !SameHierarchy(a1, a2) then Success(None)
    else if IsSubtype(a1, a2, all) then Success(Some(a2))
    else if IsSubtype(a2, a1, all) then Success(Some(a1))
    else if IsSourceQualifier(a1) then
      var lubPermissions :- HierarchySources(a1, all).AddAll(HierarchySources(a2, all).Contents());
      Success(Some(Source(lubPermissions)))
    else
      Success(Some(Sink(HierarchySinks(a1, all).RetainAll(HierarchySinks(a2, all).Contents()))))
  }

  /**
   * greatestLowerBoundQualifiers: null across hierarchies, the smaller
   * operand when they are related, otherwise the intersection of the sources
   * or the union of the sinks.
   */
  function Glb(a1: FlowQual, a2: FlowQual, all: set<PFPermission>): (r: Result<Option<FlowQual>>)
    ensures !SameHierarchy(a1, a2) ==> r == Success(None)
    ensures SameHierarchy(a1, a2) && IsSubtype(a1, a2, all) ==> r == Success(Some(a1))
    ensures SameHierarchy(a1, a2) && !IsSubtype(a1, a2, all) && IsSubtype(a2, a1, all) ==> r == Success(Some(a2))
  {
    if !SameHierarchy(a1, a2) then Success(None)
    else if IsSubtype(a1, a2, all) then Success(Some(a1))
    else if IsSubtype(a2, a1, all) then Success(Some(a2))
    else if IsSourceQualifier(a1) then
      Success(Some(Source(HierarchySources(a1, all).RetainAll(HierarchySources(a2, all).Contents()))))
    else
      var glbPermissions :- HierarchySinks(a1, all).AddAll(HierarchySinks(a2, all).Contents());
      Success(Some(Sink(glbPermissions)))
  }

  /** Two unrelated source sets meet in their union at lub and their intersection at glb; sinks the other way. */
  lemma UnrelatedBounds(s: set<PFPermission>, t: set<PFPermission>, all: set<PFPermission>)
    ensures !IsSubtype(Source(s), Source(t), all) && !IsSubtype(Source(t), Source(s), all) ==>
              Lub(Source(s), Source(t), all) == Success(Some(Source(ToAny(s, all) + ToAny(t, all)))) &&
              Glb(Source(s), Source(t), all) == Success(Some(Source(ToAny(s, all) * ToAny(t, all))))
    ensures !IsSubtype(Sink(s), Sink(t), all) && !IsSubtype(Sink(t), Sink(s), all) ==>
              Lub(Sink(s), Sink(t), all) == Success(Some(Sink(ToAny(s, all) * ToAny(t, all)))) &&
              Glb(Sink(s), Sink(t), all) == Success(Some(Sink(ToAny(s, all) + ToAny(t, all))))
  {
  }

  /** The tops are above, and the bottoms below, every qualifier of their hierarchy but PolySink. */
  lemma TopAndBottom(q: FlowQual, all: set<PFPermission>)
    requires all != {} && ANY_PERMISSION !in all
    requires !q.PolySink?
    ensures IsSubtype(q, TopAnnotation(q), all)
    ensures IsSubtype(BottomAnnotation(q), q, all)
  {
  }

  /**
   * getTopAnnotation does not recognise PolySink as a sink qualifier: its
   * top is the source top, so lub and glb of PolySink with a Sink are null.
   */
  lemma PolySinkReadAsSource(s: set<PFPermission>, all: set<PFPermission>)
    ensures TopAnnotation(PolySink) == Source({ANY_PERMISSION})
    ensures !IsSubtype(PolySink, TopAnnotation(PolySink), all)
    ensures Lub(PolySink, Sink(s), all) == Success(None) && Glb(PolySink, Sink(s), all) == Success(None)
  {
  }

  /**
   * lub of PolySource with an unrelated Source adds to the immutable empty
   * set and throws; with the operands swapped it returns the Source.
   */
  lemma LubPolySourceOrder(s: set<PFPermission>, all: set<PFPermission>)
    requires ToAny(s, all) != {} && ANY_PERMISSION !in ToAny(s, all)
    ensures Lub(PolySource, Source(s), all).Failure?
    ensures Lub(PolySource, Source(s), all).error.UnsupportedOperation?
    ensures Lub(Source(s), PolySource, all) == Success(Some(Source(ToAny(s, all))))
  {
    assert ToAny(s, all) + {} == ToAny(s, all);
  }

  /** Over parameterless permissions the lub of two sources or two sinks is above both. */
  lemma LubIsUpperBound(a1: FlowQual, a2: FlowQual, all: set<PFPermission>)
    requires Coarse(all) && ANY_PERMISSION !in all
    requires (a1.Source? && a2.Source?) || (a1.Sink? && a2.Sink?)
    requires CoarseQual(a1, all) && CoarseQual(a2, all)
    ensures Lub(a1, a2, all).Success? && Lub(a1, a2, all).value.Some?
    ensures IsSubtype(a1, Lub(a1, a2, all).value.value, all) && IsSubtype(a2, Lub(a1, a2, all).value.value, all)
  {
    SubtypeReflexive(a1, all);
    SubtypeReflexive(a2, all);
    if !IsSubtype(a1, a2, all) && !IsSubtype(a2, a1, all) {
      if a1.Source? {
        var t1, t2 := ToAny(a1.sources, all), ToAny(a2.sources, all);
        ToAnyCoarse(a1.sources, all);
        ToAnyCoarse(a2.sources, all);
        assert Lub(a1, a2, all) == Success(Some(Source(t1 + t2)));
        CoarseSuperSet(ToAny(t1 + t2, all), t1);
        CoarseSuperSet(ToAny(t1 + t2, all), t2);
      } else {
        var t1, t2 := ToAny(a1.sinks, all), ToAny(a2.sinks, all);
        ToAnyCoarse(a1.sinks, all);
        ToAnyCoarse(a2.sinks, all);
        assert Lub(a1, a2, all) == Success(Some(Sink(t1 * t2)));
        CoarseSuperSet(t1, ToAny(t1 * t2, all));
        CoarseSuperSet(t2, ToAny(t1 * t2, all));
      }
    }
  }
  /** Over parameterless permissions the glb of two sources or two sinks is below both. */
  lemma GlbIsLowerBound(a1: FlowQual, a2: FlowQual, all: set<PFPermission>)
    requires Coarse(all) && ANY_PERMISSION !in all
    requires (a1.Source? && a2.Source?) || (a1.Sink? && a2.Sink?)
    requires CoarseQual(a1, all) && CoarseQual(a2, all)
    ensures Glb(a1, a2, all).Success? && Glb(a1, a2, all).value.Some?
    ensures IsSubtype(Glb(a1, a2, all).value.value, a1, all) && IsSubtype(Glb(a1, a2, all).value.value, a2, all)
  {
    SubtypeReflexive(a1, all);
    SubtypeReflexive(a2, all);
    if !IsSubtype(a1, a2, all) && !IsSubtype(a2, a1, all) {
      if a1.Source? {
        var t1, t2 := ToAny(a1.sources, all), ToAny(a2.sources, all);
        ToAnyCoarse(a1.sources, all);
        ToAnyCoarse(a2.sources, all);
        assert Glb(a1, a2, all) == Success(Some(Source(t1 * t2)));
        CoarseSuperSet(t1, ToAny(t1 * t2, all));
        CoarseSuperSet(t2, ToAny(t1 * t2, all));
      } else {
        var t1, t2 := ToAny(a1.sinks, all), ToAny(a2.sinks, all);
        ToAnyCoarse(a1.sinks, all);
        ToAnyCoarse(a2.sinks, all);
        assert Glb(a1, a2, all) == Success(Some(Sink(t1 + t2)));
        CoarseSuperSet(ToAny(t1 + t2, all), t1);
        CoarseSuperSet(ToAny(t1 + t2, all), t2);
      }
    }
  }
}
