/**
 * Information-flow permission sets. A permission is a FlowPermission kind
 * with a list of parameters; the kind ANY stands for every permission. The
 * static helpers keep sets in a normal form where a set that holds ANY, or
 * every parameterless permission, is written {ANY}.
 */
module IFlow {
  import opened Wrappers

  /** The FlowPermission enum: ANY and the named permissions. */
  datatype FlowPermission = ANY | Permission(name: string)

  /** PFPermission: a permission kind with its parameters. */
  datatype PFPermission = PFPermission(permission: FlowPermission, parameters: seq<string>)

  /** The ANY permission, without parameters. */
  const ANY_PERMISSION := PFPermission(ANY, [])

  /** The four qualifiers of the information-flow type systems; a qualifier's value is its permission set. */
  datatype FlowQual = Source(sources: set<PFPermission>) | Sink(sinks: set<PFPermission>) | PolySource | PolySink

  /**
   * getSetOfAllSources / getSetOfAllSinks: every value of the enum but ANY,
   * each without parameters.
   */
  function AllPermissions(values: set<FlowPermission>): (r: set<PFPermission>)
    ensures ANY_PERMISSION !in r
    ensures forall p :: p in r <==> p.permission in values && p.permission != ANY && p.parameters == []
  {
    set f | f in values && f != ANY :: PFPermission(f, [])
  }

  /**
   * convertToAnySource / convertToAnySink: a set holding ANY, or equal to the
   * set of all permissions, becomes {ANY}; any other set is kept.
   */
  function ToAny(s: set<PFPermission>, all: set<PFPermission>): (r: set<PFPermission>)
    ensures ANY_PERMISSION in s || s == all ==> r == {ANY_PERMISSION}
    ensures !(ANY_PERMISSION in s || s == all) ==> r == s
  {
    if s == all || ANY_PERMISSION in s then {ANY_PERMISSION} else s
  }

  /**
   * convertAnyToAllSinks / convertAnytoAllSources: ANY is replaced by every
   * permission; a set without ANY is kept.
   */
  function ExpandAny(s: set<PFPermission>, all: set<PFPermission>): (r: set<PFPermission>)
    requires ANY_PERMISSION !in all
    ensures ANY_PERMISSION !in r
    ensures ANY_PERMISSION in s ==> r == (s - {ANY_PERMISSION}) + all
    ensures ANY_PERMISSION !in s ==> r == s
  {
    if ANY_PERMISSION in s then (s + all) - {ANY_PERMISSION} else s
  }

  /** Normalising a normal set changes nothing. */
  lemma ToAnyIdempotent(s: set<PFPermission>, all: set<PFPermission>)
    requires ANY_PERMISSION !in all
    ensures ToAny(ToAny(s, all), all) == ToAny(s, all)
  {
  }

  /**
   * Normalising keeps what a set of parameterless permissions stands for:
   * expanding ANY before or after normalising gives the same permissions.
   */
  lemma ToAnyKeepsMeaning(s: set<PFPermission>, all: set<PFPermission>)
    requires ANY_PERMISSION !in all
    requires s <= all + {ANY_PERMISSION}
    ensures ExpandAny(ToAny(s, all), all) == ExpandAny(s, all)
  {
    if ANY_PERMISSION in s {
      assert ExpandAny(s, all) == all;
    }
  }

  /**
   * wildcardMatch, with '*' in the parent standing for any run of characters
   * and every other character standing for itself.
   */
  function GlobMatch(child: string, pattern: string): bool
    decreases |child| + |pattern|
  {
    if |pattern| == 0 then |child| == 0
    else if pattern[0] == '*' then
      GlobMatch(child, pattern[1..]) || (|child| > 0 && GlobMatch(child[1..], pattern))
    else |child| > 0 && child[0] == pattern[0] && GlobMatch(child[1..], pattern[1..])
  }

  /** Every parameter matches itself, stars included. */
  lemma {:induction false} GlobMatchReflexive(s: string)
    ensures GlobMatch(s, s)
    decreases |s|
  {
    if |s| > 0 {
      GlobMatchReflexive(s[1..]);
      if s[0] == '*' {
        assert GlobMatch(s[1..], s[1..]);
        assert GlobMatch(s[1..], s);
      }
    }
  }

  /** A lone star matches every parameter. */
  lemma {:induction false} GlobStarMatchesAll(s: string)
    ensures GlobMatch(s, "*")
    decreases |s|
  {
    assert "*"[1..] == "";
    if |s| > 0 {
      GlobStarMatchesAll(s[1..]);
    }
  }

  /** singleParametersMatch: some parameter of the list matches param. */
  function SingleParametersMatch(param: string, parameters: seq<string>): (b: bool)
    ensures b <==> exists j :: 0 <= j < |parameters| && GlobMatch(param, parameters[j])
  {
    if |parameters| == 0 then false
    else if GlobMatch(param, parameters[0]) then
      assert GlobMatch(param, parameters[0]);
      true
    else
      var b := SingleParametersMatch(param, parameters[1..]);
      assert forall j :: 1 <= j < |parameters| ==> parameters[j] == parameters[1..][j - 1];
      b
  }

  /**
   * allParametersMatch: every child parameter matches some parent parameter
   * (so a permission without parameters matches anything).
   */
  function AllParametersMatch(childParams: seq<string>, parentParams: seq<string>): (b: bool)
    ensures b <==> forall i :: 0 <= i < |childParams| ==> SingleParametersMatch(childParams[i], parentParams)
  {
    if |childParams| == 0 then true
    else if !SingleParametersMatch(childParams[0], parentParams) then false
    else
      var b := AllParametersMatch(childParams[1..], parentParams);
      assert forall i :: 1 <= i < |childParams| ==> childParams[i] == childParams[1..][i - 1];
      b
  }

  /** A parameter list matches itself. */
  lemma AllParametersMatchReflexive(ps: seq<string>)
    ensures AllParametersMatch(ps, ps)
  {
    forall i | 0 <= i < |ps|
      ensures SingleParametersMatch(ps[i], ps)
    {
      GlobMatchReflexive(ps[i]);
    }
  }

  /** Adding parent parameters never breaks a match. */
  lemma AllParametersMatchWiden(child: seq<string>, parent: seq<string>, more: seq<string>)
    requires AllParametersMatch(child, parent)
    ensures AllParametersMatch(child, parent + more)
  {
    forall i | 0 <= i < |child|
      ensures SingleParametersMatch(child[i], parent + more)
    {
      var j :| 0 <= j < |parent| && GlobMatch(child[i], parent[j]);
      assert (parent + more)[j] == parent[j];
    }
  }

  /** isMatchInSet: some flow of the set has the same kind, and all of flowToMatch's parameters match it. */
  predicate IsMatchInSet(flowToMatch: PFPermission, flows: set<PFPermission>)
  {
    exists flow :: flow in flows && flow.permission == flowToMatch.permission &&
                   AllParametersMatch(flowToMatch.parameters, flow.parameters)
  }

  /** A permission is always matched by a set that holds it. */
  lemma MemberIsMatched(flow: PFPermission, flows: set<PFPermission>)
    requires flow in flows
    ensures IsMatchInSet(flow, flows)
  {
    AllParametersMatchReflexive(flow.parameters);
  }

  /**
   * The pairs intersectSources keeps: a1's permission has a2's kind and
   * every a1 parameter matches an a2 parameter. intersectSinks reverses the
   * parameter direction.
   */
  predicate Keeps(p1: PFPermission, p2: PFPermission, sinks: bool)
  {
    p1.permission == p2.permission &&
    (if sinks then AllParametersMatch(p2.parameters, p1.parameters) else AllParametersMatch(p1.parameters, p2.parameters))
  }

  /** The a2 permissions kept by some a1 permission. */
  function Matched(a1: set<PFPermission>, a2: set<PFPermission>, sinks: bool): (r: set<PFPermission>)
    ensures r <= a2
  {
    set p2 | p2 in a2 && exists p1 :: p1 in a1 && Keeps(p1, p2, sinks)
  }

  /** What the permissions both sets hold are kept: the plain intersection is inside the result. */
  lemma MatchedHoldsIntersection(a1: set<PFPermission>, a2: set<PFPermission>, sinks: bool)
    ensures a1 * a2 <= Matched(a1, a2, sinks)
  {
    forall p | p in a1 * a2
      ensures p in Matched(a1, a2, sinks)
    {
      AllParametersMatchReflexive(p.parameters);
      assert Keeps(p, p, sinks);
    }
  }

  /** For parameterless permissions the match is the plain intersection. */
  lemma MatchedWithoutParameters(a1: set<PFPermission>, a2: set<PFPermission>, sinks: bool)
    requires forall p :: p in a1 + a2 ==> p.parameters == []
    ensures Matched(a1, a2, sinks) == a1 * a2
  {
    MatchedHoldsIntersection(a1, a2, sinks);
    forall p2 | p2 in Matched(a1, a2, sinks)
      ensures p2 in a1
    {
      var p1 :| p1 in a1 && Keeps(p1, p2, sinks);
      assert p1 == p2;
    }
  }

  /** The a2 permissions one a1 permission keeps. */
  function KeptBy(p1: PFPermission, a2: set<PFPermission>, sinks: bool): (r: set<PFPermission>)
    ensures r <= a2
  {
    set p2 | p2 in a2 && Keeps(p1, p2, sinks)
  }

  /** One more a1 permission: its kept a2 permissions are added. */
  lemma MatchedStep(done: set<PFPermission>, p1: PFPermission, a2: set<PFPermission>, sinks: bool)
    ensures Matched(done + {p1}, a2, sinks) == Matched(done, a2, sinks) + KeptBy(p1, a2, sinks)
  {
  }

  lemma KeptByStep(p1: PFPermission, done: set<PFPermission>, p2: PFPermission, sinks: bool)
    ensures KeptBy(p1, done + {p2}, sinks) == KeptBy(p1, done, sinks) + (if Keeps(p1, p2, sinks) then {p2} else {})
  {
  }

  /** intersectSources / intersectSinks: a null argument gives the empty set. */
  function Intersect(a1: Option<set<PFPermission>>, a2: Option<set<PFPermission>>,
                     all: set<PFPermission>, sinks: bool): (r: set<PFPermission>)
    requires ANY_PERMISSION !in all
    ensures a1.None? || a2.None? ==> r == {}
    ensures a1.Some? && a2.Some? ==> r == ToAny(Matched(ExpandAny(a1.value, all), ExpandAny(a2.value, all), sinks), all)
  {
    if a1.None? || a2.None? then {}
    else ToAny(Matched(ExpandAny(a1.value, all), ExpandAny(a2.value, all), sinks), all)
  }

  /**
   * On parameterless permissions the intersection is the set intersection of
   * what the two sets stand for, normalised.
   */
  lemma IntersectOfCoarse(a1: set<PFPermission>, a2: set<PFPermission>, all: set<PFPermission>, sinks: bool)
    requires ANY_PERMISSION !in all
    requires forall p :: p in all ==> p.parameters == []
    requires forall p :: p in a1 + a2 ==> p.parameters == []
    ensures Intersect(Some(a1), Some(a2), all, sinks) == ToAny(ExpandAny(a1, all) * ExpandAny(a2, all), all)
  {
    MatchedWithoutParameters(ExpandAny(a1, all), ExpandAny(a2, all), sinks);
  }

  /** The raw value list of a Source (resp. Sink) annotation; any other annotation has none. */
  function RawPermissions(q: FlowQual, sinks: bool): set<PFPermission>
  {
    if sinks then (if q.Sink? then q.sinks else {}) else (if q.Source? then q.sources else {})
  }

  /** getSources / getSinks of an annotation: null gives the empty set, otherwise the normalised value. */
  function Permissions(am: Option<FlowQual>, all: set<PFPermission>, sinks: bool): (r: set<PFPermission>)
    ensures am.None? ==> r == {}
    ensures am.Some? ==> r == ToAny(RawPermissions(am.value, sinks), all)
  {
    match am
    case None => {}
    case Some(q) => ToAny(RawPermissions(q, sinks), all)
  }

  /** A mutable java.util.Set of permissions. */
  class PermissionSet {
    var elements: set<PFPermission>

    constructor(s: set<PFPermission>)
      ensures elements == s
    {
      elements := s;
    }
  }

  /** The static state of IFlowUtils: the enum's values and the two lazily filled caches. */
  class IFlowUtils {
    const values: set<FlowPermission>
    var setOfAllSources: set<PFPermission>
    var setOfAllSinks: set<PFPermission>

    /** A cache is still empty or holds every permission. */
    ghost predicate Valid()
      reads this
    {
      (setOfAllSources == {} || setOfAllSources == AllPermissions(values)) &&
      (setOfAllSinks == {} || setOfAllSinks == AllPermissions(values))
    }

    constructor(values: set<FlowPermission>)
      ensures this.values == values && setOfAllSources == {} && setOfAllSinks == {}
      ensures Valid()
    {
      this.values := values;
      setOfAllSources := {};
      setOfAllSinks := {};
    }

    /** Filling a cache: one parameterless permission per enum value but ANY. */
    method FillAll() returns (r: set<PFPermission>)
      ensures r == AllPermissions(values)
    {
      r := {};
      var rest := values;
      while rest != {}
        invariant rest <= values
        invariant r == AllPermissions(values - rest)
        decreases |rest|
      {
        var permission :| permission in rest;
        if permission != ANY {
          r := r + {PFPermission(permission, [])};
        }
        assert values - (rest - {permission}) == (values - rest) + {permission};
        rest := rest - {permission};
      }
      assert values - rest == values;
    }

    /** getSetOfAllSources: fills the cache when it is empty and returns it. */
    method GetSetOfAllSources() returns (r: set<PFPermission>)
      requires Valid()
      modifies this
      ensures Valid()
      ensures r == AllPermissions(values) && setOfAllSources == r
      ensures setOfAllSinks == old(setOfAllSinks)
    {
      if setOfAllSources == {} {
        setOfAllSources := FillAll();
      }
      r := setOfAllSources;
    }

    /** getSetOfAllSinks: fills the cache when it is empty and returns it. */
    method GetSetOfAllSinks() returns (r: set<PFPermission>)
      requires Valid()
      modifies this
      ensures Valid()
      ensures r == AllPermissions(values) && setOfAllSinks == r
      ensures setOfAllSources == old(setOfAllSources)
    {
      if setOfAllSinks == {} {
        setOfAllSinks := FillAll();
      }
      r := setOfAllSinks;
    }

    /**
     * convertToAnySource: the normalised set, in the argument itself when
     * inPlace holds and in a fresh copy (leaving the argument alone) otherwise.
     */
    method ConvertToAnySource(sources: PermissionSet, inPlace: bool) returns (retSet: PermissionSet)
      requires Valid()
      modifies this, if inPlace then {sources} else {}
      ensures Valid() && setOfAllSources == AllPermissions(values) && setOfAllSinks == old(setOfAllSinks)
      ensures inPlace ==> retSet == sources
      ensures !inPlace ==> fresh(retSet) && sources.elements == old(sources.elements)
      ensures retSet.elements == ToAny(old(sources.elements), AllPermissions(values))
    {
      if inPlace {
        retSet := sources;
      } else {
        retSet := new PermissionSet(sources.elements);
      }
      var all := GetSetOfAllSources();
      if retSet.elements == all {
        retSet.elements := {ANY_PERMISSION};
      } else if ANY_PERMISSION in retSet.elements {
        retSet.elements := {ANY_PERMISSION};
      }
    }

    /** convertToAnySink: as convertToAnySource, with the sinks cache. */
    method ConvertToAnySink(sinks: PermissionSet, inPlace: bool) returns (retSet: PermissionSet)
      requires Valid()
      modifies this, if inPlace then {sinks} else {}
      ensures Valid() && setOfAllSinks == AllPermissions(values) && setOfAllSources == old(setOfAllSources)
      ensures inPlace ==> retSet == sinks
      ensures !inPlace ==> fresh(retSet) && sinks.elements == old(sinks.elements)
      ensures retSet.elements == ToAny(old(sinks.elements), AllPermissions(values))
    {
      if inPlace {
        retSet := sinks;
      } else {
        retSet := new PermissionSet(sinks.elements);
      }
      var all := GetSetOfAllSinks();
      if sinks.elements == all {
        retSet.elements := {ANY_PERMISSION};
      } else if ANY_PERMISSION in retSet.elements {
        retSet.elements := {ANY_PERMISSION};
      }
    }

    /** unionSources: a1 becomes the normalised union and is returned. */
    method UnionSources(a1: PermissionSet, a2: PermissionSet) returns (r: PermissionSet)
      requires Valid()
      modifies this, a1
      ensures Valid()
      ensures r == a1 && a1.elements == ToAny(old(a1.elements) + old(a2.elements), AllPermissions(values))
    {
      a1.elements := a1.elements + a2.elements;
      var _ := ConvertToAnySource(a1, true);
      r := a1;
    }

    /** unionSinks: a1 becomes the normalised union and is returned. */
    method UnionSinks(a1: PermissionSet, a2: PermissionSet) returns (r: PermissionSet)
      requires Valid()
      modifies this, a1
      ensures Valid()
      ensures r == a1 && a1.elements == ToAny(old(a1.elements) + old(a2.elements), AllPermissions(values))
    {
      a1.elements := a1.elements + a2.elements;
      var _ := ConvertToAnySink(a1, true);
      r := a1;
    }

    /** The inner loop of intersectSources / intersectSinks: what one a1 permission keeps. */
    static method KeepAll(a1permission: PFPermission, a2All: set<PFPermission>, sinks: bool) returns (kept: set<PFPermission>)
      ensures kept == KeptBy(a1permission, a2All, sinks)
    {
      kept := {};
      var rest2 := a2All;
      while rest2 != {}
        invariant rest2 <= a2All
        invariant kept == KeptBy(a1permission, a2All - rest2, sinks)
        decreases |rest2|
      {
        var a2permission :| a2permission in rest2;
        KeptByStep(a1permission, a2All - rest2, a2permission, sinks);
        if Keeps(a1permission, a2permission, sinks) {
          kept := kept + {a2permission};
        }
        assert a2All - (rest2 - {a2permission}) == (a2All - rest2) + {a2permission};
        rest2 := rest2 - {a2permission};
      }
      assert a2All - rest2 == a2All;
    }

    /** The nested loops of intersectSources / intersectSinks over the expanded sets. */
    static method MatchAll(a1All: set<PFPermission>, a2All: set<PFPermission>, sinks: bool) returns (retSet: set<PFPermission>)
      ensures retSet == Matched(a1All, a2All, sinks)
    {
      retSet := {};
      var rest1 := a1All;
      while rest1 != {}
        invariant rest1 <= a1All
        invariant retSet == Matched(a1All - rest1, a2All, sinks)
        decreases |rest1|
      {
        var a1permission :| a1permission in rest1;
        var kept := KeepAll(a1permission, a2All, sinks);
        retSet := retSet + kept;
        MatchedStep(a1All - rest1, a1permission, a2All, sinks);
        assert a1All - (rest1 - {a1permission}) == (a1All - rest1) + {a1permission};
        rest1 := rest1 - {a1permission};
      }
      assert a1All - rest1 == a1All;
    }

    /** convertAnytoAllSources / convertAnyToAllSinks on a fresh copy; both fill the sinks cache. */
    method ConvertAnyToAll(s: PermissionSet) returns (r: set<PFPermission>)
      requires Valid()
      modifies this
      ensures Valid() && setOfAllSources == old(setOfAllSources)
      ensures r == ExpandAny(s.elements, AllPermissions(values))
    {
      r := s.elements;
      if ANY_PERMISSION in s.elements {
        var all := GetSetOfAllSinks();
        r := r + all;
        r := r - {ANY_PERMISSION};
      }
    }

    /** intersectSources: the a2 permissions some a1 permission subsumes, normalised; null gives {}. */
    method IntersectSources(a1Set: PermissionSet?, a2Set: PermissionSet?) returns (r: PermissionSet)
      requires Valid()
      modifies this
      ensures Valid() && fresh(r)
      ensures r.elements == Intersect(if a1Set == null then None else Some(old(a1Set.elements)),
                                      if a2Set == null then None else Some(old(a2Set.elements)),
                                      AllPermissions(values), false)
    {
      if a1Set == null || a2Set == null {
        r := new PermissionSet({});
        return;
      }
      var a1All := ConvertAnyToAll(a1Set);
      var a2All := ConvertAnyToAll(a2Set);
      var retSet := MatchAll(a1All, a2All, false);
      var ret := new PermissionSet(retSet);
      r := ConvertToAnySource(ret, false);
    }

    /** intersectSinks: as intersectSources, with the parameter match reversed. */
    method IntersectSinks(a1Set: PermissionSet?, a2Set: PermissionSet?) returns (r: PermissionSet)
      requires Valid()
      modifies this
      ensures Valid() && fresh(r)
      ensures r.elements == Intersect(if a1Set == null then None else Some(old(a1Set.elements)),
                                      if a2Set == null then None else Some(old(a2Set.elements)),
                                      AllPermissions(values), true)
    {
      if a1Set == null || a2Set == null {
        r := new PermissionSet({});
        return;
      }
      var a1All := ConvertAnyToAll(a1Set);
      var a2All := ConvertAnyToAll(a2Set);
      var retSet := MatchAll(a1All, a2All, true);
      var ret := new PermissionSet(retSet);
      r := ConvertToAnySink(ret, false);
    }

    /** getSources(AnnotationMirror): a fresh set, empty for null. */
    method GetSources(am: Option<FlowQual>) returns (r: PermissionSet)
      requires Valid()
      modifies this
      ensures Valid() && fresh(r)
      ensures r.elements == Permissions(am, AllPermissions(values), false)
    {
      if am.None? {
        r := new PermissionSet({});
        return;
      }
      var sourceFlowPermissions := new PermissionSet(RawPermissions(am.value, false));
      r := ConvertToAnySource(sourceFlowPermissions, false);
    }

    /** getSinks(AnnotationMirror): a fresh set, empty for null. */
    method GetSinks(am: Option<FlowQual>) returns (r: PermissionSet)
      requires Valid()
      modifies this
      ensures Valid() && fresh(r)
      ensures r.elements == Permissions(am, AllPermissions(values), true)
    {
      if am.None? {
        r := new PermissionSet({});
        return;
      }
      var sinkFlowPermissions := new PermissionSet(RawPermissions(am.value, true));
      r := ConvertToAnySink(sinkFlowPermissions, false);
    }
  }
}
