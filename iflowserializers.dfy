/**
 * The CNF serializers of the SimpleFlow checkers. Each serializer is bound to
 * one permission and reads a constant slot's qualifier as "top" or "bottom"
 * for it: the source serializer calls a constant top when its (normalised)
 * sources hold the permission, the sink serializer when its sinks do not.
 * `all` is the set of every parameterless permission, as in SimpleFlow.
 */
module IFlowSerializers {
  import opened Wrappers
  import opened IFlow
  import opened SimpleFlow

  /**
   * SourceSerializer.annoHasPermission: PolySource counts as holding every
   * source; otherwise the normalised sources must hold ANY or the permission.
   * An annotation that is not a Source has no sources, which normalise to
   * {ANY} only when there are no permissions at all.
   */
  function SourceHasPermission(q: FlowQual, permission: PFPermission, all: set<PFPermission>): (b: bool)
    ensures q.PolySource? ==> b
    ensures q.Source? ==> (b <==> ANY_PERMISSION in q.sources || q.sources == all || permission in q.sources)
    ensures (q.Sink? || q.PolySink?) ==> (b <==> all == {})
  {
    if q.PolySource? then true
    else
      var sources := Permissions(Some(q), all, false);
      ANY_PERMISSION in sources || permission in sources
  }

  /** SinkSerializer.annoHasPermission: PolySink holds no sink; otherwise as for sources. */
  function SinkHasPermission(q: FlowQual, permission: PFPermission, all: set<PFPermission>): (b: bool)
    ensures q.PolySink? ==> !b
    ensures q.Sink? ==> (b <==> ANY_PERMISSION in q.sinks || q.sinks == all || permission in q.sinks)
    ensures (q.Source? || q.PolySource?) ==> (b <==> all == {})
  {
    if q.PolySink? then false
    else
      var sinks := Permissions(Some(q), all, true);
      ANY_PERMISSION in sinks || permission in sinks
  }

  /**
   * The two serializers mirror each other: a sink set holds a permission
   * exactly when the same set read as sources does, so the sink serializer's
   * top is the complement of the source serializer's; the polymorphic
   * qualifiers are top in both.
   */
  lemma SerializersMirror(s: set<PFPermission>, permission: PFPermission, all: set<PFPermission>)
    ensures !SinkHasPermission(Sink(s), permission, all) <==> !SourceHasPermission(Source(s), permission, all)
    ensures SourceHasPermission(PolySource, permission, all) && !SinkHasPermission(PolySink, permission, all)
  {
  }

  /**
   * The serializers agree with the hierarchy's ends: the top source {ANY} and
   * the bottom sink {ANY} hold every permission, the bottom source {} and the
   * top sink {} hold none.
   */
  lemma EndsOfTheHierarchy(q: FlowQual, permission: PFPermission, all: set<PFPermission>)
    requires all != {}
    ensures SourceHasPermission(TopAnnotation(Source({})), permission, all)
    ensures !SourceHasPermission(BottomAnnotation(Source({})), permission, all)
    ensures !SinkHasPermission(TopAnnotation(Sink({})), permission, all)
    ensures SinkHasPermission(BottomAnnotation(Sink({})), permission, all)
  {
  }

  /**
   * Over parameterless permissions, being top for a source serializer is
   * closed upwards along source subtyping: a supertype of a constant that
   * holds the permission holds it too.
   */
  lemma SourceTopUpward(a: FlowQual, b: FlowQual, permission: PFPermission, all: set<PFPermission>)
    requires Coarse(all) && ANY_PERMISSION !in all
    requires CoarseQual(a, all) && CoarseQual(b, all)
    requires IsSourceQualifier(a) && IsSubtype(a, b, all)
    requires SourceHasPermission(a, permission, all)
    ensures SourceHasPermission(b, permission, all)
  {
    if a.Source? && b.Source? {
      ToAnyCoarse(a.sources, all);
      ToAnyCoarse(b.sources, all);
      CoarseSuperSet(ToAny(b.sources, all), ToAny(a.sources, all));
    }
  }

  /**
   * Over parameterless permissions, being top for a sink serializer (holding
   * the permission NOT) is closed upwards along sink subtyping as well.
   */
  lemma SinkTopUpward(a: FlowQual, b: FlowQual, permission: PFPermission, all: set<PFPermission>)
    requires Coarse(all) && ANY_PERMISSION !in all
    requires CoarseQual(a, all) && CoarseQual(b, all)
    requires IsSinkQualifier(a) && IsSubtype(a, b, all)
    requires !SinkHasPermission(a, permission, all)
    ensures !SinkHasPermission(b, permission, all)
  {
    if a.Sink? && b.Sink? {
      ToAnyCoarse(a.sinks, all);
      ToAnyCoarse(b.sinks, all);
      CoarseSuperSet(ToAny(a.sinks, all), ToAny(b.sinks, all));
    }
  }

  /** A source serializer: its permission and its own IFlowUtils. */
  class SourceSerializer {
    const permission: PFPermission
    const flowUtils: IFlowUtils

    constructor(permission: PFPermission, values: set<FlowPermission>)
      ensures this.permission == permission && fresh(flowUtils)
      ensures flowUtils.values == values && flowUtils.Valid()
    {
      this.permission := permission;
      flowUtils := new IFlowUtils(values);
    }

    /** isTop(constant) == annoHasPermission(constant's qualifier). */
    method IsTop(q: FlowQual) returns (b: bool)
      requires flowUtils.Valid()
      modifies flowUtils
      ensures flowUtils.Valid()
      ensures b == SourceHasPermission(q, permission, AllPermissions(flowUtils.values))
    {
      if q.PolySource? {
        return true;
      }
      var sources := flowUtils.GetSources(Some(q));
      b := ANY_PERMISSION in sources.elements || permission in sources.elements;
    }
  }

  /** A sink serializer: its permission and its own IFlowUtils. */
  class SinkSerializer {
    const permission: PFPermission
    const flowUtils: IFlowUtils

    constructor(permission: PFPermission, values: set<FlowPermission>)
      ensures this.permission == permission && fresh(flowUtils)
      ensures flowUtils.values == values && flowUtils.Valid()
    {
      this.permission := permission;
      flowUtils := new IFlowUtils(values);
    }

    /** isTop(constant) == !annoHasPermission(constant's qualifier). */
    method IsTop(q: FlowQual) returns (b: bool)
      requires flowUtils.Valid()
      modifies flowUtils
      ensures flowUtils.Valid()
      ensures b == !SinkHasPermission(q, permission, AllPermissions(flowUtils.values))
    {
      var hasPermission: bool;
      if q.PolySink? {
        hasPermission := false;
      } else {
        var sinks := flowUtils.GetSinks(Some(q));
        hasPermission := ANY_PERMISSION in sinks.elements || permission in sinks.elements;
      }
      b := !hasPermission;
    }
  }
}
