/**
 * The CNF serializer of the Dataflow type system. One serializer is bound
 * to one Java type name and reads a constant as "top" when its qualifier
 * names that type (among its roots, in root mode). Constraints reach it
 * already serialized: CnfVecIntSerializer, which turns one constraint into
 * its clauses, is not part of this model, so each constraint is given as
 * the list of clauses its serialization produced.
 */
module DataflowSerializers {
  import opened Dataflow

  /** A SAT4J VecInt: one clause as a list of literals. */
  type Clause = seq<int>

  /** The non-empty clauses of one constraint, in order. */
  function NonEmpty(clauses: seq<Clause>): seq<Clause>
    decreases |clauses|
  {
    if |clauses| == 0 then []
    else
      var last := clauses[|clauses| - 1];
      NonEmpty(clauses[..|clauses| - 1]) + (if |last| != 0 then [last] else [])
  }

  /** The non-empty clauses of every constraint, constraint by constraint. */
  function AllNonEmpty(serialized: seq<seq<Clause>>): seq<Clause>
    decreases |serialized|
  {
    if |serialized| == 0 then []
    else AllNonEmpty(serialized[..|serialized| - 1]) + NonEmpty(serialized[|serialized| - 1])
  }

  /** A clause is kept iff it is non-empty and the constraint produced it. */
  lemma {:induction false} NonEmptyMembership(clauses: seq<Clause>, c: Clause)
    ensures c in NonEmpty(clauses) <==> c in clauses && |c| != 0
    decreases |clauses|
  {
    if |clauses| != 0 {
      var init := clauses[..|clauses| - 1];
      NonEmptyMembership(init, c);
      assert clauses == init + [clauses[|clauses| - 1]];
    }
  }

  /** Every kept clause is non-empty. */
  lemma {:induction false} NonEmptyAllNonEmpty(serialized: seq<seq<Clause>>)
    ensures forall k :: 0 <= k < |AllNonEmpty(serialized)| ==> |AllNonEmpty(serialized)[k]| != 0
    decreases |serialized|
  {
    if |serialized| != 0 {
      var init := serialized[..|serialized| - 1];
      var last := serialized[|serialized| - 1];
      NonEmptyAllNonEmpty(init);
      forall k | 0 <= k < |NonEmpty(last)|
        ensures |NonEmpty(last)[k]| != 0
      {
        NonEmptyMembership(last, NonEmpty(last)[k]);
      }
    }
  }

  /** A clause is kept iff it is non-empty and some constraint produced it. */
  lemma {:induction false} AllNonEmptyMembership(serialized: seq<seq<Clause>>, c: Clause)
    ensures c in AllNonEmpty(serialized) <==> |c| != 0 && exists i :: 0 <= i < |serialized| && c in serialized[i]
    decreases |serialized|
  {
    if |serialized| != 0 {
      var n := |serialized| - 1;
      var init := serialized[..n];
      AllNonEmptyMembership(init, c);
      NonEmptyMembership(serialized[n], c);
      if |c| != 0 && (exists i :: 0 <= i < |serialized| && c in serialized[i]) {
        var i :| 0 <= i < |serialized| && c in serialized[i];
        if i < n {
          assert init[i] == serialized[i];
        }
      }
      if exists i :: 0 <= i < |init| && c in init[i] {
        var i :| 0 <= i < |init| && c in init[i];
        assert serialized[i] == init[i];
      }
    }
  }

  /** Clauses keep the order of their constraints: the output of a list of constraints splits at any point. */
  lemma {:induction false} AllNonEmptyAppend(a: seq<seq<Clause>>, b: seq<seq<Clause>>)
    ensures AllNonEmpty(a + b) == AllNonEmpty(a) + AllNonEmpty(b)
    decreases |b|
  {
    if |b| != 0 {
      var n := |b| - 1;
      AllNonEmptyAppend(a, b[..n]);
      assert (a + b)[..|a + b| - 1] == a + b[..n];
      assert (a + b)[|a + b| - 1] == b[n];
    } else {
      assert a + b == a;
    }
  }

  /** The results list convertAll appends to. */
  class ClauseList {
    var clauses: seq<Clause>

    constructor(clauses: seq<Clause>)
      ensures this.clauses == clauses
    {
      this.clauses := clauses;
    }
  }

  class DataflowSerializer {
    const dataType: string
    const isRoot: bool

    constructor(dataType: string, isRoot: bool)
      ensures this.dataType == dataType && this.IsRoot() == isRoot
    {
      this.dataType := dataType;
      this.isRoot := isRoot;
    }

    function IsRoot(): bool
    {
      isRoot
    }

    /**
     * isTop(constant) == annoIsPresented(constant's qualifier): DataFlowTop
     * always; otherwise the serializer's type must be among the roots (root
     * mode) or the names. DataFlowInferenceBottom names no type.
     */
    function IsTop(anno: DataflowQual): (b: bool)
      ensures anno.DataFlowTop? ==> b
      ensures anno.DataFlowInferenceBottom? ==> !b
      ensures anno.DataFlow? && isRoot ==> (b <==> dataType in anno.typeNameRoots)
      ensures anno.DataFlow? && !isRoot ==> (b <==> dataType in anno.typeNames)
    {
      if anno.DataFlowTop? then true
      else
        var datatypes := if isRoot then Roots(anno) else Names(anno);
        dataType in datatypes
    }

    /**
     * Outside root mode, being top is closed upwards along the subtyping of
     * root-less qualifiers: a supertype names every type its subtype names.
     */
    lemma IsTopUpward(env: TypeEnv, a: DataflowQual, b: DataflowQual)
      requires !isRoot && Roots(a) == [] && Roots(b) == []
      requires IsSubtypeQual(env, a, b) && IsTop(a)
      ensures IsTop(b)
    {
      if a.DataFlow? && b.DataFlow? {
        RootlessSubtyping(env, a, b);
      }
    }

    /**
     * convertAll: appends every non-empty clause of every constraint, in
     * order, to the list passed in, and returns that same list.
     */
    method ConvertAll(serialized: seq<seq<Clause>>, results: ClauseList) returns (r: ClauseList)
      modifies results
      ensures r == results
      ensures results.clauses == old(results.clauses) + AllNonEmpty(serialized)
    {
      for i := 0 to |serialized|
        invariant results.clauses == old(results.clauses) + AllNonEmpty(serialized[..i])
      {
        assert serialized[..i + 1][..i] == serialized[..i];
        var constraintClauses := serialized[i];
        for j := 0 to |constraintClauses|
          invariant results.clauses == old(results.clauses) + AllNonEmpty(serialized[..i]) + NonEmpty(constraintClauses[..j])
        {
          assert constraintClauses[..j + 1][..j] == constraintClauses[..j];
          var res := constraintClauses[j];
          if |res| != 0 {
            results.clauses := results.clauses + [res];
          }
        }
        assert constraintClauses[..|constraintClauses|] == constraintClauses;
      }
      assert serialized[..|serialized|] == serialized;
      return results;
    }
  }
}
