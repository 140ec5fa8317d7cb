/**
 * InferenceQualifierHierarchy: a qualifier hierarchy over @VarAnnot that
 * records constraints instead of deciding them. Subtype checks become
 * subtype constraints; lub and glb become merge slots linked to their
 * operands by constraints, remembered in each operand's merged-to set.
 */
module InferenceHierarchy {
  import opened Wrappers
  import opened Slots
  import opened Constraints
  import opened SlotManagement

  predicate IsVarAnnot(a: Anno)
  {
    a.VarAnnot?
  }

  /** The annotation is present and a @VarAnnot. */
  predicate IsPresentVarAnnot(a: Option<Anno>)
  {
    a.Some? && a.value.VarAnnot?
  }

  /**
   * findVarAnnot: the first @VarAnnot among the annotations. In hack mode null
   * entries are skipped; otherwise asking whether a null entry is a @VarAnnot
   * throws NullPointerException.
   */
  function FindVarAnnot(annos: seq<Option<Anno>>, hack: bool): (r: Result<Option<Anno>>)
    ensures r.Success? && r.value.Some? ==>
              r.value.value.VarAnnot? && exists i | 0 <= i < |annos| :: annos[i] == r.value
    ensures r.Success? && r.value.None? ==> forall i | 0 <= i < |annos| :: !IsPresentVarAnnot(annos[i])
    ensures r.Failure? ==> r.error.NullPointer? && !hack && exists i | 0 <= i < |annos| :: annos[i].None?
    ensures hack ==> r.Success?
  {
    if |annos| == 0 then Success(None)
    else if annos[0].None? then
      if hack then FindVarAnnot(annos[1..], hack) else Failure(NullPointer("isVarAnnot(null)"))
    else if IsVarAnnot(annos[0].value) then Success(annos[0])
    else
      var r := FindVarAnnot(annos[1..], hack);
      assert r.Success? && r.value.Some? ==> annos[1..][0] in annos;
      r
  }

  /**
   * FindVarAnnot returns the FIRST @VarAnnot: every entry before it is a
   * present non-@VarAnnot (or, in hack mode, a null).
   */
  lemma {:induction false} FindVarAnnotIsFirst(annos: seq<Option<Anno>>, hack: bool, i: nat)
    requires i < |annos| && IsPresentVarAnnot(annos[i])
    requires forall j | 0 <= j < i :: annos[j].Some? || hack
    requires forall j | 0 <= j < i :: !IsPresentVarAnnot(annos[j])
    ensures FindVarAnnot(annos, hack) == Success(annos[i])
  {
    if i > 0 {
      FindVarAnnotIsFirst(annos[1..], hack, i - 1);
    }
  }

  /** findNonVarAnnot: the first annotation that is not a @VarAnnot; a null entry throws. */
  function FindNonVarAnnot(annos: seq<Option<Anno>>): (r: Result<Option<Anno>>)
    ensures r.Success? && r.value.Some? ==>
              !r.value.value.VarAnnot? && exists i | 0 <= i < |annos| :: annos[i] == r.value
    ensures r.Success? && r.value.None? ==> forall i | 0 <= i < |annos| :: IsPresentVarAnnot(annos[i])
    ensures r.Failure? ==> r.error.NullPointer? && exists i | 0 <= i < |annos| :: annos[i].None?
  {
    if |annos| == 0 then Success(None)
    else if annos[0].None? then Failure(NullPointer("isVarAnnot(null)"))
    else if !IsVarAnnot(annos[0].value) then Success(annos[0])
    else
      var r := FindNonVarAnnot(annos[1..]);
      assert r.Success? && r.value.Some? ==> annos[1..][0] in annos;
      r
  }

  /** Constraint c is the subtype constraint sub <: sup between the slots with ids x and y. */
  predicate IsSubtypeEdge(c: Constraint, x: nat, y: nat)
  {
    c.SubtypeConstraint? && c.subtype.Some? && c.supertype.Some?
    && c.subtype.value.id == x && c.supertype.value.id == y
  }

  /** The log holds a subtype constraint from slot x to slot y. */
  predicate Logged(log: seq<Constraint>, x: nat, y: nat)
  {
    exists k | 0 <= k < |log| :: IsSubtypeEdge(log[k], x, y)
  }

  /**
   * The result r bounds operand x as a lub (x <: r) or as a glb (r <: x): it is
   * x itself, or the log says so.
   */
  predicate Bound(log: seq<Constraint>, x: nat, r: nat, isLub: bool)
  {
    x == r || (if isLub then Logged(log, x, r) else Logged(log, r, x))
  }

  /** The log holds the two edges that tie merge slot m to s1 and s2. */
  predicate EdgesLogged(log: seq<Constraint>, s1: Slot, s2: Slot, m: Slot, isLub: bool)
  {
    if isLub then Logged(log, s1.id, m.id) && Logged(log, s2.id, m.id)
    else Logged(log, m.id, s1.id) && Logged(log, m.id, s2.id)
  }

  /** Appending the merge edges of a new slot logs them. */
  lemma MergeEdgesLogged(log: seq<Constraint>, s1: Slot, s2: Slot, m: Slot, isLub: bool)
    ensures EdgesLogged(log + MergeEdges(s1, s2, m, isLub), s1, s2, m, isLub)
  {
    var log' := log + MergeEdges(s1, s2, m, isLub);
    assert log'[|log|] == MergeEdges(s1, s2, m, isLub)[0];
    assert log'[|log| + 1] == MergeEdges(s1, s2, m, isLub)[1];
  }

  /** The two edges logged for a new merge slot make it a bound of both operands. */
  lemma MergeEdgesBound(log: seq<Constraint>, s1: Slot, s2: Slot, m: Slot, isLub: bool)
    ensures Bound(log + MergeEdges(s1, s2, m, isLub), s1.id, m.id, isLub)
    ensures Bound(log + MergeEdges(s1, s2, m, isLub), s2.id, m.id, isLub)
  {
    MergeEdgesLogged(log, s1, s2, m, isLub);
  }

  /**
   * What merge relies on about merged-to sets: a slot a merged into a lub slot m
   * has a <: m in the log, and one merged into a glb slot m has m <: a.
   */
  predicate MergeLogged(slots: map<nat, Slot>, c: Caches, mergedTo: map<nat, set<nat>>, log: seq<Constraint>)
  {
    forall a, m | a in mergedTo && m in mergedTo[a] ::
      m in slots && (if IsLubSlot(c, slots[m]) then Logged(log, a, m) else Logged(log, m, a))
  }

  lemma LoggedKept(log: seq<Constraint>, log': seq<Constraint>, x: nat, y: nat)
    requires Logged(log, x, y) && log <= log'
    ensures Logged(log', x, y)
  {
    var k :| 0 <= k < |log| && IsSubtypeEdge(log[k], x, y);
    assert log'[k] == log[k];
  }

  lemma LoggedLast(log: seq<Constraint>, c: Constraint, x: nat, y: nat)
    requires IsSubtypeEdge(c, x, y)
    ensures Logged(log + [c], x, y)
  {
    assert (log + [c])[|log|] == c;
  }

  /** Stored slots that keep their value and kind, and a log that only grows, keep MergeLogged. */
  lemma MergeLoggedKept(slots: map<nat, Slot>, c: Caches, mergedTo: map<nat, set<nat>>, log: seq<Constraint>,
                        slots': map<nat, Slot>, c': Caches, log': seq<Constraint>)
    requires MergeLogged(slots, c, mergedTo, log)
    requires forall m | m in slots :: m in slots' && slots'[m] == slots[m]
    requires forall m | m in slots :: IsLubSlot(c', slots[m]) == IsLubSlot(c, slots[m])
    requires log <= log'
    ensures MergeLogged(slots', c', mergedTo, log')
  {
    forall a, m | a in mergedTo && m in mergedTo[a]
      ensures m in slots' && (if IsLubSlot(c', slots'[m]) then Logged(log', a, m) else Logged(log', m, a))
    {
      if IsLubSlot(c, slots[m]) {
        LoggedKept(log, log', a, m);
      } else {
        LoggedKept(log, log', m, a);
      }
    }
  }

  /** A merge slot recorded in the glb cache is not a lub slot. */
  lemma GlbSlotIsNotLub(nextId: nat, slots: map<nat, Slot>, c: Caches, m: Slot)
    requires StoreValid(nextId, slots, c) && m.LubVariableSlot?
    requires (m.left, m.right) in c.glbs && c.glbs[(m.left, m.right)] == m.id
    ensures !IsLubSlot(c, m)
  {
    LubAndGlbDisjoint(nextId, slots, c, m.id);
  }

  /** A store that is unchanged, or that gained one registered slot, keeps MergeLogged. */
  lemma StoreGrowthKeepsMergeLogged(n0: nat, slots0: map<nat, Slot>, c0: Caches, mergedTo: map<nat, set<nat>>,
                                    log: seq<Constraint>, slots1: map<nat, Slot>, c1: Caches,
                                    name: CacheName, s: Slot)
    requires StoreValid(n0, slots0, c0) && MergeLogged(slots0, c0, mergedTo, log)
    requires KeptOrGrew(n0, slots0, c0, slots1, c1, name, s)
    ensures MergeLogged(slots1, c1, mergedTo, log)
  {
    if slots1 != slots0 || c1 != c0 {
      RegisterKeepsKinds(n0, slots0, c0, name, s);
    }
    MergeLoggedKept(slots0, c0, mergedTo, log, slots1, c1, log);
  }

  /** Recording slot a as merged into m keeps MergeLogged once the log has the matching edge. */
  lemma MergeLoggedAdd(slots: map<nat, Slot>, c: Caches, mergedTo: map<nat, set<nat>>, log: seq<Constraint>,
                       a: nat, m: nat)
    requires MergeLogged(slots, c, mergedTo, log) && m in slots
    requires if IsLubSlot(c, slots[m]) then Logged(log, a, m) else Logged(log, m, a)
    ensures MergeLogged(slots, c, mergedTo[a := MergedTo(mergedTo, a) + {m}], log)
  {
  }

  /** The constraints merge emits for a new merge slot m: s1, s2 <: m for a lub, m <: s1, s2 for a glb. */
  function MergeEdges(s1: Slot, s2: Slot, m: Slot, isLub: bool): (cs: seq<Constraint>)
    ensures |cs| == 2
    ensures isLub ==> IsSubtypeEdge(cs[0], s1.id, m.id) && IsSubtypeEdge(cs[1], s2.id, m.id)
    ensures !isLub ==> IsSubtypeEdge(cs[0], m.id, s1.id) && IsSubtypeEdge(cs[1], m.id, s2.id)
  {
    if isLub then [SubtypeConstraint(Some(s1), Some(m)), SubtypeConstraint(Some(s2), Some(m))]
    else [SubtypeConstraint(Some(m), Some(s1)), SubtypeConstraint(Some(m), Some(s2))]
  }

  /** The merged-to sets once m is added to those of a and b. */
  function LinkMerged(mergedTo: map<nat, set<nat>>, a: nat, b: nat, m: nat): (mt: map<nat, set<nat>>)
    ensures m in MergedTo(mt, a) && m in MergedTo(mt, b)
    ensures forall x | x != a && x != b :: MergedTo(mt, x) == MergedTo(mergedTo, x)
    ensures MergedTo(mt, a) == MergedTo(mergedTo, a) + {m}
    ensures MergedTo(mt, b) == MergedTo(mergedTo, b) + {m}
  {
    var mt1 := mergedTo[a := MergedTo(mergedTo, a) + {m}];
    mt1[b := MergedTo(mt1, b) + {m}]
  }

  /** What merge does before it looks at merged-to sets. */
  datatype MergeStep =
    | Done(result: Result<Option<Anno>>)
    | Fold(value: Qual)
    | Variables(slot1: Slot, slot2: Slot)

  /** The store's answer to getSlot of an annotation that is a @VarAnnot. */
  function VarAnnotSlot(sm: DefaultSlotManager, a: Anno): (r: Option<Slot>)
    reads sm
    requires sm.Valid() && a.VarAnnot?
    ensures r.Some? ==> a.value == Some(r.value.id) && Stored(sm.slots, r.value)
    ensures r.None? <==> a.value.None? || !(1 <= a.value.value < sm.nextId)
  {
    if a.value.None? then None else sm.GetSlot(a.value.value)
  }

  /** The slot id a @VarAnnot answer carries; 0, which is never a slot id, for any other answer. */
  function AnswerId(r: Result<Option<Anno>>): (id: nat)
    ensures id > 0 ==> r == Success(Some(VarAnnot(Some(id))))
  {
    if r.Success? && r.value.Some? && r.value.value.VarAnnot? && r.value.value.value.Some? && r.value.value.value.value > 0
    then r.value.value.value.value else 0
  }

  /**
   * The value of the constant slot getSlot finds for real qualifier q: q itself,
   * or, in hack mode, the first real top for a qualifier of an unknown class.
   */
  predicate ResolvesTo(sm: DefaultSlotManager, q: Qual, v: Qual, hack: bool)
  {
    v == q || (hack && q.annoClass !in sm.realQualifiers && sm.hierarchy.tops != [] && v == sm.hierarchy.tops[0])
  }

  class InferenceQualifierHierarchy {
    const slotMgr: DefaultSlotManager
    const constraintMgr: ConstraintManager

    ghost predicate Valid()
      reads this, slotMgr, constraintMgr
    {
      slotMgr.Valid() && slotMgr.hierarchy.Distinct()
      && MergeLogged(slotMgr.slots, slotMgr.caches, slotMgr.mergedTo, constraintMgr.constraints)
    }

    constructor (slotMgr: DefaultSlotManager, constraintMgr: ConstraintManager)
      requires slotMgr.Valid() && slotMgr.hierarchy.Distinct() && slotMgr.mergedTo == map[]
      ensures Valid() && this.slotMgr == slotMgr && this.constraintMgr == constraintMgr
    {
      this.slotMgr := slotMgr;
      this.constraintMgr := constraintMgr;
    }

    /** Every stored slot is still stored, unchanged. */
    twostate predicate SlotsKept()
      reads this, slotMgr
    {
      forall i | i in old(slotMgr.slots) :: i in slotMgr.slots && slotMgr.slots[i] == old(slotMgr.slots)[i]
    }

    /** The slot manager and the log changed only by appending to the log. */
    twostate predicate OnlyLogGrew()
      reads this, slotMgr, constraintMgr
    {
      slotMgr.nextId == old(slotMgr.nextId) && slotMgr.slots == old(slotMgr.slots)
      && slotMgr.caches == old(slotMgr.caches) && slotMgr.mergedTo == old(slotMgr.mergedTo)
      && old(constraintMgr.constraints) <= constraintMgr.constraints
    }

    /**
     * isSubtype(subtype, supertype) on single annotations: a null or non-@VarAnnot
     * argument gives true in hack mode and BugInCF otherwise; a @VarAnnot supertype
     * without an id gives true; otherwise the answer of
     * addSubtypeConstraintNoErrorMsg on the two slots (true unless both are
     * constants, whose real relation is then checked without a constraint).
     */
    twostate predicate SubtypeAnswered(subtype: Option<Anno>, supertype: Option<Anno>, hack: bool, new r: Result<bool>)
      reads this, slotMgr, constraintMgr
      requires slotMgr.Valid()
    {
      (!(IsPresentVarAnnot(subtype) && IsPresentVarAnnot(supertype)) ==>
         constraintMgr.constraints == old(constraintMgr.constraints)
         && (if hack then r == Success(true) else r.Failure? && r.error.BugInCF?))
      && (IsPresentVarAnnot(subtype) && IsPresentVarAnnot(supertype) && supertype.value.value.None? ==>
            r == Success(true) && constraintMgr.constraints == old(constraintMgr.constraints))
      && (IsPresentVarAnnot(subtype) && IsPresentVarAnnot(supertype) && supertype.value.value.Some? ==>
            var sub := VarAnnotSlot(slotMgr, subtype.value);
            var sup := VarAnnotSlot(slotMgr, supertype.value);
            if sub.None? || sup.None? then
              r.Failure? && r.error.NullPointer? && constraintMgr.constraints == old(constraintMgr.constraints)
            else if sub.value.ConstantSlot? && sup.value.ConstantSlot? then
              r == Success(constraintMgr.hierarchy.isSubtype(sub.value.value, sup.value.value))
              && constraintMgr.constraints == old(constraintMgr.constraints)
            else
              r == Success(true)
              && constraintMgr.constraints == old(constraintMgr.constraints) + [SubtypeConstraint(sub, sup)])
    }

    /** isSubtype on single annotations. */
    method IsSubtype(subtype: Option<Anno>, supertype: Option<Anno>, hack: bool) returns (r: Result<bool>)
      requires Valid()
      modifies constraintMgr
      ensures Valid() && OnlyLogGrew()
      ensures SubtypeAnswered(subtype, supertype, hack, r)
    {
      if !(IsPresentVarAnnot(subtype) && IsPresentVarAnnot(supertype)) {
        if hack {
          return Success(true);
        }
        return Failure(BugInCF("Unexpected arguments for isSubtype"));
      }
      if supertype.value.value.None? {
        return Success(true);
      }
      var sub := VarAnnotSlot(slotMgr, subtype.value);
      var sup := VarAnnotSlot(slotMgr, supertype.value);
      if sub.None? || sup.None? {
        return Failure(NullPointer("subtype constraint on a null slot"));
      }
      ghost var log := constraintMgr.constraints;
      var holds := constraintMgr.AddSubtypeConstraintNoErrorMsg(sub.value, sup.value);
      MergeLoggedKept(slotMgr.slots, slotMgr.caches, slotMgr.mergedTo, log,
                      slotMgr.slots, slotMgr.caches, constraintMgr.constraints);
      r := Success(holds);
    }

    /**
     * isSubtype on the annotation collections of two types: the @VarAnnot of each
     * side is compared; in hack mode a side without one makes the answer true,
     * otherwise a missing one fails the source's assertion.
     */
    method IsSubtypeCollections(rhsAnnos: seq<Option<Anno>>, lhsAnnos: seq<Option<Anno>>, hack: bool)
      returns (r: Result<bool>)
      requires Valid()
      modifies constraintMgr
      ensures Valid() && OnlyLogGrew()
      ensures FindVarAnnot(rhsAnnos, hack).Failure? ==> r == FindVarAnnot(rhsAnnos, hack).PropagateFailure()
      ensures FindVarAnnot(rhsAnnos, hack).Success? && FindVarAnnot(lhsAnnos, hack).Failure? ==>
                r == FindVarAnnot(lhsAnnos, hack).PropagateFailure()
      ensures FindVarAnnot(rhsAnnos, hack).Success? && FindVarAnnot(lhsAnnos, hack).Success? ==>
                var rhs := FindVarAnnot(rhsAnnos, hack).value;
                var lhs := FindVarAnnot(lhsAnnos, hack).value;
                (rhs.None? || lhs.None? ==>
                   constraintMgr.constraints == old(constraintMgr.constraints)
                   && (if hack then r == Success(true) else r.Failure? && r.error.AssertionError?))
                && (rhs.Some? && lhs.Some? ==> SubtypeAnswered(rhs, lhs, hack, r))
    {
      var rhs :- FindVarAnnot(rhsAnnos, hack);
      var lhs :- FindVarAnnot(lhsAnnos, hack);
      if hack && (rhs.None? || lhs.None?) {
        return Success(true);
      }
      if rhs.None? || lhs.None? {
        return Failure(AssertionError("All types should have exactly 1 VarAnnot!"));
      }
      r := IsSubtype(rhs, lhs, hack);
    }

    /**
     * The part of merge before merged-to sets: null and non-@VarAnnot arguments,
     * the same slot twice, and two constants (folded through the real lub or glb).
     * A null slot met on the way throws NullPointerException.
     */
    function ClassifyMerge(a1: Option<Anno>, a2: Option<Anno>, isLub: bool, hack: bool): (step: MergeStep)
      reads this, slotMgr
      requires slotMgr.Valid()
      ensures (a1.None? || a2.None?) ==>
                step.Done? && (hack ==> step.result == Success(if a1.Some? then a1 else a2))
                && (!hack ==> step.result.Failure? && step.result.error.BugInCF?)
      ensures a1.Some? && a2.Some? && !(a1.value.VarAnnot? && a2.value.VarAnnot?) ==>
                step.Done? && (step.result.Failure? <==> !hack)
                && (hack && !a1.value.VarAnnot? && !a2.value.VarAnnot? ==>
                      step.result == Success(Some(RealAnno(
                        if isLub then slotMgr.hierarchy.lub(a1.value.qual, a2.value.qual)
                        else slotMgr.hierarchy.glb(a1.value.qual, a2.value.qual)))))
                && (hack && (a1.value.VarAnnot? || a2.value.VarAnnot?) ==> step.result == Success(None))
      ensures step.Fold? ==>
                exists s1: Slot, s2: Slot :: s1.ConstantSlot? && s2.ConstantSlot? && s1.id != s2.id
                  && Stored(slotMgr.slots, s1) && Stored(slotMgr.slots, s2)
                  && a1 == Some(VarAnnot(Some(s1.id))) && a2 == Some(VarAnnot(Some(s2.id)))
                  && step.value == (if isLub then slotMgr.hierarchy.lub(s1.value, s2.value)
                                    else slotMgr.hierarchy.glb(s1.value, s2.value))
      ensures step.Variables? ==>
                Stored(slotMgr.slots, step.slot1) && Stored(slotMgr.slots, step.slot2)
                && step.slot1.id != step.slot2.id && !(step.slot1.ConstantSlot? && step.slot2.ConstantSlot?)
                && a1 == Some(VarAnnot(Some(step.slot1.id))) && a2 == Some(VarAnnot(Some(step.slot2.id)))
      ensures IsPresentVarAnnot(a1) && IsPresentVarAnnot(a2) ==>
                var s1 := VarAnnotSlot(slotMgr, a1.value);
                var s2 := VarAnnotSlot(slotMgr, a2.value);
                (s1.Some? && s1 == s2 ==> step == Done(Success(Some(GetAnnotation(s1.value)))))
                && (s1.None? || s2.None? ==> step.Done? && step.result.Failure? && step.result.error.NullPointer?)
    {
      if a1.None? || a2.None? then
        if !hack then Done(Failure(BugInCF("merge accepts only NonNull types!")))
        else Done(Success(if a1.Some? then a1 else a2))
      else if !(IsVarAnnot(a1.value) && IsVarAnnot(a2.value)) then
        if !hack then Done(Failure(BugInCF("merge accepts only VarAnnot types!")))
        else if !IsVarAnnot(a1.value) && !IsVarAnnot(a2.value) then
          Done(Success(Some(RealAnno(if isLub then slotMgr.hierarchy.lub(a1.value.qual, a2.value.qual)
                                     else slotMgr.hierarchy.glb(a1.value.qual, a2.value.qual)))))
        else Done(Success(None))
      else
        var s1 := VarAnnotSlot(slotMgr, a1.value);
        var s2 := VarAnnotSlot(slotMgr, a2.value);
        if s1 == s2 then
          if s1.None? then Done(Failure(NullPointer("getAnnotation(null)")))
          else Done(Success(Some(GetAnnotation(s1.value))))
        else if s1.Some? && s2.Some? && s1.value.ConstantSlot? && s2.value.ConstantSlot? then
          Fold(if isLub then slotMgr.hierarchy.lub(s1.value.value, s2.value.value)
               else slotMgr.hierarchy.glb(s1.value.value, s2.value.value))
        else if s1.None? || s2.None? then Done(Failure(NullPointer("getMergedToSlots of a null slot")))
        else Variables(s1.value, s2.value)
    }

    /**
     * getOneIntersected: an element common to both sets, or null when they are
     * disjoint; the source asserts that at most one element is common.
     */
    static method GetOneIntersected(set1: set<nat>, set2: set<nat>) returns (r: Result<Option<nat>>)
      ensures r.Failure? <==> |set1 * set2| > 1
      ensures r.Failure? ==> r.error.AssertionError?
      ensures r.Success? ==> (r.value.None? <==> set1 * set2 == {})
      ensures r.Success? && r.value.Some? ==> set1 * set2 == {r.value.value}
    {
      var result: Option<nat> := None;
      var intersectionSize := 0;
      var rest := set1;
      ghost var done: set<nat> := {};
      while rest != {}
        invariant done + rest == set1 && done !! rest
        invariant intersectionSize == |done * set2|
        invariant result.None? <==> intersectionSize == 0
        invariant result.Some? ==> result.value in done && result.value in set2
        decreases |rest|
      {
        var x :| x in rest;
        if x in set2 {
          intersectionSize := intersectionSize + 1;
          if result.None? {
            result := Some(x);
          }
          assert (done + {x}) * set2 == done * set2 + {x};
        } else {
          assert (done + {x}) * set2 == done * set2;
        }
        rest := rest - {x};
        done := done + {x};
      }
      if intersectionSize > 1 {
        return Failure(AssertionError("intersectionSize <= 1"));
      }
      assert done == set1;
      if result.Some? {
        OneElementSet(set1 * set2, result.value);
      } else {
        assert |set1 * set2| == 0;
      }
      r := Success(result);
    }

    /** The merge slot of two variables, its two constraints, and the merged-to links. */
    method CreateMerge(s1: Slot, s2: Slot, isLub: bool) returns (m: Slot)
      requires Valid() && Stored(slotMgr.slots, s1) && Stored(slotMgr.slots, s2)
      modifies slotMgr, constraintMgr
      ensures Valid() && SlotsKept()
      ensures m.LubVariableSlot? && m.left == s1.id && m.right == s2.id && Stored(slotMgr.slots, m)
      ensures IsLubSlot(slotMgr.caches, m) == isLub
      ensures constraintMgr.constraints == old(constraintMgr.constraints) + MergeEdges(s1, s2, m, isLub)
      ensures slotMgr.mergedTo == LinkMerged(old(slotMgr.mergedTo), s1.id, s2.id, m.id)
    {
      m := NewMergeSlot(s1, s2, isLub);
      RecordMerge(s1, s2, m, isLub);
    }

    /** The constraints of a new merge slot, then the merged-to links to it. */
    method RecordMerge(s1: Slot, s2: Slot, m: Slot, isLub: bool)
      requires Valid() && Stored(slotMgr.slots, m) && m.LubVariableSlot? && IsLubSlot(slotMgr.caches, m) == isLub
      modifies slotMgr`mergedTo, constraintMgr
      ensures Valid()
      ensures constraintMgr.constraints == old(constraintMgr.constraints) + MergeEdges(s1, s2, m, isLub)
      ensures slotMgr.mergedTo == LinkMerged(old(slotMgr.mergedTo), s1.id, s2.id, m.id)
    {
      LogMerge(s1, s2, m, isLub);
      LinkMerge(s1, s2, m, isLub);
    }

    /**
     * createLubMergeVariableSlot or createGlbMergeVariableSlot, keeping the merge
     * invariant; both are createMergeVariableSlot with the lub flag set or clear.
     */
    method NewMergeSlot(s1: Slot, s2: Slot, isLub: bool) returns (m: Slot)
      requires Valid()
      modifies slotMgr
      ensures Valid()
      ensures m.LubVariableSlot? && m.left == s1.id && m.right == s2.id && Stored(slotMgr.slots, m)
      ensures IsLubSlot(slotMgr.caches, m) == isLub
      ensures SlotsKept()
      ensures slotMgr.mergedTo == old(slotMgr.mergedTo)
    {
      ghost var slots0, caches0, next0 := slotMgr.slots, slotMgr.caches, slotMgr.nextId;
      m := slotMgr.CreateMergeVariableSlot(s1, s2, isLub);
      StoreGrowthKeepsMergeLogged(next0, slots0, caches0, slotMgr.mergedTo, constraintMgr.constraints,
                                  slotMgr.slots, slotMgr.caches, if isLub then LubCache else GlbCache, m);
      if !isLub {
        GlbSlotIsNotLub(slotMgr.nextId, slotMgr.slots, slotMgr.caches, m);
      }
    }

    /** The two subtype constraints that tie a new merge slot to its operands. */
    method LogMerge(s1: Slot, s2: Slot, m: Slot, isLub: bool)
      requires Valid() && !m.ConstantSlot?
      modifies constraintMgr
      ensures Valid()
      ensures constraintMgr.constraints == old(constraintMgr.constraints) + MergeEdges(s1, s2, m, isLub)
      ensures EdgesLogged(constraintMgr.constraints, s1, s2, m, isLub)
    {
      ghost var log0 := constraintMgr.constraints;
      if isLub {
        constraintMgr.AddSubtypeConstraint(s1, m);
        constraintMgr.AddSubtypeConstraint(s2, m);
      } else {
        constraintMgr.AddSubtypeConstraint(m, s1);
        constraintMgr.AddSubtypeConstraint(m, s2);
      }
      MergeLoggedKept(slotMgr.slots, slotMgr.caches, slotMgr.mergedTo, log0,
                      slotMgr.slots, slotMgr.caches, constraintMgr.constraints);
      MergeEdgesLogged(log0, s1, s2, m, isLub);
    }

    /** addMergedToSlot on both operands. */
    method LinkMerge(s1: Slot, s2: Slot, m: Slot, isLub: bool)
      requires Valid() && Stored(slotMgr.slots, m) && m.LubVariableSlot? && IsLubSlot(slotMgr.caches, m) == isLub
      requires EdgesLogged(constraintMgr.constraints, s1, s2, m, isLub)
      modifies slotMgr`mergedTo
      ensures Valid()
      ensures slotMgr.mergedTo == LinkMerged(old(slotMgr.mergedTo), s1.id, s2.id, m.id)
    {
      var log := constraintMgr.constraints;
      MergeLoggedAdd(slotMgr.slots, slotMgr.caches, slotMgr.mergedTo, log, s1.id, m.id);
      slotMgr.AddMergedToSlot(s1.id, m);
      MergeLoggedAdd(slotMgr.slots, slotMgr.caches, slotMgr.mergedTo, log, s2.id, m.id);
      slotMgr.AddMergedToSlot(s2.id, m);
    }

    /**
     * merge on two distinct variable slots, as written: a merge slot common to
     * both merged-to sets is returned whatever its kind; otherwise, if one
     * operand is in the other's merged-to set, that operand is returned whatever
     * its kind; otherwise a new merge slot is created.
     */
    method MergeVariables(s1: Slot, s2: Slot, isLub: bool) returns (r: Result<Slot>)
      requires Valid() && Stored(slotMgr.slots, s1) && Stored(slotMgr.slots, s2) && s1.id != s2.id
      modifies slotMgr, constraintMgr
      ensures Valid() && SlotsKept()
      ensures r.Success? ==> Stored(slotMgr.slots, r.value)
      ensures var common := MergedTo(old(slotMgr.mergedTo), s1.id) * MergedTo(old(slotMgr.mergedTo), s2.id);
              (|common| > 1 ==> r.Failure? && r.error.AssertionError? && OnlyLogGrew()
                                && constraintMgr.constraints == old(constraintMgr.constraints))
              && (|common| == 1 ==> r.Success? && common == {r.value.id} && OnlyLogGrew()
                                    && constraintMgr.constraints == old(constraintMgr.constraints))
              && (common == {} && s2.id in MergedTo(old(slotMgr.mergedTo), s1.id) ==>
                    r == Success(s2) && OnlyLogGrew() && constraintMgr.constraints == old(constraintMgr.constraints))
              && (common == {} && s2.id !in MergedTo(old(slotMgr.mergedTo), s1.id)
                  && s1.id in MergedTo(old(slotMgr.mergedTo), s2.id) ==>
                    r == Success(s1) && OnlyLogGrew() && constraintMgr.constraints == old(constraintMgr.constraints))
              && (common == {} && s2.id !in MergedTo(old(slotMgr.mergedTo), s1.id)
                  && s1.id !in MergedTo(old(slotMgr.mergedTo), s2.id) ==>
                    r.Success? && r.value.LubVariableSlot? && r.value.left == s1.id && r.value.right == s2.id
                    && IsLubSlot(slotMgr.caches, r.value) == isLub
                    && constraintMgr.constraints == old(constraintMgr.constraints) + MergeEdges(s1, s2, r.value, isLub)
                    && slotMgr.mergedTo == LinkMerged(old(slotMgr.mergedTo), s1.id, s2.id, r.value.id))
      ensures r.Success? && IsLubSlot(slotMgr.caches, r.value) == isLub ==>
                Bound(constraintMgr.constraints, s1.id, r.value.id, isLub)
                && Bound(constraintMgr.constraints, s2.id, r.value.id, isLub)
    {
      var log := constraintMgr.constraints;
      var common := GetOneIntersected(MergedTo(slotMgr.mergedTo, s1.id), MergedTo(slotMgr.mergedTo, s2.id));
      if common.Failure? {
        return Failure(common.error);
      }
      if common.value.Some? {
        var m := common.value.value;
        assert m in slotMgr.mergedTo[s1.id];
        return Success(slotMgr.slots[m]);
      }
      if s2.id in MergedTo(slotMgr.mergedTo, s1.id) {
        return Success(s2);
      }
      if s1.id in MergedTo(slotMgr.mergedTo, s2.id) {
        return Success(s1);
      }
      var m := CreateMerge(s1, s2, isLub);
      MergeEdgesBound(log, s1, s2, m, isLub);
      r := Success(m);
    }

    /**
     * merge on two distinct variable slots, counting a merged-to slot only when
     * it is of the requested kind: a common merge slot of that kind is returned;
     * if one operand was merged into the other, the lower one is the glb and the
     * upper one the lub; otherwise a new merge slot is created.
     */
    method MergeVariablesByKind(s1: Slot, s2: Slot, isLub: bool) returns (r: Result<Slot>)
      requires Valid() && Stored(slotMgr.slots, s1) && Stored(slotMgr.slots, s2) && s1.id != s2.id
      modifies slotMgr, constraintMgr
      ensures Valid() && SlotsKept()
      ensures r.Success? ==> Stored(slotMgr.slots, r.value)
      ensures r.Success? ==> Bound(constraintMgr.constraints, s1.id, r.value.id, isLub)
                             && Bound(constraintMgr.constraints, s2.id, r.value.id, isLub)
      ensures r.Failure? ==> r.error.AssertionError? && OnlyLogGrew()
                             && constraintMgr.constraints == old(constraintMgr.constraints)
    {
      var set1 := set m | m in MergedTo(slotMgr.mergedTo, s1.id) && m in slotMgr.slots
                              && IsLubSlot(slotMgr.caches, slotMgr.slots[m]) == isLub;
      var set2 := set m | m in MergedTo(slotMgr.mergedTo, s2.id) && m in slotMgr.slots
                              && IsLubSlot(slotMgr.caches, slotMgr.slots[m]) == isLub;
      var common := GetOneIntersected(set1, set2);
      if common.Failure? {
        return Failure(common.error);
      }
      var log := constraintMgr.constraints;
      if common.value.Some? {
        var m := common.value.value;
        assert m in set1 * set2;
        assert m in slotMgr.mergedTo[s1.id] && m in slotMgr.mergedTo[s2.id];
        return Success(slotMgr.slots[m]);
      }
      if s2.id in MergedTo(slotMgr.mergedTo, s1.id) {
        assert s2.id in slotMgr.mergedTo[s1.id];
        if IsLubSlot(slotMgr.caches, s2) == isLub {
          return Success(s2);
        }
        return Success(s1);
      }
      if s1.id in MergedTo(slotMgr.mergedTo, s2.id) {
        assert s1.id in slotMgr.mergedTo[s2.id];
        if IsLubSlot(slotMgr.caches, s1) == isLub {
          return Success(s1);
        }
        return Success(s2);
      }
      var m := CreateMerge(s1, s2, isLub);
      MergeEdgesBound(log, s1, s2, m, isLub);
      r := Success(m);
    }

    /**
     * What createConstantSlot does to the store for a folded qualifier q whose
     * slot is id: a cached q leaves the store as it was; otherwise exactly one
     * new constant slot of q is added under the next id. No variable slot is
     * created and no merged-to set changes.
     */
    twostate predicate ConstantFolded(q: Qual, id: nat)
      reads this, slotMgr
    {
      (q in old(slotMgr.caches.constants) ==> slotMgr.Unchanged() && id == old(slotMgr.caches.constants)[q])
      && (q !in old(slotMgr.caches.constants) ==> slotMgr.AddedFresh(ConstantSlot(id, q), ConstantCache))
    }

    /** What merge answers, and how it changes the store, for the Done and Fold steps of ClassifyMerge. */
    twostate predicate EarlyMergeAnswered(step: MergeStep, new r: Result<Option<Anno>>)
      reads this, slotMgr, constraintMgr
      requires slotMgr.Valid()
    {
      (step.Done? ==> r == step.result && OnlyLogGrew() && constraintMgr.constraints == old(constraintMgr.constraints))
      && (step.Fold? ==> r == Success(Some(VarAnnot(Some(AnswerId(r)))))
                         && VarAnnotSlot(slotMgr, r.value.value) == Some(ConstantSlot(AnswerId(r), step.value))
                         && ConstantFolded(step.value, AnswerId(r))
                         && constraintMgr.constraints == old(constraintMgr.constraints))
    }

    /**
     * What merge as written answers for two distinct variable slots, as
     * MergeVariables decides it: the common merge slot, the operand already
     * merged into the other, or a new merge slot with its constraints and links.
     */
    twostate predicate VariablesMerged(s1: Slot, s2: Slot, isLub: bool, new r: Result<Option<Anno>>)
      reads this, slotMgr, constraintMgr
    {
      var mt := old(slotMgr.mergedTo);
      var common := MergedTo(mt, s1.id) * MergedTo(mt, s2.id);
      SlotsKept()
      && (|common| > 1 ==> r.Failure? && r.error.AssertionError? && OnlyLogGrew()
                           && constraintMgr.constraints == old(constraintMgr.constraints))
      && (|common| == 1 ==> r == Success(Some(VarAnnot(Some(AnswerId(r))))) && common == {AnswerId(r)}
                            && OnlyLogGrew() && constraintMgr.constraints == old(constraintMgr.constraints))
      && (common == {} && s2.id in MergedTo(mt, s1.id) ==>
            r == Success(Some(GetAnnotation(s2))) && OnlyLogGrew()
            && constraintMgr.constraints == old(constraintMgr.constraints))
      && (common == {} && s2.id !in MergedTo(mt, s1.id) && s1.id in MergedTo(mt, s2.id) ==>
            r == Success(Some(GetAnnotation(s1))) && OnlyLogGrew()
            && constraintMgr.constraints == old(constraintMgr.constraints))
      && (common == {} && s2.id !in MergedTo(mt, s1.id) && s1.id !in MergedTo(mt, s2.id) ==>
            AnswerId(r) in slotMgr.slots
            && var m := slotMgr.slots[AnswerId(r)];
            r == Success(Some(GetAnnotation(m)))
            && m.LubVariableSlot? && m.left == s1.id && m.right == s2.id
            && IsLubSlot(slotMgr.caches, m) == isLub
            && constraintMgr.constraints == old(constraintMgr.constraints) + MergeEdges(s1, s2, m, isLub)
            && slotMgr.mergedTo == LinkMerged(mt, s1.id, s2.id, m.id))
      && (AnswerId(r) in slotMgr.slots && IsLubSlot(slotMgr.caches, slotMgr.slots[AnswerId(r)]) == isLub ==>
            Bound(constraintMgr.constraints, s1.id, AnswerId(r), isLub)
            && Bound(constraintMgr.constraints, s2.id, AnswerId(r), isLub))
    }

    /**
     * What merge with merged-to slots counted by kind answers for two distinct
     * variable slots: a slot the log bounds both operands by.
     */
    twostate predicate VariablesBounded(s1: Slot, s2: Slot, isLub: bool, new r: Result<Option<Anno>>)
      reads this, slotMgr, constraintMgr
    {
      SlotsKept()
      && (r.Success? ==> r == Success(Some(VarAnnot(Some(AnswerId(r)))))
                         && Bound(constraintMgr.constraints, s1.id, AnswerId(r), isLub)
                         && Bound(constraintMgr.constraints, s2.id, AnswerId(r), isLub))
      && (r.Failure? ==> r.error.AssertionError? && OnlyLogGrew()
                         && constraintMgr.constraints == old(constraintMgr.constraints))
    }

    /**
     * merge, as written: the steps of ClassifyMerge, then the constant slot of
     * the folded real qualifier or MergeVariables.
     */
    method Merge(a1: Option<Anno>, a2: Option<Anno>, isLub: bool, hack: bool) returns (r: Result<Option<Anno>>)
      requires Valid()
      modifies slotMgr, constraintMgr
      ensures Valid()
      ensures EarlyMergeAnswered(old(ClassifyMerge(a1, a2, isLub, hack)), r)
      ensures var step := old(ClassifyMerge(a1, a2, isLub, hack));
              step.Variables? ==> VariablesMerged(step.slot1, step.slot2, isLub, r)
    {
      var step := ClassifyMerge(a1, a2, isLub, hack);
      match step
      case Done(result) =>
        r := result;
      case Fold(q) =>
        r := FoldConstants(q);
      case Variables(s1, s2) =>
        r := MergeVariableAnnos(s1, s2, isLub);
    }

    /** The annotation of the slot MergeVariables gives. */
    method MergeVariableAnnos(s1: Slot, s2: Slot, isLub: bool) returns (r: Result<Option<Anno>>)
      requires Valid() && Stored(slotMgr.slots, s1) && Stored(slotMgr.slots, s2) && s1.id != s2.id
      modifies slotMgr, constraintMgr
      ensures Valid()
      ensures VariablesMerged(s1, s2, isLub, r)
    {
      var m := MergeVariables(s1, s2, isLub);
      if m.Failure? {
        return Failure(m.error);
      }
      r := Success(Some(GetAnnotation(m.value)));
      assert AnswerId(r) == m.value.id && slotMgr.slots[AnswerId(r)] == m.value;
    }

    /** The annotation of the constant slot of a folded real qualifier. */
    method FoldConstants(q: Qual) returns (r: Result<Option<Anno>>)
      requires Valid()
      modifies slotMgr
      ensures Valid()
      ensures r == Success(Some(VarAnnot(Some(AnswerId(r)))))
      ensures VarAnnotSlot(slotMgr, r.value.value) == Some(ConstantSlot(AnswerId(r), q))
      ensures SlotsKept() && ConstantFolded(q, AnswerId(r))
    {
      ghost var next0, slots0, caches0 := slotMgr.nextId, slotMgr.slots, slotMgr.caches;
      var s := slotMgr.CreateConstantSlot(q);
      StoreGrowthKeepsMergeLogged(next0, slots0, caches0, slotMgr.mergedTo, constraintMgr.constraints,
                                  slotMgr.slots, slotMgr.caches, ConstantCache, s);
      r := Success(Some(GetAnnotation(s)));
    }

    /** merge with merged-to slots counted by kind: the steps of ClassifyMerge, then MergeVariablesByKind. */
    method MergeByKind(a1: Option<Anno>, a2: Option<Anno>, isLub: bool, hack: bool) returns (r: Result<Option<Anno>>)
      requires Valid()
      modifies slotMgr, constraintMgr
      ensures Valid()
      ensures EarlyMergeAnswered(old(ClassifyMerge(a1, a2, isLub, hack)), r)
      ensures var step := old(ClassifyMerge(a1, a2, isLub, hack));
              step.Variables? ==> VariablesBounded(step.slot1, step.slot2, isLub, r)
    {
      var step := ClassifyMerge(a1, a2, isLub, hack);
      match step
      case Done(result) =>
        r := result;
      case Fold(q) =>
        r := FoldConstants(q);
      case Variables(s1, s2) =>
        var m := MergeVariablesByKind(s1, s2, isLub);
        if m.Failure? {
          return Failure(m.error);
        }
        r := Success(Some(GetAnnotation(m.value)));
    }

    /** leastUpperBound: merge as a lub. */
    method LeastUpperBound(a1: Option<Anno>, a2: Option<Anno>, hack: bool) returns (r: Result<Option<Anno>>)
      requires Valid()
      modifies slotMgr, constraintMgr
      ensures Valid()
      ensures EarlyMergeAnswered(old(ClassifyMerge(a1, a2, true, hack)), r)
      ensures var step := old(ClassifyMerge(a1, a2, true, hack));
              step.Variables? ==> VariablesMerged(step.slot1, step.slot2, true, r)
    {
      r := Merge(a1, a2, true, hack);
    }

    /** greatestLowerBound: merge as a glb. */
    method GreatestLowerBound(a1: Option<Anno>, a2: Option<Anno>, hack: bool) returns (r: Result<Option<Anno>>)
      requires Valid()
      modifies slotMgr, constraintMgr
      ensures Valid()
      ensures EarlyMergeAnswered(old(ClassifyMerge(a1, a2, false, hack)), r)
      ensures var step := old(ClassifyMerge(a1, a2, false, hack));
              step.Variables? ==> VariablesMerged(step.slot1, step.slot2, false, r)
    {
      r := Merge(a1, a2, false, hack);
    }

    /** leastUpperBound with the corrected merge: the answer bounds both variable operands from above. */
    method LeastUpperBoundByKind(a1: Option<Anno>, a2: Option<Anno>, hack: bool) returns (r: Result<Option<Anno>>)
      requires Valid()
      modifies slotMgr, constraintMgr
      ensures Valid()
      ensures EarlyMergeAnswered(old(ClassifyMerge(a1, a2, true, hack)), r)
      ensures var step := old(ClassifyMerge(a1, a2, true, hack));
              step.Variables? ==> VariablesBounded(step.slot1, step.slot2, true, r)
    {
      r := MergeByKind(a1, a2, true, hack);
    }

    /** greatestLowerBound with the corrected merge: the answer bounds both variable operands from below. */
    method GreatestLowerBoundByKind(a1: Option<Anno>, a2: Option<Anno>, hack: bool) returns (r: Result<Option<Anno>>)
      requires Valid()
      modifies slotMgr, constraintMgr
      ensures Valid()
      ensures EarlyMergeAnswered(old(ClassifyMerge(a1, a2, false, hack)), r)
      ensures var step := old(ClassifyMerge(a1, a2, false, hack));
              step.Variables? ==> VariablesBounded(step.slot1, step.slot2, false, r)
    {
      r := MergeByKind(a1, a2, false, hack);
    }

    /**
     * The source's merge on two fresh source slots: their glb, then their lub.
     * The lub is the glb slot again, and the log does not place the first
     * operand below it: the glb's constraints point the other way.
     */
    method GlbThenLubAsWritten(s1: Slot, s2: Slot) returns (glb: Slot, lub: Slot)
      requires Valid() && Stored(slotMgr.slots, s1) && Stored(slotMgr.slots, s2) && s1.id != s2.id
      requires s1.SourceVariableSlot? && s2.SourceVariableSlot?
      requires MergedTo(slotMgr.mergedTo, s1.id) == {} && MergedTo(slotMgr.mergedTo, s2.id) == {}
      requires constraintMgr.constraints == []
      modifies slotMgr, constraintMgr
      ensures Valid()
      ensures lub.id == glb.id
      ensures constraintMgr.constraints == [SubtypeConstraint(Some(glb), Some(s1)), SubtypeConstraint(Some(glb), Some(s2))]
      ensures !Bound(constraintMgr.constraints, s1.id, lub.id, true)
    {
      var g := MergeVariables(s1, s2, false);
      glb := g.value;
      assert MergedTo(slotMgr.mergedTo, s1.id) * MergedTo(slotMgr.mergedTo, s2.id) == {glb.id};
      var l := MergeVariables(s1, s2, true);
      lub := l.value;
      assert glb.id != s1.id && glb.id != s2.id;
      assert !IsSubtypeEdge(constraintMgr.constraints[0], s1.id, lub.id);
      assert !IsSubtypeEdge(constraintMgr.constraints[1], s1.id, lub.id);
    }

    /**
     * findTopVarAnnot: the @VarAnnot of the constant slot of the only real top.
     * Looking a top up may create its constant slot; a count other than one
     * throws BugInCF.
     */
    method FindTopVarAnnot(hack: bool) returns (r: Result<Anno>)
      requires Valid()
      modifies slotMgr
      ensures Valid() && SlotsKept()
      ensures r.Success? ==> |slotMgr.hierarchy.tops| == 1 && r.value.VarAnnot? && r.value.value.Some?
                             && r.value.value.value >= 0
                             && VarAnnotSlot(slotMgr, r.value) == Some(ConstantSlot(r.value.value.value, slotMgr.hierarchy.tops[0]))
      ensures |slotMgr.hierarchy.tops| != 1 ==> r.Failure?
      ensures |slotMgr.hierarchy.tops| == 1 ==>
                (r.Success? <==> hack || slotMgr.hierarchy.tops[0] in old(slotMgr.caches.constants)
                                 || slotMgr.hierarchy.tops[0].annoClass in slotMgr.realQualifiers)
    {
      var tops := slotMgr.hierarchy.tops;
      var numTops := 0;
      var topVarAnnot: Option<Anno> := None;
      var i := 0;
      while i < |tops|
        invariant 0 <= i <= |tops| && numTops == i
        invariant Valid() && SlotsKept() && tops == slotMgr.hierarchy.tops
        invariant topVarAnnot.None? <==> i == 0
        invariant topVarAnnot.Some? ==>
                    topVarAnnot.value.VarAnnot? && topVarAnnot.value.value.Some? && topVarAnnot.value.value.value >= 0
                    && VarAnnotSlot(slotMgr, topVarAnnot.value) == Some(ConstantSlot(topVarAnnot.value.value.value, tops[0]))
        invariant i == 0 ==> slotMgr.caches.constants == old(slotMgr.caches.constants)
        invariant i > 0 ==> hack || tops[0] in old(slotMgr.caches.constants) || tops[0].annoClass in slotMgr.realQualifiers
      {
        var slot := LookUpConstant(tops[i], hack);
        if slot.Failure? {
          return Failure(slot.error);
        }
        numTops := numTops + 1;
        if topVarAnnot.None? {
          topVarAnnot := Some(GetAnnotation(slot.value));
        }
        i := i + 1;
      }
      if numTops != 1 {
        return Failure(BugInCF("There should be exactly 1 top qualifier in inference hierarchy"));
      }
      r := Success(topVarAnnot.value);
    }

    /**
     * findBottomVarAnnot: the @VarAnnot of the constant slot of the real bottoms,
     * which must all be the same slot; the source first asserts the store is not
     * empty.
     */
    method FindBottomVarAnnot(hack: bool) returns (r: Result<Anno>)
      requires Valid()
      modifies slotMgr
      ensures Valid() && SlotsKept()
      ensures old(slotMgr.nextId) == 1 ==> r.Failure? && r.error.AssertionError?
      ensures r.Success? ==> |slotMgr.hierarchy.bottoms| >= 1 && r.value.VarAnnot? && r.value.value.Some?
                             && VarAnnotSlot(slotMgr, r.value).Some?
                             && var s := VarAnnotSlot(slotMgr, r.value).value;
                             s.ConstantSlot?
                             && forall k | 0 <= k < |slotMgr.hierarchy.bottoms| ::
                                  ResolvesTo(slotMgr, slotMgr.hierarchy.bottoms[k], s.value, hack)
      ensures |slotMgr.hierarchy.bottoms| == 0 ==> r.Failure?
      ensures !hack && |slotMgr.hierarchy.bottoms| > 1 ==> r.Failure?
    {
      if slotMgr.nextId == 1 {
        return Failure(AssertionError("slotManager.getSlots().size() > 0"));
      }
      var bottoms := slotMgr.hierarchy.bottoms;
      var ids: set<nat> := {};
      ghost var found: seq<nat> := [];
      var i := 0;
      while i < |bottoms|
        invariant 0 <= i <= |bottoms|
        invariant Valid() && SlotsKept() && bottoms == slotMgr.hierarchy.bottoms
        invariant i > 0 <==> ids != {}
        invariant BottomsFound(slotMgr, slotMgr.slots, slotMgr.nextId, bottoms, i, found, ids, hack)
      {
        ghost var slots0, next0 := slotMgr.slots, slotMgr.nextId;
        var slot := LookUpConstant(bottoms[i], hack);
        if slot.Failure? {
          return Failure(slot.error);
        }
        assert 1 <= slot.value.id < slotMgr.nextId;
        BottomsFoundStep(slotMgr, slots0, next0, slotMgr.slots, slotMgr.nextId, bottoms, i, found, ids, hack, slot.value);
        ids := ids + {slot.value.id};
        found := found + [slot.value.id];
        i := i + 1;
      }
      if |ids| != 1 {
        return Failure(BugInCF("There should be exactly 1 bottom qualifier in inference hierarchy"));
      }
      var id :| id in ids;
      OneElementSet(ids, id);
      BottomsShareSlot(slotMgr, slotMgr.slots, slotMgr.nextId, bottoms, found, id, hack);
      r := Success(VarAnnot(Some(id)));
    }

    /** getSlot of a real qualifier, keeping the merge invariant. */
    method LookUpConstant(q: Qual, hack: bool) returns (r: Result<Slot>)
      requires Valid()
      modifies slotMgr
      ensures Valid() && SlotsKept()
      ensures r.Success? ==> r.value.ConstantSlot? && Stored(slotMgr.slots, r.value)
                             && ResolvesTo(slotMgr, q, r.value.value, hack)
      ensures r.Failure? <==> q !in old(slotMgr.caches.constants) && q.annoClass !in slotMgr.realQualifiers
                              && (!hack || slotMgr.hierarchy.tops == [])
      ensures old(slotMgr.nextId) <= slotMgr.nextId
    {
      ghost var next0, slots0, caches0 := slotMgr.nextId, slotMgr.slots, slotMgr.caches;
      var s := slotMgr.GetSlotForAnnotation(RealAnno(q), hack);
      StoreGrowthKeepsMergeLogged(next0, slots0, caches0, slotMgr.mergedTo, constraintMgr.constraints,
                                  slotMgr.slots, slotMgr.caches, ConstantCache,
                                  if s.Success? && s.value.Some? then s.value.value else ConstantSlot(0, q));
      if s.Failure? {
        return Failure(s.error);
      }
      r := Success(s.value.value);
    }
  }

  /**
   * The first i real bottoms were looked up: the k-th gave the constant slot
   * found[k], whose id was collected in ids.
   */
  predicate BottomsFound(sm: DefaultSlotManager, slots: map<nat, Slot>, nextId: nat, bottoms: seq<Qual>, i: nat,
                         found: seq<nat>, ids: set<nat>, hack: bool)
  {
    i <= |bottoms| && |found| == i
    && (forall id | id in ids :: 1 <= id < nextId)
    && (forall k | 0 <= k < i :: found[k] in ids && found[k] in slots && slots[found[k]].ConstantSlot?
                                 && ResolvesTo(sm, bottoms[k], slots[found[k]].value, hack))
  }

  /** One more bottom looked up, in a store that kept its slots. */
  lemma BottomsFoundStep(sm: DefaultSlotManager, slots: map<nat, Slot>, nextId: nat, slots': map<nat, Slot>,
                         nextId': nat, bottoms: seq<Qual>, i: nat, found: seq<nat>, ids: set<nat>, hack: bool, s: Slot)
    requires BottomsFound(sm, slots, nextId, bottoms, i, found, ids, hack) && i < |bottoms|
    requires forall x | x in slots :: x in slots' && slots'[x] == slots[x]
    requires nextId <= nextId'
    requires Stored(slots', s) && s.ConstantSlot? && ResolvesTo(sm, bottoms[i], s.value, hack) && 1 <= s.id < nextId'
    ensures BottomsFound(sm, slots', nextId', bottoms, i + 1, found + [s.id], ids + {s.id}, hack)
  {
  }

  /**
   * When all bottoms gave the one slot id, each resolves to its value; without
   * hack mode that value is each bottom itself, so distinct bottoms allow one.
   */
  lemma BottomsShareSlot(sm: DefaultSlotManager, slots: map<nat, Slot>, nextId: nat, bottoms: seq<Qual>,
                         found: seq<nat>, id: nat, hack: bool)
    requires BottomsFound(sm, slots, nextId, bottoms, |bottoms|, found, {id}, hack)
    requires forall i, j | 0 <= i < j < |bottoms| :: bottoms[i] != bottoms[j]
    ensures |bottoms| > 0 ==> id in slots && slots[id].ConstantSlot?
    ensures |bottoms| > 0 ==> forall k | 0 <= k < |bottoms| :: ResolvesTo(sm, bottoms[k], slots[id].value, hack)
    ensures !hack ==> |bottoms| <= 1
  {
    if |bottoms| > 0 {
      assert found[0] in {id};
      forall k | 0 <= k < |bottoms| ensures ResolvesTo(sm, bottoms[k], slots[id].value, hack)
      {
        assert found[k] in {id};
      }
    }
    assert |bottoms| > 1 ==> bottoms[0] != bottoms[1];
  }

  lemma OneElementSet(s: set<nat>, x: nat)
    requires |s| == 1 && x in s
    ensures s == {x}
  {
    var rest := s - {x};
    assert |rest| == 0;
  }
}
