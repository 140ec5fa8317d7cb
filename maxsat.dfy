/**
 * MaxSat2TypeSolver: a two-qualifier (top / bottom) inference problem handed to
 * a weighted MaxSAT engine as CNF clauses, and the engine's model decoded back
 * into a map from slot id to qualifier. A literal -v says slot v is top, +v
 * that it is bottom; an existential slot has a stand-in variable whose literal
 * says whether its potential slot is kept.
 */
module MaxSatSolving {
  import opened Wrappers
  import opened JavaText
  import opened Slots
  import opened Constraints

  /** A CNF clause: a disjunction of literals. */
  type Clause = seq<int>

  /** A clause as handed to the engine: hard clauses must hold, soft ones are weighed. */
  datatype Fed = Hard(clause: Clause) | Soft(clause: Clause)

  /** What the engine's isSatisfiable reports once every clause is in. */
  datatype Answer = Satisfiable(model: seq<int>) | Unsatisfiable | TimedOut

  /** DefaultInferenceResult: a solution map, or no solution with an explanation (always empty here). */
  datatype InferenceResult = Solved(solution: map<int, Qual>) | NoSolution(explanation: set<Constraint>)

  /** Java's unary minus on an int: the negation of Integer.MIN_VALUE is itself. */
  function Negate32(v: int): (r: int)
    requires IsInt32(v)
    ensures IsInt32(r)
    ensures v != INT_MIN ==> r == -v
    ensures r == Wrap32(-v)
  {
    if v == INT_MIN then v else -v
  }

  /** Math.abs on an int, which has the same corner case. */
  function Abs32(v: int): (r: int)
    requires IsInt32(v)
    ensures IsInt32(r)
    ensures v != INT_MIN ==> r >= 0 && (r == v || r == -v)
    ensures v == INT_MIN ==> r == INT_MIN
  {
    if v < 0 then Negate32(v) else v
  }

  predicate AllInt32(model: seq<int>)
  {
    forall i | 0 <= i < |model| :: IsInt32(model[i])
  }

  /** A literal of an existential stand-in variable. */
  predicate IsExistential(v: int, existentialToPotential: map<int, int>)
    requires IsInt32(v)
  {
    Abs32(v) in existentialToPotential
  }

  /**
   * One turn of the decoding loop. A stand-in literal asserts that its
   * potential slot is already decoded and, when negative, removes it; any
   * other literal records top (negative) or bottom (positive) for its slot.
   */
  function DecodeLiteral(acc: map<int, Qual>, v: int, existentialToPotential: map<int, int>, top: Qual, bottom: Qual)
    : (r: Result<map<int, Qual>>)
    requires IsInt32(v)
    ensures IsExistential(v, existentialToPotential) ==>
              var p := existentialToPotential[Abs32(v)];
              (p !in acc ==> r.Failure? && r.error.AssertionError?) &&
              (p in acc && v < 0 ==> r.Success? && r.value.Keys == acc.Keys - {p} &&
                                     forall k | k in r.value :: r.value[k] == acc[k]) &&
              (p in acc && v >= 0 ==> r == Success(acc))
    ensures !IsExistential(v, existentialToPotential) ==>
              r.Success? && r.value.Keys == acc.Keys + {Abs32(v)} &&
              r.value[Abs32(v)] == (if v < 0 then top else bottom) &&
              forall k | k in acc && k != Abs32(v) :: r.value[k] == acc[k]
  {
    var absolute := Abs32(v);
    if absolute in existentialToPotential then
      var potential := existentialToPotential[absolute];
      if potential !in acc then Failure(AssertionError("potential slot decoded before its existential"))
      else if v < 0 then Success(acc - {potential})
      else Success(acc)
    else
      var isTop := v < 0;
      var id := if isTop then Negate32(v) else v;
      Success(acc[id := if isTop then top else bottom])
  }

  /** The decoding loop over the whole model, from an empty map. */
  function Decode(model: seq<int>, existentialToPotential: map<int, int>, top: Qual, bottom: Qual)
    : (r: Result<map<int, Qual>>)
    requires AllInt32(model)
  {
    if model == [] then Success(map[])
    else
      var acc :- Decode(model[..|model| - 1], existentialToPotential, top, bottom);
      DecodeLiteral(acc, model[|model| - 1], existentialToPotential, top, bottom)
  }

  /** The slots given a qualifier by some non-existential literal. */
  function Placed(model: seq<int>, existentialToPotential: map<int, int>): set<int>
    requires AllInt32(model)
  {
    if model == [] then {}
    else
      var v := model[|model| - 1];
      Placed(model[..|model| - 1], existentialToPotential) +
      (if IsExistential(v, existentialToPotential) then {} else {Abs32(v)})
  }

  /** The potential slots of the negative stand-in literals. */
  function Removed(model: seq<int>, existentialToPotential: map<int, int>): set<int>
    requires AllInt32(model)
  {
    if model == [] then {}
    else
      var v := model[|model| - 1];
      Removed(model[..|model| - 1], existentialToPotential) +
      (if IsExistential(v, existentialToPotential) && v < 0 then {existentialToPotential[Abs32(v)]} else {})
  }

  /**
   * The shape of model the decoder expects, in the form a solver produces:
   * each variable appears once, every stand-in variable comes after a literal
   * of its potential slot, and no two stand-ins share a potential.
   */
  predicate WellOrdered(model: seq<int>, existentialToPotential: map<int, int>)
  {
    AllInt32(model) &&
    (forall i, j | 0 <= i < j < |model| :: Abs32(model[i]) != Abs32(model[j])) &&
    (forall i | 0 <= i < |model| && IsExistential(model[i], existentialToPotential) ::
       exists j | 0 <= j < i :: !IsExistential(model[j], existentialToPotential) &&
                                Abs32(model[j]) == existentialToPotential[Abs32(model[i])]) &&
    (forall i, j | 0 <= i < j < |model| && IsExistential(model[i], existentialToPotential) &&
                   IsExistential(model[j], existentialToPotential) ::
       existentialToPotential[Abs32(model[i])] != existentialToPotential[Abs32(model[j])])
  }

  lemma WellOrderedPrefix(model: seq<int>, existentialToPotential: map<int, int>, n: nat)
    requires WellOrdered(model, existentialToPotential) && n <= |model|
    ensures WellOrdered(model[..n], existentialToPotential)
  {
    var prefix := model[..n];
    assert forall i | 0 <= i < n :: prefix[i] == model[i];
    forall i | 0 <= i < n && IsExistential(prefix[i], existentialToPotential)
      ensures exists j | 0 <= j < i :: !IsExistential(prefix[j], existentialToPotential) &&
                                       Abs32(prefix[j]) == existentialToPotential[Abs32(prefix[i])]
    {
      var j :| 0 <= j < i && !IsExistential(model[j], existentialToPotential) &&
               Abs32(model[j]) == existentialToPotential[Abs32(model[i])];
      assert prefix[j] == model[j];
    }
  }

  /** Every non-existential literal's slot is Placed. */
  lemma {:induction false} PlacedHolds(model: seq<int>, existentialToPotential: map<int, int>, j: nat)
    requires AllInt32(model) && j < |model| && !IsExistential(model[j], existentialToPotential)
    ensures Abs32(model[j]) in Placed(model, existentialToPotential)
  {
    if j < |model| - 1 {
      var init := model[..|model| - 1];
      assert init[j] == model[j];
      PlacedHolds(init, existentialToPotential, j);
    }
  }

  /** A Removed slot is the potential of some negative stand-in literal. */
  lemma {:induction false} RemovedWitness(model: seq<int>, existentialToPotential: map<int, int>, p: int)
    returns (i: nat)
    requires AllInt32(model) && p in Removed(model, existentialToPotential)
    ensures i < |model| && IsExistential(model[i], existentialToPotential) && model[i] < 0
    ensures existentialToPotential[Abs32(model[i])] == p
  {
    var init := model[..|model| - 1];
    var v := model[|model| - 1];
    if IsExistential(v, existentialToPotential) && v < 0 && existentialToPotential[Abs32(v)] == p {
      i := |model| - 1;
    } else {
      i := RemovedWitness(init, existentialToPotential, p);
      assert init[i] == model[i];
    }
  }

  /** The last literal of a well-ordered model, taken as one step of the decoding loop. */
  lemma DecodeLastLiteral(model: seq<int>, existentialToPotential: map<int, int>, top: Qual, bottom: Qual,
                          acc: map<int, Qual>)
    requires WellOrdered(model, existentialToPotential) && model != []
    requires var init := model[..|model| - 1];
             acc.Keys == Placed(init, existentialToPotential) - Removed(init, existentialToPotential)
    ensures var r := DecodeLiteral(acc, model[|model| - 1], existentialToPotential, top, bottom);
            r.Success? &&
            r.value.Keys == Placed(model, existentialToPotential) - Removed(model, existentialToPotential)
  {
    var n := |model| - 1;
    var init := model[..n];
    var v := model[n];
    assert AllInt32(init) by { assert forall i | 0 <= i < n :: init[i] == model[i]; }
    if IsExistential(v, existentialToPotential) {
      LastStandInFindsPotential(model, existentialToPotential);
    } else {
      LastSlotNotRemoved(model, existentialToPotential);
    }
  }

  /** In a well-ordered model, the potential of a last stand-in literal is placed and not yet removed. */
  lemma LastStandInFindsPotential(model: seq<int>, existentialToPotential: map<int, int>)
    requires WellOrdered(model, existentialToPotential) && model != []
    requires IsExistential(model[|model| - 1], existentialToPotential)
    ensures var init := model[..|model| - 1];
            AllInt32(init) &&
            existentialToPotential[Abs32(model[|model| - 1])] in
              Placed(init, existentialToPotential) - Removed(init, existentialToPotential)
  {
    var n := |model| - 1;
    var init := model[..n];
    var v := model[n];
    assert AllInt32(init) by { assert forall i | 0 <= i < n :: init[i] == model[i]; }
    var p := existentialToPotential[Abs32(v)];
    var j :| 0 <= j < n && !IsExistential(model[j], existentialToPotential) && Abs32(model[j]) == p;
    assert init[j] == model[j];
    PlacedHolds(init, existentialToPotential, j);
    if p in Removed(init, existentialToPotential) {
      var i := RemovedWitness(init, existentialToPotential, p);
      assert false;
    }
  }

  /** In a well-ordered model, the slot of a last literal that is no stand-in has not been removed. */
  lemma LastSlotNotRemoved(model: seq<int>, existentialToPotential: map<int, int>)
    requires WellOrdered(model, existentialToPotential) && model != []
    requires !IsExistential(model[|model| - 1], existentialToPotential)
    ensures var init := model[..|model| - 1];
            AllInt32(init) && Abs32(model[|model| - 1]) !in Removed(init, existentialToPotential)
  {
    var n := |model| - 1;
    var init := model[..n];
    var v := model[n];
    assert AllInt32(init) by { assert forall i | 0 <= i < n :: init[i] == model[i]; }
    var a := Abs32(v);
    if a in Removed(init, existentialToPotential) {
      var i := RemovedWitness(init, existentialToPotential, a);
      assert false;
    }
  }

  /**
   * The decoder on a well-ordered model never trips its assertion, and it
   * decodes exactly the slots with a literal of their own, less the potentials
   * of negative stand-ins.
   */
  lemma {:induction false} DecodeWellOrdered(model: seq<int>, existentialToPotential: map<int, int>, top: Qual,
                                             bottom: Qual)
    requires WellOrdered(model, existentialToPotential)
    ensures var r := Decode(model, existentialToPotential, top, bottom);
            r.Success? &&
            r.value.Keys == Placed(model, existentialToPotential) - Removed(model, existentialToPotential)
  {
    if model != [] {
      var init := model[..|model| - 1];
      WellOrderedPrefix(model, existentialToPotential, |model| - 1);
      DecodeWellOrdered(init, existentialToPotential, top, bottom);
      DecodeLastLiteral(model, existentialToPotential, top, bottom, Decode(init, existentialToPotential, top, bottom).value);
    }
  }

  /**
   * The qualifier a decoded slot gets is read off the sign of its own literal:
   * top when negative, bottom when positive.
   */
  lemma {:induction false} DecodedPolarity(model: seq<int>, existentialToPotential: map<int, int>, top: Qual,
                                           bottom: Qual, i: nat)
    requires WellOrdered(model, existentialToPotential)
    requires i < |model| && !IsExistential(model[i], existentialToPotential)
    requires Abs32(model[i]) !in Removed(model, existentialToPotential)
    ensures var r := Decode(model, existentialToPotential, top, bottom);
            r.Success? && Abs32(model[i]) in r.value &&
            r.value[Abs32(model[i])] == (if model[i] < 0 then top else bottom)
  {
    DecodeWellOrdered(model, existentialToPotential, top, bottom);
    PlacedHolds(model, existentialToPotential, i);
    var n := |model| - 1;
    if i < n {
      var init := model[..n];
      assert init[i] == model[i];
      WellOrderedPrefix(model, existentialToPotential, n);
      assert Removed(init, existentialToPotential) <= Removed(model, existentialToPotential);
      DecodedPolarity(init, existentialToPotential, top, bottom, i);
      assert Abs32(model[n]) != Abs32(model[i]);
    }
  }

  /**
   * Two stand-ins for the same potential slot, the first of them negative:
   * the second finds its potential already removed and the assertion fails.
   */
  lemma SharedPotentialTripsAssertion(top: Qual, bottom: Qual)
    ensures Decode([1, -2, -3], map[2 := 1, 3 := 1], top, bottom).Failure?
  {
    var e := map[2 := 1, 3 := 1];
    assert [1, -2, -3][..2] == [1, -2] && [1, -2][..1] == [1] && [1][..0] == [];
    assert Decode([1], e, top, bottom) == Success(map[1 := bottom]);
    assert Decode([1, -2], e, top, bottom) == Success(map[]);
  }

  /** All hard clauses, in list order, then all soft clauses, in list order. */
  function FeedOrder(hardClauses: seq<Clause>, softClauses: seq<Clause>): (r: seq<Fed>)
    ensures |r| == |hardClauses| + |softClauses|
    ensures forall i | 0 <= i < |hardClauses| :: r[i] == Hard(hardClauses[i])
    ensures forall i | 0 <= i < |softClauses| :: r[|hardClauses| + i] == Soft(softClauses[i])
  {
    seq(|hardClauses|, i requires 0 <= i < |hardClauses| => Hard(hardClauses[i])) +
    seq(|softClauses|, i requires 0 <= i < |softClauses| => Soft(softClauses[i]))
  }

  /** None of the first n clauses contradicts the clauses added before it. */
  predicate AddedCleanly(all: seq<Fed>, contradicts: (seq<Fed>, Fed) -> bool, n: nat)
    requires n <= |all|
  {
    forall j | 0 <= j < n :: !contradicts(all[..j], all[j])
  }

  lemma AddedCleanlyStep(all: seq<Fed>, contradicts: (seq<Fed>, Fed) -> bool, n: nat)
    requires n < |all| && AddedCleanly(all, contradicts, n) && !contradicts(all[..n], all[n])
    ensures AddedCleanly(all, contradicts, n + 1)
    ensures all[..n + 1] == all[..n] + [all[n]]
  {
  }

  /**
   * The index of the first clause whose addition is a trivial contradiction,
   * given the clauses added before it.
   */
  function FirstContradiction(all: seq<Fed>, contradicts: (seq<Fed>, Fed) -> bool): (k: Option<nat>)
    ensures k.Some? ==> k.value < |all| && contradicts(all[..k.value], all[k.value])
    ensures k.Some? ==> AddedCleanly(all, contradicts, k.value)
    ensures k.None? ==> AddedCleanly(all, contradicts, |all|)
  {
    if all == [] then None
    else
      var init := all[..|all| - 1];
      assert forall j | 0 <= j < |init| :: init[..j] == all[..j] && init[j] == all[j];
      match FirstContradiction(init, contradicts)
      case Some(k) => Some(k)
      case None => if contradicts(init, all[|all| - 1]) then Some(|all| - 1) else None
  }

  /**
   * The weighted MaxSAT engine, reduced to what solve() observes of it: the
   * number of variables and clauses announced, the clauses handed over in
   * order, whether adding a clause is a trivial contradiction (an oracle on
   * the clauses added so far), and the answer isSatisfiable gives.
   */
  class Engine {
    var vars: int
    var expectedClauses: int
    var fed: seq<Fed>
    const contradicts: (seq<Fed>, Fed) -> bool
    const answer: Answer

    constructor (contradicts: (seq<Fed>, Fed) -> bool, answer: Answer)
      ensures vars == 0 && expectedClauses == 0 && fed == []
      ensures this.contradicts == contradicts && this.answer == answer
    {
      vars := 0;
      expectedClauses := 0;
      fed := [];
      this.contradicts := contradicts;
      this.answer := answer;
    }

    method NewVar(n: int)
      modifies this
      ensures vars == n && expectedClauses == old(expectedClauses) && fed == old(fed)
    {
      vars := n;
    }

    method SetExpectedNumberOfClauses(n: int)
      modifies this
      ensures expectedClauses == n && vars == old(vars) && fed == old(fed)
    {
      expectedClauses := n;
    }

    /** addHardClause / addSoftClause: false is the ContradictionException, and the clause is not added. */
    method Add(c: Fed) returns (ok: bool)
      modifies this
      ensures ok == !contradicts(old(fed), c)
      ensures fed == if ok then old(fed) + [c] else old(fed)
      ensures vars == old(vars) && expectedClauses == old(expectedClauses)
    {
      ok := !contradicts(fed, c);
      if ok {
        fed := fed + [c];
      }
    }
  }

  class MaxSat2TypeSolver {
    /** The first of the hierarchy's top and bottom annotations. */
    const top: Qual
    const bottom: Qual
    /** The slot manager's getNumberOfSlots(). */
    const slotCount: int
    /** What the CNF serializer's convertAll and getExistentialToPotentialVar hand over. */
    const hardClauses: seq<Clause>
    const softClauses: seq<Clause>
    const existentialToPotential: map<int, int>

    constructor (top: Qual, bottom: Qual, slotCount: int, hardClauses: seq<Clause>, softClauses: seq<Clause>,
                 existentialToPotential: map<int, int>)
      ensures this.top == top && this.bottom == bottom && this.slotCount == slotCount
      ensures this.hardClauses == hardClauses && this.softClauses == softClauses
      ensures this.existentialToPotential == existentialToPotential
    {
      this.top := top;
      this.bottom := bottom;
      this.slotCount := slotCount;
      this.hardClauses := hardClauses;
      this.softClauses := softClauses;
      this.existentialToPotential := existentialToPotential;
    }

    /** The serializer's isTop override: a constant is top when its value is the first top annotation. */
    predicate IsTop(c: Slot)
      requires c.ConstantSlot?
    {
      c.value == top
    }

    /**
     * isTop looks only at the constant's qualifier: the id does not matter,
     * the top constant is top, and the bottom constant is top only when the
     * hierarchy's top and bottom coincide.
     */
    lemma IsTopOfConstant(id: nat, q: Qual)
      ensures IsTop(ConstantSlot(id, q)) <==> q == top
      ensures forall other: nat :: IsTop(ConstantSlot(other, q)) == IsTop(ConstantSlot(id, q))
      ensures IsTop(ConstantSlot(id, top))
      ensures IsTop(ConstantSlot(id, bottom)) <==> bottom == top
    {
    }

    /** What solve() returns once every clause is in without a contradiction. */
    function Outcome(answer: Answer): (r: Result<InferenceResult>)
      requires answer.Satisfiable? ==> AllInt32(answer.model)
      ensures answer.TimedOut? ==> r.Failure? && r.error.Runtime?
      ensures answer.Unsatisfiable? ==> r == Success(NoSolution({}))
      ensures answer.Satisfiable? && WellOrdered(answer.model, existentialToPotential) ==> r.Success? && r.value.Solved?
      ensures r.Success? && r.value.Solved? ==>
                answer.Satisfiable? &&
                Decode(answer.model, existentialToPotential, top, bottom) == Success(r.value.solution)
    {
      match answer
      case TimedOut => Failure(Runtime("MAX-SAT solving timeout! "))
      case Unsatisfiable => Success(NoSolution({}))
      case Satisfiable(model) =>
        assert WellOrdered(model, existentialToPotential) ==> Decode(model, existentialToPotential, top, bottom).Success? by {
          if WellOrdered(model, existentialToPotential) {
            DecodeWellOrdered(model, existentialToPotential, top, bottom);
          }
        }
        var solution :- Decode(model, existentialToPotential, top, bottom);
        Success(Solved(solution))
    }

    /**
     * solve(): announce the variable and clause counts, add the hard clauses
     * and then the soft ones, stop with no solution at the first contradiction,
     * and otherwise report what the engine answers.
     */
    method Solve(contradicts: (seq<Fed>, Fed) -> bool, answer: Answer) returns (r: Result<InferenceResult>, engine: Engine)
      requires answer.Satisfiable? ==> AllInt32(answer.model)
      ensures fresh(engine) && engine.contradicts == contradicts && engine.answer == answer
      ensures engine.vars == Wrap32(slotCount + |existentialToPotential|)
      ensures engine.expectedClauses == Wrap32(|hardClauses| + |softClauses|)
      ensures var all := FeedOrder(hardClauses, softClauses);
              match FirstContradiction(all, contradicts)
              case Some(k) => engine.fed == all[..k] && r == Success(NoSolution({}))
              case None => engine.fed == all && r == Outcome(answer)
    {
      var totalVars := Wrap32(slotCount + |existentialToPotential|);
      var totalClauses := Wrap32(|hardClauses| + |softClauses|);
      engine := new Engine(contradicts, answer);
      engine.NewVar(totalVars);
      engine.SetExpectedNumberOfClauses(totalClauses);
      var added := AddClauses(engine);
      if !added {
        return Success(NoSolution({})), engine;
      }
      match answer
      case TimedOut =>
        r := Failure(Runtime("MAX-SAT solving timeout! "));
      case Unsatisfiable =>
        r := Success(NoSolution({}));
      case Satisfiable(model) =>
        var decoded := DecodeModel(model);
        if decoded.Failure? {
          return Failure(decoded.error), engine;
        }
        r := Success(Solved(decoded.value));
    }

    /**
     * The try block of solve(): the hard clauses in list order, then the soft
     * ones; false is the ContradictionException, raised by the first clause
     * that contradicts those before it.
     */
    method AddClauses(engine: Engine) returns (added: bool)
      requires engine.fed == []
      modifies engine
      ensures engine.vars == old(engine.vars) && engine.expectedClauses == old(engine.expectedClauses)
      ensures var all := FeedOrder(hardClauses, softClauses);
              match FirstContradiction(all, engine.contradicts)
              case Some(k) => !added && engine.fed == all[..k]
              case None => added && engine.fed == all
    {
      ghost var all := FeedOrder(hardClauses, softClauses);
      ghost var contradicts := engine.contradicts;
      var i := 0;
      while i < |hardClauses|
        invariant 0 <= i <= |hardClauses|
        invariant FedCleanly(all, contradicts, i, engine.fed)
        invariant engine.vars == old(engine.vars) && engine.expectedClauses == old(engine.expectedClauses)
      {
        assert all[i] == Hard(hardClauses[i]);
        FedCleanlyStep(all, contradicts, i, engine.fed);
        var ok := engine.Add(Hard(hardClauses[i]));
        if !ok {
          return false;
        }
        i := i + 1;
      }
      var k := 0;
      while k < |softClauses|
        invariant 0 <= k <= |softClauses|
        invariant FedCleanly(all, contradicts, i + k, engine.fed)
        invariant engine.vars == old(engine.vars) && engine.expectedClauses == old(engine.expectedClauses)
      {
        assert all[i + k] == Soft(softClauses[k]);
        FedCleanlyStep(all, contradicts, i + k, engine.fed);
        var ok := engine.Add(Soft(softClauses[k]));
        if !ok {
          return false;
        }
        k := k + 1;
      }
      assert all[..i + k] == all;
      FirstContradictionNone(all, contradicts);
      added := true;
    }

    /** The decoding loop over the engine's model. */
    method DecodeModel(model: seq<int>) returns (r: Result<map<int, Qual>>)
      requires AllInt32(model)
      ensures r == Decode(model, existentialToPotential, top, bottom)
    {
      var decoded: map<int, Qual> := map[];
      var i := 0;
      while i < |model|
        invariant 0 <= i <= |model|
        invariant AllInt32(model[..i])
        invariant Decode(model[..i], existentialToPotential, top, bottom) == Success(decoded)
      {
        var v := model[i];
        assert model[..i + 1][..i] == model[..i];
        var absolute := Abs32(v);
        if absolute in existentialToPotential {
          var potential := existentialToPotential[absolute];
          if potential !in decoded {
            DecodeFailureStops(model, existentialToPotential, top, bottom, i + 1);
            return Failure(AssertionError("potential slot decoded before its existential"));
          }
          if v < 0 {
            decoded := decoded - {potential};
          }
        } else {
          var isTop := v < 0;
          if isTop {
            v := Negate32(v);
          }
          decoded := decoded[v := if isTop then top else bottom];
        }
        i := i + 1;
      }
      assert model[..i] == model;
      r := Success(decoded);
    }
  }

  /** The first contradiction is at k when no earlier clause contradicted. */
  lemma FirstContradictionAt(all: seq<Fed>, contradicts: (seq<Fed>, Fed) -> bool, k: nat)
    requires k < |all| && contradicts(all[..k], all[k])
    requires AddedCleanly(all, contradicts, k)
    ensures FirstContradiction(all, contradicts) == Some(k)
  {
  }

  /** The feeding loop after n clauses: exactly the first n are in, none of them contradicting those before it. */
  predicate FedCleanly(all: seq<Fed>, contradicts: (seq<Fed>, Fed) -> bool, n: nat, fed: seq<Fed>)
  {
    n <= |all| && fed == all[..n] && AddedCleanly(all, contradicts, n)
  }

  /** One turn of the feeding loop: clause n either is the first contradiction or keeps the loop state. */
  lemma FedCleanlyStep(all: seq<Fed>, contradicts: (seq<Fed>, Fed) -> bool, n: nat, fed: seq<Fed>)
    requires FedCleanly(all, contradicts, n, fed) && n < |all|
    ensures contradicts(fed, all[n]) ==> FirstContradiction(all, contradicts) == Some(n)
    ensures !contradicts(fed, all[n]) ==> FedCleanly(all, contradicts, n + 1, fed + [all[n]])
  {
    if contradicts(fed, all[n]) {
      FirstContradictionAt(all, contradicts, n);
    } else {
      AddedCleanlyStep(all, contradicts, n);
    }
  }

  lemma FirstContradictionNone(all: seq<Fed>, contradicts: (seq<Fed>, Fed) -> bool)
    requires AddedCleanly(all, contradicts, |all|)
    ensures FirstContradiction(all, contradicts) == None
  {
  }

  /** Once a prefix of the model trips the assertion, the whole model does, with the same error. */
  lemma {:induction false} DecodeFailureStops(model: seq<int>, existentialToPotential: map<int, int>, top: Qual,
                                              bottom: Qual, n: nat)
    requires AllInt32(model) && n <= |model|
    requires AllInt32(model[..n]) && Decode(model[..n], existentialToPotential, top, bottom).Failure?
    ensures Decode(model, existentialToPotential, top, bottom) == Decode(model[..n], existentialToPotential, top, bottom)
    decreases |model| - n
  {
    if n < |model| {
      assert model[..n + 1][..n] == model[..n];
      assert AllInt32(model[..n + 1]) by { assert forall i | 0 <= i < n + 1 :: model[..n + 1][i] == model[i]; }
      DecodeFailureStops(model, existentialToPotential, top, bottom, n + 1);
    } else {
      assert model[..n] == model;
    }
  }
}
