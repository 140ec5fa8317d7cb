/**
 * The JSON constraint file: every slot becomes a string ("var:ID" for a
 * variable, the annotation serializer's text for a constant) and every
 * constraint an object tagged by its "constraint" key. Constraints with a
 * missing side serialize to nothing and are dropped from arrays.
 */
module JsonSerialization {
  import opened Wrappers
  import opened JavaText
  import opened Slots
  import opened Constraints

  /** The json-simple values the serializer builds; a Java null stored in an object or list is JNull. */
  datatype Json =
    | JNull
    | JString(str: string)
    | JInt(num: int)
    | JArray(items: seq<Json>)
    | JObject(fields: map<string, Json>)

  const VERSION: string := "2"
  const VAR_PREFIX: string := "var:"

  /** The reference text of a variable slot. */
  function VarName(id: int): (name: string)
    ensures |name| > |VAR_PREFIX| && name[..|VAR_PREFIX|] == VAR_PREFIX
  {
    VAR_PREFIX + IntToString(id)
  }

  /** How a reader of the file recovers a slot id from its reference text. */
  function ParseVarName(name: string): Option<int>
  {
    if |name| >= |VAR_PREFIX| && name[..|VAR_PREFIX|] == VAR_PREFIX then
      match ParseInt(name[|VAR_PREFIX|..])
      case Success(v) => Some(v)
      case Failure(_) => None
    else None
  }

  /** A reference to a slot with a Java int id reads back as that id. */
  lemma VarNameRoundTrip(id: int)
    requires IsInt32(id)
    ensures ParseVarName(VarName(id)) == Some(id)
  {
    assert VarName(id)[|VAR_PREFIX|..] == IntToString(id);
    ParseIntOfIntToString(id);
  }

  /** Distinct slots get distinct references. */
  lemma VarNameInjective(i: int, j: int)
    ensures VarName(i) == VarName(j) ==> i == j
  {
    if VarName(i) == VarName(j) {
      assert IntToString(i) == VarName(i)[|VAR_PREFIX|..];
      assert IntToString(j) == VarName(j)[|VAR_PREFIX|..];
      IntToStringInjective(i, j);
    }
  }

  /**
   * Slot serialization: existential slots must have been normalized away and
   * throw; a constant is written by the annotation serializer; every other
   * slot is a reference to its id.
   */
  function SerializeSlot(s: Slot, anno: Qual -> string): (r: Result<string>)
    ensures r.Failure? <==> s.ExistentialVariableSlot?
    ensures r.Failure? ==> r.error.UnsupportedOperation?
    ensures s.ConstantSlot? ==> r == Success(anno(s.value))
    ensures r.Success? && !s.ConstantSlot? ==>
              |r.value| > |VAR_PREFIX| && r.value[..|VAR_PREFIX|] == VAR_PREFIX && (IsInt32(s.id) ==> ParseVarName(r.value) == Some(s.id))
  {
    if s.ExistentialVariableSlot? then
      Failure(UnsupportedOperation("Existential slots should be normalized away before serialization."))
    else if s.ConstantSlot? then
      Success(anno(s.value))
    else
      var name := VarName(s.id);
      assert IsInt32(s.id) ==> ParseVarName(name) == Some(s.id) by {
        if IsInt32(s.id) {
          VarNameRoundTrip(s.id);
        }
      }
      Success(name)
  }

  /** Operation.name().toLowerCase(). */
  function ArithmeticTag(op: ArithmeticOperationKind): string
  {
    match op
    case PLUS => "plus"
    case MINUS => "minus"
    case MULTIPLY => "multiply"
    case DIVIDE => "divide"
    case REMAINDER => "remainder"
    case LEFT_SHIFT => "left_shift"
    case RIGHT_SHIFT => "right_shift"
    case UNSIGNED_RIGHT_SHIFT => "unsigned_right_shift"
    case AND => "and"
    case OR => "or"
    case XOR => "xor"
  }

  /** The value of the "constraint" key: it tells a reader which kind of constraint the object is. */
  function Tag(c: Constraint): (t: string)
  {
    match c
    case SubtypeConstraint(_, _) => "subtype"
    case EqualityConstraint(_, _) => "equality"
    case InequalityConstraint(_, _) => "inequality"
    case ComparableConstraint(_, _) => "comparable"
    case ComparisonConstraint(_, _, _, _, _) => "comparison"
    case CombineConstraint(_, _, _) => "combine"
    case PreferenceConstraint(_, _, _) => "preference"
    case ExistentialConstraint(_, _, _) => "enabled_check"
    case ImplicationConstraint(_, _) => "implication"
    case ArithmeticConstraint(op, _, _, _, _) => ArithmeticTag(op)
  }

  /**
   * The tag determines the kind of constraint, and for an arithmetic
   * constraint its operation: a reader can tell every object apart by its tag.
   */
  lemma TagDeterminesKind(c: Constraint, d: Constraint)
    requires Tag(c) == Tag(d)
    ensures c.SubtypeConstraint? == d.SubtypeConstraint? && c.EqualityConstraint? == d.EqualityConstraint?
    ensures c.InequalityConstraint? == d.InequalityConstraint? && c.ComparableConstraint? == d.ComparableConstraint?
    ensures c.ComparisonConstraint? == d.ComparisonConstraint? && c.CombineConstraint? == d.CombineConstraint?
    ensures c.PreferenceConstraint? == d.PreferenceConstraint? && c.ExistentialConstraint? == d.ExistentialConstraint?
    ensures c.ImplicationConstraint? == d.ImplicationConstraint? && c.ArithmeticConstraint? == d.ArithmeticConstraint?
    ensures c.ArithmeticConstraint? && d.ArithmeticConstraint? ==> c.operation == d.operation
  {
  }

  /** The constraints whose serializer returns null: one of the sides it checks is missing. */
  predicate Dropped(c: Constraint)
  {
    match c
    case SubtypeConstraint(a, b) => a.None? || b.None?
    case EqualityConstraint(a, b) => a.None? || b.None?
    case InequalityConstraint(a, b) => a.None? || b.None?
    case ComparableConstraint(a, b) => a.None? || b.None?
    case CombineConstraint(t, d, r) => t.None? || d.None? || r.None?
    case PreferenceConstraint(v, g, _) => v.None? || g.None?
    case _ => false
  }

  predicate NotExistential(s: Slot)
  {
    !s.ExistentialVariableSlot?
  }

  /**
   * When serializing a constraint does not throw: it is dropped before any
   * slot is written, or none of the slots it writes is existential and a
   * comparison has its result slot. Nested constraints count too.
   */
  predicate Serializable(c: Constraint)
    decreases c, 1
  {
    match c
    case SubtypeConstraint(a, b) => a.None? || b.None? || (NotExistential(a.value) && NotExistential(b.value))
    case EqualityConstraint(a, b) => a.None? || b.None? || (NotExistential(a.value) && NotExistential(b.value))
    case InequalityConstraint(a, b) => a.None? || b.None? || (NotExistential(a.value) && NotExistential(b.value))
    case ComparableConstraint(a, b) => a.None? || b.None? || (NotExistential(a.value) && NotExistential(b.value))
    case ComparisonConstraint(_, l, r, res, _) =>
      NotExistential(l) && NotExistential(r) && res.Some? && NotExistential(res.value)
    case CombineConstraint(t, d, res) =>
      t.None? || d.None? || res.None? ||
      (NotExistential(t.value) && NotExistential(d.value) && NotExistential(res.value))
    case PreferenceConstraint(v, g, _) => v.None? || g.None? || (NotExistential(v.value) && NotExistential(g.value))
    case ExistentialConstraint(p, thens, elses) => NotExistential(p) && AllSerializable(thens) && AllSerializable(elses)
    case ImplicationConstraint(assumptions, conclusion) => AllSerializable(assumptions) && Serializable(conclusion)
    case ArithmeticConstraint(_, l, r, res, _) => NotExistential(l) && NotExistential(r) && NotExistential(res)
  }

  predicate AllSerializable(cs: seq<Constraint>)
    decreases cs, 0
  {
    forall k | 0 <= k < |cs| :: Serializable(cs[k])
  }

  /** The object's "constraint" key holds the tag. */
  predicate HasTag(j: Json, tag: string)
  {
    j.JObject? && "constraint" in j.fields && j.fields["constraint"] == JString(tag)
  }

  /** An object with the given entries and the tag under the "constraint" key. */
  function Tagged(tag: string, fields: map<string, Json>): (j: Json)
    ensures HasTag(j, tag)
  {
    JObject(fields["constraint" := JString(tag)])
  }

  /** An object with the constraint key and two slot-valued keys. */
  function SerializePair(tag: string, firstKey: string, first: Slot, secondKey: string, second: Slot,
                         anno: Qual -> string): (r: Result<Option<Json>>)
    ensures r.Success? <==> NotExistential(first) && NotExistential(second)
    ensures r.Success? ==> r.value.Some? && HasTag(r.value.value, tag)
  {
    var firstText :- SerializeSlot(first, anno);
    var secondText :- SerializeSlot(second, anno);
    Success(Some(Tagged(tag, map[firstKey := JString(firstText), secondKey := JString(secondText)])))
  }

  /** An object with the constraint key and three slot-valued keys. */
  function SerializeTriple(tag: string, firstKey: string, first: Slot, secondKey: string, second: Slot,
                           thirdKey: string, third: Slot, anno: Qual -> string): (r: Result<Option<Json>>)
    ensures r.Success? <==> NotExistential(first) && NotExistential(second) && NotExistential(third)
    ensures r.Success? ==> r.value.Some? && HasTag(r.value.value, tag)
  {
    var firstText :- SerializeSlot(first, anno);
    var secondText :- SerializeSlot(second, anno);
    var thirdText :- SerializeSlot(third, anno);
    Success(Some(Tagged(tag, map[firstKey := JString(firstText), secondKey := JString(secondText),
                                 thirdKey := JString(thirdText)])))
  }

  /**
   * A comparison checks only its operands for null: a missing result slot is
   * dereferenced after both operands are written and throws.
   */
  function SerializeComparison(left: Slot, right: Slot, result: Option<Slot>, anno: Qual -> string)
    : (r: Result<Option<Json>>)
    ensures r.Success? <==> NotExistential(left) && NotExistential(right) && result.Some? && NotExistential(result.value)
    ensures r.Failure? && NotExistential(left) && NotExistential(right) && result.None? ==> r.error.NullPointer?
    ensures r.Success? ==> r.value.Some? && HasTag(r.value.value, "comparison")
  {
    var lhs :- SerializeSlot(left, anno);
    var rhs :- SerializeSlot(right, anno);
    if result.None? then Failure(NullPointer("comparison result"))
    else
      var res :- SerializeSlot(result.value, anno);
      Success(Some(Tagged("comparison", map["lhs" := JString(lhs), "rhs" := JString(rhs), "result" := JString(res)])))
  }

  /** A preference writes its two slots and its weight as a JSON number. */
  function SerializePreference(variable: Slot, goal: Slot, weight: int, anno: Qual -> string)
    : (r: Result<Option<Json>>)
    ensures r.Success? <==> NotExistential(variable) && NotExistential(goal)
    ensures r.Success? ==> r.value.Some? && HasTag(r.value.value, "preference")
  {
    var v :- SerializeSlot(variable, anno);
    var g :- SerializeSlot(goal, anno);
    Success(Some(Tagged("preference", map["variable" := JString(v), "goal" := JString(g), "weight" := JInt(weight)])))
  }

  /** A JSON null where a serializer returned null. */
  function OrNull(j: Option<Json>): Json
  {
    match j
    case Some(v) => v
    case None => JNull
  }

  /**
   * The per-kind serialize overloads: None is the null they return for a
   * constraint with a missing side, Failure an exception thrown while writing
   * a slot (or dereferencing the missing result of a comparison).
   */
  function SerializeConstraint(c: Constraint, anno: Qual -> string): (r: Result<Option<Json>>)
    decreases c, 1
    ensures Dropped(c) ==> r == Success(None)
    ensures r.Success? && !Dropped(c) ==> r.value.Some? && HasTag(r.value.value, Tag(c))
  {
    if c.ExistentialConstraint? then SerializeExistential(c, anno)
    else if c.ImplicationConstraint? then SerializeImplication(c, anno)
    else if IsTwoSided(c) then SerializeTwoSided(c, anno)
    else SerializeFlat(c, anno)
  }

  predicate IsTwoSided(c: Constraint)
  {
    c.SubtypeConstraint? || c.EqualityConstraint? || c.InequalityConstraint? || c.ComparableConstraint?
  }

  /** Subtype, equality, inequality and comparable: null when either side is missing. */
  function SerializeTwoSided(c: Constraint, anno: Qual -> string): (r: Result<Option<Json>>)
    requires IsTwoSided(c)
    ensures Dropped(c) ==> r == Success(None)
    ensures r.Success? && !Dropped(c) ==> r.value.Some? && HasTag(r.value.value, Tag(c))
  {
    match c
    case SubtypeConstraint(sub, sup) =>
      if sub.None? || sup.None? then Success(None)
      else SerializePair("subtype", "sub", sub.value, "sup", sup.value, anno)
    case EqualityConstraint(first, second) =>
      if first.None? || second.None? then Success(None)
      else SerializePair("equality", "lhs", first.value, "rhs", second.value, anno)
    case InequalityConstraint(first, second) =>
      if first.None? || second.None? then Success(None)
      else SerializePair("inequality", "lhs", first.value, "rhs", second.value, anno)
    case ComparableConstraint(first, second) =>
      if first.None? || second.None? then Success(None)
      else SerializePair("comparable", "lhs", first.value, "rhs", second.value, anno)
  }

  /** Comparison, combine, preference and arithmetic constraints. */
  function SerializeFlat(c: Constraint, anno: Qual -> string): (r: Result<Option<Json>>)
    requires !IsTwoSided(c) && !c.ExistentialConstraint? && !c.ImplicationConstraint?
    ensures Dropped(c) ==> r == Success(None)
    ensures r.Success? && !Dropped(c) ==> r.value.Some? && HasTag(r.value.value, Tag(c))
  {
    match c
    case ComparisonConstraint(_, left, right, result, _) =>
      SerializeComparison(left, right, result, anno)
    case CombineConstraint(target, declared, result) =>
      if target.None? || declared.None? || result.None? then Success(None)
      else SerializeTriple("combine", "target", target.value, "declared", declared.value,
                           "result", result.value, anno)
    case PreferenceConstraint(variable, goal, weight) =>
      if variable.None? || goal.None? then Success(None)
      else SerializePreference(variable.value, goal.value, weight, anno)
    case ArithmeticConstraint(op, left, right, result, _) =>
      SerializeTriple(ArithmeticTag(op), "left_operand", left, "right_operand", right, "result", result, anno)
  }

  /** An existential constraint: the potential slot's reference and both branches as arrays. */
  function SerializeExistential(c: Constraint, anno: Qual -> string): (r: Result<Option<Json>>)
    requires c.ExistentialConstraint?
    decreases c, 0
    ensures r.Success? <==> NotExistential(c.potentialVariable) && ToJsonArray(c.potentialConstraints, anno).Success?
                            && ToJsonArray(c.alternativeConstraints, anno).Success?
    ensures r.Success? ==> r.value.Some? && HasTag(r.value.value, "enabled_check")
  {
    var id :- SerializeSlot(c.potentialVariable, anno);
    var thenItems :- ToJsonArray(c.potentialConstraints, anno);
    var elseItems :- ToJsonArray(c.alternativeConstraints, anno);
    Success(Some(Tagged("enabled_check", map["id" := JString(id), "then" := JArray(thenItems),
                                            "else" := JArray(elseItems)])))
  }

  /** An implication: every assumption (a null one kept as JSON null) and the conclusion. */
  function SerializeImplication(c: Constraint, anno: Qual -> string): (r: Result<Option<Json>>)
    requires c.ImplicationConstraint?
    decreases c, 0
    ensures r.Success? <==> SerializeEach(c.assumptions, anno).Success? && SerializeConstraint(c.conclusion, anno).Success?
    ensures r.Success? ==> r.value.Some? && HasTag(r.value.value, "implication")
  {
    var items :- SerializeEach(c.assumptions, anno);
    var concl :- SerializeConstraint(c.conclusion, anno);
    Success(Some(Tagged("implication", map["assumptions" := JArray(items), "conclusion" := OrNull(concl)])))
  }

  /** constraintsToJsonArray: the serialized constraints in order, nulls left out; the first exception propagates. */
  function ToJsonArray(cs: seq<Constraint>, anno: Qual -> string): (r: Result<seq<Json>>)
    decreases cs, 0
    ensures r.Success? ==> |r.value| <= |cs|
  {
    if cs == [] then Success([])
    else
      var init :- ToJsonArray(cs[..|cs| - 1], anno);
      var last :- SerializeConstraint(cs[|cs| - 1], anno);
      Success(if last.Some? then init + [last.value] else init)
  }

  /** The implication's assumption list: one entry per assumption, a null kept as JSON null. */
  function SerializeEach(cs: seq<Constraint>, anno: Qual -> string): (r: Result<seq<Json>>)
    decreases cs, 0
    ensures r.Success? ==> |r.value| == |cs|
  {
    if cs == [] then Success([])
    else
      var init :- SerializeEach(cs[..|cs| - 1], anno);
      var last :- SerializeConstraint(cs[|cs| - 1], anno);
      Success(init + [OrNull(last)])
  }

  /** The constraints that are not dropped, in their original order. */
  function Kept(cs: seq<Constraint>): (r: seq<Constraint>)
    ensures |r| <= |cs|
    ensures forall k | 0 <= k < |r| :: !Dropped(r[k])
  {
    if cs == [] then []
    else Kept(cs[..|cs| - 1]) + (if Dropped(cs[|cs| - 1]) then [] else [cs[|cs| - 1]])
  }

  lemma AllSerializablePrefix(cs: seq<Constraint>)
    requires cs != []
    ensures AllSerializable(cs) <==> AllSerializable(cs[..|cs| - 1]) && Serializable(cs[|cs| - 1])
  {
    var init := cs[..|cs| - 1];
    assert forall k | 0 <= k < |init| :: init[k] == cs[k];
  }

  lemma TwoSidedSucceedsIff(c: Constraint, anno: Qual -> string)
    requires IsTwoSided(c)
    ensures SerializeConstraint(c, anno).Success? <==> Serializable(c)
  {
  }

  lemma FlatSucceedsIff(c: Constraint, anno: Qual -> string)
    requires !IsTwoSided(c) && !c.ExistentialConstraint? && !c.ImplicationConstraint?
    ensures SerializeConstraint(c, anno).Success? <==> Serializable(c)
  {
  }

  lemma ExistentialSucceedsIff(c: Constraint, anno: Qual -> string)
    requires c.ExistentialConstraint?
    requires ToJsonArray(c.potentialConstraints, anno).Success? <==> AllSerializable(c.potentialConstraints)
    requires ToJsonArray(c.alternativeConstraints, anno).Success? <==> AllSerializable(c.alternativeConstraints)
    ensures SerializeExistential(c, anno).Success? <==>
            NotExistential(c.potentialVariable) && AllSerializable(c.potentialConstraints) && AllSerializable(c.alternativeConstraints)
  {
  }

  lemma ExistentialSerializable(c: Constraint)
    requires c.ExistentialConstraint?
    ensures Serializable(c) <==>
            NotExistential(c.potentialVariable) && AllSerializable(c.potentialConstraints) && AllSerializable(c.alternativeConstraints)
  {
  }

  lemma ImplicationSucceedsIff(c: Constraint, anno: Qual -> string)
    requires c.ImplicationConstraint?
    requires SerializeEach(c.assumptions, anno).Success? <==> AllSerializable(c.assumptions)
    requires SerializeConstraint(c.conclusion, anno).Success? <==> Serializable(c.conclusion)
    ensures SerializeConstraint(c, anno).Success? <==> Serializable(c)
  {
  }

  /** Serializing a constraint throws exactly when it is not Serializable. */
  lemma {:induction false} SerializeSucceedsIff(c: Constraint, anno: Qual -> string)
    decreases c, 1
    ensures SerializeConstraint(c, anno).Success? <==> Serializable(c)
  {
    if c.ExistentialConstraint? {
      ToJsonArraySucceedsIff(c.potentialConstraints, anno);
      ToJsonArraySucceedsIff(c.alternativeConstraints, anno);
      ExistentialSucceedsIff(c, anno);
      ExistentialSerializable(c);
    } else if c.ImplicationConstraint? {
      SerializeEachSucceedsIff(c.assumptions, anno);
      SerializeSucceedsIff(c.conclusion, anno);
      ImplicationSucceedsIff(c, anno);
    } else if IsTwoSided(c) {
      TwoSidedSucceedsIff(c, anno);
    } else {
      FlatSucceedsIff(c, anno);
    }
  }

  lemma {:induction false} ToJsonArraySucceedsIff(cs: seq<Constraint>, anno: Qual -> string)
    decreases cs, 0
    ensures ToJsonArray(cs, anno).Success? <==> AllSerializable(cs)
  {
    if cs != [] {
      ToJsonArraySucceedsIff(cs[..|cs| - 1], anno);
      SerializeSucceedsIff(cs[|cs| - 1], anno);
      AllSerializablePrefix(cs);
    }
  }

  lemma {:induction false} SerializeEachSucceedsIff(cs: seq<Constraint>, anno: Qual -> string)
    decreases cs, 0
    ensures SerializeEach(cs, anno).Success? <==> AllSerializable(cs)
  {
    if cs != [] {
      SerializeEachSucceedsIff(cs[..|cs| - 1], anno);
      SerializeSucceedsIff(cs[|cs| - 1], anno);
      AllSerializablePrefix(cs);
    }
  }

  /**
   * constraintsToJsonArray keeps input order and drops the null results:
   * its k-th entry is the serialization of the k-th constraint that is not dropped.
   */
  lemma {:induction false} ToJsonArrayKeepsOrder(cs: seq<Constraint>, anno: Qual -> string)
    requires ToJsonArray(cs, anno).Success?
    ensures |ToJsonArray(cs, anno).value| == |Kept(cs)|
    ensures forall k | 0 <= k < |Kept(cs)| ::
              SerializeConstraint(Kept(cs)[k], anno) == Success(Some(ToJsonArray(cs, anno).value[k]))
  {
    if cs != [] {
      var init := cs[..|cs| - 1];
      var last := cs[|cs| - 1];
      ToJsonArrayKeepsOrder(init, anno);
      var items := ToJsonArray(init, anno).value;
      var obj := SerializeConstraint(last, anno).value;
      if Dropped(last) {
        assert Kept(cs) == Kept(init);
        assert ToJsonArray(cs, anno).value == items;
      } else {
        assert obj.Some?;
        assert Kept(cs) == Kept(init) + [last];
        assert ToJsonArray(cs, anno).value == items + [obj.value];
      }
    }
  }

  /** Once a prefix of the list throws, the whole list throws the same exception. */
  lemma {:induction false} ToJsonArrayFailureStops(cs: seq<Constraint>, n: nat, anno: Qual -> string)
    requires n <= |cs|
    requires ToJsonArray(cs[..n], anno).Failure?
    ensures ToJsonArray(cs, anno) == ToJsonArray(cs[..n], anno)
    decreases |cs| - n
  {
    if n < |cs| {
      assert cs[..n + 1][..n] == cs[..n];
      ToJsonArrayFailureStops(cs, n + 1, anno);
    } else {
      assert cs[..n] == cs;
    }
  }

  /** The references of a set of slot ids. */
  function VarNames(ids: set<nat>): set<string>
  {
    set x | x in ids :: VarName(x)
  }

  /** Adding one solved id adds exactly its reference to the keys, and a new one. */
  lemma VarNamesStep(done: set<nat>, id: nat)
    requires id !in done
    ensures VarNames(done + {id}) == VarNames(done) + {VarName(id)}
    ensures VarName(id) !in VarNames(done)
    ensures forall x | x in done :: VarName(x) != VarName(id)
  {
    forall x | x in done
      ensures VarName(x) != VarName(id)
    {
      VarNameInjective(x, id);
    }
  }

  /** The entries written for the solved ids in done, and no others. */
  predicate SectionOf(done: set<nat>, solutions: map<nat, Qual>, anno: Qual -> string, fields: map<string, Json>)
    requires done <= solutions.Keys
  {
    fields.Keys == VarNames(done) &&
    (forall id | id in done :: fields[VarName(id)] == TypeValue(anno(solutions[id])))
  }

  lemma SectionStep(done: set<nat>, id: nat, solutions: map<nat, Qual>, anno: Qual -> string,
                    fields: map<string, Json>)
    requires done <= solutions.Keys && id in solutions && id !in done
    requires SectionOf(done, solutions, anno, fields)
    ensures SectionOf(done + {id}, solutions, anno, fields[VarName(id) := TypeValue(anno(solutions[id]))])
  {
    var next := fields[VarName(id) := TypeValue(anno(solutions[id]))];
    VarNamesStep(done, id);
    assert next.Keys == fields.Keys + {VarName(id)};
    forall x | x in done + {id}
      ensures next[VarName(x)] == TypeValue(anno(solutions[x]))
    {
      if x != id {
        assert VarName(x) != VarName(id);
      }
    }
  }

  /** SectionStep, stated for the ids still to be written. */
  lemma SectionStepRest(rest: set<nat>, id: nat, solutions: map<nat, Qual>, anno: Qual -> string,
                        fields: map<string, Json>)
    requires rest <= solutions.Keys && id in rest
    requires SectionOf(solutions.Keys - rest, solutions, anno, fields)
    ensures SectionOf(solutions.Keys - (rest - {id}), solutions, anno, fields[VarName(id) := TypeValue(anno(solutions[id]))])
  {
    SectionStep(solutions.Keys - rest, id, solutions, anno, fields);
    assert solutions.Keys - (rest - {id}) == (solutions.Keys - rest) + {id};
  }

  /** Distinct ids have distinct references, so the section has one entry per solved slot. */
  lemma {:induction false} VarNamesSize(ids: set<nat>)
    ensures |VarNames(ids)| == |ids|
    decreases |ids|
  {
    if ids != {} {
      var id :| id in ids;
      var rest := ids - {id};
      VarNamesSize(rest);
      VarNamesSizeStep(rest, id);
      assert rest + {id} == ids;
    }
  }

  /** One new id adds one new reference. */
  lemma VarNamesSizeStep(rest: set<nat>, id: nat)
    requires id !in rest && |VarNames(rest)| == |rest|
    ensures |VarNames(rest + {id})| == |rest + {id}|
  {
    VarNamesStep(rest, id);
    AddNewElement(VarNames(rest), VarName(id));
    AddNewElement(rest, id);
  }

  /** Adding an element a set lacks grows it by one. */
  lemma AddNewElement<T>(s: set<T>, x: T)
    requires x !in s
    ensures |s + {x}| == |s| + 1
  {
  }

  /** The section has one entry per solved slot. */
  lemma SectionSize(solutions: map<nat, Qual>, anno: Qual -> string, fields: map<string, Json>)
    requires SectionOf(solutions.Keys, solutions, anno, fields)
    ensures |fields| == |solutions|
  {
    VarNamesSize(solutions.Keys);
    assert |fields| == |fields.Keys|;
    assert |solutions| == |solutions.Keys|;
  }

  /** The "type_value" object of one solved variable. */
  function TypeValue(text: string): Json
  {
    JObject(map["type_value" := JString(text)])
  }

  /** The "variables" object: one "var:ID" key per solved slot, holding the solution's text. */
  predicate IsVariablesSection(solutions: map<nat, Qual>, anno: Qual -> string, j: Json)
  {
    j.JObject? && SectionOf(solutions.Keys, solutions, anno, j.fields)
  }

  /** Everything the file holds: it is written only when no constraint throws. */
  predicate IsConstraintFile(j: Json, constraints: seq<Constraint>, solutions: Option<map<nat, Qual>>,
                             anno: Qual -> string)
  {
    j.JObject? &&
    j.fields.Keys <= {"version", "variables", "constraints"} &&
    "version" in j.fields && j.fields["version"] == JString(VERSION) &&
    "constraints" in j.fields && j.fields["constraints"].JArray? &&
    ToJsonArray(constraints, anno) == Success(j.fields["constraints"].items) &&
    ("variables" in j.fields <==> solutions.Some? && |solutions.value| > 0) &&
    ("variables" in j.fields ==> IsVariablesSection(solutions.value, anno, j.fields["variables"]))
  }

  class JsonSerializer {
    const slots: seq<Slot>
    const constraints: seq<Constraint>
    const solutions: Option<map<nat, Qual>>
    const annotationSerializer: Qual -> string

    constructor (slots: seq<Slot>, constraints: seq<Constraint>, solutions: Option<map<nat, Qual>>,
                 annotationSerializer: Qual -> string)
      ensures this.slots == slots && this.constraints == constraints
      ensures this.solutions == solutions && this.annotationSerializer == annotationSerializer
    {
      this.slots := slots;
      this.constraints := constraints;
      this.solutions := solutions;
      this.annotationSerializer := annotationSerializer;
    }

    /** generateConstraintFile: fails exactly when some constraint cannot be written. */
    method GenerateConstraintFile() returns (r: Result<Json>)
      ensures r.Success? <==> AllSerializable(constraints)
      ensures r.Success? ==> IsConstraintFile(r.value, constraints, solutions, annotationSerializer)
    {
      var fields: map<string, Json> := map["version" := JString(VERSION)];
      if solutions.Some? && |solutions.value| > 0 {
        var variables := GenerateVariablesSection();
        fields := fields["variables" := variables.value];
      }
      var items := ConstraintsToJsonArray(constraints);
      ToJsonArraySucceedsIff(constraints, annotationSerializer);
      if items.Failure? {
        return Failure(items.error);
      }
      fields := fields["constraints" := JArray(items.value)];
      r := Success(JObject(fields));
    }

    /** generateVariablesSection: a null solution map is dereferenced and throws. */
    method GenerateVariablesSection() returns (r: Result<Json>)
      ensures r.Failure? <==> solutions.None?
      ensures r.Success? ==> IsVariablesSection(solutions.value, annotationSerializer, r.value)
      ensures r.Success? ==> |r.value.fields| == |solutions.value|
    {
      if solutions.None? {
        return Failure(NullPointer("solutions"));
      }
      var sol := solutions.value;
      var variables: map<string, Json> := map[];
      var rest := sol.Keys;
      assert sol.Keys - rest == {};
      while rest != {}
        invariant rest <= sol.Keys
        invariant SectionOf(sol.Keys - rest, sol, annotationSerializer, variables)
        decreases |rest|
      {
        var id :| id in rest;
        SectionStepRest(rest, id, sol, annotationSerializer, variables);
        variables := variables[VarName(id) := TypeValue(annotationSerializer(sol[id]))];
        rest := rest - {id};
      }
      assert sol.Keys - rest == sol.Keys;
      SectionSize(sol, annotationSerializer, variables);
      r := Success(JObject(variables));
    }

    /** constraintsToJsonArray, as the loop it is. */
    method ConstraintsToJsonArray(cs: seq<Constraint>) returns (r: Result<seq<Json>>)
      ensures r == ToJsonArray(cs, annotationSerializer)
    {
      var items: seq<Json> := [];
      var i := 0;
      while i < |cs|
        invariant 0 <= i <= |cs|
        invariant ToJsonArray(cs[..i], annotationSerializer) == Success(items)
      {
        var obj := SerializeConstraint(cs[i], annotationSerializer);
        assert cs[..i + 1][..i] == cs[..i];
        if obj.Failure? {
          ToJsonArrayFailureStops(cs, i + 1, annotationSerializer);
          return Failure(obj.error);
        }
        if obj.value.Some? {
          items := items + [obj.value.value];
        }
        i := i + 1;
      }
      assert cs[..i] == cs;
      r := Success(items);
    }
  }

  /**
   * A subtype constraint between two variable slots with Java int ids is
   * written with its "sub" and "sup" references, which read back as the ids.
   */
  lemma SubtypeRoundTrip(sub: Slot, sup: Slot, anno: Qual -> string)
    requires sub.IsVariable() && sup.IsVariable() && NotExistential(sub) && NotExistential(sup)
    requires IsInt32(sub.id) && IsInt32(sup.id)
    ensures var r := SerializeConstraint(SubtypeConstraint(Some(sub), Some(sup)), anno);
            r.Success? && r.value.Some? && r.value.value.JObject? &&
            "sub" in r.value.value.fields && "sup" in r.value.value.fields &&
            r.value.value.fields["sub"].JString? && ParseVarName(r.value.value.fields["sub"].str) == Some(sub.id) &&
            r.value.value.fields["sup"].JString? && ParseVarName(r.value.value.fields["sup"].str) == Some(sup.id)
  {
    var subText := SerializeSlot(sub, anno).value;
    var supText := SerializeSlot(sup, anno).value;
    var fields := map["sub" := JString(subText), "sup" := JString(supText)]["constraint" := JString("subtype")];
    assert "sub" != "constraint" && "sup" != "constraint" && "sub" != "sup" by {
      assert "sub"[0] != "constraint"[0] && "sup"[0] != "constraint"[0] && "sub"[2] != "sup"[2];
    }
    assert fields["sub"] == JString(subText) && fields["sup"] == JString(supText);
  }
}
