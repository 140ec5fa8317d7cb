/**
 * Constraints over slots, the arithmetic and comparison operation tables, the
 * guarded factories of ArithmeticConstraint and ComparisonConstraint with
 * their location-blind equality, and the log of constraints the inference
 * records.
 */
module Constraints {
  import opened Wrappers
  import opened Slots

  /** The javac tree kinds of binary operators and compound assignments; anything else is Other. */
  datatype TreeKind =
    | Plus | PlusAssignment | Minus | MinusAssignment | Multiply | MultiplyAssignment
    | Divide | DivideAssignment | Remainder | RemainderAssignment
    | LeftShift | LeftShiftAssignment | RightShift | RightShiftAssignment
    | UnsignedRightShift | UnsignedRightShiftAssignment
    | And | AndAssignment | Or | OrAssignment | Xor | XorAssignment
    | EqualTo | NotEqualTo | GreaterThan | GreaterThanEqual | LessThan | LessThanEqual
    | Other(name: string)

  datatype ArithmeticOperationKind =
    | PLUS | MINUS | MULTIPLY | DIVIDE | REMAINDER | LEFT_SHIFT | RIGHT_SHIFT
    | UNSIGNED_RIGHT_SHIFT | AND | OR | XOR

  datatype ComparisonOperationKind =
    | EQUAL_TO | NOT_EQUAL_TO | GREATER_THAN | GREATER_THAN_EQUAL | LESS_THAN | LESS_THAN_EQUAL

  function ArithmeticSymbol(op: ArithmeticOperationKind): string
  {
    match op
    case PLUS => "+"
    case MINUS => "-"
    case MULTIPLY => "*"
    case DIVIDE => "/"
    case REMAINDER => "%"
    case LEFT_SHIFT => "<<"
    case RIGHT_SHIFT => ">>"
    case UNSIGNED_RIGHT_SHIFT => ">>>"
    case AND => "&"
    case OR => "|"
    case XOR => "^"
  }

  function ComparisonSymbol(op: ComparisonOperationKind): string
  {
    match op
    case EQUAL_TO => "=="
    case NOT_EQUAL_TO => "!="
    case GREATER_THAN => ">"
    case GREATER_THAN_EQUAL => ">="
    case LESS_THAN => "<"
    case LESS_THAN_EQUAL => "<="
  }

  /** The tree kind of the plain binary operator of an arithmetic operation. */
  function OperatorTreeKind(op: ArithmeticOperationKind): TreeKind
  {
    match op
    case PLUS => Plus
    case MINUS => Minus
    case MULTIPLY => Multiply
    case DIVIDE => Divide
    case REMAINDER => Remainder
    case LEFT_SHIFT => LeftShift
    case RIGHT_SHIFT => RightShift
    case UNSIGNED_RIGHT_SHIFT => UnsignedRightShift
    case AND => And
    case OR => Or
    case XOR => Xor
  }

  /** The tree kind of the compound assignment of an arithmetic operation. */
  function AssignmentTreeKind(op: ArithmeticOperationKind): TreeKind
  {
    match op
    case PLUS => PlusAssignment
    case MINUS => MinusAssignment
    case MULTIPLY => MultiplyAssignment
    case DIVIDE => DivideAssignment
    case REMAINDER => RemainderAssignment
    case LEFT_SHIFT => LeftShiftAssignment
    case RIGHT_SHIFT => RightShiftAssignment
    case UNSIGNED_RIGHT_SHIFT => UnsignedRightShiftAssignment
    case AND => AndAssignment
    case OR => OrAssignment
    case XOR => XorAssignment
  }

  /** ArithmeticOperationKind.fromTreeKind: an operator and its compound assignment give the same operation. */
  function ArithmeticFromTreeKind(kind: TreeKind): (r: Result<ArithmeticOperationKind>)
    ensures r.Failure? ==> r.error.BugInCF?
  {
    match kind
    case Plus => Success(PLUS)
    case PlusAssignment => Success(PLUS)
    case Minus => Success(MINUS)
    case MinusAssignment => Success(MINUS)
    case Multiply => Success(MULTIPLY)
    case MultiplyAssignment => Success(MULTIPLY)
    case Divide => Success(DIVIDE)
    case DivideAssignment => Success(DIVIDE)
    case Remainder => Success(REMAINDER)
    case RemainderAssignment => Success(REMAINDER)
    case LeftShift => Success(LEFT_SHIFT)
    case LeftShiftAssignment => Success(LEFT_SHIFT)
    case RightShift => Success(RIGHT_SHIFT)
    case RightShiftAssignment => Success(RIGHT_SHIFT)
    case UnsignedRightShift => Success(UNSIGNED_RIGHT_SHIFT)
    case UnsignedRightShiftAssignment => Success(UNSIGNED_RIGHT_SHIFT)
    case And => Success(AND)
    case AndAssignment => Success(AND)
    case Or => Success(OR)
    case OrAssignment => Success(OR)
    case Xor => Success(XOR)
    case XorAssignment => Success(XOR)
    case _ => Failure(BugInCF(NoArithmeticKind))
  }

  /** The tree kind of a comparison operation. */
  function ComparisonTreeKind(op: ComparisonOperationKind): TreeKind
  {
    match op
    case EQUAL_TO => EqualTo
    case NOT_EQUAL_TO => NotEqualTo
    case GREATER_THAN => GreaterThan
    case GREATER_THAN_EQUAL => GreaterThanEqual
    case LESS_THAN => LessThan
    case LESS_THAN_EQUAL => LessThanEqual
  }

  /** The messages of the BugInCF that fromTreeKind throws. */
  const NoArithmeticKind := "There are no defined ArithmeticOperationKinds for the given tree kind"
  const NoComparisonKind := "There are no defined ComparableOperationKind for the given tree kind"

  /** ComparisonOperationKind.fromTreeKind: exactly the six relational and equality operators. */
  function ComparisonFromTreeKind(kind: TreeKind): (r: Result<ComparisonOperationKind>)
    ensures r.Failure? ==> r.error.BugInCF?
  {
    match kind
    case EqualTo => Success(EQUAL_TO)
    case NotEqualTo => Success(NOT_EQUAL_TO)
    case GreaterThan => Success(GREATER_THAN)
    case GreaterThanEqual => Success(GREATER_THAN_EQUAL)
    case LessThan => Success(LESS_THAN)
    case LessThanEqual => Success(LESS_THAN_EQUAL)
    case _ => Failure(BugInCF(NoComparisonKind))
  }

  /**
   * fromTreeKind accepts exactly the operator and the compound assignment of
   * each arithmetic operation, and maps both to that operation.
   */
  lemma ArithmeticFromTreeKindExact(kind: TreeKind, op: ArithmeticOperationKind)
    ensures ArithmeticFromTreeKind(kind) == Success(op) <==>
            (kind == OperatorTreeKind(op) || kind == AssignmentTreeKind(op))
  {
  }

  /** fromTreeKind of a comparison succeeds with op exactly on op's own tree kind. */
  lemma ComparisonFromTreeKindExact(kind: TreeKind, op: ComparisonOperationKind)
    ensures ComparisonFromTreeKind(kind) == Success(op) <==> kind == ComparisonTreeKind(op)
  {
  }

  /** No two operations share a symbol. */
  lemma SymbolsDistinct(a: ArithmeticOperationKind, b: ArithmeticOperationKind,
                        c: ComparisonOperationKind, d: ComparisonOperationKind)
    ensures ArithmeticSymbol(a) == ArithmeticSymbol(b) ==> a == b
    ensures ComparisonSymbol(c) == ComparisonSymbol(d) ==> c == d
  {
  }

  datatype Constraint =
    | SubtypeConstraint(subtype: Option<Slot>, supertype: Option<Slot>)
    | EqualityConstraint(first: Option<Slot>, second: Option<Slot>)
    | InequalityConstraint(first: Option<Slot>, second: Option<Slot>)
    | ComparableConstraint(first: Option<Slot>, second: Option<Slot>)
    | ComparisonConstraint(comparison: ComparisonOperationKind, left: Slot, right: Slot,
                           comparisonResult: Option<Slot>, location: Location)
    | CombineConstraint(target: Option<Slot>, declared: Option<Slot>, combResult: Option<Slot>)
    | PreferenceConstraint(variable: Option<Slot>, goal: Option<Slot>, weight: int)
    | ExistentialConstraint(potentialVariable: Slot, potentialConstraints: seq<Constraint>,
                            alternativeConstraints: seq<Constraint>)
    | ImplicationConstraint(assumptions: seq<Constraint>, conclusion: Constraint)
    | ArithmeticConstraint(operation: ArithmeticOperationKind, leftOperand: Slot, rightOperand: Slot,
                           arithmeticResult: Slot, location: Location)

  /** The slots a constraint is over, as recorded by the constructors of the two guarded classes. */
  function AllSlots(c: Constraint): (slots: seq<Option<Slot>>)
    requires c.ArithmeticConstraint? || c.ComparisonConstraint?
    ensures |slots| == 3
  {
    if c.ArithmeticConstraint? then [Some(c.leftOperand), Some(c.rightOperand), Some(c.arithmeticResult)]
    else [Some(c.left), Some(c.right), c.comparisonResult]
  }

  /**
   * ArithmeticConstraint.create: every argument must be present and the
   * location must be a real one; otherwise BugInCF.
   */
  function CreateArithmeticConstraint(operation: Option<ArithmeticOperationKind>, left: Option<Slot>,
                                      right: Option<Slot>, result: Option<Slot>,
                                      location: Option<Location>): (r: Result<Constraint>)
    requires result.Some? ==> result.value.ArithmeticVariableSlot?
    ensures r.Success? <==> operation.Some? && left.Some? && right.Some? && result.Some?
                            && location.Some? && !location.value.IsMissing()
    ensures r.Failure? ==> r.error.BugInCF?
    ensures r.Success? ==> r.value.ArithmeticConstraint? && r.value.operation == operation.value
                           && AllSlots(r.value) == [left, right, result]
                           && r.value.location == location.value
  {
    if operation.None? || left.None? || right.None? || result.None? then
      Failure(BugInCF("Create arithmetic constraint with null argument."))
    else if location.None? || location.value.IsMissing() then
      Failure(BugInCF("Cannot create an ArithmeticConstraint with a missing annotation location."))
    else
      Success(ArithmeticConstraint(operation.value, left.value, right.value, result.value, location.value))
  }

  /**
   * ComparisonConstraint.create: the operation and both operands must be present
   * (the result slot is not checked) and the location must be a real one.
   */
  function CreateComparisonConstraint(operation: Option<ComparisonOperationKind>, left: Option<Slot>,
                                      right: Option<Slot>, result: Option<Slot>,
                                      location: Option<Location>): (r: Result<Constraint>)
    requires result.Some? ==> result.value.ComparisonVariableSlot?
    ensures r.Success? <==> operation.Some? && left.Some? && right.Some?
                            && location.Some? && !location.value.IsMissing()
    ensures r.Failure? ==> r.error.BugInCF?
    ensures r.Success? ==> r.value.ComparisonConstraint? && r.value.comparison == operation.value
                           && AllSlots(r.value) == [left, right, result]
                           && r.value.location == location.value
  {
    if operation.None? || left.None? || right.None? then
      Failure(BugInCF("Create comparable constraint with null argument."))
    else if location.None? || location.value.IsMissing() then
      Failure(BugInCF("Cannot create an ComparisonConstraint with a missing annotation location."))
    else
      Success(ComparisonConstraint(operation.value, left.value, right.value, result, location.value))
  }

  /** ArithmeticConstraint.equals: same class, operation, operands and result; the location is ignored. */
  predicate ArithmeticEquals(a: Constraint, b: Constraint)
    requires a.ArithmeticConstraint?
  {
    b.ArithmeticConstraint? && a.operation == b.operation && a.leftOperand == b.leftOperand
    && a.rightOperand == b.rightOperand && a.arithmeticResult == b.arithmeticResult
  }

  /** The fields ArithmeticConstraint.hashCode is computed from. */
  function ArithmeticHashKey(c: Constraint): (ArithmeticOperationKind, Slot, Slot, Slot)
    requires c.ArithmeticConstraint?
  {
    (c.operation, c.leftOperand, c.rightOperand, c.arithmeticResult)
  }

  /** ComparisonConstraint.equals: same class, operands and operation; the result and location are ignored. */
  predicate ComparisonEquals(a: Constraint, b: Constraint)
    requires a.ComparisonConstraint?
  {
    b.ComparisonConstraint? && a.left == b.left && a.right == b.right && a.comparison == b.comparison
  }

  /** The fields ComparisonConstraint.hashCode is computed from. */
  function ComparisonHashKey(c: Constraint): (Slot, Slot, ComparisonOperationKind)
    requires c.ComparisonConstraint?
  {
    (c.left, c.right, c.comparison)
  }

  /**
   * Arithmetic equality is the structural equality of everything but the
   * location, and it agrees with the hash: equal constraints have equal hash
   * inputs, and equal hash inputs make arithmetic constraints equal.
   */
  lemma ArithmeticEqualityIgnoresLocation(a: Constraint, b: Constraint)
    requires a.ArithmeticConstraint?
    ensures ArithmeticEquals(a, b) <==> b.ArithmeticConstraint? && a.(location := b.location) == b
    ensures b.ArithmeticConstraint? ==> (ArithmeticEquals(a, b) <==> ArithmeticHashKey(a) == ArithmeticHashKey(b))
  {
  }

  /**
   * Comparison equality ignores both the location and the result slot, and it
   * agrees with the hash.
   */
  lemma ComparisonEqualityIgnoresResult(a: Constraint, b: Constraint)
    requires a.ComparisonConstraint?
    ensures ComparisonEquals(a, b) <==>
            b.ComparisonConstraint? && a.(location := b.location, comparisonResult := b.comparisonResult) == b
    ensures b.ComparisonConstraint? ==> (ComparisonEquals(a, b) <==> ComparisonHashKey(a) == ComparisonHashKey(b))
  {
  }

  /** Both equalities are equivalence relations, as equals must be. */
  lemma EqualitiesAreEquivalences(a: Constraint, b: Constraint, c: Constraint)
    requires a.ArithmeticConstraint? && b.ArithmeticConstraint? && c.ArithmeticConstraint?
    ensures ArithmeticEquals(a, a)
    ensures ArithmeticEquals(a, b) ==> ArithmeticEquals(b, a)
    ensures ArithmeticEquals(a, b) && ArithmeticEquals(b, c) ==> ArithmeticEquals(a, c)
  {
  }

  /** The real type system's qualifier hierarchy, which the inference treats as given. */
  datatype RealHierarchy = RealHierarchy(
    isSubtype: (Qual, Qual) -> bool,
    lub: (Qual, Qual) -> Qual,
    glb: (Qual, Qual) -> Qual,
    tops: seq<Qual>,
    bottoms: seq<Qual>)
  {
    /** The tops and the bottoms are sets: no qualifier is listed twice. */
    predicate Distinct()
    {
      (forall i, j | 0 <= i < j < |tops| :: tops[i] != tops[j])
      && (forall i, j | 0 <= i < j < |bottoms| :: bottoms[i] != bottoms[j])
    }
  }

  /**
   * The constraint manager: an append-only log of the constraints emitted so
   * far. A subtype or equality between two constants is decided at once
   * against the real hierarchy and is not logged.
   */
  class ConstraintManager {
    var constraints: seq<Constraint>
    const hierarchy: RealHierarchy

    constructor (hierarchy: RealHierarchy)
      ensures this.hierarchy == hierarchy && constraints == []
    {
      this.hierarchy := hierarchy;
      constraints := [];
    }

    /** addSubtypeConstraintNoErrorMsg: whether the subtype relation can still hold. */
    method AddSubtypeConstraintNoErrorMsg(sub: Slot, sup: Slot) returns (holds: bool)
      modifies this
      ensures sub.ConstantSlot? && sup.ConstantSlot? ==>
                holds == hierarchy.isSubtype(sub.value, sup.value) && constraints == old(constraints)
      ensures !(sub.ConstantSlot? && sup.ConstantSlot?) ==>
                holds && constraints == old(constraints) + [SubtypeConstraint(Some(sub), Some(sup))]
    {
      if sub.ConstantSlot? && sup.ConstantSlot? {
        holds := hierarchy.isSubtype(sub.value, sup.value);
      } else {
        constraints := constraints + [SubtypeConstraint(Some(sub), Some(sup))];
        holds := true;
      }
    }

    /** addSubtypeConstraint: as above, the outcome of a constant check is reported elsewhere. */
    method AddSubtypeConstraint(sub: Slot, sup: Slot)
      modifies this
      ensures constraints == if sub.ConstantSlot? && sup.ConstantSlot? then old(constraints)
                             else old(constraints) + [SubtypeConstraint(Some(sub), Some(sup))]
    {
      var _ := AddSubtypeConstraintNoErrorMsg(sub, sup);
    }

    method AddEqualityConstraint(first: Slot, second: Slot)
      modifies this
      ensures constraints == if first.ConstantSlot? && second.ConstantSlot? then old(constraints)
                             else old(constraints) + [EqualityConstraint(Some(first), Some(second))]
    {
      if !(first.ConstantSlot? && second.ConstantSlot?) {
        constraints := constraints + [EqualityConstraint(Some(first), Some(second))];
      }
    }
  }
}
