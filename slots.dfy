/**
 * Slots: the variables and constants of the inference problem. A slot is a
 * value identified by its integer id; the slots it refers to (the refined
 * declaration of a comparison slot, the operands of a merge slot, ...) are
 * referred to by id.
 */
module Slots {
  import opened Wrappers

  /** Where a slot's annotation would be inserted; MISSING marks a slot with no place in the source. */
  datatype Location = MissingLocation | AstPathLocation(path: seq<nat>) | ClassDeclLocation(className: string)
  {
    predicate IsMissing()
    {
      MissingLocation?
    }
  }

  /** A qualifier of the type system being inferred: its annotation class and its element values. */
  datatype Qual = Qual(annoClass: string, elements: seq<string>)

  /**
   * An annotation as the inference hierarchy sees it: a @VarAnnot carrying a slot id
   * (or carrying none), or a qualifier of the real type system.
   */
  datatype Anno = VarAnnot(value: Option<int>) | RealAnno(qual: Qual)

  /** The primitive kinds, each of which the primitive-or-boxed test accepts. */
  datatype PrimitiveKind = BooleanKind | ByteKind | ShortKind | CharKind | IntKind | LongKind | FloatKind | DoubleKind

  /** The underlying Java type of a type use. */
  datatype JType = Primitive(kind: PrimitiveKind) | Boxed(kind: PrimitiveKind) | Reference(name: string)

  /** javax.lang.model TypeKind values an arithmetic slot can record. */
  datatype TypeKind = IntType | LongType | FloatType | DoubleType

  datatype SlotKind =
    | VariableKind
    | ConstantKind
    | RefinementVariableKind
    | CombVariableKind
    | LubVariableKind
    | ExistentialVariableKind
    | ArithmeticVariableKind
    | ComparisonVariableKind

  datatype Slot =
    | ConstantSlot(id: nat, value: Qual)
    | SourceVariableSlot(id: nat, location: Location, actualType: JType,
                         defaultAnnotation: Option<Qual>, insertable: bool)
    | RefinementVariableSlot(id: nat, location: Location, refined: nat)
    | CombVariableSlot(id: nat, receiver: nat, declared: nat)
    | LubVariableSlot(id: nat, left: nat, right: nat)
    | ExistentialVariableSlot(id: nat, potential: nat, alternative: nat)
    | ArithmeticVariableSlot(id: nat, location: Location, valueTypeKind: TypeKind)
    | ComparisonVariableSlot(id: nat, location: Location, refined: nat)
  {
    /** Every slot but a constant stands for an unknown. */
    predicate IsVariable()
    {
      !ConstantSlot?
    }

    function GetKind(): (k: SlotKind)
      ensures k == ConstantKind <==> ConstantSlot?
      ensures k == VariableKind <==> SourceVariableSlot?
      ensures k == ArithmeticVariableKind <==> ArithmeticVariableSlot?
      ensures k == ComparisonVariableKind <==> ComparisonVariableSlot?
    {
      match this
      case ConstantSlot(_, _) => ConstantKind
      case SourceVariableSlot(_, _, _, _, _) => VariableKind
      case RefinementVariableSlot(_, _, _) => RefinementVariableKind
      case CombVariableSlot(_, _, _) => CombVariableKind
      case LubVariableSlot(_, _, _) => LubVariableKind
      case ExistentialVariableSlot(_, _, _) => ExistentialVariableKind
      case ArithmeticVariableSlot(_, _, _) => ArithmeticVariableKind
      case ComparisonVariableSlot(_, _, _) => ComparisonVariableKind
    }

    /**
     * Whether the slot's solution is written back into the source: a source
     * slot says so itself; arithmetic and comparison slots never are.
     */
    function IsInsertable(): (b: bool)
      requires SourceVariableSlot? || ArithmeticVariableSlot? || ComparisonVariableSlot?
      ensures b ==> SourceVariableSlot?
      ensures SourceVariableSlot? ==> b == insertable
    {
      SourceVariableSlot? && insertable
    }

    /** SourceVariableSlot.setInsertable: only the flag changes. */
    function SetInsertable(flag: bool): (s: Slot)
      requires SourceVariableSlot?
      ensures s.SourceVariableSlot? && s.IsInsertable() == flag
      ensures s.id == id && s.location == location && s.actualType == actualType
      ensures s.defaultAnnotation == defaultAnnotation
    {
      this.(insertable := flag)
    }
  }

  /** The 'refined' slot of a ComparisonVariableSlot. */
  function GetRefined(s: Slot): (r: nat)
    requires s.ComparisonVariableSlot?
    ensures r == s.refined
  {
    s.refined
  }

  /** Kinds are in one-to-one correspondence with the slot classes. */
  lemma KindDeterminesClass(s: Slot, t: Slot)
    requires s.GetKind() == t.GetKind()
    ensures s.ConstantSlot? == t.ConstantSlot? && s.SourceVariableSlot? == t.SourceVariableSlot?
    ensures s.RefinementVariableSlot? == t.RefinementVariableSlot? && s.CombVariableSlot? == t.CombVariableSlot?
    ensures s.LubVariableSlot? == t.LubVariableSlot? && s.ExistentialVariableSlot? == t.ExistentialVariableSlot?
    ensures s.ArithmeticVariableSlot? == t.ArithmeticVariableSlot?
    ensures s.ComparisonVariableSlot? == t.ComparisonVariableSlot?
  {
  }

  /** Setting the insertable flag twice keeps only the last setting; setting it to its own value changes nothing. */
  lemma SetInsertableLastWins(s: Slot, a: bool, b: bool)
    requires s.SourceVariableSlot?
    ensures s.SetInsertable(a).SetInsertable(b) == s.SetInsertable(b)
    ensures s.SetInsertable(s.IsInsertable()) == s
  {
  }

  predicate IsFloatingPoint(t: JType)
  {
    (t.Primitive? || t.Boxed?) && (t.kind == FloatKind || t.kind == DoubleKind)
  }

  predicate IsPrimitiveOrBoxed(t: JType)
  {
    t.Primitive? || t.Boxed?
  }

  /**
   * The value kind recorded for an arithmetic slot: DOUBLE when either operand is
   * floating point, else LONG when either is long, else INT. The source asserts
   * that both operands are primitive or boxed.
   */
  function ArithmeticResultKind(lhs: JType, rhs: JType): (r: Result<TypeKind>)
    ensures r.Failure? <==> !(IsPrimitiveOrBoxed(lhs) && IsPrimitiveOrBoxed(rhs))
    ensures r.Success? ==> r.value != FloatType
  {
    if !(IsPrimitiveOrBoxed(lhs) && IsPrimitiveOrBoxed(rhs)) then
      Failure(AssertionError("arithmetic operands must be primitive or boxed"))
    else if IsFloatingPoint(lhs) || IsFloatingPoint(rhs) then Success(DoubleType)
    else if lhs.kind == LongKind || rhs.kind == LongKind then Success(LongType)
    else Success(IntType)
  }

  /**
   * Binary numeric promotion of section 5.6.2 of the Java Language Specification,
   * on the numeric kinds (every kind but boolean).
   */
  function BinaryNumericPromotion(lhs: PrimitiveKind, rhs: PrimitiveKind): TypeKind
    requires lhs != BooleanKind && rhs != BooleanKind
  {
    if lhs == DoubleKind || rhs == DoubleKind then DoubleType
    else if lhs == FloatKind || rhs == FloatKind then FloatType
    else if lhs == LongKind || rhs == LongKind then LongType
    else IntType
  }

  /**
   * On numeric operands the arithmetic result kind is binary numeric promotion,
   * except that a float promotion is widened to double; a boolean operand counts
   * as an int; and the result does not depend on the operand order.
   */
  lemma ArithmeticResultKindIsPromotion(lhs: JType, rhs: JType)
    requires IsPrimitiveOrBoxed(lhs) && IsPrimitiveOrBoxed(rhs)
    ensures ArithmeticResultKind(lhs, rhs) == ArithmeticResultKind(rhs, lhs)
    ensures lhs.kind != BooleanKind && rhs.kind != BooleanKind ==>
              var p := BinaryNumericPromotion(lhs.kind, rhs.kind);
              ArithmeticResultKind(lhs, rhs) == Success(if p == FloatType then DoubleType else p)
    ensures lhs.kind == BooleanKind ==> ArithmeticResultKind(lhs, rhs) == ArithmeticResultKind(Primitive(IntKind), rhs)
    ensures lhs.kind == BooleanKind && rhs.kind == BooleanKind ==> ArithmeticResultKind(lhs, rhs) == Success(IntType)
  {
  }
}
