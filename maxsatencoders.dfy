/**
 * MaxSATConstraintEncoderFactory: which constraint kinds the MaxSAT back end
 * can encode, and what each encoder is built from.
 */
module MaxSatEncoding {
  import opened Wrappers
  import opened Slots
  import opened Constraints

  /** The qualifier lattice the encoders read; only its identity matters here. */
  datatype Lattice = Lattice(types: set<Qual>, top: Qual, bottom: Qual)

  /** MaxSatFormatTranslator, again only as an identity handed to one encoder. */
  datatype FormatTranslator = FormatTranslator(id: nat)

  /** The ten constraint kinds an encoder factory is asked about. */
  datatype ConstraintKind =
    | SubtypeKind | EqualityKind | InequalityKind | ComparableKind | ComparisonKind
    | PreferenceKind | ImplicationKind | CombineKind | ExistentialKind | ArithmeticKind

  function KindOf(c: Constraint): ConstraintKind
  {
    match c
    case SubtypeConstraint(_, _) => SubtypeKind
    case EqualityConstraint(_, _) => EqualityKind
    case InequalityConstraint(_, _) => InequalityKind
    case ComparableConstraint(_, _) => ComparableKind
    case ComparisonConstraint(_, _, _, _, _) => ComparisonKind
    case PreferenceConstraint(_, _, _) => PreferenceKind
    case ImplicationConstraint(_, _) => ImplicationKind
    case CombineConstraint(_, _, _) => CombineKind
    case ExistentialConstraint(_, _, _) => ExistentialKind
    case ArithmeticConstraint(_, _, _, _, _) => ArithmeticKind
  }

  /** The MaxSAT encoders and the arguments each is constructed with. */
  datatype Encoder =
    | SubtypeEncoder(lattice: Lattice, typeToInt: map<Qual, int>)
    | EqualityEncoder(lattice: Lattice, typeToInt: map<Qual, int>)
    | InequalityEncoder(lattice: Lattice, typeToInt: map<Qual, int>)
    | ComparableEncoder(lattice: Lattice, typeToInt: map<Qual, int>)
    | PreferenceEncoder(lattice: Lattice, typeToInt: map<Qual, int>)
    | ImplicationEncoder(lattice: Lattice, typeToInt: map<Qual, int>, formatTranslator: FormatTranslator)
  {
    function Kind(): ConstraintKind
    {
      match this
      case SubtypeEncoder(_, _) => SubtypeKind
      case EqualityEncoder(_, _) => EqualityKind
      case InequalityEncoder(_, _) => InequalityKind
      case ComparableEncoder(_, _) => ComparableKind
      case PreferenceEncoder(_, _) => PreferenceKind
      case ImplicationEncoder(_, _, _) => ImplicationKind
    }
  }

  /** The kinds the MaxSAT back end encodes. */
  predicate Supported(kind: ConstraintKind)
  {
    kind in {SubtypeKind, EqualityKind, InequalityKind, ComparableKind, PreferenceKind, ImplicationKind}
  }

  datatype EncoderFactory = EncoderFactory(lattice: Lattice, typeToInt: map<Qual, int>, formatTranslator: FormatTranslator)
  {
    /**
     * The factory's create...ConstraintEncoder methods: a new encoder of the
     * requested kind, built from the factory's own lattice and typeToInt (and,
     * for implications, its format translator); None is the null returned for
     * a kind the back end does not support.
     */
    function CreateEncoder(kind: ConstraintKind): (e: Option<Encoder>)
      ensures e.Some? <==> Supported(kind)
      ensures e.Some? ==> e.value.Kind() == kind
      ensures e.Some? ==> e.value.lattice == lattice && e.value.typeToInt == typeToInt
      ensures e.Some? && e.value.ImplicationEncoder? ==> e.value.formatTranslator == formatTranslator
    {
      match kind
      case SubtypeKind => Some(SubtypeEncoder(lattice, typeToInt))
      case EqualityKind => Some(EqualityEncoder(lattice, typeToInt))
      case InequalityKind => Some(InequalityEncoder(lattice, typeToInt))
      case ComparableKind => Some(ComparableEncoder(lattice, typeToInt))
      case ComparisonKind => None
      case PreferenceKind => Some(PreferenceEncoder(lattice, typeToInt))
      case ImplicationKind => Some(ImplicationEncoder(lattice, typeToInt, formatTranslator))
      case CombineKind => None
      case ExistentialKind => None
      case ArithmeticKind => None
    }
  }
  /**
   * The factory inverts Kind: an encoder built from the factory's own parts is
   * exactly what the factory creates for that encoder's kind, so every encoder
   * kind is a supported one.
   */
  lemma CreateEncoderInvertsKind(f: EncoderFactory, e: Encoder)
    requires e.lattice == f.lattice && e.typeToInt == f.typeToInt
    requires e.ImplicationEncoder? ==> e.formatTranslator == f.formatTranslator
    ensures Supported(e.Kind())
    ensures f.CreateEncoder(e.Kind()) == Some(e)
  {
  }
}
