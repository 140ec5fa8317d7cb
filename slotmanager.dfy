/**
 * DefaultSlotManager: the store of every slot, keyed by a dense id, and the
 * caches that make each creation idempotent per key (location, constant
 * value, pair of slots).
 */
module SlotManagement {
  import opened Wrappers
  import opened Slots
  import opened Constraints

  /** getAnnotation: the @VarAnnot that names a slot. */
  function GetAnnotation(s: Slot): (a: Anno)
    ensures a.VarAnnot? && a.value.Some? && a.value.value == s.id
  {
    VarAnnot(Some(s.id))
  }

  /** The manager's caches, to say which one a created slot goes into (NoCache: none). */
  datatype CacheName =
    | ConstantCache | LocationCache | ExistentialCache | CombCache | LubCache | GlbCache
    | ArithmeticCache | ComparisonThenCache | ComparisonElseCache | NoCache

  /**
   * The nine caches of DefaultSlotManager, from key to slot id. The location
   * cache is shared by source and refinement slots; lub and glb merge slots
   * have caches of their own, keyed by the ordered pair of operand ids.
   */
  datatype Caches = Caches(
    constants: map<Qual, nat>,
    locations: map<Location, nat>,
    existentials: map<(nat, nat), nat>,
    combs: map<(nat, nat), nat>,
    lubs: map<(nat, nat), nat>,
    glbs: map<(nat, nat), nat>,
    arithmetics: map<Location, nat>,
    comparisonThens: map<Location, nat>,
    comparisonElses: map<Location, nat>)
  {
    /** Whether a new slot of this class is cached under `name` (NoCache for a missing location). */
    static predicate Fits(name: CacheName, s: Slot)
    {
      match s
      case ConstantSlot(_, _) => name == ConstantCache
      case SourceVariableSlot(_, l, _, _, _) => name == (if l.IsMissing() then NoCache else LocationCache)
      case RefinementVariableSlot(_, l, _) => name == (if l.IsMissing() then NoCache else LocationCache)
      case CombVariableSlot(_, _, _) => name == CombCache
      case LubVariableSlot(_, _, _) => name == LubCache || name == GlbCache
      case ExistentialVariableSlot(_, _, _) => name == ExistentialCache
      case ArithmeticVariableSlot(_, l, _) => !l.IsMissing() && name == ArithmeticCache
      case ComparisonVariableSlot(_, l, _) =>
        !l.IsMissing() && (name == ComparisonThenCache || name == ComparisonElseCache)
    }

    /** The slot's key is not yet in cache `name`. */
    predicate KeyFree(name: CacheName, s: Slot)
      requires Fits(name, s)
    {
      match name
      case ConstantCache => s.value !in constants
      case LocationCache => s.location !in locations
      case ExistentialCache => (s.potential, s.alternative) !in existentials
      case CombCache => (s.receiver, s.declared) !in combs
      case LubCache => (s.left, s.right) !in lubs
      case GlbCache => (s.left, s.right) !in glbs
      case ArithmeticCache => s.location !in arithmetics
      case ComparisonThenCache => s.location !in comparisonThens
      case ComparisonElseCache => s.location !in comparisonElses
      case NoCache => true
    }

    /** The caches once the slot is recorded under its key in cache `name`. */
    function Register(name: CacheName, s: Slot): (c: Caches)
      requires Fits(name, s)
      ensures name != ConstantCache ==> c.constants == constants
      ensures name != LocationCache ==> c.locations == locations
      ensures name != ExistentialCache ==> c.existentials == existentials
      ensures name != CombCache ==> c.combs == combs
      ensures name != LubCache ==> c.lubs == lubs
      ensures name != GlbCache ==> c.glbs == glbs
      ensures name != ArithmeticCache ==> c.arithmetics == arithmetics
      ensures name != ComparisonThenCache ==> c.comparisonThens == comparisonThens
      ensures name != ComparisonElseCache ==> c.comparisonElses == comparisonElses
    {
      match name
      case ConstantCache => this.(constants := constants[s.value := s.id])
      case LocationCache => this.(locations := locations[s.location := s.id])
      case ExistentialCache => this.(existentials := existentials[(s.potential, s.alternative) := s.id])
      case CombCache => this.(combs := combs[(s.receiver, s.declared) := s.id])
      case LubCache => this.(lubs := lubs[(s.left, s.right) := s.id])
      case GlbCache => this.(glbs := glbs[(s.left, s.right) := s.id])
      case ArithmeticCache => this.(arithmetics := arithmetics[s.location := s.id])
      case ComparisonThenCache => this.(comparisonThens := comparisonThens[s.location := s.id])
      case ComparisonElseCache => this.(comparisonElses := comparisonElses[s.location := s.id])
      case NoCache => this
    }

    /** A slot is found in the cache of its class under its own key. */
    predicate Holds(s: Slot)
    {
      match s
      case ConstantSlot(id, q) => q in constants && constants[q] == id
      case SourceVariableSlot(id, l, _, _, _) => !l.IsMissing() ==> l in locations && locations[l] == id
      case RefinementVariableSlot(id, l, _) => !l.IsMissing() ==> l in locations && locations[l] == id
      case CombVariableSlot(id, r, d) => (r, d) in combs && combs[(r, d)] == id
      case LubVariableSlot(id, l, r) => ((l, r) in lubs && lubs[(l, r)] == id) || ((l, r) in glbs && glbs[(l, r)] == id)
      case ExistentialVariableSlot(id, p, a) => (p, a) in existentials && existentials[(p, a)] == id
      case ArithmeticVariableSlot(id, l, _) => l in arithmetics && arithmetics[l] == id
      case ComparisonVariableSlot(id, l, _) =>
        (l in comparisonThens && comparisonThens[l] == id) || (l in comparisonElses && comparisonElses[l] == id)
    }
  }

  const EmptyCaches := Caches(map[], map[], map[], map[], map[], map[], map[], map[], map[])

  /** Ids run from 1 to nextId - 1 without gaps, and each slot is stored under its own id. */
  predicate Dense(nextId: nat, slots: map<nat, Slot>)
  {
    nextId >= 1
    && (forall i | i in slots :: 1 <= i < nextId)
    && (forall i: nat | 1 <= i < nextId :: i in slots)
    && (forall i | i in slots :: slots[i].id == i)
  }

  predicate ConstantsSound(slots: map<nat, Slot>, cache: map<Qual, nat>)
  {
    forall q | q in cache :: cache[q] in slots && slots[cache[q]] == ConstantSlot(cache[q], q)
  }

  predicate LocationsSound(slots: map<nat, Slot>, cache: map<Location, nat>)
  {
    forall l | l in cache ::
      !l.IsMissing() && cache[l] in slots
      && (slots[cache[l]].SourceVariableSlot? || slots[cache[l]].RefinementVariableSlot?)
      && slots[cache[l]].location == l
  }

  /** The slot a pair cache of the given name builds for a pair. */
  function PairSlot(name: CacheName, id: nat, p: (nat, nat)): Slot
  {
    match name
    case ExistentialCache => ExistentialVariableSlot(id, p.0, p.1)
    case CombCache => CombVariableSlot(id, p.0, p.1)
    case _ => LubVariableSlot(id, p.0, p.1)
  }

  predicate PairsSound(slots: map<nat, Slot>, cache: map<(nat, nat), nat>, name: CacheName)
  {
    forall p | p in cache :: cache[p] in slots && slots[cache[p]] == PairSlot(name, cache[p], p)
  }

  predicate ArithmeticsSound(slots: map<nat, Slot>, cache: map<Location, nat>)
  {
    forall l | l in cache ::
      !l.IsMissing() && cache[l] in slots && slots[cache[l]].ArithmeticVariableSlot? && slots[cache[l]].location == l
  }

  predicate ComparisonsSound(slots: map<nat, Slot>, cache: map<Location, nat>)
  {
    forall l | l in cache ::
      !l.IsMissing() && cache[l] in slots && slots[cache[l]].ComparisonVariableSlot? && slots[cache[l]].location == l
  }

  /** Every cache entry names a stored slot of the right class, built for exactly that key. */
  predicate CachesSound(slots: map<nat, Slot>, c: Caches)
  {
    ConstantsSound(slots, c.constants)
    && LocationsSound(slots, c.locations)
    && PairsSound(slots, c.existentials, ExistentialCache)
    && PairsSound(slots, c.combs, CombCache)
    && PairsSound(slots, c.lubs, LubCache)
    && PairsSound(slots, c.glbs, GlbCache)
    && ArithmeticsSound(slots, c.arithmetics)
    && ComparisonsSound(slots, c.comparisonThens)
    && ComparisonsSound(slots, c.comparisonElses)
    && (forall p, p' | p in c.lubs && p' in c.glbs :: c.lubs[p] != c.glbs[p'])
  }

  /** Every slot, but a source or refinement slot at a missing location, is cached under its key. */
  predicate CachesComplete(slots: map<nat, Slot>, c: Caches)
  {
    forall i | i in slots :: c.Holds(slots[i])
  }

  predicate StoreValid(nextId: nat, slots: map<nat, Slot>, c: Caches)
  {
    Dense(nextId, slots) && CachesSound(slots, c) && CachesComplete(slots, c)
  }

  /** The slot is the one stored under its id. */
  predicate Stored(slots: map<nat, Slot>, s: Slot)
  {
    s.id in slots && slots[s.id] == s
  }

  /** Slots are only ever merged into stored merge slots. */
  predicate MergesValid(slots: map<nat, Slot>, mergedTo: map<nat, set<nat>>)
  {
    forall a, m | a in mergedTo && m in mergedTo[a] :: m in slots && slots[m].LubVariableSlot?
  }

  /**
   * String.compareTo(a, b) < 0: the first differing character decides, and a
   * proper prefix comes first.
   */
  predicate NameBefore(a: string, b: string)
  {
    if a == [] then b != []
    else if b == [] then false
    else if a[0] != b[0] then a[0] < b[0]
    else NameBefore(a[1..], b[1..])
  }

  lemma {:induction false} NameBeforeIrreflexive(a: string)
    ensures !NameBefore(a, a)
  {
    if a != [] {
      NameBeforeIrreflexive(a[1..]);
    }
  }

  lemma {:induction false} NameBeforeTransitive(a: string, b: string, c: string)
    requires NameBefore(a, b) && NameBefore(b, c)
    ensures NameBefore(a, c)
  {
    if a != [] && b != [] && c != [] && a[0] == b[0] && b[0] == c[0] {
      NameBeforeTransitive(a[1..], b[1..], c[1..]);
    }
  }

  lemma {:induction false} NameBeforeTotal(a: string, b: string)
    requires a != b
    ensures NameBefore(a, b) || NameBefore(b, a)
  {
    if a != [] && b != [] && a[0] == b[0] {
      assert a == [a[0]] + a[1..] && b == [b[0]] + b[1..];
      NameBeforeTotal(a[1..], b[1..]);
    }
  }

  /** Each name comes before every later one, so no name is listed twice. */
  predicate StrictlySorted(names: seq<string>)
  {
    forall i, j | 0 <= i < j < |names| :: NameBefore(names[i], names[j])
  }

  predicate NoDuplicates(names: seq<string>)
  {
    forall i, j | 0 <= i < j < |names| :: names[i] != names[j]
  }

  lemma SortedHasNoDuplicates(names: seq<string>)
    requires StrictlySorted(names)
    ensures NoDuplicates(names)
  {
    forall i, j | 0 <= i < j < |names| ensures names[i] != names[j]
    {
      if names[i] == names[j] {
        NameBeforeIrreflexive(names[i]);
      }
    }
  }

  /** Adding one name to the sorted set the TreeSet holds. */
  function InsertName(x: string, sorted: seq<string>): (r: seq<string>)
    requires StrictlySorted(sorted) && x !in sorted
    ensures StrictlySorted(r) && multiset(r) == multiset(sorted) + multiset{x}
    decreases |sorted|
  {
    if sorted == [] then [x]
    else if NameBefore(x, sorted[0]) then
      InsertFirstKeepsSorted(x, sorted);
      [x] + sorted
    else
      var rest := InsertName(x, sorted[1..]);
      InsertAfterFirstKeepsSorted(x, sorted, rest);
      assert sorted == [sorted[0]] + sorted[1..];
      [sorted[0]] + rest
  }

  lemma InsertFirstKeepsSorted(x: string, sorted: seq<string>)
    requires StrictlySorted(sorted) && sorted != [] && NameBefore(x, sorted[0])
    ensures StrictlySorted([x] + sorted)
  {
    forall j | 0 < j < |sorted| ensures NameBefore(x, sorted[j])
    {
      NameBeforeTransitive(x, sorted[0], sorted[j]);
    }
  }

  lemma InsertAfterFirstKeepsSorted(x: string, sorted: seq<string>, rest: seq<string>)
    requires StrictlySorted(sorted) && sorted != [] && x != sorted[0] && !NameBefore(x, sorted[0])
    requires StrictlySorted(rest) && multiset(rest) == multiset(sorted[1..]) + multiset{x}
    ensures StrictlySorted([sorted[0]] + rest)
  {
    NameBeforeTotal(x, sorted[0]);
    forall j | 0 <= j < |rest| ensures NameBefore(sorted[0], rest[j])
    {
      assert rest[j] in multiset(rest);
      if rest[j] != x {
        assert rest[j] in multiset(sorted[1..]);
        var k :| 0 <= k < |sorted[1..]| && sorted[1..][k] == rest[j];
        assert sorted[k + 1] == rest[j];
      }
    }
  }

  /**
   * sortAnnotationClasses: the real qualifier classes in the order of their
   * canonical names, as the TreeSet the source builds iterates them.
   */
  function SortAnnotationClasses(names: seq<string>): (r: seq<string>)
    requires NoDuplicates(names)
    ensures StrictlySorted(r) && multiset(r) == multiset(names)
  {
    if names == [] then []
    else
      var init := names[..|names| - 1];
      var last := names[|names| - 1];
      assert names == init + [last];
      var sorted := SortAnnotationClasses(init);
      assert last !in multiset(init);
      InsertName(last, sorted)
  }

  lemma NameBeforeAsymmetric(a: string, b: string)
    ensures !(NameBefore(a, b) && NameBefore(b, a))
  {
    if NameBefore(a, b) && NameBefore(b, a) {
      NameBeforeTransitive(a, b, a);
      NameBeforeIrreflexive(a);
    }
  }

  /** The first name of a sorted sequence comes before every other name in it. */
  lemma SortedHeadIsLeast(names: seq<string>, a: string)
    requires StrictlySorted(names) && a in names
    ensures a != names[0] ==> NameBefore(names[0], a)
  {
    var k :| 0 <= k < |names| && names[k] == a;
  }

  /** Dropping the first name keeps a sequence sorted and removes that name once. */
  lemma SortedTail(names: seq<string>)
    requires StrictlySorted(names) && names != []
    ensures StrictlySorted(names[1..]) && multiset(names[1..]) == multiset(names) - multiset{names[0]}
  {
    assert names == [names[0]] + names[1..];
  }

  /** Two sorted sequences of the same names are the same sequence. */
  lemma {:induction false} SortedIsUnique(x: seq<string>, y: seq<string>)
    requires StrictlySorted(x) && StrictlySorted(y) && multiset(x) == multiset(y)
    ensures x == y
    decreases |x|
  {
    if x != [] && y != [] {
      assert x[0] in multiset(y) && y[0] in multiset(x);
      SortedHeadIsLeast(y, x[0]);
      SortedHeadIsLeast(x, y[0]);
      NameBeforeAsymmetric(x[0], y[0]);
      SortedTail(x);
      SortedTail(y);
      SortedIsUnique(x[1..], y[1..]);
    } else {
      assert |multiset(x)| == |x| && |multiset(y)| == |y|;
    }
  }

  /**
   * The order the real qualifiers are given in does not matter: the same set,
   * in any order, is sorted into the same sequence, so the constant slots get
   * the same ids.
   */
  lemma SortIgnoresOrder(a: seq<string>, b: seq<string>)
    requires NoDuplicates(a) && NoDuplicates(b) && multiset(a) == multiset(b)
    ensures SortAnnotationClasses(a) == SortAnnotationClasses(b)
  {
    SortedIsUnique(SortAnnotationClasses(a), SortAnnotationClasses(b));
  }

  /**
   * The constructor's loop after the first k real qualifiers: a constant slot
   * for each of them under ids 1 .. k, and nothing else cached.
   */
  predicate ConstantsStored(realQualifiers: seq<string>, k: nat, slots: map<nat, Slot>, c: Caches)
  {
    k <= |realQualifiers|
    && c == EmptyCaches.(constants := c.constants)
    && (forall i | 1 <= i <= k :: i in slots && slots[i] == ConstantSlot(i, Qual(realQualifiers[i - 1], [])))
    && (forall q | q in c.constants :: q.annoClass in realQualifiers[..k] && q.elements == [])
  }

  /** One turn of the constructor's loop: the next qualifier is new to the cache, and storing it keeps the loop state. */
  lemma ConstantsStoredStep(realQualifiers: seq<string>, k: nat, slots: map<nat, Slot>, c: Caches)
    requires NoDuplicates(realQualifiers)
    requires ConstantsStored(realQualifiers, k, slots, c) && k < |realQualifiers|
    ensures c.KeyFree(ConstantCache, ConstantSlot(k + 1, Qual(realQualifiers[k], [])))
    ensures ConstantsStored(realQualifiers, k + 1, slots[k + 1 := ConstantSlot(k + 1, Qual(realQualifiers[k], []))],
                            c.Register(ConstantCache, ConstantSlot(k + 1, Qual(realQualifiers[k], []))))
  {
    var am := Qual(realQualifiers[k], []);
    var c' := c.Register(ConstantCache, ConstantSlot(k + 1, am));
    assert realQualifiers[k] !in realQualifiers[..k];
    assert realQualifiers[..k + 1] == realQualifiers[..k] + [realQualifiers[k]];
    assert c' == c.(constants := c.constants[am := k + 1]);
    assert c' == EmptyCaches.(constants := c'.constants);
    var slots' := slots[k + 1 := ConstantSlot(k + 1, am)];
    forall i | 1 <= i <= k + 1
      ensures i in slots' && slots'[i] == ConstantSlot(i, Qual(realQualifiers[i - 1], []))
    {
      if i <= k {
        assert slots'[i] == slots[i];
      }
    }
    assert forall q | q in c'.constants :: q.annoClass in realQualifiers[..k + 1] && q.elements == [];
  }

  /** Changing a stored source slot's insertable flag keeps the caches sound: no cache key depends on it. */
  lemma SetInsertableKeepsSound(slots: map<nat, Slot>, c: Caches, id: nat, flag: bool)
    requires CachesSound(slots, c) && id in slots && slots[id].SourceVariableSlot?
    ensures CachesSound(slots[id := slots[id].SetInsertable(flag)], c)
  {
    var slots' := slots[id := slots[id].SetInsertable(flag)];
    assert forall i | i in slots && i != id :: slots'[i] == slots[i];
  }

  /** Changing a stored source slot's insertable flag keeps the store valid. */
  lemma SetInsertableKeepsValid(nextId: nat, slots: map<nat, Slot>, c: Caches, mergedTo: map<nat, set<nat>>,
                                id: nat, flag: bool)
    requires StoreValid(nextId, slots, c) && MergesValid(slots, mergedTo)
    requires id in slots && slots[id].SourceVariableSlot?
    ensures StoreValid(nextId, slots[id := slots[id].SetInsertable(flag)], c)
    ensures MergesValid(slots[id := slots[id].SetInsertable(flag)], mergedTo)
  {
    SetInsertableKeepsSound(slots, c, id, flag);
    var slots' := slots[id := slots[id].SetInsertable(flag)];
    assert c.Holds(slots[id]);
    assert forall i | i in slots && i != id :: slots'[i] == slots[i];
  }

  lemma SoundAfterAdd(nextId: nat, slots: map<nat, Slot>, c: Caches, s: Slot)
    requires StoreValid(nextId, slots, c) && s.id == nextId
    ensures CachesSound(slots[nextId := s], c)
    ensures forall i | i in slots :: c.Holds(slots[nextId := s][i])
  {
    var slots' := slots[nextId := s];
    assert forall i | i in slots :: slots'[i] == slots[i];
  }

  /** Recording a new slot under the next id, in the cache of its class, keeps the store valid. */
  lemma RegisterKeepsValid(nextId: nat, slots: map<nat, Slot>, c: Caches, name: CacheName, s: Slot)
    requires StoreValid(nextId, slots, c) && s.id == nextId
    requires Caches.Fits(name, s) && c.KeyFree(name, s)
    ensures StoreValid(nextId + 1, slots[nextId := s], c.Register(name, s))
  {
    assert Dense(nextId + 1, slots[nextId := s]);
    RegisterKeepsComplete(nextId, slots, c, name, s);
    RegisterKeepsSound(nextId, slots, c, name, s);
  }

  lemma RegisterKeepsComplete(nextId: nat, slots: map<nat, Slot>, c: Caches, name: CacheName, s: Slot)
    requires StoreValid(nextId, slots, c) && s.id == nextId
    requires Caches.Fits(name, s) && c.KeyFree(name, s)
    ensures CachesComplete(slots[nextId := s], c.Register(name, s))
  {
    var slots' := slots[nextId := s];
    var c' := c.Register(name, s);
    forall i | i in slots'
      ensures c'.Holds(slots'[i])
    {
      if i == nextId {
        RegisteredHolds(c, name, s);
      } else {
        assert c.Holds(slots[i]);
        HoldsAfterRegister(c, name, s, slots[i]);
      }
    }
  }

  lemma RegisteredHolds(c: Caches, name: CacheName, s: Slot)
    requires Caches.Fits(name, s)
    ensures c.Register(name, s).Holds(s)
  {
    match name
    case ConstantCache =>
    case LocationCache =>
    case ExistentialCache =>
    case CombCache =>
    case LubCache =>
    case GlbCache =>
    case ArithmeticCache =>
    case ComparisonThenCache =>
    case ComparisonElseCache =>
    case NoCache =>
  }

  lemma RegisterKeepsSound(nextId: nat, slots: map<nat, Slot>, c: Caches, name: CacheName, s: Slot)
    requires StoreValid(nextId, slots, c) && s.id == nextId
    requires Caches.Fits(name, s)
    ensures CachesSound(slots[nextId := s], c.Register(name, s))
  {
    var slots' := slots[nextId := s];
    SoundAfterAdd(nextId, slots, c, s);
    assert Stored(slots', s);
    match name
    case ConstantCache => SoundRegisterConstant(slots', c, s);
    case LocationCache => SoundRegisterLocation(slots', c, s);
    case ExistentialCache => SoundRegisterPair(slots', c, name, s);
    case CombCache => SoundRegisterPair(slots', c, name, s);
    case LubCache =>
      assert forall p | p in c.glbs :: c.glbs[p] in slots;
      SoundRegisterPair(slots', c, name, s);
    case GlbCache =>
      assert forall p | p in c.lubs :: c.lubs[p] in slots;
      SoundRegisterPair(slots', c, name, s);
    case ArithmeticCache => SoundRegisterArithmetic(slots', c, s);
    case ComparisonThenCache => SoundRegisterComparison(slots', c, name, s);
    case ComparisonElseCache => SoundRegisterComparison(slots', c, name, s);
    case NoCache =>
  }

  lemma SoundRegisterConstant(slots: map<nat, Slot>, c: Caches, s: Slot)
    requires CachesSound(slots, c) && Stored(slots, s) && Caches.Fits(ConstantCache, s)
    ensures CachesSound(slots, c.Register(ConstantCache, s))
  {
    assert ConstantsSound(slots, c.constants[s.value := s.id]);
  }

  lemma SoundRegisterLocation(slots: map<nat, Slot>, c: Caches, s: Slot)
    requires CachesSound(slots, c) && Stored(slots, s) && Caches.Fits(LocationCache, s)
    ensures CachesSound(slots, c.Register(LocationCache, s))
  {
    assert LocationsSound(slots, c.locations[s.location := s.id]);
  }

  lemma SoundRegisterArithmetic(slots: map<nat, Slot>, c: Caches, s: Slot)
    requires CachesSound(slots, c) && Stored(slots, s) && Caches.Fits(ArithmeticCache, s)
    ensures CachesSound(slots, c.Register(ArithmeticCache, s))
  {
    assert ArithmeticsSound(slots, c.arithmetics[s.location := s.id]);
  }

  lemma SoundRegisterComparison(slots: map<nat, Slot>, c: Caches, name: CacheName, s: Slot)
    requires name == ComparisonThenCache || name == ComparisonElseCache
    requires CachesSound(slots, c) && Stored(slots, s) && Caches.Fits(name, s)
    ensures CachesSound(slots, c.Register(name, s))
  {
    if name == ComparisonThenCache {
      assert ComparisonsSound(slots, c.comparisonThens[s.location := s.id]);
    } else {
      assert ComparisonsSound(slots, c.comparisonElses[s.location := s.id]);
    }
  }

  lemma SoundRegisterPair(slots: map<nat, Slot>, c: Caches, name: CacheName, s: Slot)
    requires name in {ExistentialCache, CombCache, LubCache, GlbCache}
    requires CachesSound(slots, c) && Stored(slots, s) && Caches.Fits(name, s)
    requires name == LubCache ==> forall p | p in c.glbs :: c.glbs[p] != s.id
    requires name == GlbCache ==> forall p | p in c.lubs :: c.lubs[p] != s.id
    ensures CachesSound(slots, c.Register(name, s))
  {
    var c' := c.Register(name, s);
    match name
    case ExistentialCache =>
      assert PairsSound(slots, c'.existentials, ExistentialCache);
    case CombCache =>
      assert PairsSound(slots, c'.combs, CombCache);
    case LubCache =>
      assert PairsSound(slots, c'.lubs, LubCache);
    case GlbCache =>
      assert PairsSound(slots, c'.glbs, GlbCache);
  }

  /** A cached slot stays cached once a slot with a free key is registered. */
  lemma HoldsAfterRegister(c: Caches, name: CacheName, s: Slot, t: Slot)
    requires Caches.Fits(name, s) && c.KeyFree(name, s) && c.Holds(t)
    ensures c.Register(name, s).Holds(t)
  {
  }

  /** The merge slot was built by createLubMergeVariableSlot (and not by its glb counterpart). */
  predicate IsLubSlot(c: Caches, s: Slot)
  {
    s.LubVariableSlot? && (s.left, s.right) in c.lubs && c.lubs[(s.left, s.right)] == s.id
  }

  /** The store is as it was, or it gained s under the next id, recorded in cache `name`. */
  predicate KeptOrGrew(n0: nat, slots0: map<nat, Slot>, c0: Caches,
                       slots1: map<nat, Slot>, c1: Caches, name: CacheName, s: Slot)
  {
    (slots1 == slots0 && c1 == c0)
    || (s.id == n0 && Caches.Fits(name, s) && c0.KeyFree(name, s)
        && slots1 == slots0[n0 := s] && c1 == c0.Register(name, s))
  }

  /** Registering a new slot does not change which stored merge slots are lub slots. */
  lemma RegisterKeepsKinds(nextId: nat, slots: map<nat, Slot>, c: Caches, name: CacheName, s: Slot)
    requires StoreValid(nextId, slots, c) && s.id == nextId
    requires Caches.Fits(name, s) && c.KeyFree(name, s)
    ensures forall m | m in slots :: IsLubSlot(c.Register(name, s), slots[m]) == IsLubSlot(c, slots[m])
  {
  }

  /** Two stored constant slots with the same value are the same slot. */
  lemma ConstantsUnique(nextId: nat, slots: map<nat, Slot>, c: Caches, i: nat, j: nat)
    requires StoreValid(nextId, slots, c) && i in slots && j in slots
    requires slots[i].ConstantSlot? && slots[j].ConstantSlot? && slots[i].value == slots[j].value
    ensures i == j
  {
    assert c.Holds(slots[i]) && c.Holds(slots[j]);
  }

  /** Two stored source or refinement slots at the same real location are the same slot. */
  lemma LocationsUnique(nextId: nat, slots: map<nat, Slot>, c: Caches, i: nat, j: nat)
    requires StoreValid(nextId, slots, c) && i in slots && j in slots
    requires slots[i].SourceVariableSlot? || slots[i].RefinementVariableSlot?
    requires slots[j].SourceVariableSlot? || slots[j].RefinementVariableSlot?
    requires slots[i].location == slots[j].location && !slots[i].location.IsMissing()
    ensures i == j
  {
    assert c.Holds(slots[i]) && c.Holds(slots[j]);
  }

  /** Two stored comb slots over the same receiver and declared slot are the same slot. */
  lemma CombsUnique(nextId: nat, slots: map<nat, Slot>, c: Caches, i: nat, j: nat)
    requires StoreValid(nextId, slots, c) && i in slots && j in slots
    requires slots[i].CombVariableSlot? && slots[j].CombVariableSlot?
    requires slots[i].receiver == slots[j].receiver && slots[i].declared == slots[j].declared
    ensures i == j
  {
    assert c.Holds(slots[i]) && c.Holds(slots[j]);
  }

  /** Two stored arithmetic slots at the same location are the same slot. */
  lemma ArithmeticsUnique(nextId: nat, slots: map<nat, Slot>, c: Caches, i: nat, j: nat)
    requires StoreValid(nextId, slots, c) && i in slots && j in slots
    requires slots[i].ArithmeticVariableSlot? && slots[j].ArithmeticVariableSlot?
    requires slots[i].location == slots[j].location
    ensures i == j
  {
    assert c.Holds(slots[i]) && c.Holds(slots[j]);
  }

  /** No merge slot is both a lub slot and a glb slot. */
  lemma LubAndGlbDisjoint(nextId: nat, slots: map<nat, Slot>, c: Caches, m: nat)
    requires StoreValid(nextId, slots, c)
    ensures !(m in c.lubs.Values && m in c.glbs.Values)
  {
  }

  lemma {:induction false} IdRangeSize(nextId: nat, keys: set<nat>)
    requires nextId >= 1
    requires forall i: nat :: i in keys <==> 1 <= i < nextId
    ensures |keys| == nextId - 1
  {
    if nextId > 1 {
      var rest := keys - {nextId - 1};
      IdRangeSize(nextId - 1, rest);
      assert keys == rest + {nextId - 1};
    } else {
      assert keys == {};
    }
  }

  /** The number of stored slots is nextId - 1, which is what getNumberOfSlots reports. */
  lemma SlotCount(nextId: nat, slots: map<nat, Slot>)
    requires Dense(nextId, slots)
    ensures |slots| == nextId - 1
  {
    IdRangeSize(nextId, slots.Keys);
  }

  /** The merged-to set of a slot; a slot never merged has an empty one. */
  function MergedTo(mergedTo: map<nat, set<nat>>, id: nat): (ms: set<nat>)
    ensures id in mergedTo ==> ms == mergedTo[id]
    ensures id !in mergedTo ==> ms == {}
  {
    if id in mergedTo then mergedTo[id] else {}
  }

  class DefaultSlotManager {
    /** The id the next slot receives; id 0 is never used (it delimits clauses in CNF). */
    var nextId: nat
    /** Every slot ever created, by id (insertion order is id order). */
    var slots: map<nat, Slot>
    var caches: Caches
    /** The merge slots each slot has been merged into (Slot.getMergedToSlots), by slot id. */
    var mergedTo: map<nat, set<nat>>
    /** The annotation classes of the real qualifiers, sorted by canonical name. */
    const realQualifiers: seq<string>
    /** The real type system's hierarchy, whose first top is the fallback constant in hack mode. */
    const hierarchy: RealHierarchy

    ghost predicate Valid()
      reads this
    {
      StoreValid(nextId, slots, caches) && MergesValid(slots, mergedTo)
    }

    /** A slot was added under the next id, recorded in cache `name`, and nothing else changed. */
    twostate predicate AddedFresh(s: Slot, name: CacheName)
      reads this
    {
      Caches.Fits(name, s) && old(caches).KeyFree(name, s) && s.id == old(nextId) && nextId == old(nextId) + 1
      && slots == old(slots)[s.id := s] && caches == old(caches).Register(name, s) && mergedTo == old(mergedTo)
    }

    twostate predicate Unchanged()
      reads this
    {
      nextId == old(nextId) && slots == old(slots) && caches == old(caches) && mergedTo == old(mergedTo)
    }

    /** Stores a new slot under the next id and records it in cache `name`. */
    method Register(s: Slot, name: CacheName)
      requires Valid() && s.id == nextId && Caches.Fits(name, s) && caches.KeyFree(name, s)
      modifies this`nextId, this`slots, this`caches
      ensures Valid() && AddedFresh(s, name)
    {
      RegisterKeepsValid(nextId, slots, caches, name, s);
      slots := slots[nextId := s];
      caches := caches.Register(name, s);
      nextId := nextId + 1;
    }

    /**
     * The constructor: empty store and caches; with storeConstants, one constant
     * slot per real qualifier class (without element values), in sorted order,
     * with ids 1, 2, ...
     */
    constructor (hierarchy: RealHierarchy, realQualifiers: seq<string>, storeConstants: bool)
      requires NoDuplicates(realQualifiers)
      ensures Valid() && mergedTo == map[]
      ensures this.hierarchy == hierarchy && this.realQualifiers == SortAnnotationClasses(realQualifiers)
      ensures StrictlySorted(this.realQualifiers) && multiset(this.realQualifiers) == multiset(realQualifiers)
      ensures |this.realQualifiers| == |realQualifiers|
      ensures caches == EmptyCaches.(constants := caches.constants)
      ensures nextId == 1 + (if storeConstants then |realQualifiers| else 0)
      ensures forall k | 0 <= k < nextId - 1 :: slots[k + 1] == ConstantSlot(k + 1, Qual(this.realQualifiers[k], []))
    {
      this.hierarchy := hierarchy;
      var sorted := SortAnnotationClasses(realQualifiers);
      SortedHasNoDuplicates(sorted);
      assert |sorted| == |multiset(sorted)| == |realQualifiers|;
      this.realQualifiers := sorted;
      nextId := 1;
      slots := map[];
      caches := EmptyCaches;
      mergedTo := map[];
      new;
      if storeConstants {
        var k := 0;
        while k < |sorted|
          invariant 0 <= k <= |sorted| && nextId == k + 1
          invariant Valid() && mergedTo == map[]
          invariant ConstantsStored(sorted, k, slots, caches)
        {
          ConstantsStoredStep(sorted, k, slots, caches);
          Register(ConstantSlot(nextId, Qual(sorted[k], [])), ConstantCache);
          k := k + 1;
        }
      }
    }

    /** getSlot(id): the slot with that id, or nothing (Java's null) when there is none. */
    function GetSlot(id: int): (r: Option<Slot>)
      reads this
      requires Valid()
      ensures r.Some? <==> 1 <= id < nextId
      ensures r.Some? ==> r.value.id == id && Stored(slots, r.value)
    {
      if id >= 0 && id in slots then Some(slots[id]) else None
    }

    /** getAnnotation and getSlot(id) are inverse on the stored slots. */
    lemma AnnotationRoundTrip(s: Slot)
      requires Valid() && Stored(slots, s)
      ensures GetSlot(GetAnnotation(s).value.value) == Some(s)
    {
    }

    /** getNumberOfSlots: nextId - 1, which is the number of stored slots. */
    function GetNumberOfSlots(): (n: int)
      reads this
      requires Valid()
      ensures n == |slots|
    {
      SlotCount(nextId, slots);
      nextId - 1
    }

    /**
     * getSlot of a type's @VarAnnot: Java's null when the type has none in hack
     * mode, BugInCF when it has none otherwise.
     */
    function GetSlotOfType(varAnnot: Option<Option<int>>, hack: bool): (r: Result<Option<Slot>>)
      reads this
      requires Valid()
      ensures r.Failure? <==> varAnnot.None? && !hack
      ensures r.Success? && r.value.Some? ==>
                varAnnot == Some(Some(r.value.value.id)) && Stored(slots, r.value.value)
      ensures varAnnot.Some? && varAnnot.value.Some? && 1 <= varAnnot.value.value < nextId ==>
                r.Success? && r.value.Some?
    {
      match varAnnot
      case None => if hack then Success(None) else Failure(BugInCF("Missing VarAnnot annotation"))
      case Some(None) => Success(None)
      case Some(Some(id)) => Success(GetSlot(id))
    }

    /** getSlots: every slot, in the order of creation. */
    method GetSlots() returns (r: seq<Slot>)
      requires Valid()
      ensures |r| == |slots| == nextId - 1
      ensures forall k | 0 <= k < |r| :: r[k] == slots[k + 1]
    {
      SlotCount(nextId, slots);
      r := [];
      var i := 1;
      while i < nextId
        invariant 1 <= i <= nextId && |r| == i - 1
        invariant forall k | 0 <= k < |r| :: r[k] == slots[k + 1]
      {
        r := r + [slots[i]];
        i := i + 1;
      }
    }

    /** getVariableSlots: every variable (non-constant) slot, in the order of creation. */
    method GetVariableSlots() returns (r: seq<Slot>)
      requires Valid()
      ensures forall s :: s in r <==> s in slots.Values && s.IsVariable()
      ensures forall k, j | 0 <= k < j < |r| :: r[k].id < r[j].id
    {
      r := [];
      var i := 1;
      while i < nextId
        invariant 1 <= i <= nextId
        invariant forall s :: s in r <==> exists j :: 1 <= j < i && slots[j] == s && s.IsVariable()
        invariant forall k | 0 <= k < |r| :: r[k].id < i
        invariant forall k, j | 0 <= k < j < |r| :: r[k].id < r[j].id
      {
        if slots[i].IsVariable() {
          r := r + [slots[i]];
        }
        i := i + 1;
      }
    }

    /** getConstantSlots: every constant slot, in the order of creation. */
    method GetConstantSlots() returns (r: seq<Slot>)
      requires Valid()
      ensures forall s :: s in r <==> s in slots.Values && s.ConstantSlot?
      ensures forall k, j | 0 <= k < j < |r| :: r[k].id < r[j].id
    {
      r := [];
      var i := 1;
      while i < nextId
        invariant 1 <= i <= nextId
        invariant forall s :: s in r <==> exists j :: 1 <= j < i && slots[j] == s && s.ConstantSlot?
        invariant forall k | 0 <= k < |r| :: r[k].id < i
        invariant forall k, j | 0 <= k < j < |r| :: r[k].id < r[j].id
      {
        if slots[i].ConstantSlot? {
          r := r + [slots[i]];
        }
        i := i + 1;
      }
    }

    /**
     * getSlot of an annotation: a @VarAnnot gives its stored slot (or nothing);
     * a real qualifier gives its cached constant slot, or a new constant slot
     * when its class is one of the real qualifiers; otherwise, in hack mode,
     * the constant slot of the real hierarchy's first top, else BugInCF.
     */
    method GetSlotForAnnotation(a: Anno, hack: bool) returns (r: Result<Option<Slot>>)
      requires Valid()
      modifies this`nextId, this`slots, this`caches
      ensures Valid()
      ensures r.Success? && r.value.Some? ==> Stored(slots, r.value.value)
      ensures Unchanged() || (r.Success? && r.value.Some? && AddedFresh(r.value.value, ConstantCache))
      ensures a.VarAnnot? ==> Unchanged() && r == Success(if a.value.None? then None else GetSlot(a.value.value))
      ensures a.RealAnno? && a.qual in old(caches.constants) ==>
                Unchanged() && r == Success(Some(ConstantSlot(old(caches.constants)[a.qual], a.qual)))
      ensures a.RealAnno? && a.qual !in old(caches.constants) && a.qual.annoClass in realQualifiers ==>
                r.Success? && r.value.Some? && r.value.value == ConstantSlot(old(nextId), a.qual)
                && AddedFresh(r.value.value, ConstantCache)
      ensures a.RealAnno? && a.qual !in old(caches.constants) && a.qual.annoClass !in realQualifiers ==>
                (r.Failure? <==> !hack || |hierarchy.tops| == 0)
                && (r.Failure? ==> if hack then r.error.NoSuchElement? else r.error.BugInCF?)
                && (r.Success? ==> r.value.Some? && r.value.value.ConstantSlot?
                                   && r.value.value.value == hierarchy.tops[0])
    {
      match a
      case VarAnnot(v) =>
        r := Success(if v.None? then None else GetSlot(v.value));
      case RealAnno(q) =>
        if q in caches.constants {
          r := Success(Some(slots[caches.constants[q]]));
        } else if q.annoClass in realQualifiers {
          var s := CreateConstantSlot(q);
          r := Success(Some(s));
        } else if hack {
          if |hierarchy.tops| == 0 {
            r := Failure(NoSuchElement("the real hierarchy has no top"));
          } else {
            var s := CreateConstantSlot(hierarchy.tops[0]);
            r := Success(Some(s));
          }
        } else {
          r := Failure(BugInCF("type of AnnotationMirror not handled by getVariableSlot"));
        }
    }

    /** The slot createSourceVariableSlot builds: insertable, with the default only when defaults are implicit. */
    static predicate IsNewSourceSlot(s: Slot, location: Location, actualType: JType,
                                      lookupDefault: Option<Qual>, makeDefaultsExplicit: bool)
    {
      s.SourceVariableSlot? && s.location == location && s.actualType == actualType && s.insertable
      && s.defaultAnnotation == (if makeDefaultsExplicit || location.IsMissing() then None else lookupDefault)
    }

    /**
     * createSourceVariableSlot. The default annotation is looked up only when
     * defaults are not made explicit; lookupDefault is what that lookup gives
     * for a real location, and for the missing location it gives null. A
     * missing location gets a fresh, uncached slot in hack mode and BugInCF
     * otherwise; a cached location gives the cached slot, which must be a
     * source slot (a refinement slot there is a ClassCastException).
     */
    method CreateSourceVariableSlot(location: Location, actualType: JType, lookupDefault: Option<Qual>,
                                    makeDefaultsExplicit: bool, hack: bool) returns (r: Result<Slot>)
      requires Valid()
      modifies this`nextId, this`slots, this`caches
      ensures Valid()
      ensures r.Success? ==> r.value.SourceVariableSlot? && Stored(slots, r.value)
      ensures location.IsMissing() ==>
                (r.Failure? <==> !hack) && (r.Failure? ==> r.error.BugInCF? && Unchanged())
                && (r.Success? ==> AddedFresh(r.value, NoCache)
                                   && IsNewSourceSlot(r.value, location, actualType, lookupDefault, makeDefaultsExplicit))
      ensures !location.IsMissing() && location in old(caches.locations) ==>
                Unchanged()
                && var cached := old(slots)[old(caches.locations)[location]];
                   (r.Success? <==> cached.SourceVariableSlot?) && (r.Success? ==> r.value == cached)
                   && (r.Failure? ==> r.error.ClassCast?)
      ensures !location.IsMissing() && location !in old(caches.locations) ==>
                r.Success? && AddedFresh(r.value, LocationCache)
                && IsNewSourceSlot(r.value, location, actualType, lookupDefault, makeDefaultsExplicit)
    {
      if location.IsMissing() {
        if hack {
          // The default lookup gives null for the missing location in hack mode.
          var s := SourceVariableSlot(nextId, location, actualType, None, true);
          Register(s, NoCache);
          r := Success(s);
        } else if !makeDefaultsExplicit {
          r := Failure(BugInCF("Getting default annotation for missing location!"));
        } else {
          r := Failure(BugInCF("Creating SourceVariableSlot on MISSING_LOCATION!"));
        }
      } else if location in caches.locations {
        var cached := slots[caches.locations[location]];
        if cached.SourceVariableSlot? {
          r := Success(cached);
        } else {
          r := Failure(ClassCast("RefinementVariableSlot cannot be cast to SourceVariableSlot"));
        }
      } else {
        var defaultAnnotation := if !makeDefaultsExplicit then lookupDefault else None;
        var s := SourceVariableSlot(nextId, location, actualType, defaultAnnotation, true);
        Register(s, LocationCache);
        r := Success(s);
      }
    }

    /**
     * createRefinementVariableSlot: a cached location gives the cached slot (which
     * must be a refinement slot) and emits nothing; otherwise a new refinement slot
     * of the declaration is created, equated with the value slot when there is
     * one, and cached unless the location is missing.
     */
    method CreateRefinementVariableSlot(location: Location, declaration: Slot, valueSlot: Option<Slot>,
                                        cm: ConstraintManager) returns (r: Result<Slot>)
      requires Valid()
      modifies this`nextId, this`slots, this`caches, cm
      ensures Valid()
      ensures r.Success? ==> r.value.RefinementVariableSlot? && Stored(slots, r.value)
      ensures location in old(caches.locations) ==>
                Unchanged() && cm.constraints == old(cm.constraints)
                && var cached := old(slots)[old(caches.locations)[location]];
                   (r.Success? <==> cached.RefinementVariableSlot?) && (r.Success? ==> r.value == cached)
                   && (r.Failure? ==> r.error.ClassCast?)
      ensures location !in old(caches.locations) ==>
                r.Success? && r.value == RefinementVariableSlot(old(nextId), location, declaration.id)
                && AddedFresh(r.value, if location.IsMissing() then NoCache else LocationCache)
                && cm.constraints == (if valueSlot.Some?
                                      then old(cm.constraints) + [EqualityConstraint(Some(r.value), valueSlot)]
                                      else old(cm.constraints))
    {
      if location in caches.locations {
        var cached := slots[caches.locations[location]];
        if cached.RefinementVariableSlot? {
          r := Success(cached);
        } else {
          r := Failure(ClassCast("SourceVariableSlot cannot be cast to RefinementVariableSlot"));
        }
        return;
      }
      var s := RefinementVariableSlot(nextId, location, declaration.id);
      Register(s, if location.IsMissing() then NoCache else LocationCache);
      if valueSlot.Some? {
        cm.AddEqualityConstraint(s, valueSlot.value);
      }
      r := Success(s);
    }

    /** createConstantSlot: one constant slot per qualifier value. */
    method CreateConstantSlot(value: Qual) returns (s: Slot)
      requires Valid()
      modifies this`nextId, this`slots, this`caches
      ensures Valid()
      ensures s == ConstantSlot(s.id, value) && Stored(slots, s)
      ensures value in old(caches.constants) ==> Unchanged() && s.id == old(caches.constants)[value]
      ensures value !in old(caches.constants) ==> AddedFresh(s, ConstantCache)
    {
      if value in caches.constants {
        s := slots[caches.constants[value]];
      } else {
        s := ConstantSlot(nextId, value);
        Register(s, ConstantCache);
      }
    }

    /** createCombVariableSlot: one comb slot per (receiver, declared) pair. */
    method CreateCombVariableSlot(receiver: Slot, declared: Slot) returns (s: Slot)
      requires Valid()
      modifies this`nextId, this`slots, this`caches
      ensures Valid()
      ensures s == CombVariableSlot(s.id, receiver.id, declared.id) && Stored(slots, s)
      ensures (receiver.id, declared.id) in old(caches.combs) ==>
                Unchanged() && s.id == old(caches.combs)[(receiver.id, declared.id)]
      ensures (receiver.id, declared.id) !in old(caches.combs) ==> AddedFresh(s, CombCache)
    {
      var key := (receiver.id, declared.id);
      if key in caches.combs {
        s := slots[caches.combs[key]];
      } else {
        s := CombVariableSlot(nextId, receiver.id, declared.id);
        Register(s, CombCache);
      }
    }

    /**
     * createMergeVariableSlot: one merge slot per ordered (left, right) pair and
     * per kind; lub slots and glb slots are kept in separate caches.
     */
    method CreateMergeVariableSlot(left: Slot, right: Slot, isLub: bool) returns (s: Slot)
      requires Valid()
      modifies this`nextId, this`slots, this`caches
      ensures Valid()
      ensures s == LubVariableSlot(s.id, left.id, right.id) && Stored(slots, s)
      ensures var cache := if isLub then old(caches.lubs) else old(caches.glbs);
              ((left.id, right.id) in cache ==> Unchanged() && s.id == cache[(left.id, right.id)])
              && ((left.id, right.id) !in cache ==> AddedFresh(s, if isLub then LubCache else GlbCache))
      ensures isLub ==> (left.id, right.id) in caches.lubs && caches.lubs[(left.id, right.id)] == s.id
      ensures !isLub ==> (left.id, right.id) in caches.glbs && caches.glbs[(left.id, right.id)] == s.id
      ensures KeptOrGrew(old(nextId), old(slots), old(caches), slots, caches, if isLub then LubCache else GlbCache, s)
    {
      var key := (left.id, right.id);
      var cache := if isLub then caches.lubs else caches.glbs;
      if key in cache {
        s := slots[cache[key]];
      } else {
        s := LubVariableSlot(nextId, left.id, right.id);
        Register(s, if isLub then LubCache else GlbCache);
      }
    }

    method CreateLubMergeVariableSlot(left: Slot, right: Slot) returns (s: Slot)
      requires Valid()
      modifies this`nextId, this`slots, this`caches
      ensures Valid()
      ensures s == LubVariableSlot(s.id, left.id, right.id) && Stored(slots, s)
      ensures (left.id, right.id) in caches.lubs && caches.lubs[(left.id, right.id)] == s.id
      ensures (left.id, right.id) in old(caches.lubs) ==> Unchanged()
      ensures (left.id, right.id) !in old(caches.lubs) ==> AddedFresh(s, LubCache)
      ensures KeptOrGrew(old(nextId), old(slots), old(caches), slots, caches, LubCache, s)
    {
      s := CreateMergeVariableSlot(left, right, true);
    }

    method CreateGlbMergeVariableSlot(left: Slot, right: Slot) returns (s: Slot)
      requires Valid()
      modifies this`nextId, this`slots, this`caches
      ensures Valid()
      ensures s == LubVariableSlot(s.id, left.id, right.id) && Stored(slots, s)
      ensures (left.id, right.id) in caches.glbs && caches.glbs[(left.id, right.id)] == s.id
      ensures (left.id, right.id) in old(caches.glbs) ==> Unchanged()
      ensures (left.id, right.id) !in old(caches.glbs) ==> AddedFresh(s, GlbCache)
      ensures KeptOrGrew(old(nextId), old(slots), old(caches), slots, caches, GlbCache, s)
    {
      s := CreateMergeVariableSlot(left, right, false);
    }

    /** createExistentialVariableSlot: one existential slot per (potential, alternative) pair. */
    method CreateExistentialVariableSlot(potential: Slot, alternative: Slot) returns (s: Slot)
      requires Valid()
      modifies this`nextId, this`slots, this`caches
      ensures Valid()
      ensures s == ExistentialVariableSlot(s.id, potential.id, alternative.id) && Stored(slots, s)
      ensures (potential.id, alternative.id) in old(caches.existentials) ==>
                Unchanged() && s.id == old(caches.existentials)[(potential.id, alternative.id)]
      ensures (potential.id, alternative.id) !in old(caches.existentials) ==> AddedFresh(s, ExistentialCache)
    {
      var key := (potential.id, alternative.id);
      if key in caches.existentials {
        s := slots[caches.existentials[key]];
      } else {
        s := ExistentialVariableSlot(nextId, potential.id, alternative.id);
        Register(s, ExistentialCache);
      }
    }

    /**
     * createArithmeticVariableSlot: BugInCF on an absent or missing location; one
     * arithmetic slot per location, recording the operation's result kind.
     */
    method CreateArithmeticVariableSlot(location: Option<Location>, lhs: JType, rhs: JType)
      returns (r: Result<Slot>)
      requires Valid()
      modifies this`nextId, this`slots, this`caches
      ensures Valid()
      ensures r.Success? ==> r.value.ArithmeticVariableSlot? && Stored(slots, r.value)
      ensures location.None? || location.value.IsMissing() ==> r.Failure? && r.error.BugInCF? && Unchanged()
      ensures location.Some? && location.value in old(caches.arithmetics) ==>
                Unchanged() && r == Success(old(slots)[old(caches.arithmetics)[location.value]])
      ensures location.Some? && !location.value.IsMissing() && location.value !in old(caches.arithmetics) ==>
                match ArithmeticResultKind(lhs, rhs)
                case Failure(e) => r == Failure(e) && Unchanged()
                case Success(kind) =>
                  r == Success(ArithmeticVariableSlot(old(nextId), location.value, kind))
                  && AddedFresh(r.value, ArithmeticCache)
    {
      if location.None? || location.value.IsMissing() {
        r := Failure(BugInCF("Cannot create an ArithmeticVariableSlot with a missing annotation location."));
        return;
      }
      var l := location.value;
      if l in caches.arithmetics {
        r := Success(slots[caches.arithmetics[l]]);
        return;
      }
      var kind := ArithmeticResultKind(lhs, rhs);
      if kind.Failure? {
        r := Failure(kind.error);
        return;
      }
      var s := ArithmeticVariableSlot(nextId, l, kind.value);
      Register(s, ArithmeticCache);
      r := Success(s);
    }

    /**
     * createComparisonVariableSlot: BugInCF on an absent or missing location; one
     * comparison slot per location and branch (then and else are cached apart).
     */
    method CreateComparisonVariableSlot(location: Option<Location>, refined: Slot, thenBranch: bool)
      returns (r: Result<Slot>)
      requires Valid()
      modifies this`nextId, this`slots, this`caches
      ensures Valid()
      ensures r.Success? ==> r.value.ComparisonVariableSlot? && Stored(slots, r.value)
      ensures location.None? || location.value.IsMissing() ==> r.Failure? && r.error.BugInCF? && Unchanged()
      ensures location.Some? && !location.value.IsMissing() ==>
                var cache := if thenBranch then old(caches.comparisonThens) else old(caches.comparisonElses);
                (location.value in cache ==> Unchanged() && r == Success(old(slots)[cache[location.value]]))
                && (location.value !in cache ==>
                      r == Success(ComparisonVariableSlot(old(nextId), location.value, refined.id))
                      && AddedFresh(r.value, if thenBranch then ComparisonThenCache else ComparisonElseCache))
    {
      if location.None? || location.value.IsMissing() {
        r := Failure(BugInCF("Cannot create an ComparisonVariableSlot with a missing annotation location."));
        return;
      }
      var l := location.value;
      if thenBranch && l in caches.comparisonThens {
        r := Success(slots[caches.comparisonThens[l]]);
        return;
      }
      if !thenBranch && l in caches.comparisonElses {
        r := Success(slots[caches.comparisonElses[l]]);
        return;
      }
      var s := ComparisonVariableSlot(nextId, l, refined.id);
      Register(s, if thenBranch then ComparisonThenCache else ComparisonElseCache);
      r := Success(s);
    }

    /** createEquivalentVarAnno: the @VarAnnot of the constant slot of a real qualifier. */
    method CreateEquivalentVarAnno(realQualifier: Qual) returns (a: Anno)
      requires Valid()
      modifies this`nextId, this`slots, this`caches
      ensures Valid()
      ensures a.VarAnnot? && a.value.Some? && a.value.value >= 0 && GetSlot(a.value.value) == Some(ConstantSlot(a.value.value, realQualifier))
      ensures realQualifier in old(caches.constants) ==> Unchanged() && a.value.value == old(caches.constants)[realQualifier]
      ensures realQualifier !in old(caches.constants) ==> AddedFresh(ConstantSlot(a.value.value, realQualifier), ConstantCache)
    {
      var s := CreateConstantSlot(realQualifier);
      a := GetAnnotation(s);
    }

    /** setInsertable on a stored source slot: only that slot's flag changes. */
    method SetInsertable(id: nat, flag: bool)
      requires Valid() && id in slots && slots[id].SourceVariableSlot?
      modifies this`slots
      ensures Valid()
      ensures slots == old(slots)[id := old(slots)[id].SetInsertable(flag)]
      ensures slots[id].IsInsertable() == flag
    {
      SetInsertableKeepsValid(nextId, slots, caches, mergedTo, id, flag);
      slots := slots[id := slots[id].SetInsertable(flag)];
    }

    /** Slot.addMergedToSlot, kept by slot id. */
    method AddMergedToSlot(id: nat, merged: Slot)
      requires Valid() && Stored(slots, merged) && merged.LubVariableSlot?
      modifies this`mergedTo
      ensures Valid()
      ensures mergedTo == old(mergedTo)[id := MergedTo(old(mergedTo), id) + {merged.id}]
    {
      mergedTo := mergedTo[id := MergedTo(mergedTo, id) + {merged.id}];
    }
  }
}
