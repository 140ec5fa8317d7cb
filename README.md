# Slots, constraints and solving back ends of checker-framework-inference

This project is a Dafny model of the core of checker-framework-inference. That system infers type qualifiers for Java programs. While a type-checking pass runs, it does three things:
- it gives every place where a qualifier could be written a *slot*;
- it turns each subtype, lub and glb question the checker asks into *constraints* over those slots;
- it hands the constraints to a solver back end, which decides a qualifier for each variable slot.

The model covers these parts:

- **Slots and the slot manager** (`slots.dfy`, `slotmanager.dfy`).
  - The slot kinds and the insertable flag.
  - The result kind of an arithmetic slot.
  - `DefaultSlotManager` as a class. Its fields are the id counter, the store of slots by id, the caches that keep exactly one slot per constant, location or slot pair, and the merged-to sets.
  - Every creation method, proved to keep the store dense and the caches sound and complete.
- **Constraints** (`constraints.dfy`).
  - The arithmetic and comparison operation kinds and their `fromTreeKind`.
  - The guarded `create` factories.
  - `equals`/`hashCode`, which ignore the location.
  - A constraint log that stands in for the constraint manager.
- **The inference qualifier hierarchy** (`hierarchy.dfy`).
  - `findVarAnnot`/`findNonVarAnnot` and `isSubtype`.
  - The `merge` algorithm behind lub and glb: reuse of a common merged-to slot, the direct merged-to shortcut, and creation of a new merge slot with its two constraints.
  - `findTopVarAnnot`/`findBottomVarAnnot`.
- **Serialization and solving.**
  - The JSON serializer (`json.dfy`).
  - The MaxSAT type solver's clause feeding and model decoding (`maxsat.dfy`).
  - The MaxSAT encoder factory (`maxsatencoders.dfy`).
  - The Z3 soft-constraint encoder (`z3soft.dfy`).
  - The genetic MaxSAT solver's WCNF counting and reweighting (`genetic.dfy`), with the Java string and integer operations it relies on (`javatext.dfy`).
- **Two type systems built on the framework.**
  - *SimpleFlow*, the information-flow checker (`iflow.dfy`, `simpleflow.dfy`, `iflowserializers.dfy`). It covers the permission-set utilities, the flow qualifier hierarchy and the source/sink CNF serializers.
  - *Dataflow* (`dataflow.dfy`, `dataflowserializer.dfy`). It covers `refineDataflow`, the subtype, lub and glb of DataFlow qualifiers, and its CNF serializer.

Java exceptions are modelled as `Result` failures; `wrappers.dfy` defines `Option` and `Result`. A Java `assert` is modelled as an `AssertionError` failure, that is, as if assertions were enabled. "Hack mode" (`InferenceMain.isHackMode`) is an explicit boolean parameter.

Java `int` arithmetic is written out where it matters:
- the 32-bit sum of the weights;
- `-Integer.MIN_VALUE`;
- `Math.abs`.

The external engines are parameters:
- the real type system's qualifier hierarchy is a `RealHierarchy` of functions;
- javac's subtype test is an uninterpreted relation in `TypeEnv`;
- the SAT engine's answer is an input, and so is its notion of a trivial contradiction.

Where the code and its documentation disagree, the model follows the code:
- `JsonSerializer` writes version `"2"` and the keys `sub`/`sup` for subtype constraints. The format comment at the top of the file shows version `"1"` and `lhs`/`rhs`.
- `createRefinementVariableSlot` equates the new refinement slot with `valueSlot`. The interface comment speaks of "declarationSlot == valueSlot".
- The lub and glb caches of `createMergeVariableSlot` are keyed by the *ordered* pair `(left, right)`, although its comment says the order does not matter. So `(a, b)` and `(b, a)` can get two merge slots from the manager. `merge` itself reuses such slots through the merged-to sets.

Some behaviours are modelled as written, and lemmas state them:
- SimpleFlow's `getTopAnnotation` reads `PolySink` as a source qualifier (`SimpleFlow.PolySinkReadAsSource`).
- The lub of `PolySource` with an unrelated `Source` calls `addAll` on `Collections.emptySet()` and throws (`SimpleFlow.LubPolySourceOrder`).
- Dataflow's glb of two unrelated qualifiers without roots is `DATAFLOWBOTTOM`. That lies below an operand only when the operand names the empty type (`Dataflow.GlbOfRootless`).

## Model

| member | source | states |
|---|---|---|
| Slots.Slot.GetKind | src/checkers/inference/model/SourceVariableSlot.java:57-59 | each slot class reports its own kind; only a constant slot has the constant kind |
| Slots.Slot.IsInsertable | src/checkers/inference/model/SourceVariableSlot.java:74-76 | a source slot is insertable iff its flag is set; arithmetic and comparison slots never are |
| Slots.Slot.SetInsertable | src/checkers/inference/model/SourceVariableSlot.java:87-89 | the flag becomes the argument and nothing else of the slot changes |
| Slots.GetRefined | src/checkers/inference/model/ComparisonVariableSlot.java:17-19 | the refined slot recorded in a comparison slot |
| Slots.KindDeterminesClass | src/checkers/inference/model/ComparisonVariableSlot.java:21-24 | two slots with the same kind are of the same class |
| Slots.SetInsertableLastWins | src/checkers/inference/model/SourceVariableSlot.java:87-89 | setting the flag twice keeps the last value; setting it to its current value changes nothing |
| Slots.ArithmeticResultKind | src/checkers/inference/DefaultSlotManager.java:584-600 | DOUBLE when either operand is floating point, else LONG when either is long, else INT (so two booleans give INT); an operand that is not primitive or boxed fails the assertion |
| Slots.ArithmeticResultKindIsPromotion | src/checkers/inference/DefaultSlotManager.java:584-600 | the result kind does not depend on the operand order; without booleans it is binary numeric promotion with float widened to double; a boolean operand counts as an int, and two booleans give INT |
| Constraints.ArithmeticFromTreeKind | src/checkers/inference/model/ArithmeticConstraint.java:42-81 | every failure is a BugInCF (which tree kinds succeed is ArithmeticFromTreeKindExact) |
| Constraints.ArithmeticFromTreeKindExact | src/checkers/inference/model/ArithmeticConstraint.java:42-81 | fromTreeKind succeeds with op exactly on op's operator and op's compound assignment |
| Constraints.ComparisonFromTreeKind | src/checkers/inference/model/ComparisonConstraint.java:41-59 | every failure is a BugInCF (which tree kinds succeed is ComparisonFromTreeKindExact) |
| Constraints.ComparisonFromTreeKindExact | src/checkers/inference/model/ComparisonConstraint.java:41-59 | fromTreeKind succeeds with op exactly on op's own tree kind, one of the six relational and equality operators |
| Constraints.SymbolsDistinct | src/checkers/inference/model/ArithmeticConstraint.java:16-27 | no two arithmetic operations (and no two comparison operations) share a symbol |
| Constraints.ArithmeticSymbol | src/checkers/inference/model/ArithmeticConstraint.java:17-27 | getSymbol: the Java operator written for each arithmetic operation (+, -, *, /, %, the three shifts, and the bitwise and, or and xor); SymbolsDistinct proves no two share one |
| Constraints.ComparisonSymbol | src/checkers/inference/model/ComparisonConstraint.java:27-32 | getSymbol: the Java operator written for each comparison (==, !=, >, >=, <, <=); SymbolsDistinct proves no two share one |
| Constraints.AllSlots | src/checkers/inference/model/ArithmeticConstraint.java:93-100 | the constraint records its three slots: the two operands and the result |
| Constraints.CreateArithmeticConstraint | src/checkers/inference/model/ArithmeticConstraint.java:102-116 | succeeds iff the operation, both operands, the result and a non-missing location are all present, and then builds exactly that constraint; otherwise BugInCF |
| Constraints.CreateComparisonConstraint | src/checkers/inference/model/ComparisonConstraint.java:75-89 | succeeds iff the operation, both operands and a non-missing location are present (the result slot is not checked); otherwise BugInCF |
| Constraints.ArithmeticEquals | src/checkers/inference/model/ArithmeticConstraint.java:146-157 | equals: the other object is an arithmetic constraint with the same operation, operands and result, whatever its location; ArithmeticEqualityIgnoresLocation and EqualitiesAreEquivalences state its properties |
| Constraints.ArithmeticHashKey | src/checkers/inference/model/ArithmeticConstraint.java:139-144 | the fields hashCode hashes: operation, operands and result, not the location; ArithmeticEqualityIgnoresLocation ties it to equals |
| Constraints.ComparisonEquals | src/checkers/inference/model/ComparisonConstraint.java:116-130 | equals: the other object is a comparison constraint with the same operands and operation, whatever its result and location; ComparisonEqualityIgnoresResult and EqualitiesAreEquivalences state its properties |
| Constraints.ComparisonHashKey | src/checkers/inference/model/ComparisonConstraint.java:111-114 | the fields hashCode hashes: both operands and the operation; ComparisonEqualityIgnoresResult ties it to equals |
| Constraints.ArithmeticEqualityIgnoresLocation | src/checkers/inference/model/ArithmeticConstraint.java:138-157 | equals holds iff everything but the location is equal, and equal constraints have equal hash inputs |
| Constraints.ComparisonEqualityIgnoresResult | src/checkers/inference/model/ComparisonConstraint.java:110-130 | equals ignores the location and the result slot, and it agrees with the hash inputs |
| Constraints.EqualitiesAreEquivalences | src/checkers/inference/model/ArithmeticConstraint.java:146-157 | both equals methods are reflexive, symmetric and transitive |
| SlotManagement.GetAnnotation | src/checkers/inference/DefaultSlotManager.java:229-234 | the @VarAnnot of a slot carries the slot's id |
| SlotManagement.RegisterKeepsValid | src/checkers/inference/DefaultSlotManager.java:209-215 | storing a new slot under the next id and caching it under a free key keeps the ids dense and the caches sound and complete |
| SlotManagement.ConstantsUnique | src/checkers/inference/DefaultSlotManager.java:507-518 | in a valid store, two constant slots with the same value are the same slot |
| SlotManagement.LocationsUnique | src/checkers/inference/DefaultSlotManager.java:370-396 | two source or refinement slots at the same real location are the same slot |
| SlotManagement.CombsUnique | src/checkers/inference/DefaultSlotManager.java:521-533 | two comb slots over the same receiver and declared slot are the same slot |
| SlotManagement.ArithmeticsUnique | src/checkers/inference/DefaultSlotManager.java:603-620 | two arithmetic slots at the same location are the same slot |
| SlotManagement.LubAndGlbDisjoint | src/checkers/inference/DefaultSlotManager.java:545-561 | no merge slot is recorded both in the lub cache and in the glb cache |
| SlotManagement.SlotCount | src/checkers/inference/DefaultSlotManager.java:346-348 | with dense ids the store holds exactly nextId - 1 slots |
| SlotManagement.DefaultSlotManager.Register | src/checkers/inference/DefaultSlotManager.java:209-215 | nextId() and addToSlots: the slot is stored under the next id, the id advances, the slot is cached, and the store stays valid |
| SlotManagement.DefaultSlotManager.constructor | src/checkers/inference/DefaultSlotManager.java:149-183 | empty caches and store; the real qualifiers are kept sorted by canonical name (a permutation of the given set); with storeConstants, slot k+1 is the constant slot of the k-th qualifier in that order |
| SlotManagement.NameBeforeIrreflexive | src/checkers/inference/DefaultSlotManager.java:196-199 | no canonical name comes before itself |
| SlotManagement.NameBeforeTransitive | src/checkers/inference/DefaultSlotManager.java:196-199 | the order on canonical names is transitive |
| SlotManagement.NameBeforeTotal | src/checkers/inference/DefaultSlotManager.java:196-199 | any two different names are ordered one way or the other |
| SlotManagement.NameBeforeAsymmetric | src/checkers/inference/DefaultSlotManager.java:196-199 | no two names come before each other |
| SlotManagement.SortedHasNoDuplicates | src/checkers/inference/DefaultSlotManager.java:184-203 | a strictly sorted sequence lists no name twice |
| SlotManagement.InsertName | src/checkers/inference/DefaultSlotManager.java:186-201 | adding a new name to a sorted sequence keeps it sorted and adds exactly that name |
| SlotManagement.InsertFirstKeepsSorted | src/checkers/inference/DefaultSlotManager.java:186-201 | a name before the first one may go in front |
| SlotManagement.InsertAfterFirstKeepsSorted | src/checkers/inference/DefaultSlotManager.java:186-201 | a name after the first one is inserted into the rest |
| SlotManagement.SortAnnotationClasses | src/checkers/inference/DefaultSlotManager.java:184-203 | sortAnnotationClasses: the given classes, strictly sorted by canonical name, and nothing else |
| SlotManagement.SortedHeadIsLeast | src/checkers/inference/DefaultSlotManager.java:184-203 | the first name of a sorted sequence comes before every other name in it |
| SlotManagement.SortedTail | src/checkers/inference/DefaultSlotManager.java:184-203 | the tail of a sorted sequence is sorted and holds all names but the first |
| SlotManagement.SortedIsUnique | src/checkers/inference/DefaultSlotManager.java:184-203 | two sorted sequences of the same names are the same sequence |
| SlotManagement.SortIgnoresOrder | src/checkers/inference/DefaultSlotManager.java:156 | the order in which the real qualifiers are given does not change the sorted order, so the constant slot ids do not depend on it |
| SlotManagement.DefaultSlotManager.GetSlot | src/checkers/inference/DefaultSlotManager.java:221-223 | a slot exactly for the ids 1 .. nextId - 1, and it carries that id |
| SlotManagement.DefaultSlotManager.AnnotationRoundTrip | src/checkers/inference/DefaultSlotManager.java:221-234 | getSlot(getAnnotation(s)) is s for every stored slot |
| SlotManagement.DefaultSlotManager.GetNumberOfSlots | src/checkers/inference/DefaultSlotManager.java:346-348 | nextId - 1 equals the number of stored slots |
| SlotManagement.DefaultSlotManager.GetSlotOfType | src/checkers/inference/DefaultSlotManager.java:254-266 | a type without @VarAnnot gives null in hack mode and BugInCF otherwise; a known id gives its slot |
| SlotManagement.DefaultSlotManager.GetSlots | src/checkers/inference/DefaultSlotManager.java:312-314 | every stored slot, in id order |
| SlotManagement.DefaultSlotManager.GetVariableSlots | src/checkers/inference/DefaultSlotManager.java:321-329 | exactly the stored non-constant slots, in increasing id order |
| SlotManagement.DefaultSlotManager.GetConstantSlots | src/checkers/inference/DefaultSlotManager.java:335-343 | exactly the stored constant slots, in increasing id order |
| SlotManagement.DefaultSlotManager.GetSlotForAnnotation | src/checkers/inference/DefaultSlotManager.java:272-306 | a @VarAnnot gives the slot of its id and changes nothing; a cached real qualifier gives its constant slot; a new qualifier of a real qualifier class adds one constant slot; any other qualifier gives the real top's constant in hack mode and BugInCF otherwise |
| SlotManagement.DefaultSlotManager.CreateSourceVariableSlot | src/checkers/inference/DefaultSlotManager.java:370-407 | a missing location gets a fresh uncached slot with no default annotation in hack mode and BugInCF otherwise; a cached location gives its slot (ClassCast when that is a refinement slot); a new location adds one cached source slot |
| SlotManagement.DefaultSlotManager.CreateRefinementVariableSlot | src/checkers/inference/DefaultSlotManager.java:481-504 | a cached location gives its slot; otherwise a new refinement slot of the declaration, equated with the value slot when there is one, and cached unless the location is missing |
| SlotManagement.DefaultSlotManager.CreateConstantSlot | src/checkers/inference/DefaultSlotManager.java:507-518 | the cached constant slot of the value, or one new cached slot for it |
| SlotManagement.DefaultSlotManager.CreateCombVariableSlot | src/checkers/inference/DefaultSlotManager.java:521-533 | the cached comb slot of the (receiver, declared) pair, or one new one |
| SlotManagement.DefaultSlotManager.CreateMergeVariableSlot | src/checkers/inference/DefaultSlotManager.java:545-561 | the cached merge slot of the ordered pair in the lub or the glb cache, or one new one recorded there |
| SlotManagement.DefaultSlotManager.CreateLubMergeVariableSlot | src/checkers/inference/DefaultSlotManager.java:536-538 | a merge slot recorded in the lub cache for (left, right) |
| SlotManagement.DefaultSlotManager.CreateGlbMergeVariableSlot | src/checkers/inference/DefaultSlotManager.java:541-543 | a merge slot recorded in the glb cache for (left, right) |
| SlotManagement.DefaultSlotManager.CreateExistentialVariableSlot | src/checkers/inference/DefaultSlotManager.java:564-576 | the cached existential slot of the (potential, alternative) pair, or one new one |
| SlotManagement.DefaultSlotManager.CreateArithmeticVariableSlot | src/checkers/inference/DefaultSlotManager.java:603-620 | an absent or missing location is BugInCF with no change; otherwise the slot cached at the location, or one new slot recording the arithmetic result kind |
| SlotManagement.DefaultSlotManager.CreateComparisonVariableSlot | src/checkers/inference/DefaultSlotManager.java:623-645 | an absent or missing location is BugInCF with no change; otherwise one comparison slot per location and branch, with the then and else caches kept apart |
| SlotManagement.DefaultSlotManager.CreateEquivalentVarAnno | src/checkers/inference/DefaultSlotManager.java:648-651 | a @VarAnnot whose id names the constant slot of the qualifier: the cached one with the store unchanged, or exactly one new constant slot added under the next id and cached |
| SlotManagement.DefaultSlotManager.SetInsertable | src/checkers/inference/model/SourceVariableSlot.java:87-89 | only the flag of that one stored slot changes |
| SlotManagement.DefaultSlotManager.AddMergedToSlot | src/checkers/inference/InferenceQualifierHierarchy.java:296-297 | the merge slot joins the slot's merged-to set, and no other set changes |
| InferenceHierarchy.FindVarAnnot | src/checkers/inference/InferenceQualifierHierarchy.java:125-137 | the first @VarAnnot, or null when there is none; a null entry throws NullPointerException outside hack mode |
| InferenceHierarchy.IsVarAnnot | src/checkers/inference/InferenceQualifierHierarchy.java:68-70 | isVarAnnot: the annotation is a @VarAnnot, whether or not it carries an id; FindVarAnnot and FindNonVarAnnot split on it |
| InferenceHierarchy.FindVarAnnotIsFirst | src/checkers/inference/InferenceQualifierHierarchy.java:125-137 | when every entry before index i is a present non-@VarAnnot and entry i is a @VarAnnot, the result is entry i |
| InferenceHierarchy.FindNonVarAnnot | src/checkers/inference/InferenceQualifierHierarchy.java:112-120 | the first annotation that is not a @VarAnnot, or null when all are; a null entry throws |
| InferenceHierarchy.MergeEdges | src/checkers/inference/InferenceQualifierHierarchy.java:286-294 | a lub slot gets s1 <: m and s2 <: m; a glb slot gets m <: s1 and m <: s2 |
| InferenceHierarchy.LinkMerged | src/checkers/inference/InferenceQualifierHierarchy.java:296-297 | m joins the merged-to sets of both operands, and every other set is kept |
| InferenceHierarchy.InferenceQualifierHierarchy.constructor | src/checkers/inference/InferenceQualifierHierarchy.java:43-51 | the hierarchy over the given slot and constraint managers, with its invariant established |
| InferenceHierarchy.InferenceQualifierHierarchy.IsSubtype | src/checkers/inference/InferenceQualifierHierarchy.java:163-187 | a missing or non-@VarAnnot argument gives true in hack mode and BugInCF otherwise; a supertype without an id gives true; otherwise the answer and the log growth of addSubtypeConstraintNoErrorMsg on the two slots (SubtypeAnswered); an id with no stored slot is a NullPointer failure |
| InferenceHierarchy.InferenceQualifierHierarchy.IsSubtypeCollections | src/checkers/inference/InferenceQualifierHierarchy.java:140-160 | the @VarAnnot of each side is found, failures propagate, a missing one is true in hack mode and an AssertionError otherwise, and when both are present the answer is that of isSubtype on them (SubtypeAnswered) |
| InferenceHierarchy.InferenceQualifierHierarchy.ClassifyMerge | src/checkers/inference/InferenceQualifierHierarchy.java:218-271 | the step merge takes for its arguments (null, non-@VarAnnot, the same slot, two constants folded through the real lub or glb, or two variables), with its outcome in each case |
| InferenceHierarchy.InferenceQualifierHierarchy.GetOneIntersected | src/checkers/inference/InferenceQualifierHierarchy.java:309-325 | the only common element, null when the sets are disjoint, and an AssertionError when they share more than one |
| InferenceHierarchy.InferenceQualifierHierarchy.CreateMerge | src/checkers/inference/InferenceQualifierHierarchy.java:283-298 | a new merge slot of the requested kind, its two constraints appended to the log, and the merged-to links of both operands |
| InferenceHierarchy.InferenceQualifierHierarchy.NewMergeSlot | src/checkers/inference/InferenceQualifierHierarchy.java:286-291 | a lub or glb merge slot over (s1, s2), of the requested kind, with no merged-to change |
| InferenceHierarchy.InferenceQualifierHierarchy.RecordMerge | src/checkers/inference/InferenceQualifierHierarchy.java:288-297 | exactly MergeEdges is appended to the log and the merged-to sets become LinkMerged of the old ones, keeping the merge invariant |
| InferenceHierarchy.InferenceQualifierHierarchy.LogMerge | src/checkers/inference/InferenceQualifierHierarchy.java:288-293 | exactly MergeEdges is appended to the log, so both edges are logged |
| InferenceHierarchy.InferenceQualifierHierarchy.LinkMerge | src/checkers/inference/InferenceQualifierHierarchy.java:296-297 | the merged-to sets become LinkMerged of the old ones |
| InferenceHierarchy.InferenceQualifierHierarchy.MergeVariables | src/checkers/inference/InferenceQualifierHierarchy.java:272-299 | as written: a common merged-to slot of any kind, else an operand the other was merged into, else a new merge slot; a result of the requested kind bounds both operands in the log |
| InferenceHierarchy.InferenceQualifierHierarchy.MergeVariablesByKind | src/checkers/inference/InferenceQualifierHierarchy.java:272-299 | with merged-to slots counted only when of the requested kind, the result bounds both operands in the log (above for a lub, below for a glb) |
| InferenceHierarchy.InferenceQualifierHierarchy.Merge | src/checkers/inference/InferenceQualifierHierarchy.java:218-304 | merge as written: a Done step returns its result with the log unchanged; a Fold step returns the @VarAnnot of the constant slot of the folded qualifier and adds at most that one constant slot, with no constraint and no merged-to change (ConstantFolded); a Variables step keeps every stored slot and gives an AssertionError on two or more common merged-to slots, the common one when there is one, the operand the other was merged into, and otherwise a new merge slot of the requested kind with its edges logged and both merged-to sets linked (VariablesMerged) |
| InferenceHierarchy.InferenceQualifierHierarchy.MergeVariableAnnos | src/checkers/inference/InferenceQualifierHierarchy.java:272-304 | the @VarAnnot of the slot MergeVariables picks, with each of its five outcomes stated and every old slot kept (VariablesMerged) |
| InferenceHierarchy.InferenceQualifierHierarchy.FoldConstants | src/checkers/inference/InferenceQualifierHierarchy.java:263-271 | the @VarAnnot of the constant slot of the folded real qualifier: the cached slot with the store unchanged, or exactly one new constant slot of it under the next id; merged-to sets are unchanged (ConstantFolded) |
| InferenceHierarchy.InferenceQualifierHierarchy.MergeByKind | src/checkers/inference/InferenceQualifierHierarchy.java:218-304 | the corrected merge: Done and Fold steps as in merge, Fold adding at most one constant slot and no merged-to change (ConstantFolded); a Variables step keeps every old slot and returns a slot that the log bounds both operands by, above for a lub and below for a glb, or an AssertionError with the log unchanged (VariablesBounded) |
| InferenceHierarchy.InferenceQualifierHierarchy.LeastUpperBound | src/checkers/inference/InferenceQualifierHierarchy.java:214-216 | merge(a1, a2, true) as written, with the outcome of each ClassifyMerge step, the at most one constant slot a Fold step adds, and every old slot kept |
| InferenceHierarchy.InferenceQualifierHierarchy.GreatestLowerBound | src/checkers/inference/InferenceQualifierHierarchy.java:190-192 | merge(a1, a2, false) as written, with the outcome of each ClassifyMerge step, the at most one constant slot a Fold step adds, and every old slot kept |
| InferenceHierarchy.InferenceQualifierHierarchy.LeastUpperBoundByKind | src/checkers/inference/InferenceQualifierHierarchy.java:214-216 | the corrected lub: Done and Fold steps as in merge, Fold's store frame included; its Variables outcome is above both operands in the log and keeps every old slot |
| InferenceHierarchy.InferenceQualifierHierarchy.GreatestLowerBoundByKind | src/checkers/inference/InferenceQualifierHierarchy.java:190-192 | the corrected glb: Done and Fold steps as in merge, Fold's store frame included; its Variables outcome is below both operands in the log and keeps every old slot |
| InferenceHierarchy.InferenceQualifierHierarchy.GlbThenLubAsWritten | src/checkers/inference/InferenceQualifierHierarchy.java:272-281 | on two fresh slots, merge as written returns the glb slot as their lub, and the log does not place s1 below it |
| InferenceHierarchy.InferenceQualifierHierarchy.FindTopVarAnnot | src/checkers/inference/InferenceQualifierHierarchy.java:333-359 | the @VarAnnot of the constant slot of tops[0] when there is exactly one real top; any other number of tops fails; with one top it succeeds iff the constant is cached, the class is a real qualifier, or hack mode is on; no slot is changed |
| InferenceHierarchy.InferenceQualifierHierarchy.FindBottomVarAnnot | src/checkers/inference/InferenceQualifierHierarchy.java:366-387 | an empty store fails the assertion; no real bottom fails; on success a stored constant slot that every bottom resolves to, so two distinct bottoms fail outside hack mode; no slot is changed |
| InferenceHierarchy.BottomsFoundStep | src/checkers/inference/InferenceQualifierHierarchy.java:374-379 | one more bottom looked up extends the record of the slots found so far |
| InferenceHierarchy.BottomsShareSlot | src/checkers/inference/InferenceQualifierHierarchy.java:374-386 | when every bottom led to the same slot id, that slot is a stored constant slot every bottom resolves to, and outside hack mode there is at most one distinct bottom |
| InferenceHierarchy.InferenceQualifierHierarchy.LookUpConstant | src/checkers/inference/DefaultSlotManager.java:272-306 | a stored constant slot holding the qualifier (or, in hack mode for a class that is not a real qualifier, the first top); it fails exactly when the qualifier is neither cached nor a real qualifier and hack mode gives no top; no slot is changed |
| JsonSerialization.VarName | src/checkers/inference/model/serialization/JsonSerializer.java:223-230 | a slot reference is "var:" followed by the id |
| JsonSerialization.VarNameRoundTrip | src/checkers/inference/model/serialization/JsonSerializer.java:223-230 | the id is read back from its reference |
| JsonSerialization.VarNameInjective | src/checkers/inference/model/serialization/JsonSerializer.java:223-230 | distinct ids get distinct references |
| JsonSerialization.SerializeSlot | src/checkers/inference/model/serialization/JsonSerializer.java:223-266 | an existential slot throws; a constant is written by the annotation serializer; any other slot is its reference |
| JsonSerialization.TagDeterminesKind | src/checkers/inference/model/serialization/JsonSerializer.java:111-153 | equal tags mean the same constraint kind (and, for arithmetic, the same operation) |
| JsonSerialization.SerializePair | src/checkers/inference/model/serialization/JsonSerializer.java:270-280 | succeeds iff neither slot is existential, with the tag under "constraint" |
| JsonSerialization.SerializeTriple | src/checkers/inference/model/serialization/JsonSerializer.java:353-364 | succeeds iff none of the three slots is existential, with the tag |
| JsonSerialization.SerializeComparison | src/checkers/inference/model/serialization/JsonSerializer.java:338-349 | succeeds iff no slot is existential and the result is present; a missing result throws NullPointerException |
| JsonSerialization.SerializePreference | src/checkers/inference/model/serialization/JsonSerializer.java:368-380 | succeeds iff neither slot is existential, tagged "preference" |
| JsonSerialization.SerializeConstraint | src/checkers/inference/model/serialization/JsonSerializer.java:270-406 | a constraint with a missing side gives null; a success is an object tagged with the constraint's kind |
| JsonSerialization.SerializeTwoSided | src/checkers/inference/model/serialization/JsonSerializer.java:270-334 | subtype, equality, inequality and comparable constraints: null on a missing side, the kind's tag otherwise |
| JsonSerialization.SerializeFlat | src/checkers/inference/model/serialization/JsonSerializer.java:338-406 | comparison, combine, preference and arithmetic constraints: null on a missing side, the kind's tag otherwise |
| JsonSerialization.SerializeExistential | src/checkers/inference/model/serialization/JsonSerializer.java:298-306 | succeeds iff the potential slot is not existential and both branches serialize, tagged "enabled_check" |
| JsonSerialization.SerializeImplication | src/checkers/inference/model/serialization/JsonSerializer.java:383-395 | succeeds iff every assumption and the conclusion serialize, tagged "implication" |
| JsonSerialization.ToJsonArray | src/checkers/inference/model/serialization/JsonSerializer.java:208-217 | no more entries than constraints |
| JsonSerialization.SerializeEach | src/checkers/inference/model/serialization/JsonSerializer.java:383-395 | one entry per assumption, a null kept as JSON null |
| JsonSerialization.TwoSidedSucceedsIff | src/checkers/inference/model/serialization/JsonSerializer.java:270-334 | a two-sided constraint serializes iff it is Serializable |
| JsonSerialization.FlatSucceedsIff | src/checkers/inference/model/serialization/JsonSerializer.java:338-406 | a flat constraint serializes iff it is Serializable |
| JsonSerialization.ExistentialSucceedsIff | src/checkers/inference/model/serialization/JsonSerializer.java:298-306 | an existential constraint serializes iff its slot and both branch lists do |
| JsonSerialization.ImplicationSucceedsIff | src/checkers/inference/model/serialization/JsonSerializer.java:383-395 | an implication serializes iff it is Serializable |
| JsonSerialization.SerializeSucceedsIff | src/checkers/inference/model/serialization/JsonSerializer.java:270-406 | serializing any constraint, nested ones included, throws exactly when it is not Serializable |
| JsonSerialization.ToJsonArraySucceedsIff | src/checkers/inference/model/serialization/JsonSerializer.java:208-217 | the array is built iff every constraint is Serializable |
| JsonSerialization.SerializeEachSucceedsIff | src/checkers/inference/model/serialization/JsonSerializer.java:383-395 | the assumption list is built iff every assumption is Serializable |
| JsonSerialization.ToJsonArrayKeepsOrder | src/checkers/inference/model/serialization/JsonSerializer.java:208-217 | entry k is the serialization of the k-th constraint that is not dropped |
| JsonSerialization.ToJsonArrayFailureStops | src/checkers/inference/model/serialization/JsonSerializer.java:208-217 | once a prefix throws, the whole list throws the same exception |
| JsonSerialization.VarNamesSize | src/checkers/inference/model/serialization/JsonSerializer.java:197-206 | distinct solved ids give as many distinct keys |
| JsonSerialization.SectionSize | src/checkers/inference/model/serialization/JsonSerializer.java:197-206 | the variables section has one entry per solved slot |
| JsonSerialization.JsonSerializer.constructor | src/checkers/inference/model/serialization/JsonSerializer.java:172-181 | the serializer keeps the slots, constraints, solutions and annotation serializer it is given |
| JsonSerialization.JsonSerializer.GenerateConstraintFile | src/checkers/inference/model/serialization/JsonSerializer.java:184-194 | succeeds iff every constraint is Serializable, and then holds the version, the variables section when there are solutions, and the constraints array |
| JsonSerialization.JsonSerializer.GenerateVariablesSection | src/checkers/inference/model/serialization/JsonSerializer.java:197-206 | a null solution map throws; otherwise one "var:ID" entry with "type_value" per solved slot |
| JsonSerialization.JsonSerializer.ConstraintsToJsonArray | src/checkers/inference/model/serialization/JsonSerializer.java:208-217 | the loop computes ToJsonArray |
| JsonSerialization.SubtypeRoundTrip | src/checkers/inference/model/serialization/JsonSerializer.java:270-280 | a subtype constraint between variable slots is written with "sub" and "sup" references that read back as the two ids |
| MaxSatSolving.Negate32 | src/checkers/inference/solver/MaxSat2TypeSolver.java:159-162 | Java int negation: -v wrapped at 32 bits, so Integer.MIN_VALUE stays itself |
| MaxSatSolving.Abs32 | src/checkers/inference/solver/MaxSat2TypeSolver.java:146 | Math.abs on an int: non-negative except for Integer.MIN_VALUE |
| MaxSatSolving.DecodeLiteral | src/checkers/inference/solver/MaxSat2TypeSolver.java:145-165 | a stand-in literal asserts that its potential is decoded and removes it when negative; any other literal records top (negative) or bottom (positive) for its slot |
| MaxSatSolving.DecodeWellOrdered | src/checkers/inference/solver/MaxSat2TypeSolver.java:145-165 | on a well-ordered model the decoder never trips its assertion, and it decodes exactly the slots with their own literal, less the potentials of negative stand-ins |
| MaxSatSolving.DecodedPolarity | src/checkers/inference/solver/MaxSat2TypeSolver.java:158-164 | a decoded slot is top iff its own literal is negative |
| MaxSatSolving.SharedPotentialTripsAssertion | src/checkers/inference/solver/MaxSat2TypeSolver.java:146-157 | two stand-ins for one potential, the first negative, make the assertion fail |
| MaxSatSolving.DecodeFailureStops | src/checkers/inference/solver/MaxSat2TypeSolver.java:145-165 | once a prefix of the model trips the assertion, the whole model does, with the same error |
| MaxSatSolving.FeedOrder | src/checkers/inference/solver/MaxSat2TypeSolver.java:104-112 | every hard clause in list order, then every soft clause in list order |
| MaxSatSolving.FirstContradiction | src/checkers/inference/solver/MaxSat2TypeSolver.java:102-122 | the first clause that contradicts those added before it; every earlier clause was added cleanly |
| MaxSatSolving.FirstContradictionAt | src/checkers/inference/solver/MaxSat2TypeSolver.java:102-122 | the first contradiction is at k when clause k contradicts and no earlier clause did |
| MaxSatSolving.FirstContradictionNone | src/checkers/inference/solver/MaxSat2TypeSolver.java:102-122 | no contradiction when every clause is added cleanly |
| MaxSatSolving.MaxSat2TypeSolver.constructor | src/checkers/inference/solver/MaxSat2TypeSolver.java:49-73 | the solver keeps the top, the bottom, the slot count, both clause lists and the stand-in map |
| MaxSatSolving.MaxSat2TypeSolver.IsTop | src/checkers/inference/solver/MaxSat2TypeSolver.java:64-67 | the serializer's isTop override: a constant slot is top iff its qualifier is the first top, whatever its id (IsTopOfConstant) |
| MaxSatSolving.MaxSat2TypeSolver.IsTopOfConstant | src/checkers/inference/solver/MaxSat2TypeSolver.java:64-67 | isTop depends only on the constant's qualifier: the top constant is top, and the bottom constant is top only when top and bottom coincide |
| MaxSatSolving.MaxSat2TypeSolver.Outcome | src/checkers/inference/solver/MaxSat2TypeSolver.java:124-167 | a timeout is a RuntimeException; unsatisfiable gives no solution with an empty explanation; a satisfiable well-ordered model gives its decoding |
| MaxSatSolving.MaxSat2TypeSolver.Solve | src/checkers/inference/solver/MaxSat2TypeSolver.java:75-168 | the engine is told the 32-bit variable and clause counts, is fed the clauses up to the first contradiction (which gives no solution), and otherwise the engine's answer is decoded |
| MaxSatSolving.MaxSat2TypeSolver.AddClauses | src/checkers/inference/solver/MaxSat2TypeSolver.java:102-122 | the hard then the soft clauses are fed until the first contradiction, and false is returned exactly when there is one |
| MaxSatSolving.MaxSat2TypeSolver.DecodeModel | src/checkers/inference/solver/MaxSat2TypeSolver.java:140-167 | the decoding loop computes Decode of the model |
| MaxSatEncoding.EncoderFactory.CreateEncoder | src/checkers/inference/solver/backend/maxsat/encoder/MaxSATConstraintEncoderFactory.java:31-79 | an encoder exactly for the supported kinds (subtype, equality, inequality, comparable, preference, implication), built from the factory's lattice and typeToInt (and its translator for implications); null for the others |
| MaxSatEncoding.CreateEncoderInvertsKind | src/checkers/inference/solver/backend/maxsat/encoder/MaxSATConstraintEncoderFactory.java:31-79 | every encoder built from the factory's own lattice and typeToInt (and translator) is what the factory creates for that encoder's kind, and that kind is supported |
| Z3SoftEncoding.SupportedPrefix | src/checkers/inference/solver/backend/z3smt/encoder/Z3SmtSoftConstraintEncoder.java:52-65 | the index of the first constraint that is not a subtype, equality or inequality |
| Z3SoftEncoding.EncodingAppend | src/checkers/inference/solver/backend/z3smt/encoder/Z3SmtSoftConstraintEncoder.java:52-65 | the encoding of two lists in sequence is the two encodings in sequence |
| Z3SoftEncoding.SoftLineIsOneLine | src/checkers/inference/solver/backend/z3smt/encoder/Z3SmtSoftConstraintEncoder.java:35-37 | an assert-soft line without inner newlines holds exactly one newline, at its end |
| Z3SoftEncoding.LinesCount | src/checkers/inference/solver/backend/z3smt/encoder/Z3SmtSoftConstraintEncoder.java:35-37 | each soft term becomes exactly one line of the buffer |
| Z3SoftEncoding.Z3SmtSoftConstraintEncoder.constructor | src/checkers/inference/solver/backend/z3smt/encoder/Z3SmtSoftConstraintEncoder.java:27-33 | the buffer starts empty |
| Z3SoftEncoding.Z3SmtSoftConstraintEncoder.AddSoftConstraint | src/checkers/inference/solver/backend/z3smt/encoder/Z3SmtSoftConstraintEncoder.java:35-37 | appends "(assert-soft E :weight W)" and a newline |
| Z3SoftEncoding.Z3SmtSoftConstraintEncoder.EncodeSoft | src/checkers/inference/solver/backend/z3smt/encoder/Z3SmtSoftConstraintEncoder.java:39-43 | appends the lines of the constraint's soft terms |
| Z3SoftEncoding.Z3SmtSoftConstraintEncoder.EncodeAndGetSoftConstraints | src/checkers/inference/solver/backend/z3smt/encoder/Z3SmtSoftConstraintEncoder.java:51-70 | when every constraint has a soft encoding, returns their encodings in order and empties the buffer; otherwise BugInCF, leaving the text of the constraints before the bad one in the buffer |
| JavaText.SumInt32 | src/checkers/inference/solver/backend/geneticmaxsat/GeneticMaxSatSolver.java:69 | IntStream.sum over ints: a 32-bit value congruent to the sum |
| JavaText.IntToString | src/checkers/inference/solver/backend/geneticmaxsat/GeneticMaxSatSolver.java:69 | String.valueOf(int): a non-empty decimal numeral |
| JavaText.ParseInt | src/checkers/inference/solver/backend/geneticmaxsat/GeneticMaxSatSolver.java:68 | Integer.parseInt: an ASCII decimal numeral inside the 32-bit range, else NumberFormatException |
| JavaText.ParseIntOfIntToString | src/checkers/inference/solver/backend/geneticmaxsat/GeneticMaxSatSolver.java:68-71 | parseInt(valueOf(i)) == i for every Java int |
| JavaText.IntToStringInjective | src/checkers/inference/solver/backend/geneticmaxsat/GeneticMaxSatSolver.java:69 | distinct ints print differently |
| JavaText.Trim | src/checkers/inference/solver/backend/geneticmaxsat/GeneticMaxSatSolver.java:65 | String.trim: no blank at either end, and a string without blanks at its ends is kept |
| JavaText.JavaSplit | src/checkers/inference/solver/backend/geneticmaxsat/GeneticMaxSatSolver.java:59 | String.split on one character: no piece holds the separator, and trailing empty pieces are removed |
| JavaText.TrimmedSplitJoin | src/checkers/inference/solver/backend/geneticmaxsat/GeneticMaxSatSolver.java:65-75 | a trimmed line split on spaces and joined again by spaces is the line itself |
| GeneticMaxSat.TokensNonEmpty | src/checkers/inference/solver/backend/geneticmaxsat/GeneticMaxSatSolver.java:65-67 | trimAndSplit always has a first field |
| GeneticMaxSat.TokensJoin | src/checkers/inference/solver/backend/geneticmaxsat/GeneticMaxSatSolver.java:65-75 | joining a line's fields by spaces gives the trimmed line |
| GeneticMaxSat.Classify | src/checkers/inference/solver/backend/geneticmaxsat/GeneticMaxSatSolver.java:98-102 | a "p" line needs a fifth field (IndexOutOfBounds) holding an int (NumberFormat); after a non-zero top every other line needs a leading int and is soft when it is below the top |
| GeneticMaxSat.Advance | src/checkers/inference/solver/backend/geneticmaxsat/GeneticMaxSatSolver.java:98-102 | a header sets the top, and a soft clause adds one to the count |
| GeneticMaxSat.RewriteLine | src/checkers/inference/solver/backend/geneticmaxsat/GeneticMaxSatSolver.java:67-73 | over 32-bit (Java int) weights: fails iff a soft clause has no weight left; a header's fifth field becomes the 32-bit sum of the weights, a soft clause's weight becomes the next weight, and other lines are kept |
| GeneticMaxSat.TerminatedIsJoin | src/checkers/inference/solver/backend/geneticmaxsat/GeneticMaxSatSolver.java:75-79 | appending each line and a newline, then dropping the last character, joins the lines by newlines |
| GeneticMaxSat.CountedMonotone | src/checkers/inference/solver/backend/geneticmaxsat/GeneticMaxSatSolver.java:94-103 | the soft count never decreases as lines are read |
| GeneticMaxSat.RewriteSucceedsIff | src/checkers/inference/solver/backend/geneticmaxsat/GeneticMaxSatSolver.java:63-77 | the rewrite succeeds iff the counter succeeds and finds at most as many soft clauses as there are weights, and then it keeps the number of lines |
| GeneticMaxSat.RewrittenPrefix | src/checkers/inference/solver/backend/geneticmaxsat/GeneticMaxSatSolver.java:63-77 | rewriting the first n lines gives the first n rewritten lines |
| GeneticMaxSat.RewrittenLine | src/checkers/inference/solver/backend/geneticmaxsat/GeneticMaxSatSolver.java:63-77 | line i's rewrite: the header gets the weight sum, the j-th soft clause gets weights[j], and other lines are only trimmed |
| GeneticMaxSat.ChangedTextSucceedsIff | src/checkers/inference/solver/backend/geneticmaxsat/GeneticMaxSatSolver.java:59-79 | text with no lines at all throws when the builder is cut; otherwise the result succeeds exactly as the line rewrite does |
| GeneticMaxSat.GeneticMaxSatSolver.constructor | src/checkers/inference/solver/backend/geneticmaxsat/GeneticMaxSatSolver.java:27-28 | the count starts at 0 and the content is empty |
| GeneticMaxSat.GeneticMaxSatSolver.LoadContent | src/checkers/inference/solver/backend/geneticmaxsat/GeneticMaxSatSolver.java:47 | the content is the file's lines joined by newlines |
| GeneticMaxSat.GeneticMaxSatSolver.SoftWeightCounter | src/checkers/inference/solver/backend/geneticmaxsat/GeneticMaxSatSolver.java:89-104 | the count is the number of soft clauses of the content; on an exception it is the count of the lines before the bad one |
| GeneticMaxSat.GeneticMaxSatSolver.ChangeSoftWeights | src/checkers/inference/solver/backend/geneticmaxsat/GeneticMaxSatSolver.java:55-87 | the loop computes ChangedText: the header's top becomes the sum of the new weights, and the soft weights are replaced in order |
| IFlow.AllPermissions | src/sparta/checkers/iflow/util/IFlowUtils.java:137-147 | one parameterless permission per enum value but ANY |
| IFlow.ToAny | src/sparta/checkers/iflow/util/IFlowUtils.java:178-189 | a set holding ANY, or equal to all permissions, becomes {ANY}; any other set is kept |
| IFlow.ExpandAny | src/sparta/checkers/iflow/util/IFlowUtils.java:105-130 | ANY is replaced by every permission; a set without ANY is kept |
| IFlow.ToAnyIdempotent | src/sparta/checkers/iflow/util/IFlowUtils.java:178-189 | normalising twice is normalising once |
| IFlow.ToAnyKeepsMeaning | src/sparta/checkers/iflow/util/IFlowUtils.java:178-189 | over parameterless permissions, expanding ANY after normalising gives what expanding before does |
| IFlow.GlobMatchReflexive | src/sparta/checkers/iflow/util/IFlowUtils.java:369-372 | every parameter matches itself as a pattern |
| IFlow.GlobMatch | src/sparta/checkers/iflow/util/IFlowUtils.java:369-372 | wildcardMatch with '*' in the parent standing for any run of characters; GlobMatchReflexive and GlobStarMatchesAll state its properties |
| IFlow.GlobStarMatchesAll | src/sparta/checkers/iflow/util/IFlowUtils.java:369-372 | the pattern "*" matches every parameter |
| IFlow.SingleParametersMatch | src/sparta/checkers/iflow/util/IFlowUtils.java:360-367 | true iff some parameter of the list matches the given one |
| IFlow.AllParametersMatch | src/sparta/checkers/iflow/util/IFlowUtils.java:351-358 | true iff every child parameter matches some parent parameter |
| IFlow.AllParametersMatchReflexive | src/sparta/checkers/iflow/util/IFlowUtils.java:351-358 | a parameter list matches itself |
| IFlow.AllParametersMatchWiden | src/sparta/checkers/iflow/util/IFlowUtils.java:351-358 | adding parent parameters never breaks a match |
| IFlow.MemberIsMatched | src/sparta/checkers/iflow/util/IFlowUtils.java:340-349 | a permission is matched in any set that holds it |
| IFlow.IsMatchInSet | src/sparta/checkers/iflow/util/IFlowUtils.java:340-349 | some flow of the set has the same permission kind and every parameter matched by it; MemberIsMatched shows each member of a set is matched |
| IFlow.Matched | src/sparta/checkers/iflow/util/IFlowUtils.java:239-247 | exactly the a2 permissions of a1's kind whose parameters match in the direction of the hierarchy |
| IFlow.MatchedHoldsIntersection | src/sparta/checkers/iflow/util/IFlowUtils.java:234-250 | the plain intersection is inside the match |
| IFlow.MatchedWithoutParameters | src/sparta/checkers/iflow/util/IFlowUtils.java:234-250 | on parameterless permissions the match is the plain intersection |
| IFlow.Intersect | src/sparta/checkers/iflow/util/IFlowUtils.java:234-250 | a null argument gives the empty set; otherwise the normalised match of the expanded sets |
| IFlow.IntersectOfCoarse | src/sparta/checkers/iflow/util/IFlowUtils.java:234-250 | on parameterless permissions, the normalised intersection of what the two sets stand for |
| IFlow.Permissions | src/sparta/checkers/iflow/util/IFlowUtils.java:63-93 | null gives the empty set; otherwise the annotation's normalised permissions |
| IFlow.IFlowUtils.constructor | src/sparta/checkers/iflow/util/IFlowUtils.java:40-43 | the enum values are recorded and both caches start empty |
| IFlow.IFlowUtils.FillAll | src/sparta/checkers/iflow/util/IFlowUtils.java:137-147 | the loop yields AllPermissions |
| IFlow.IFlowUtils.GetSetOfAllSources | src/sparta/checkers/iflow/util/IFlowUtils.java:137-147 | the cache is filled when empty, and all the permissions are returned |
| IFlow.IFlowUtils.GetSetOfAllSinks | src/sparta/checkers/iflow/util/IFlowUtils.java:155-166 | the sinks cache is filled when empty, and all the permissions are returned |
| IFlow.IFlowUtils.ConvertToAnySource | src/sparta/checkers/iflow/util/IFlowUtils.java:178-189 | ToAny of the set, written into the argument when inPlace holds and into a fresh copy otherwise |
| IFlow.IFlowUtils.ConvertToAnySink | src/sparta/checkers/iflow/util/IFlowUtils.java:198-208 | the same with the sinks cache |
| IFlow.IFlowUtils.UnionSources | src/sparta/checkers/iflow/util/IFlowUtils.java:294-298 | a1 becomes ToAny(a1 + a2) and is returned |
| IFlow.IFlowUtils.UnionSinks | src/sparta/checkers/iflow/util/IFlowUtils.java:318-322 | a1 becomes ToAny(a1 + a2) and is returned |
| IFlow.IFlowUtils.KeepAll | src/sparta/checkers/iflow/util/IFlowUtils.java:241-246 | the inner loop keeps exactly the a2 permissions one a1 permission subsumes |
| IFlow.IFlowUtils.MatchAll | src/sparta/checkers/iflow/util/IFlowUtils.java:239-247 | the nested loops compute Matched |
| IFlow.IFlowUtils.ConvertAnyToAll | src/sparta/checkers/iflow/util/IFlowUtils.java:105-130 | ExpandAny on a fresh copy |
| IFlow.IFlowUtils.IntersectSources | src/sparta/checkers/iflow/util/IFlowUtils.java:234-250 | returns Intersect for sources, with null giving {} |
| IFlow.IFlowUtils.IntersectSinks | src/sparta/checkers/iflow/util/IFlowUtils.java:266-282 | returns Intersect for sinks (parameter match reversed) |
| IFlow.IFlowUtils.GetSources | src/sparta/checkers/iflow/util/IFlowUtils.java:81-93 | a fresh set holding Permissions of the annotation as sources |
| IFlow.IFlowUtils.GetSinks | src/sparta/checkers/iflow/util/IFlowUtils.java:63-75 | a fresh set holding Permissions of the annotation as sinks |
| SimpleFlow.HierarchySources | src/sparta/checkers/SimpleFlowAnnotatedTypeFactory.java:458-463 | a fresh normalised set for a Source qualifier, the immutable empty set for any other |
| SimpleFlow.HierarchySinks | src/sparta/checkers/SimpleFlowAnnotatedTypeFactory.java:451-456 | a fresh normalised set for a Sink qualifier, the immutable empty set for any other |
| SimpleFlow.TopAnnotation | src/sparta/checkers/SimpleFlowAnnotatedTypeFactory.java:314-320 | NOSINK for a Sink qualifier, ANYSOURCE for anything else |
| SimpleFlow.BottomAnnotation | src/sparta/checkers/SimpleFlowAnnotatedTypeFactory.java:330-336 | ANYSINK for a Sink qualifier, NOSOURCE for anything else |
| SimpleFlow.TopAnnotations | src/sparta/checkers/SimpleFlowAnnotatedTypeFactory.java:307-311 | the one top of the sink or the source checker |
| SimpleFlow.BottomAnnotations | src/sparta/checkers/SimpleFlowAnnotatedTypeFactory.java:323-327 | the one bottom of the sink or the source checker |
| SimpleFlow.IsSuperSetIsMatching | src/sparta/checkers/SimpleFlowAnnotatedTypeFactory.java:422-432 | without ANY in the superset, isSuperSet is the matching loop alone (containment is only a shortcut) |
| SimpleFlow.IsSuperSet | src/sparta/checkers/SimpleFlowAnnotatedTypeFactory.java:422-432 | containment, ANY in the superset, or every subset permission matched in the superset; IsSuperSetIsMatching and CoarseSuperSet characterise it |
| SimpleFlow.CoarseSuperSet | src/sparta/checkers/SimpleFlowAnnotatedTypeFactory.java:422-432 | on parameterless permissions isSuperSet is containment or ANY |
| SimpleFlow.SubtypeOfSets | src/sparta/checkers/SimpleFlowAnnotatedTypeFactory.java:385-416 | Source(s) <: Source(t) iff t covers s; Sink(s) <: Sink(t) iff s covers t |
| SimpleFlow.PolySubtyping | src/sparta/checkers/SimpleFlowAnnotatedTypeFactory.java:385-416 | where PolySource and PolySink lie relative to each permission set |
| SimpleFlow.NoMixedSubtyping | src/sparta/checkers/SimpleFlowAnnotatedTypeFactory.java:385-416 | a source qualifier and a sink qualifier are never related |
| SimpleFlow.SubtypeReflexive | src/sparta/checkers/SimpleFlowAnnotatedTypeFactory.java:385-416 | every qualifier is a subtype of itself |
| SimpleFlow.SubtypeTransitive | src/sparta/checkers/SimpleFlowAnnotatedTypeFactory.java:385-416 | over parameterless permissions subtyping is transitive |
| SimpleFlow.Lub | src/sparta/checkers/SimpleFlowAnnotatedTypeFactory.java:339-359 | null across hierarchies, the larger operand when related, else the union of sources or the intersection of sinks; addAll on the immutable empty set throws |
| SimpleFlow.Glb | src/sparta/checkers/SimpleFlowAnnotatedTypeFactory.java:362-382 | null across hierarchies, the smaller operand when related, else the intersection of sources or the union of sinks |
| SimpleFlow.UnrelatedBounds | src/sparta/checkers/SimpleFlowAnnotatedTypeFactory.java:339-382 | unrelated sources meet in their normalised union at lub and intersection at glb; sinks the other way |
| SimpleFlow.TopAndBottom | src/sparta/checkers/SimpleFlowAnnotatedTypeFactory.java:307-336 | the tops lie above, and the bottoms below, every qualifier of their hierarchy but PolySink |
| SimpleFlow.PolySinkReadAsSource | src/sparta/checkers/SimpleFlowAnnotatedTypeFactory.java:314-320 | PolySink's top is the source top, so lub and glb of PolySink with a Sink are null |
| SimpleFlow.LubPolySourceOrder | src/sparta/checkers/SimpleFlowAnnotatedTypeFactory.java:339-359 | lub(PolySource, unrelated Source) throws UnsupportedOperation; lub(Source, PolySource) returns the Source |
| SimpleFlow.LubIsUpperBound | src/sparta/checkers/SimpleFlowAnnotatedTypeFactory.java:339-359 | over parameterless permissions a successful lub of two sources or two sinks lies above both |
| SimpleFlow.GlbIsLowerBound | src/sparta/checkers/SimpleFlowAnnotatedTypeFactory.java:361-381 | over parameterless permissions the glb of two sources or two sinks exists and lies below both |
| IFlowSerializers.SourceHasPermission | src/sparta/checkers/sat/SourceSerializer.java:31-37 | PolySource holds every source; a Source holds the permission iff its normalised sources hold ANY or the permission |
| IFlowSerializers.SinkHasPermission | src/sparta/checkers/sat/SinkSerializer.java:31-37 | PolySink holds no sink; a Sink holds the permission iff its normalised sinks hold ANY or the permission |
| IFlowSerializers.SerializersMirror | src/sparta/checkers/sat/SinkSerializer.java:26-37 | the sink serializer's top on Sink(s) is the negation of the source test on Source(s); both polymorphic qualifiers are top |
| IFlowSerializers.EndsOfTheHierarchy | src/sparta/checkers/sat/SourceSerializer.java:26-37 | the top source holds every permission and the bottom source none; the top sink holds none and the bottom sink every one |
| IFlowSerializers.SourceTopUpward | src/sparta/checkers/sat/SourceSerializer.java:26-37 | over parameterless permissions, a supertype of a source constant that holds the permission holds it too |
| IFlowSerializers.SinkTopUpward | src/sparta/checkers/sat/SinkSerializer.java:26-37 | over parameterless permissions, being top for the sink serializer is closed upwards |
| IFlowSerializers.SourceSerializer.constructor | src/sparta/checkers/sat/SourceSerializer.java:20-23 | the permission and a fresh, valid IFlowUtils |
| IFlowSerializers.SourceSerializer.IsTop | src/sparta/checkers/sat/SourceSerializer.java:26-29 | isTop is SourceHasPermission of the constant's qualifier |
| IFlowSerializers.SinkSerializer.constructor | src/sparta/checkers/sat/SinkSerializer.java:20-23 | the permission and a fresh, valid IFlowUtils |
| IFlowSerializers.SinkSerializer.IsTop | src/sparta/checkers/sat/SinkSerializer.java:26-29 | isTop is the negation of SinkHasPermission |
| Dataflow.ConvertToReferenceType | src/dataflow/DataflowAnnotatedTypeFactory.java:407-428 | each of the eight primitive names maps to its box class; any other name is kept |
| Dataflow.GetTypeMirror | src/dataflow/DataflowAnnotatedTypeFactory.java:399-405 | the recorded type of a name, else the declared type of its box name |
| Dataflow.GetTypeMirrorOfBoxed | src/dataflow/DataflowAnnotatedTypeFactory.java:399-405 | a recorded name gives its entry; an unrecorded primitive name resolves to the same type as its box name, and never to a primitive |
| Dataflow.ConvertToReferenceTypeIdempotent | src/dataflow/DataflowAnnotatedTypeFactory.java:407-428 | the result is never primitive, so converting twice is converting once |
| Dataflow.RemovedBy | src/dataflow/DataflowAnnotatedTypeFactory.java:366-382 | the index isComparable removes: the first non-empty comparable root when it is below decType, index 0 when it is above, none when no root is comparable |
| Dataflow.RemoveAt | src/dataflow/DataflowAnnotatedTypeFactory.java:375-378 | List.remove(int): the element at k is gone and the others keep their order |
| Dataflow.RemoveAtElems | src/dataflow/DataflowAnnotatedTypeFactory.java:375-378 | removing keeps every other element and adds none |
| Dataflow.Add | src/dataflow/DataflowAnnotatedTypeFactory.java:318-321 | HashSet.add: the element set gains x, and a present x changes nothing |
| Dataflow.Dedup | src/dataflow/DataflowAnnotatedTypeFactory.java:145-150 | new HashSet<>(list) has the list's elements |
| Dataflow.KeptNamesElems | src/dataflow/DataflowAnnotatedTypeFactory.java:326-343 | a name is kept iff it is non-empty and shouldPresent admits it |
| Dataflow.RefineFromElems | src/dataflow/DataflowAnnotatedTypeFactory.java:316-323 | the root loop only keeps roots it was given |
| Dataflow.RefineFromNonEmpty | src/dataflow/DataflowAnnotatedTypeFactory.java:316-323 | the root loop keeps at least one root of a non-empty list |
| Dataflow.RefineFromIncomparable | src/dataflow/DataflowAnnotatedTypeFactory.java:316-323 | the roots the loop keeps are pairwise incomparable |
| Dataflow.RefineMeaning | src/dataflow/DataflowAnnotatedTypeFactory.java:309-347 | refineDataflow yields a DataFlow qualifier whose roots are original roots, pairwise incomparable, non-empty iff there were roots (a single root kept as is); without roots the names are kept; with roots a name stays iff it is non-empty and shouldPresent admits it |
| Dataflow.MaximalOfElems | src/dataflow/DataflowAnnotatedTypeFactory.java:316-323 | the maximal roots depend only on which roots the list holds |
| Dataflow.DropBelow | src/dataflow/DataflowAnnotatedTypeFactory.java:375-378 | dropping a root below another root keeps the maximal roots |
| Dataflow.KeepFirst | src/dataflow/DataflowAnnotatedTypeFactory.java:317-320 | a root comparable with none of the others is maximal, and the others keep their status |
| Dataflow.RefineFromMaximal | src/dataflow/DataflowAnnotatedTypeFactory.java:316-323 | under a partial order the root loop adds exactly the maximal roots |
| Dataflow.RefineFrom | src/dataflow/DataflowAnnotatedTypeFactory.java:316-323 | the root loop of refineDataflow; RefineFromElems, RefineFromNonEmpty, RefineFromIncomparable and RefineFromMaximal state what it keeps |
| Dataflow.Refine | src/dataflow/DataflowAnnotatedTypeFactory.java:309-347 | refineDataflow as a function of the qualifier; RefineMeaning and RefineIsOrderFree state its result |
| Dataflow.PresentIffBelowNone | src/dataflow/DataflowAnnotatedTypeFactory.java:384-397 | under a partial order and pairwise incomparable roots, shouldPresent is false iff the type lies below some root |
| Dataflow.RefineIsOrderFree | src/dataflow/DataflowAnnotatedTypeFactory.java:309-347 | under a partial order, the refined roots are exactly the maximal roots and the names are the non-empty names below none of them, whatever the list order |
| Dataflow.IsComparable | src/dataflow/DataflowAnnotatedTypeFactory.java:366-382 | found iff RemovedBy from index 1 finds an index, and then that index is removed from the list |
| Dataflow.ShouldPresent | src/dataflow/DataflowAnnotatedTypeFactory.java:384-397 | the loop over the refined roots computes Present |
| Dataflow.RefineDataflow | src/dataflow/DataflowAnnotatedTypeFactory.java:309-347 | the root loop and the name loop compute Refine |
| Dataflow.IsSubtypeWithoutRoots | src/dataflow/DataflowAnnotatedTypeFactory.java:176-180 | true iff the supertype names every type the subtype names |
| Dataflow.SubtypeWithoutRootsPreorder | src/dataflow/DataflowAnnotatedTypeFactory.java:176-180 | without roots, subtyping is reflexive and transitive |
| Dataflow.SubtypeWithoutRootsBottom | src/dataflow/DataflowAnnotatedTypeFactory.java:176-180 | a qualifier naming no type lies below every qualifier |
| Dataflow.IsSubtypeWithElements | src/dataflow/DataflowAnnotatedTypeFactory.java:183-194 | defined iff both are DataFlow qualifiers, and then it is isSubtypeWithRoots; otherwise TypeSystemError |
| Dataflow.LeastUpperBound | src/dataflow/DataflowAnnotatedTypeFactory.java:197-220 | a bottom-kind operand gives the other; two DataFlow qualifiers give the larger one when related and DATAFLOWTOP otherwise; any other pair is TypeSystemError |
| Dataflow.GreatestLowerBound | src/dataflow/DataflowAnnotatedTypeFactory.java:223-246 | a top-kind operand gives the other; two DataFlow qualifiers give the smaller one when related and DATAFLOWBOTTOM otherwise; any other pair is TypeSystemError |
| Dataflow.SubtypeWithRootsReflexive | src/dataflow/DataflowAnnotatedTypeFactory.java:141-164 | under a partial order every DataFlow qualifier is a subtype of itself |
| Dataflow.IsSubtypeWithRoots | src/dataflow/DataflowAnnotatedTypeFactory.java:141-164 | refining the union of both qualifiers gives what refining the supertype gives; SubtypeWithRootsReflexive and LubIsUpperBound state its properties |
| Dataflow.LubIsUpperBound | src/dataflow/DataflowAnnotatedTypeFactory.java:197-220 | under a partial order a successful lub lies above both operands |
| Dataflow.GlbOfRelatedIsLowerBound | src/dataflow/DataflowAnnotatedTypeFactory.java:223-246 | under a partial order a successful glb of a top-kind operand or of related operands lies below both |
| Dataflow.RootlessSubtyping | src/dataflow/DataflowAnnotatedTypeFactory.java:141-180 | without roots isSubtypeWithRoots equals isSubtypeWithoutRoots |
| Dataflow.BottomBelowRootless | src/dataflow/DataflowAnnotatedTypeFactory.java:72 | DATAFLOWBOTTOM lies below a root-less qualifier iff it names the empty type |
| Dataflow.GlbOfRootless | src/dataflow/DataflowAnnotatedTypeFactory.java:223-246 | unrelated root-less qualifiers have DATAFLOWBOTTOM as glb, which lies below an operand only when that names the empty type |
| Dataflow.BottomBelowRooted | src/dataflow/DataflowAnnotatedTypeFactory.java:141-164 | under a partial order DATAFLOWBOTTOM lies below every qualifier with roots |
| DataflowSerializers.NonEmptyMembership | src/dataflow/solvers/classic/DataflowSerializer.java:62-66 | a clause is kept iff it is non-empty and the constraint produced it |
| DataflowSerializers.NonEmptyAllNonEmpty | src/dataflow/solvers/classic/DataflowSerializer.java:61-67 | every kept clause is non-empty |
| DataflowSerializers.AllNonEmptyMembership | src/dataflow/solvers/classic/DataflowSerializer.java:61-67 | a clause is kept iff it is non-empty and some constraint produced it |
| DataflowSerializers.AllNonEmptyAppend | src/dataflow/solvers/classic/DataflowSerializer.java:61-67 | the clauses keep the order of their constraints |
| DataflowSerializers.DataflowSerializer.constructor | src/dataflow/solvers/classic/DataflowSerializer.java:31-36 | the serializer keeps its type name and its root mode |
| DataflowSerializers.DataflowSerializer.IsTop | src/dataflow/solvers/classic/DataflowSerializer.java:38-56 | DataFlowTop is top; otherwise the type name must be among the roots (root mode) or the names |
| DataflowSerializers.DataflowSerializer.IsTopUpward | src/dataflow/solvers/classic/DataflowSerializer.java:44-56 | outside root mode, being top is closed upwards along root-less subtyping |
| DataflowSerializers.DataflowSerializer.ConvertAll | src/dataflow/solvers/classic/DataflowSerializer.java:58-69 | every non-empty clause of every constraint is appended in order to the list passed in, which is returned |

## Left out

- ConstraintManager.java, InferenceMain.java and Slot.java are not part of this model.
  - The constraint manager is an append-only log. A subtype or equality between two constants is decided against the real hierarchy and is not logged.
  - A @VarAnnot whose id has no stored slot makes `IsSubtype` fail with NullPointer. The source passes the null slot on to the constraint manager, so that error kind is the model's own choice.
  - A slot's merged-to set is kept in the slot manager by slot id, and `isMergedTo` is taken to be direct membership in that set.
- The SAT4J and Z3 engines are left out. Their answer to a solve, and whether adding a clause is a trivial contradiction, are inputs. The timeout value is not modelled.
- CnfVecIntSerializer and the per-constraint MaxSAT encoders are not part of this model. Each constraint's clauses, and the stand-in map, are inputs to the solvers and serializers.
- `MaxSat2TypeSolver.solve(configuration, ...)` (the entry point that builds the serializer) is reduced to the constructor's inputs.
- `DefaultSlotManager.setRoot`, `getDefaultAnnotationForLocation`, `getTreeForLocation` and the default-annotation cache are left out: they walk javac trees. The default annotation of a location is a parameter of `CreateSourceVariableSlot`.
- `SortAnnotationClasses` orders canonical names by `String.compareTo` on the characters as they stand; a null class and a class without a canonical name are not modelled, and the real qualifiers are taken to be distinct.
- `FindBottomVarAnnot`: its contract states what a success means and when it must fail, but not that it succeeds whenever every bottom has the same constant slot.
- `JavaText.ParseInt` accepts only the ASCII digits '0' to '9'; the other Unicode decimal digits that `Character.digit` accepts are not modelled. The weights in the WCNF text are printed with ASCII digits.
- `DefaultSlotManager` keeps slot ids as unbounded naturals, so a 32-bit overflow of `nextId` is not modelled.
- Logging and the console messages of every class are left out.
- `GeneticMaxSatSolver.solve`, `fit` and the file writing of `changeSoftWeights` are left out; they are I/O and a genetic engine. The `writeToFile` flag is dropped.
- `IFlowUtils.wildcardMatch` is modelled with `*` as the only special character. Other regular-expression metacharacters in a permission parameter are read literally.
- `convertToParameterizedFlowPermission`/`convertFromParameterizedFlowPermission`, the annotation builders (`createAnnoFromSink`/`createAnnoFromSource`) and the string forms of permissions are left out. Qualifiers are values here.
- `IFlowUtils.isTop`/`isBottom` on `AnnotatedTypeMirror`, the `AnnotatedTypeMirror` overloads of `getSources`/`getSinks`, and the `AnnotationMirror` overloads of union and intersection are left out. They only extract the annotation before calling the modelled operations.
- SimpleFlow's tree annotators, defaults and poly handling are left out: they walk javac trees.
- Dataflow:
  - `getTypeMirror` of a name that is neither recorded nor a declared type (a null `TypeMirror`, then a NullPointerException) is not modelled. Every name resolves.
  - `HashSet` iteration order is modelled as insertion order.
  - The `Collections.sort` of names is dropped; it only changes the order in which they enter a set.
  - `AnnotationUtils.areSame` on two built DataFlow qualifiers is modelled as equality of their name and root sets.
  - DataflowUtils (`getTypeNames`/`getTypeNameRoots`) is not part of this model. They give the element lists of a DataFlow qualifier and nothing for the others.
  - The tree annotators, boxing and unboxing, and the filling of `typeNamesMap` are left out.
  - The framework's order on qualifier kinds is `Dataflow.IsSubtypeQual`: bottom below everything, top above everything, DataFlow qualifiers ordered by `isSubtypeWithRoots`.
- `DataflowSerializer.touchedSlots` is left out, since nothing reads it.
- The JSON object key order is not modelled: an object is a map.
- `JsonSerialization.ToJsonArray`: its own contract states only the length bound. Order and content are in `ToJsonArrayKeepsOrder`.
- `SimpleFlow.LubIsUpperBound`, `SimpleFlow.GlbIsLowerBound` and `SimpleFlow.SubtypeTransitive` are proved for parameterless permissions only. With parameters, isSuperSet's matching loop is not a partial order the model proves anything about.
- `Dataflow.LubIsUpperBound`, `Dataflow.GlbOfRelatedIsLowerBound` and `Dataflow.SubtypeWithRootsReflexive` assume javac's subtype relation is a partial order on distinct root types. The source relies on javac for that.

## Findings

| source | as written | input that shows it | evidently intended | confidence | as-written member | corrected member |
|---|---|---|---|---|---|---|
| src/checkers/inference/InferenceQualifierHierarchy.java:272-281 | merge looks for a common merged-to slot, or a direct merged-to link, without regard to whether that slot was made by a lub or by a glb | two fresh variable slots a, b: glb(a, b) creates merge slot m with m <: a and m <: b, then lub(a, b) finds m in both merged-to sets and returns m as the lub, although a <: m is never constrained | a reused merged-to slot is of the requested kind (lub slots for lub, glb slots for glb), so the result bounds both operands in the right direction | likely; not executed | InferenceHierarchy.InferenceQualifierHierarchy.GlbThenLubAsWritten | InferenceHierarchy.InferenceQualifierHierarchy.LeastUpperBoundByKind |
