# InPUT: evaluation order of parameters and constructor resolution

This project models two coupled pieces of the InPUT parameter engine (Java) in
Dafny and proves properties of the model.

**Dependency linking and the evaluation-order comparator**
(`ParamEvaluationOrderComparator`).
- A parameter's inclusive/exclusive maximum and minimum are bound expressions
  given as text. When such a text contains the id of another parameter that is
  a leaf, the linker records a max or min dependency edge. It also records the
  inverse *dependee* edge.
- `init` links a pair in one direction. It tries the reverse direction only
  when the first direction recorded nothing.
- `compare` puts dependencies first. Otherwise it orders by the number of
  direct dependencies, then by the number of dependees, then by a final
  tie-break.
- The model keeps the comparator exactly as written. Each count comparison
  tests `dep1 > dep2` twice, so its second branch is dead. After the casts to
  `Param`, the descriptor-element branch cannot be reached. So the result is
  `1` exactly when `arg0` depends on `arg1`, or when neither depends on the
  other and `arg0` has more direct dependencies. Every other case gives `-1`.
- The result is therefore never `0`, and dependee counts never matter.
  `compare(x, x)` is `-1` unless `x` depends on itself. Two unrelated leaves
  each compare below the other. A Java `Comparator` is meant to be
  antisymmetric, and the code is not (`CompareIsNotAntisymmetric`).

**Constructor resolution** (`InPUTConstructor`).
- A code mapping's constructor string is split at single spaces into
  formal-argument ids. The ids are sorted into global references (parameters
  of the store) and local references (the other ids that name a local
  parameter).
- A public constructor of the component class is then chosen:
  - the only one, if there is exactly one;
  - else the only one with as many arguments as there are ids;
  - else the only one that survives filtering, position by position, by the
    classes the local context knows.
- When no constructor is chosen this way, every id is resolved to a class.
  An id in global syntax is looked up in the global context only, and
  failing that is taken as a class name. Any other id is looked up as a
  numeric keyword, then in the global context, then as a local parameter.
  The public constructor with exactly those parameter classes is then used.
- All of this runs lazily, behind a one-way `init` flag.

**How the source's parts appear in the model.**
- Reflection (`Class.forName`, `getConstructors`, `getConstructor`) becomes the
  registry `ClassLookup.Env`. It maps class names to their public constructors,
  each identified by its parameter classes.
- The parameter store, the parameter utilities and the numeric keywords are
  maps in that registry.
- A reflective constructor call becomes an `Invocation` parameter that says
  how the call ends.
- `InPUTConstructor` is a class whose methods update `localReferences`,
  `globalReferences`, `ctor` (the Java field `constructor`) and `init`.
  - Each method is proved against a function of the inputs
    (`ByArity`, `Keep`, `Retrieve`, `ByContext`, `SingleByContext`, `Guess`,
    `ResolveAll`, `ContextOf`, `Resolve`).
  - Lemmas about those functions state what the selection promises.
- The comparator's `Param` nodes are a class with mutable dependency sets.
  - `Param.dependsOn` has the meaning its doc comment gives: reachability by
    one or more max/min edges. It is computed by a search over a ghost
    universe closed under those edges.

Files:
- `wrappers.dfy`: Option, Result, Outcome.
- `java_strings.dfy`: `String.contains` and `String.split` on a single space.
- `evaluation_order.dfy`: linker and comparator.
- `constructor_selection.dfy`: the selection functions and their lemmas.
- `class_lookup.dfy`: the registry, the class lookups and the decision of the
  whole initialisation.
- `construction.dfy`: the `InPUTConstructor` class and example scenarios.

## Model

| member | source | states |
|---|---|---|
| EvaluationOrder.RelativeTo | Java/Source/InPUT4j/src/se/miun/itm/input/eval/ParamEvaluationOrderComparator.java:131-141 | true iff the attribute is present, its text contains param2's id as a substring, and param2 has no children; false for an absent attribute or a non-leaf param2 whatever the text |
| EvaluationOrder.AddMaxEdge | Java/Source/InPUT4j/src/se/miun/itm/input/eval/ParamEvaluationOrderComparator.java:57-58 | adds param2 to param1's max dependencies and param1 to param2's dependees, nothing else; keeps the edges inside the universe, each justified by the bound text, and dependees the exact inverse of the edges |
| EvaluationOrder.AddMinEdge | Java/Source/InPUT4j/src/se/miun/itm/input/eval/ParamEvaluationOrderComparator.java:64-65 | the same for a min dependency |
| EvaluationOrder.InitDependencies | Java/Source/InPUT4j/src/se/miun/itm/input/eval/ParamEvaluationOrderComparator.java:52-69 | the max edge is added iff a max bound refers to param2, the min edge independently iff a min bound does (one call can add both), param1 becomes a dependee of param2 iff either was added, the result says whether any was; the linking invariant is kept |
| EvaluationOrder.Init | Java/Source/InPUT4j/src/se/miun/itm/input/eval/ParamEvaluationOrderComparator.java:41-44 | when param1 refers to param2 only the forward edges are added and param2's max and min dependency sets are untouched; otherwise exactly the reverse edges are added |
| EvaluationOrder.DependsOnSearch | Java/Source/InPUT4j/src/se/miun/itm/input/eval/ParamEvaluationOrderComparator.java:119-129 | the search answers true iff param2 is reachable from param1 by one or more dependency edges |
| EvaluationOrder.DirectDependencyIsDependsOn | Java/Source/InPUT4j/src/se/miun/itm/input/eval/ParamEvaluationOrderComparator.java:119-121 | a direct max or min dependency is a dependency |
| EvaluationOrder.DependsOnTransitive | Java/Source/InPUT4j/src/se/miun/itm/input/eval/ParamEvaluationOrderComparator.java:119-121 | depending on is transitive |
| EvaluationOrder.NoEdgesNoDependsOn | Java/Source/InPUT4j/src/se/miun/itm/input/eval/ParamEvaluationOrderComparator.java:119-121 | a parameter without dependency edges depends on nothing |
| EvaluationOrder.Compare | Java/Source/InPUT4j/src/se/miun/itm/input/eval/ParamEvaluationOrderComparator.java:72-117 | the result is 1 or -1, never 0; 1 iff arg0 depends on arg1, or neither depends on the other and arg0 has more direct dependencies; a dependency of arg0 on arg1 gives 1, one only the other way gives -1; compare(x, x) is -1 iff x does not depend on itself |
| EvaluationOrder.CompareIsNotAntisymmetric | Java/Source/InPUT4j/src/se/miun/itm/input/eval/ParamEvaluationOrderComparator.java:101-113 | two unrelated leaf parameters compare -1 in both orders |
| JavaStrings.Contains | Java/Source/InPUT4j/src/se/miun/itm/input/eval/ParamEvaluationOrderComparator.java:137 | true iff the id occurs in the text at some position (the empty id occurs everywhere) |
| JavaStrings.Split | Java/Source/InPUT4j/src/se/miun/itm/input/model/param/InPUTConstructor.java:79 | a string without a space is its own single piece; otherwise the pieces between single spaces with only trailing empty pieces dropped; no piece contains a space |
| JavaStrings.SplitJoin | Java/Source/InPUT4j/src/se/miun/itm/input/model/param/InPUTConstructor.java:79 | non-empty space-free ids joined with single spaces split back into exactly those ids |
| Construction.InitParams | Java/Source/InPUT4j/src/se/miun/itm/input/model/param/InPUTConstructor.java:76-88 | a present constructor string gives its split, whose ids hold no space; an absent one gives the parent's ids for a choice and no ids otherwise |
| Construction.InitParamsRoundTrip | Java/Source/InPUT4j/src/se/miun/itm/input/model/param/InPUTConstructor.java:76-88 | a constructor string listing ids with single spaces yields exactly those ids |
| Construction.InPUTConstructor.constructor | Java/Source/InPUT4j/src/se/miun/itm/input/model/param/InPUTConstructor.java:68-74 | the formal ids are InitParams of the mapping; no references, no constructor, not initialised |
| Construction.InPUTConstructor.InitContext | Java/Source/InPUT4j/src/se/miun/itm/input/model/param/InPUTConstructor.java:101-114 | afterwards the global references are exactly the ids the store knows and the local references exactly the other ids with a local parameter; the two sets are disjoint |
| ClassLookup.ContextOf | Java/Source/InPUT4j/src/se/miun/itm/input/model/param/InPUTConstructor.java:212-227 | one entry per formal id; an entry is known only at a local reference, and there it is the local-context class |
| Construction.InPUTConstructor.GatherAvailableConstructorContext | Java/Source/InPUT4j/src/se/miun/itm/input/model/param/InPUTConstructor.java:212-227 | the array filled by the loop is ContextOf the formal ids and current local references |
| ConstructorSelection.KnowsAnyClass | Java/Source/InPUT4j/src/se/miun/itm/input/model/param/InPUTConstructor.java:205-210 | true iff some context entry is known |
| Construction.InPUTConstructor.NonEmptyContext | Java/Source/InPUT4j/src/se/miun/itm/input/model/param/InPUTConstructor.java:205-210 | the early-return loop answers KnowsAnyClass of the array |
| ConstructorSelection.ByArity | Java/Source/InPUT4j/src/se/miun/itm/input/model/param/InPUTConstructor.java:229-237 | exactly the constructors with the given number of parameters, as a subsequence (original order) |
| Construction.InPUTConstructor.GetConstructorsByNumber | Java/Source/InPUT4j/src/se/miun/itm/input/model/param/InPUTConstructor.java:229-237 | the loop collects ByArity of the constructors for the number of formal ids |
| ConstructorSelection.ByArityCounts | Java/Source/InPUT4j/src/se/miun/itm/input/model/param/InPUTConstructor.java:229-237 | every occurrence of a constructor of the right arity is kept, all others dropped |
| ConstructorSelection.Keep | Java/Source/InPUT4j/src/se/miun/itm/input/model/param/InPUTConstructor.java:189-203 | exactly the candidates whose i-th parameter is the context class, as a subsequence |
| ConstructorSelection.KeepCounts | Java/Source/InPUT4j/src/se/miun/itm/input/model/param/InPUTConstructor.java:189-203 | every occurrence of a candidate with the context class at position i is kept, all others dropped |
| ConstructorSelection.Mismatches | Java/Source/InPUT4j/src/se/miun/itm/input/model/param/InPUTConstructor.java:192-196 | strictly increasing valid positions, each of a candidate whose i-th parameter differs from the context class |
| ConstructorSelection.RemoveMismatchesKeeps | Java/Source/InPUT4j/src/se/miun/itm/input/model/param/InPUTConstructor.java:189-203 | removing the mismatching positions one by one from the last back leaves exactly Keep |
| Construction.InPUTConstructor.ReduceByContext | Java/Source/InPUT4j/src/se/miun/itm/input/model/param/InPUTConstructor.java:189-203 | the collect-then-remove-backwards loops leave exactly Keep of the candidates |
| ConstructorSelection.Retrieve | Java/Source/InPUT4j/src/se/miun/itm/input/model/param/InPUTConstructor.java:174-187 | the survivors are a subsequence of the input (possibly empty); a list of at most one candidate is returned unchanged, so filtering stops as soon as one candidate is left |
| ConstructorSelection.RetrieveKeepsAgreeing | Java/Source/InPUT4j/src/se/miun/itm/input/model/param/InPUTConstructor.java:174-187 | a candidate that agrees with every known context class is never removed |
| ConstructorSelection.RetrieveSurvivorsAgree | Java/Source/InPUT4j/src/se/miun/itm/input/model/param/InPUTConstructor.java:174-187 | unless exactly one survivor is left, every survivor agrees with every known context class |
| Construction.InPUTConstructor.RetrieveContextConstructors | Java/Source/InPUT4j/src/se/miun/itm/input/model/param/InPUTConstructor.java:174-187 | the loop with continue and break computes Retrieve of the context array |
| ConstructorSelection.ByContext | Java/Source/InPUT4j/src/se/miun/itm/input/model/param/InPUTConstructor.java:159-172 | a choice is made exactly when the context knows some class and exactly one candidate survives Retrieve, and the choice is that survivor |
| Construction.InPUTConstructor.GetSingleConstructorByIoC | Java/Source/InPUT4j/src/se/miun/itm/input/model/param/InPUTConstructor.java:159-172 | returns ByContext of the gathered context |
| ConstructorSelection.SingleByContext | Java/Source/InPUT4j/src/se/miun/itm/input/model/param/InPUTConstructor.java:147-157 | a chosen constructor is a public one whose arity is the number of formal ids; when exactly one constructor has that arity, it is chosen |
| Construction.InPUTConstructor.GetSingleConstructorByContext | Java/Source/InPUT4j/src/se/miun/itm/input/model/param/InPUTConstructor.java:147-157 | returns SingleByContext of the gathered context |
| ConstructorSelection.Guess | Java/Source/InPUT4j/src/se/miun/itm/input/model/param/InPUTConstructor.java:131-137 | a single public constructor is always the guess; any guess is a public constructor; past that step it has the ids' arity, and past the arity step the context knows some class |
| ConstructorSelection.GuessPrefersAgreeing | Java/Source/InPUT4j/src/se/miun/itm/input/model/param/InPUTConstructor.java:131-172 | when some constructor fits the ids' arity and every known context class, the guess is that constructor or none |
| ConstructorSelection.GuessAmbiguous | Java/Source/InPUT4j/src/se/miun/itm/input/model/param/InPUTConstructor.java:131-172 | two different constructors that both fit give no guess |
| ConstructorSelection.GuessByArity | Java/Source/InPUT4j/src/se/miun/itm/input/model/param/InPUTConstructor.java:131-157 | of two constructors of different arity, the one matching the number of ids is chosen, in either order |
| ConstructorSelection.GuessUniqueArity | Java/Source/InPUT4j/src/se/miun/itm/input/model/param/InPUTConstructor.java:131-157 | among several public constructors, the only one whose arity is the number of ids is chosen |
| ConstructorSelection.RetrieveUnique | Java/Source/InPUT4j/src/se/miun/itm/input/model/param/InPUTConstructor.java:174-187 | among distinct candidates, the only one agreeing with every known context class is the sole survivor |
| ConstructorSelection.ByContextUnique | Java/Source/InPUT4j/src/se/miun/itm/input/model/param/InPUTConstructor.java:159-172 | with a known context, that candidate is the constructor the context singles out |
| ConstructorSelection.GuessUniqueAgreeing | Java/Source/InPUT4j/src/se/miun/itm/input/model/param/InPUTConstructor.java:131-172 | among distinct public constructors, the only one of the ids' arity that agrees with every known context class is the guess |
| ConstructorSelection.GuessMayContradictContext | Java/Source/InPUT4j/src/se/miun/itm/input/model/param/InPUTConstructor.java:181-182 | because filtering stops at one candidate, the guess among (A, C) and (D, B) with A and B known is (A, C), which disagrees with the known B |
| Construction.InPUTConstructor.ConstructorGuessing | Java/Source/InPUT4j/src/se/miun/itm/input/model/param/InPUTConstructor.java:116-145 | an unknown class is an error with nothing changed; otherwise the constructor becomes the Guess, init becomes true iff a guess was made (or already was), and the guess is returned |
| ClassLookup.ClassForNumericParam | Java/Source/InPUT4j/src/se/miun/itm/input/model/param/InPUTConstructor.java:315-320 | a class iff the id is a numeric keyword, then its primitive class |
| ClassLookup.ClassForGlobalContext | Java/Source/InPUT4j/src/se/miun/itm/input/model/param/InPUTConstructor.java:322-333 | a store parameter's class wins even when absent; otherwise a method context's return class; otherwise none |
| ClassLookup.ClassForLocalContext | Java/Source/InPUT4j/src/se/miun/itm/input/model/param/InPUTConstructor.java:290-306 | numeric keyword first, then the global context, then a local parameter's class; none only when all three give none |
| ClassLookup.InitClass | Java/Source/InPUT4j/src/se/miun/itm/input/model/param/InPUTConstructor.java:267-288 | global-syntax ids: the global-context class, else the id itself if it is a loadable class; other ids: the local-context class; no class is an unknown-identifier error naming the id |
| ClassLookup.ResolveAll | Java/Source/InPUT4j/src/se/miun/itm/input/model/param/InPUTConstructor.java:239-255 | succeeds iff every id resolves, with each id's class in order (no ids give no classes); otherwise the error of the first unresolved id |
| Construction.InPUTConstructor.ExtractParameterClasses | Java/Source/InPUT4j/src/se/miun/itm/input/model/param/InPUTConstructor.java:239-247 | returns ResolveAll of the formal ids |
| Construction.InPUTConstructor.InitParameterClasses | Java/Source/InPUT4j/src/se/miun/itm/input/model/param/InPUTConstructor.java:249-255 | the array loop returns ResolveAll of the formal ids, stopping at the first failure |
| Construction.InPUTConstructor.InitConstructorFormalParamClasses | Java/Source/InPUT4j/src/se/miun/itm/input/model/param/InPUTConstructor.java:90-99 | resolves the references; the result is the guessed constructor's parameter classes, or ResolveAll when there is no guess |
| ClassLookup.Resolve | Java/Source/InPUT4j/src/se/miun/itm/input/model/param/InPUTConstructor.java:341-372 | no component id and an unloadable class are errors; a guessed constructor is used as is; with no guess, the first unresolved id's error is passed on, else the public constructor taking exactly the resolved classes is chosen, or NoSuchConstructor when none does; a class without public constructors gets none; a single public constructor is always chosen |
| Construction.InPUTConstructor.InitClassType | Java/Source/InPUT4j/src/se/miun/itm/input/model/param/InPUTConstructor.java:341-372 | outcome and constructor as Resolve decides; a failure before loading leaves everything unchanged, a later failure leaves the references resolved and no constructor; on success with a loaded class, init is set exactly when it was set already or a guess was made |
| Construction.InPUTConstructor.Init | Java/Source/InPUT4j/src/se/miun/itm/input/model/param/InPUTConstructor.java:335-339 | an enumeration is marked initialised with nothing else done; otherwise the outcome is as Resolve decides and init becomes true exactly on success; a failure before the class loads leaves everything unchanged, a later failure leaves the references resolved and no constructor |
| Construction.InPUTConstructor.IsGlobalIdUsedInConstructor | Java/Source/InPUT4j/src/se/miun/itm/input/model/param/InPUTConstructor.java:374-379 | initialises only while not initialised (otherwise changes nothing); on success the answer is whether the id is a formal id the store knows (false for an enumeration); an initialisation error is passed on; a failed initialisation leaves everything unchanged if the class does not load, else the references resolved and no constructor |
| Construction.InPUTConstructor.IsLocalInitByConstructor | Java/Source/InPUT4j/src/se/miun/itm/input/model/param/InPUTConstructor.java:385-390 | the same, for a formal id that is not global and names a local parameter; a failed initialisation leaves everything unchanged if the class does not load, else the references resolved and no constructor |
| Construction.Instantiate | Java/Source/InPUT4j/src/se/miun/itm/input/model/param/InPUTConstructor.java:395-416 | no constructor is a null-constructor error; success iff there is one and the call creates an instance; an abstract class, an inaccessible constructor, an argument mismatch (with the argument classes text) and a throwing constructor each map to their own error |
| Construction.InPUTConstructor.NewInstance | Java/Source/InPUT4j/src/se/miun/itm/input/model/param/InPUTConstructor.java:392-417 | initialises only while not initialised; an initialisation error is passed on; once initialised the result is Instantiate of the chosen constructor; success implies a public constructor was chosen; a failed initialisation leaves everything unchanged if the class does not load, else the references resolved and no constructor |
| Construction.InPUTConstructor.GetClassesForArguments | Java/Source/InPUT4j/src/se/miun/itm/input/model/param/InPUTConstructor.java:419-429 | the loop builds ArgumentsText: a space then the class name, or "null", per argument |
| Construction.ArgumentsTextSplits | Java/Source/InPUT4j/src/se/miun/itm/input/model/param/InPUTConstructor.java:419-429 | cutting that text at its spaces gives an empty piece, then every argument's class name or "null", in order |
| Construction.PointScenario | Java/Source/InPUT4j/src/se/miun/itm/input/model/param/InPUTConstructor.java:131-133 | a class with a single (int, int) constructor is instantiated although its ids resolve to nothing |
| Construction.WidgetResolution | Java/Source/InPUT4j/src/se/miun/itm/input/model/param/InPUTConstructor.java:90-99 | with a String and an int constructor and the global id sizeParam of class int, no guess is made and the int constructor is resolved |
| Construction.SizeParamScenario | Java/Source/InPUT4j/src/se/miun/itm/input/model/param/InPUTConstructor.java:374-379 | in that setting sizeParam is reported as a global reference and the int constructor is chosen |
| Construction.MissingClassScenario | Java/Source/InPUT4j/src/se/miun/itm/input/model/param/InPUTConstructor.java:348-355 | a mapping to a class not on the class path fails with that class's name |
| Construction.EnumScenario | Java/Source/InPUT4j/src/se/miun/itm/input/model/param/InPUTConstructor.java:335-339 | an enumeration parameter gets no constructor, so instantiating it is a null-constructor error |

## Left out

- Reflection is replaced by the registry `ClassLookup.Env`. This covers class
  loading, `getConstructors`, `getConstructor` and `Constructor.newInstance`.
  The `SecurityException` branch of `initClassType` is not modelled, because
  the registry has no access rights.
- Actual argument values are not modelled. Only their runtime classes are
  (for the error text). How the reflective call ends is a parameter.
- Exception messages are not modelled. Only the kind of error is, plus the
  argument-class text that `getClassesForArguments` builds.
- The collaborators `Param`, `ParamStore`, `ParamUtil`, `Numeric` and
  `IMapping` are not part of this model. Their answers are maps and sets in
  the registry, or fixed constructor arguments:
  - `hasGlobalParamSyntax` is the set `globalSyntax`;
  - the numeric keywords are a map keyed by the id as written, so the
    upper-casing happens inside that map;
  - the parent choice's formal ids are a constructor argument.
- `Param.addMaxDependency`, `addMinDependency` and `addDependee` are taken to
  be set insertions. `getAmountDirectDependencies` is taken to be the size of
  the max set plus the size of the min set.
- `Param.java` is not part of this model. `Param.dependsOn` is taken to be
  reachability by one or more max/min edges. The model computes it with a
  search that marks visited parameters, so it terminates even on a
  dependency cycle. Whether the real `dependsOn` guards against cycles is
  not known here.
- The descriptor-element branch of `compare` is not modelled. It cannot be
  reached once both arguments are cast to `Param`. An argument that is not a
  `Param` makes that cast throw `ClassCastException`. The model's arguments
  are typed `Param`, so this case is excluded.
- `ClassLookup.ClassForGlobalContext`: a method-context lookup that throws in
  the source is modelled as "no class". This changes the result in three
  places:
  - In `initClass` for an id in global syntax, the throw skips the
    `Class.forName` fallback and ends in an unknown-identifier error. The
    model tries the fallback.
  - In `initClass` for any other id, the throw inside the local-context
    lookup also ends in an unknown-identifier error. The model
    (`ClassLookup.ClassForLocalContext`) goes on to the local parameter's
    class.
  - In `gatherAvailableConstructorContext`, the throw ends the whole
    initialisation.
- `Construction.InPUTConstructor.GatherAvailableConstructorContext`: an
  exception from the local-context lookup is not modelled. The model instead
  continues as `ClassLookup.ClassForLocalContext` does: it takes the local
  parameter's class, or records "no class" when there is none.
- `reduceByContext` removes from a `LinkedList` that is local to
  `retrieveContextConstructors`. It is modelled as a sequence value, with
  the same two loops. No one else can see the list, so aliasing is not an
  issue.
- A failed initialisation leaves partial state behind in the code. It keeps
  the resolved references and a null constructor, and a later call retries.
  The model keeps this behaviour (`InitClassType`).
- `java.util.Comparator` requires sgn(compare(x, y)) == -sgn(compare(y, x)).
  `compare` breaks this (`CompareIsNotAntisymmetric`), and the model follows
  the code.
- `Construction.Instantiate`: with no constructor chosen, `newInstance` calls
  a method on null, and the resulting `NullPointerException` escapes every
  catch clause. The model reports this as the error `NullConstructor`
  instead of an unchecked exception.
- `getFormalParamIds` is not modelled separately. The ids are the constant
  field `formalParamIds`.
- `Exportable.java` is not part of this model. It is an interface without
  logic.
- Concurrency is not modelled. The `init` flag is not thread-safe in the
  source either.
