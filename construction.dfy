/**
 * The constructor of a parameter's component class, as the code mapping
 * describes it: the formal-argument ids, which of them are global or local
 * references, and the public constructor chosen for them. Everything is
 * worked out lazily, on the first question asked.
 */
module Construction {
  import opened Wrappers
  import opened JavaStrings
  import opened ConstructorSelection
  import opened ClassLookup

  /** How a reflective constructor call with some actual arguments ends. */
  datatype Invocation =
    | Created(instance: nat)
    | InstantiationException
    | IllegalAccessException
    | IllegalArgumentException
    | InvocationTargetException

  /**
   * The formal-argument ids: the mapping's constructor string split at single
   * spaces; without one, a choice takes its parent's ids and anything else
   * takes none.
   */
  function InitParams(constrString: Option<string>, isChoice: bool, parentFormalIds: seq<string>): (ids: seq<string>)
    ensures constrString.Some? ==> ids == Split(constrString.value)
    ensures constrString.Some? ==> forall k :: 0 <= k < |ids| ==> ' ' !in ids[k]
    ensures constrString.None? ==> ids == (if isChoice then parentFormalIds else [])
  {
    if constrString.Some? then Split(constrString.value)
    else if isChoice then parentFormalIds
    else []
  }

  /** A constructor string listing the ids with single spaces between them yields exactly those ids. */
  lemma InitParamsRoundTrip(ids: seq<string>, isChoice: bool, parentFormalIds: seq<string>)
    requires |ids| >= 1
    requires forall k :: 0 <= k < |ids| ==> ids[k] != "" && ' ' !in ids[k]
    ensures InitParams(Some(Join(ids)), isChoice, parentFormalIds) == ids
  {
    SplitJoin(ids);
  }

  /** The class name of an actual argument, "null" for a null argument. */
  function NameOrNull(c: Option<ClassName>): string {
    if c.Some? then c.value else "null"
  }

  /** The argument classes as the error message lists them: each preceded by one space. */
  function ArgumentsText(actualParams: seq<Option<ClassName>>): string {
    if actualParams == [] then ""
    else
      var n := |actualParams| - 1;
      ArgumentsText(actualParams[..n]) + " " + NameOrNull(actualParams[n])
  }

  /** A class name as Java prints it: not empty, no spaces. */
  predicate PlainName(c: Option<ClassName>) {
    c.Some? ==> c.value != "" && ' ' !in c.value
  }

  /** Cutting the argument list of the message at its spaces recovers every argument's class, in order. */
  lemma {:induction false} ArgumentsTextSplits(actualParams: seq<Option<ClassName>>)
    requires forall k :: 0 <= k < |actualParams| ==> PlainName(actualParams[k])
    ensures SplitAll(ArgumentsText(actualParams)) ==
      [""] + seq(|actualParams|, k requires 0 <= k < |actualParams| => NameOrNull(actualParams[k]))
    decreases |actualParams|
  {
    if actualParams != [] {
      var n := |actualParams| - 1;
      ArgumentsTextSplits(actualParams[..n]);
      SplitAllThenWord(ArgumentsText(actualParams[..n]), NameOrNull(actualParams[n]));
    }
  }

  /** What a reflective call of the chosen constructor yields, or the error it is reported as. */
  function Instantiate(declaringClass: Option<ClassName>, chosen: Option<Signature>,
                       actualParams: seq<Option<ClassName>>, invocation: Invocation): (r: Result<nat, Error>)
    ensures chosen.None? ==> r == Failure(NullConstructor)
    ensures r.Success? <==> chosen.Some? && invocation.Created?
    ensures r.Success? ==> r.value == invocation.instance
    ensures chosen.Some? && invocation.IllegalArgumentException? ==>
      r == Failure(ArgumentMismatch(declaringClass, ArgumentsText(actualParams)))
    ensures chosen.Some? && invocation.InstantiationException? ==> r == Failure(NotInstantiable)
    ensures chosen.Some? && invocation.IllegalAccessException? ==> r == Failure(NotVisible)
    ensures chosen.Some? && invocation.InvocationTargetException? ==> r == Failure(ConstructorFailed)
  {
    if chosen.None? then Failure(NullConstructor)
    else
      match invocation
      case Created(instance) => Success(instance)
      case InstantiationException => Failure(NotInstantiable)
      case IllegalAccessException => Failure(NotVisible)
      case IllegalArgumentException => Failure(ArgumentMismatch(declaringClass, ArgumentsText(actualParams)))
      case InvocationTargetException => Failure(ConstructorFailed)
  }

  /** The completion of a class-type initialisation that decided `r`. */
  function OutcomeOf(r: Result<Option<Signature>, Error>): Outcome<Error> {
    if r.Success? then Pass else Fail(r.error)
  }

  class InPUTConstructor {
    /** The ids the code mapping lists as constructor arguments, in order. */
    const formalParamIds: seq<string>
    /** What the parameter store, the owning parameter and the class path answer. */
    const env: Env
    /** The component class the code mapping names, if any. */
    const componentId: Option<ClassName>
    /** Enumeration parameters are never constructed. */
    const isEnum: bool

    var localReferences: set<string>
    var globalReferences: set<string>
    /** The chosen public constructor; none until chosen, and none for a class without one. */
    var ctor: Option<Signature>
    var init: bool

    /** Both reference sets hold what the context analysis finds. */
    ghost predicate ReferencesResolved()
      reads this
    {
      globalReferences == GlobalIds(env, formalParamIds) && localReferences == LocalIds(env, formalParamIds)
    }

    ghost predicate Valid()
      reads this
    {
      && (ReferencesResolved() || (globalReferences == {} && localReferences == {}))
      && (init && !isEnum ==> ReferencesResolved())
      && (isEnum ==> ctor.None? && globalReferences == {} && localReferences == {})
      && (ctor.Some? ==>
            componentId.Some? && componentId.value in env.classes && ctor.value in env.classes[componentId.value])
    }

    /** The component class is known and loadable. */
    predicate Loadable() {
      componentId.Some? && componentId.value in env.classes
    }

    /** The constructor chosen without resolving the ids' classes, once the references are resolved. */
    ghost function Guessed(): Option<Signature>
      requires Loadable()
    {
      Guess(env.classes[componentId.value], ContextOf(env, formalParamIds, LocalIds(env, formalParamIds)))
    }

    /** The complete decision of the class-type initialisation. */
    ghost function Resolved(): Result<Option<Signature>, Error> {
      Resolve(env, componentId, formalParamIds)
    }

    constructor (constrString: Option<string>, isChoice: bool, parentFormalIds: seq<string>,
                 env: Env, componentId: Option<ClassName>, isEnum: bool)
      ensures Valid()
      ensures formalParamIds == InitParams(constrString, isChoice, parentFormalIds)
      ensures this.env == env && this.componentId == componentId && this.isEnum == isEnum
      ensures localReferences == {} && globalReferences == {} && ctor.None? && !init
    {
      this.env := env;
      this.componentId := componentId;
      this.isEnum := isEnum;
      formalParamIds := InitParams(constrString, isChoice, parentFormalIds);
      localReferences := {};
      globalReferences := {};
      ctor := None;
      init := false;
    }

    /**
     * Records which ids are global parameters and which of the others name a
     * local parameter.
     */
    method InitContext()
      requires Valid() && !isEnum
      modifies this`globalReferences, this`localReferences
      ensures Valid() && ReferencesResolved()
      ensures globalReferences !! localReferences
    {
      for i := 0 to |formalParamIds|
        invariant globalReferences == old(globalReferences) + GlobalIds(env, formalParamIds[..i])
        invariant localReferences == old(localReferences)
      {
        var paramId := formalParamIds[i];
        assert formalParamIds[..i + 1] == formalParamIds[..i] + [paramId];
        if paramId in env.globalParams {
          globalReferences := globalReferences + {paramId};
        }
      }
      assert formalParamIds[..|formalParamIds|] == formalParamIds;
      assert globalReferences == GlobalIds(env, formalParamIds);
      for i := 0 to |formalParamIds|
        invariant globalReferences == GlobalIds(env, formalParamIds)
        invariant localReferences == old(localReferences) + LocalIds(env, formalParamIds[..i])
      {
        var paramId := formalParamIds[i];
        assert formalParamIds[..i + 1] == formalParamIds[..i] + [paramId];
        if paramId !in globalReferences && paramId in env.localParams {
          localReferences := localReferences + {paramId};
        }
      }
    }

    /** The class the local context knows for each argument position; unknown unless the id is a local reference. */
    method GatherAvailableConstructorContext() returns (context: array<Option<ClassName>>)
      ensures context[..] == ContextOf(env, formalParamIds, localReferences)
    {
      context := new Option<ClassName>[|formalParamIds|];
      for i := 0 to context.Length
        invariant forall k :: 0 <= k < i ==> context[k] == ContextOf(env, formalParamIds, localReferences)[k]
      {
        var cLass := None;
        var identifier := formalParamIds[i];
        if identifier in localReferences {
          cLass := ClassForLocalContext(env, identifier);
        }
        context[i] := cLass;
      }
    }

    /** Whether the context knows the class of any argument. */
    method NonEmptyContext(context: array<Option<ClassName>>) returns (nonEmpty: bool)
      ensures nonEmpty == KnowsAnyClass(context[..])
    {
      for i := 0 to context.Length
        invariant forall k :: 0 <= k < i ==> context[k].None?
      {
        if context[i].Some? {
          return true;
        }
      }
      return false;
    }

    /** The constructors taking as many arguments as there are formal-argument ids. */
    method GetConstructorsByNumber(constructors: seq<Signature>) returns (result: seq<Signature>)
      ensures result == ByArity(constructors, |formalParamIds|)
    {
      result := [];
      var number := |formalParamIds|;
      for i := 0 to |constructors|
        invariant result == ByArity(constructors[..i], number)
      {
        assert constructors[..i + 1][..i] == constructors[..i];
        if |constructors[i]| == number {
          result := result + [constructors[i]];
        }
      }
      assert constructors[..|constructors|] == constructors;
    }

    /**
     * Removes the candidates whose `i`-th parameter is not of class `context`:
     * first collects their positions, then removes them from the last one back.
     */
    method ReduceByContext(candidates: seq<Signature>, i: nat, context: ClassName) returns (survivors: seq<Signature>)
      requires forall s :: s in candidates ==> i < |s|
      ensures survivors == Keep(candidates, i, context)
    {
      var toRemove: seq<nat> := [];
      for j := 0 to |candidates|
        invariant toRemove == Mismatches(candidates[..j], i, context)
      {
        assert candidates[..j + 1][..j] == candidates[..j];
        if candidates[j][i] != context {
          toRemove := toRemove + [j];
        }
      }
      assert candidates[..|candidates|] == candidates;
      assert toRemove[..|toRemove|] == toRemove;
      survivors := candidates;
      var j := |toRemove| - 1;
      while j >= 0
        invariant -1 <= j < |toRemove|
        invariant forall k :: 0 <= k <= j ==> toRemove[k] < |survivors|
        invariant Ascending(toRemove[..j + 1])
        invariant RemoveAll(survivors, toRemove[..j + 1]) == RemoveAll(candidates, toRemove)
      {
        var index := toRemove[j];
        RemoveLastIndex(survivors, toRemove, j);
        survivors := RemoveAt(survivors, index);
        j := j - 1;
      }
      RemoveMismatchesKeeps(candidates, i, context);
    }

    /**
     * Filters the constructors position by position with the classes the
     * context knows, stopping as soon as one constructor is left.
     */
    method RetrieveContextConstructors(context: array<Option<ClassName>>, constructors: seq<Signature>)
      returns (contextConstructors: seq<Signature>)
      requires forall s :: s in constructors ==> context.Length <= |s|
      ensures contextConstructors == Retrieve(context[..], constructors, 0)
    {
      ghost var known := context[..];
      contextConstructors := constructors;
      for i := 0 to context.Length
        invariant forall s :: s in contextConstructors ==> |known| <= |s|
        invariant Retrieve(known, contextConstructors, i) == Retrieve(known, constructors, 0)
      {
        assert context[i] == known[i];
        RetrieveStep(known, contextConstructors, i);
        if context[i].None? {
          continue;
        }
        if |contextConstructors| == 1 {
          break;
        }
        contextConstructors := ReduceByContext(contextConstructors, i, context[i].value);
      }
    }

    /** The constructor the local context singles out among candidates of the right arity. */
    method GetSingleConstructorByIoC(constructors: seq<Signature>) returns (chosen: Option<Signature>)
      requires forall s :: s in constructors ==> |s| == |formalParamIds|
      ensures chosen == ByContext(ContextOf(env, formalParamIds, localReferences), constructors)
    {
      var context := GatherAvailableConstructorContext();
      chosen := None;
      var contextConstructors: Option<seq<Signature>> := None;
      var nonEmpty := NonEmptyContext(context);
      if nonEmpty {
        var retrieved := RetrieveContextConstructors(context, constructors);
        contextConstructors := Some(retrieved);
      }
      if contextConstructors.Some? && |contextConstructors.value| == 1 {
        chosen := Some(contextConstructors.value[0]);
      }
    }

    /** The only constructor of the right arity, or else the one the context singles out. */
    method GetSingleConstructorByContext(constructors: seq<Signature>) returns (chosen: Option<Signature>)
      ensures chosen == SingleByContext(constructors, ContextOf(env, formalParamIds, localReferences))
    {
      var numberConstructors := GetConstructorsByNumber(constructors);
      if |numberConstructors| == 1 {
        chosen := Some(numberConstructors[0]);
      } else {
        chosen := GetSingleConstructorByIoC(numberConstructors);
      }
    }

    /**
     * Guesses the constructor from the component class's public constructors;
     * a successful guess marks the constructor as initialised and yields its
     * parameter classes.
     */
    method ConstructorGuessing() returns (formalParams: Result<Option<Signature>, Error>)
      requires Valid() && !isEnum && ReferencesResolved()
      modifies this`ctor, this`init
      ensures Valid() && ReferencesResolved()
      ensures !Loadable() ==> formalParams == Failure(ClassNotFound(componentId)) && ctor == old(ctor) && init == old(init)
      ensures Loadable() ==> formalParams == Success(Guessed()) && ctor == Guessed() && init == (old(init) || ctor.Some?)
    {
      if !Loadable() {
        return Failure(ClassNotFound(componentId));
      }
      var constructors := env.classes[componentId.value];
      if |constructors| == 1 {
        ctor := Some(constructors[0]);
      } else {
        ctor := GetSingleConstructorByContext(constructors);
      }
      formalParams := Success(None);
      if ctor.Some? {
        init := true;
        formalParams := Success(ctor);
      }
    }

    /** The classes of the formal-argument ids, none when there are no ids. */
    method ExtractParameterClasses() returns (classes: Result<seq<ClassName>, Error>)
      ensures classes == ResolveAll(env, formalParamIds)
    {
      if |formalParamIds| == 0 {
        classes := Success([]);
      } else {
        classes := InitParameterClasses();
      }
    }

    /** Resolves the ids one by one, failing at the first one that does not resolve. */
    method InitParameterClasses() returns (classes: Result<seq<ClassName>, Error>)
      ensures classes == ResolveAll(env, formalParamIds)
    {
      var cLasses := new ClassName[|formalParamIds|];
      for i := 0 to cLasses.Length
        invariant forall k :: 0 <= k < i ==>
          InitClass(env, formalParamIds[k]).Success? && cLasses[k] == InitClass(env, formalParamIds[k]).value
      {
        var cLass := InitClass(env, formalParamIds[i]);
        if cLass.Failure? {
          assert FirstUnresolved(env, formalParamIds, i);
          return Failure(cLass.error);
        }
        cLasses[i] := cLass.value;
      }
      assert cLasses[..] == ResolveAll(env, formalParamIds).value;
      return Success(cLasses[..]);
    }

    /**
     * The parameter classes of the constructor to use: those of the guessed
     * constructor, or else the resolved classes of the ids.
     */
    method InitConstructorFormalParamClasses() returns (formalParams: Result<Signature, Error>)
      requires Valid() && !isEnum
      modifies this`globalReferences, this`localReferences, this`ctor, this`init
      ensures Valid() && ReferencesResolved()
      ensures !Loadable() ==> formalParams == Failure(ClassNotFound(componentId)) && ctor == old(ctor) && init == old(init)
      ensures Loadable() ==>
        && ctor == Guessed()
        && init == (old(init) || ctor.Some?)
        && formalParams == (if ctor.Some? then Success(ctor.value) else ResolveAll(env, formalParamIds))
    {
      InitContext();
      var guessed := ConstructorGuessing();
      if guessed.Failure? {
        return Failure(guessed.error);
      }
      if guessed.value.Some? {
        formalParams := Success(guessed.value.value);
      } else {
        formalParams := ExtractParameterClasses();
      }
    }

    /**
     * Loads the component class and fixes the constructor: none if the class
     * has no public constructor, else the public constructor with the
     * parameter classes found.
     */
    method InitClassType() returns (outcome: Outcome<Error>)
      requires Valid() && !isEnum
      modifies this`globalReferences, this`localReferences, this`ctor, this`init
      ensures Valid()
      ensures outcome == OutcomeOf(Resolved())
      ensures outcome.Pass? ==> ctor == Resolved().value && ReferencesResolved()
      ensures !Loadable() ==>
        ctor == old(ctor) && init == old(init) &&
        globalReferences == old(globalReferences) && localReferences == old(localReferences)
      ensures Loadable() && outcome.Fail? ==> ctor.None? && init == old(init) && ReferencesResolved()
      ensures Loadable() && outcome.Pass? ==> init == (old(init) || Guessed().Some?)
      ensures old(init) ==> init
    {
      if componentId.None? {
        return Fail(MissingMapping);
      }
      var className := componentId.value;
      if className !in env.classes {
        return Fail(ClassNotFound(componentId));
      }
      var params := InitConstructorFormalParamClasses();
      if params.Failure? {
        return Fail(params.error);
      }
      var constructors := env.classes[className];
      if |constructors| == 0 {
        ctor := None;
      } else if params.value in constructors {
        ctor := Some(params.value);
      } else {
        return Fail(NoSuchConstructor);
      }
      outcome := Pass;
    }

    /** Initialises the class type unless the parameter is an enumeration, then marks the constructor initialised. */
    method Init() returns (outcome: Outcome<Error>)
      requires Valid()
      modifies this`globalReferences, this`localReferences, this`ctor, this`init
      ensures Valid()
      ensures isEnum ==>
        outcome == Pass && init && ctor == old(ctor) &&
        globalReferences == old(globalReferences) && localReferences == old(localReferences)
      ensures !isEnum ==> outcome == OutcomeOf(Resolved())
      ensures outcome.Pass? ==> init && (!isEnum ==> ctor == Resolved().value)
      ensures outcome.Fail? ==> init == old(init)
      ensures !isEnum && outcome.Fail? && !Loadable() ==>
        ctor == old(ctor) && globalReferences == old(globalReferences) && localReferences == old(localReferences)
      ensures !isEnum && outcome.Fail? && Loadable() ==> ctor.None? && ReferencesResolved()
    {
      if !isEnum {
        outcome := InitClassType();
        if outcome.Fail? {
          return;
        }
      } else {
        outcome := Pass;
      }
      init := true;
    }

    /** Whether `paramId` is a global parameter passed to the constructor; initialises first if needed. */
    method IsGlobalIdUsedInConstructor(paramId: string) returns (used: Result<bool, Error>)
      requires Valid()
      modifies this`globalReferences, this`localReferences, this`ctor, this`init
      ensures Valid()
      ensures !old(init) && !isEnum && Resolved().Success? ==> ctor == Resolved().value
      ensures !old(init) && !isEnum && Resolved().Failure? && !Loadable() ==>
        ctor == old(ctor) && globalReferences == old(globalReferences) && localReferences == old(localReferences)
      ensures !old(init) && !isEnum && Resolved().Failure? && Loadable() ==> ctor.None? && ReferencesResolved()
      ensures old(init) ==> used.Success? && unchanged(this)
      ensures !old(init) ==> (used.Success? <==> isEnum || Resolved().Success?)
      ensures used.Failure? ==> !isEnum && used.error == Resolved().error && !init
      ensures used.Success? ==> init && used.value == (!isEnum && paramId in formalParamIds && paramId in env.globalParams)
    {
      if !init {
        var outcome := Init();
        if outcome.Fail? {
          return Failure(outcome.error);
        }
      }
      used := Success(paramId in globalReferences);
    }

    /** Whether `localId` is a local parameter passed to the constructor; initialises first if needed. */
    method IsLocalInitByConstructor(localId: string) returns (used: Result<bool, Error>)
      requires Valid()
      modifies this`globalReferences, this`localReferences, this`ctor, this`init
      ensures Valid()
      ensures !old(init) && !isEnum && Resolved().Success? ==> ctor == Resolved().value
      ensures !old(init) && !isEnum && Resolved().Failure? && !Loadable() ==>
        ctor == old(ctor) && globalReferences == old(globalReferences) && localReferences == old(localReferences)
      ensures !old(init) && !isEnum && Resolved().Failure? && Loadable() ==> ctor.None? && ReferencesResolved()
      ensures old(init) ==> used.Success? && unchanged(this)
      ensures !old(init) ==> (used.Success? <==> isEnum || Resolved().Success?)
      ensures used.Failure? ==> !isEnum && used.error == Resolved().error && !init
      ensures used.Success? ==>
        && init
        && used.value == (!isEnum && localId in formalParamIds && localId !in env.globalParams && localId in env.localParams)
    {
      if !init {
        var outcome := Init();
        if outcome.Fail? {
          return Failure(outcome.error);
        }
      }
      used := Success(localId in localReferences);
    }

    /**
     * Calls the chosen constructor with the actual arguments, whose runtime
     * classes are given; `invocation` is how the reflective call ends.
     */
    method NewInstance(actualParams: seq<Option<ClassName>>, invocation: Invocation) returns (instance: Result<nat, Error>)
      requires Valid()
      modifies this`globalReferences, this`localReferences, this`ctor, this`init
      ensures Valid()
      ensures !old(init) && !isEnum && Resolved().Success? ==> ctor == Resolved().value
      ensures !old(init) && !isEnum && Resolved().Failure? && !Loadable() ==>
        ctor == old(ctor) && globalReferences == old(globalReferences) && localReferences == old(localReferences)
      ensures !old(init) && !isEnum && Resolved().Failure? && Loadable() ==> ctor.None? && ReferencesResolved()
      ensures !old(init) && !isEnum && Resolved().Failure? ==> instance == Failure(Resolved().error) && !init
      ensures !old(init) && (isEnum || Resolved().Success?) ==> init
      ensures old(init) ==> unchanged(this)
      ensures init ==> instance == Instantiate(componentId, ctor, actualParams, invocation)
      ensures instance.Success? ==> ctor.Some? && ctor.value in env.classes[componentId.value]
    {
      if !init {
        var outcome := Init();
        if outcome.Fail? {
          return Failure(outcome.error);
        }
      }
      if ctor.None? {
        return Failure(NullConstructor);
      }
      match invocation {
        case Created(value) =>
          instance := Success(value);
        case InstantiationException =>
          instance := Failure(NotInstantiable);
        case IllegalAccessException =>
          instance := Failure(NotVisible);
        case IllegalArgumentException =>
          var argumentTypes := GetClassesForArguments(actualParams);
          instance := Failure(ArgumentMismatch(componentId, argumentTypes));
        case InvocationTargetException =>
          instance := Failure(ConstructorFailed);
      }
    }

    /** The argument classes for an error message, each preceded by a space. */
    method GetClassesForArguments(actualParams: seq<Option<ClassName>>) returns (text: string)
      ensures text == ArgumentsText(actualParams)
    {
      text := "";
      for i := 0 to |actualParams|
        invariant text == ArgumentsText(actualParams[..i])
      {
        assert actualParams[..i + 1][..i] == actualParams[..i];
        text := text + " ";
        if actualParams[i].Some? {
          text := text + actualParams[i].value;
        } else {
          text := text + "null";
        }
      }
      assert actualParams[..|actualParams|] == actualParams;
    }
  }

  /** A class with a single public constructor gets it, whatever its argument ids resolve to. */
  method PointScenario() returns (instance: Result<nat, Error>)
    ensures instance == Success(7)
  {
    var env := Env(map["Point" := [["int", "int"]]], map[], map[], {}, map[], map[]);
    var c := new InPUTConstructor(Some("x y"), false, [], env, Some("Point"), false);
    instance := c.NewInstance([Some("java.lang.Integer"), Some("java.lang.Integer")], Created(7));
  }

  /** The registry of the String/int example: `sizeParam` is a global parameter of class int. */
  function WidgetEnv(): Env {
    Env(map["Widget" := [["java.lang.String"], ["int"]]], map["sizeParam" := Some("int")], map[], {}, map[], map[])
  }

  /**
   * Both constructors take one argument and the context knows nothing (the
   * only id is global, not local), so no guess is made; resolving
   * `sizeParam` to int then selects the int constructor.
   */
  lemma WidgetResolution()
    ensures Resolve(WidgetEnv(), Some("Widget"), ["sizeParam"]) == Success(Some(["int"]))
  {
    var env, ids := WidgetEnv(), ["sizeParam"];
    var constructors := env.classes["Widget"];
    assert LocalIds(env, ids) == {};
    var context := ContextOf(env, ids, {});
    assert context == [None];
    assert !KnowsAnyClass(context);
    assert constructors[..1] == [["java.lang.String"]] && constructors[..1][..0] == [];
    assert ByArity(constructors, 1) == constructors;
    assert Guess(constructors, context) == None;
    assert InitClass(env, "sizeParam") == Success("int");
    var classes := ResolveAll(env, ids);
    assert classes.Success? && |classes.value| == 1 && classes.value[0] == "int";
    assert classes.value == ["int"];
  }

  /**
   * A class with a String and an int constructor, mapped to the global
   * parameter `sizeParam` of class int: the int constructor is chosen and
   * `sizeParam` is a global reference.
   */
  method SizeParamScenario() returns (usedGlobally: Result<bool, Error>, chosen: Option<Signature>)
    ensures usedGlobally == Success(true)
    ensures chosen == Some(["int"])
  {
    assert ' ' !in "sizeParam";
    var c := new InPUTConstructor(Some("sizeParam"), false, [], WidgetEnv(), Some("Widget"), false);
    assert c.formalParamIds == ["sizeParam"];
    WidgetResolution();
    usedGlobally := c.IsGlobalIdUsedInConstructor("sizeParam");
    chosen := c.ctor;
  }

  /** A mapping to a class that is not on the class path fails with that class's name. */
  method MissingClassScenario() returns (used: Result<bool, Error>)
    ensures used == Failure(ClassNotFound(Some("no.such.Class")))
  {
    var env := Env(map[], map[], map[], {}, map[], map[]);
    var c := new InPUTConstructor(None, false, [], env, Some("no.such.Class"), false);
    used := c.IsLocalInitByConstructor("x");
  }

  /** An enumeration parameter is never given a constructor, so instantiating it fails. */
  method EnumScenario() returns (instance: Result<nat, Error>)
    ensures instance == Failure(NullConstructor)
  {
    var env := Env(map["Color" := [[]]], map[], map[], {}, map[], map[]);
    var c := new InPUTConstructor(None, false, [], env, Some("Color"), true);
    instance := c.NewInstance([], Created(1));
  }
}
